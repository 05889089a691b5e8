/** Where the statements of the payloads are found after the splices (materialize_ir.rs). */
module Payloads {
  import opened Wrappers
  import opened Ast
  import opened Splice
  import opened Templates
  import opened EdgeApplication
  import opened EdgeTargets
  import opened SpliceOutcomes
  import opened Survivors

  /** The address some places further on in the same suite. */
  function Along(at: Address, n: nat): Address
    requires at != []
  {
    at[..|at| - 1] + [Step(at[|at| - 1].slot, at[|at| - 1].index + n)]
  }

  lemma {:induction false} AlongTail(first: Address, at: Address, n: nat)
    requires at != []
    ensures Along(first + at, n) == first + Along(at, n)
  {
    assert (first + at)[..|first + at| - 1] == first + at[..|at| - 1];
  }

  /** No splice removes the suite of the statement, whatever becomes of the statement itself. */
  predicate SuiteSurvives(s: Stmt, at: Address, t: Targets)
    requires StmtAt(s, at).Some?
    decreases |at|
  {
    |at| > 1 ==>
      var u := Under(t, at[0]);
      && ([] in u ==> u[[]].Clauses? && u[[]].clauses != [] && at[1].slot == InOrelse)
      && SuiteSurvives(Suite(s, at[0].slot).value[at[0].index], at[1..], u)
  }

  lemma {:induction false} TargetBelow(t: Targets, at: Address)
    requires at != []
    ensures at[1..] in Under(t, at[0]) <==> at in t
    ensures at in t ==> Under(t, at[0])[at[1..]] == t[at]
  {
    UnderMember(t, at[0], at[1..]);
    assert [at[0]] + at[1..] == at;
  }

  /** One step down, for an address whose suite survives. */
  lemma {:induction false} SuiteMoved(s: Stmt, at: Address, t: Targets, tail: Address)
    requires |at| > 1 && StmtAt(s, at).Some? && SuiteSurvives(s, at, t)
    requires tail != [] && tail[0].slot == at[1].slot
    ensures var suite := Suite(s, at[0].slot).value;
            var index := |Flatten(Parts(suite, at[0].slot, t)[..at[0].index])|;
            StmtAt(SubstInside(s, t), [Step(at[0].slot, index)] + (Links(Under(t, at[0])) + tail)) ==
            StmtAt(SubstInside(suite[at[0].index], Under(t, at[0])), tail)
  {
    hide SubstInside, Parts, Flatten, Under;
    if [] in Under(t, at[0]) {
      ElifChildMoved(s, at[0], t, tail);
    } else {
      KeptChildMoved(s, at[0], t, tail);
      assert Links(Under(t, at[0])) + tail == tail;
    }
  }

  /** A block that replaces a statement begins where that statement moved, and its statements stand there in order. */
  lemma {:induction false} BlockFound(s: Stmt, at: Address, t: Targets, n: nat)
    requires at != [] && StmtAt(s, at).Some? && SuiteSurvives(s, at, t)
    requires at in t && t[at].Block? && n < |t[at].stmts|
    ensures Moved(s, at, t) != [] && StmtAt(SubstInside(s, t), Along(Moved(s, at, t), n)) == Some(t[at].stmts[n])
    decreases |at|
  {
    var suite, u := Suite(s, at[0].slot).value, Under(t, at[0]);
    TargetBelow(t, at);
    MovedStep(s, at, t);
    if |at| == 1 {
      BlockFoundHere(s, at, t, n);
    } else {
      hide SubstInside, Moved, Links, Parts, Flatten, Under, SuiteSurvives, Along, HasBody, HasOrelse;
      var index := |Flatten(Parts(suite, at[0].slot, t)[..at[0].index])|;
      var rest := Moved(suite[at[0].index], at[1..], u);
      assert SuiteSurvives(suite[at[0].index], at[1..], u) by { SuiteSurvivesBelow(s, at, t); }
      BlockFound(suite[at[0].index], at[1..], u, n);
      MovedSlot(suite[at[0].index], at[1..], u);
      AlongSlot(rest, n);
      SuiteMoved(s, at, t, Along(rest, n));
      AlongTail(Links(u), rest, n);
      AlongTail([Step(at[0].slot, index)], Links(u) + rest, n);
    }
  }

  lemma {:induction false} SuiteSurvivesBelow(s: Stmt, at: Address, t: Targets)
    requires |at| > 1 && StmtAt(s, at).Some? && SuiteSurvives(s, at, t)
    ensures SuiteSurvives(Suite(s, at[0].slot).value[at[0].index], at[1..], Under(t, at[0]))
  {
  }

  lemma {:induction false} AlongSlot(at: Address, n: nat)
    requires at != []
    ensures Along(at, n) != [] && Along(at, n)[0].slot == at[0].slot
  {
  }

  /** A block right in a suite of the statement. */
  lemma {:induction false} MovedHere(s: Stmt, at: Address, t: Targets)
    requires |at| == 1 && StmtAt(s, at).Some? && at in t && t[at].Block?
    ensures var suite := Suite(s, at[0].slot).value;
            && Moved(s, at, t) == [Step(at[0].slot, |Flatten(Parts(suite, at[0].slot, t)[..at[0].index])|)]
            && SubstStmt(suite[at[0].index], Under(t, at[0])) == t[at].stmts
  {
    hide Flatten, Parts, SubstInside;
    TargetBelow(t, at);
    MovedStep(s, at, t);
    assert at[1..] == [];
  }

  lemma {:induction false} AlongOne(step: Step, n: nat)
    ensures Along([step], n) == [Step(step.slot, step.index + n)]
  {
  }

  lemma {:induction false} StmtAtOne(s: Stmt, slot: Slot, i: nat, suite: seq<Stmt>)
    requires Suite(s, slot) == Some(suite) && i < |suite|
    ensures StmtAt(s, [Step(slot, i)]) == Some(suite[i])
  {
    assert [Step(slot, i)][1..] == [];
  }

  lemma {:induction false} BlockFoundHere(s: Stmt, at: Address, t: Targets, n: nat)
    requires |at| == 1 && StmtAt(s, at).Some? && at in t && t[at].Block? && n < |t[at].stmts|
    ensures Moved(s, at, t) != [] && StmtAt(SubstInside(s, t), Along(Moved(s, at, t), n)) == Some(t[at].stmts[n])
  {
    hide SubstInside, Parts, Flatten, Under, SubstStmt, Moved, Along;
    MovedHere(s, at, t);
    assert at == [at[0]];
    var sub, index := SuiteFrom(s, at[0], t);
    AlongOne(Step(at[0].slot, index), n);
    assert sub[index..index + |t[at].stmts|][n] == t[at].stmts[n];
    StmtAtOne(SubstInside(s, t), at[0].slot, index + n, sub);
  }

  /** What stands behind a replaced statement follows the last statement of the block. */
  lemma {:induction false} BehindBlock(s: Stmt, at: Address, t: Targets)
    requires at != [] && at in t && t[at].Block? && StmtAt(s, at).Some? && StmtAt(s, Along(at, 1)).Some?
    ensures var moved, behind := Moved(s, at, t), Moved(s, Along(at, 1), t);
            moved != [] && Along(moved, |t[at].stmts|) <= behind
    decreases |at|
  {
    var next := Along(at, 1);
    var suite, u := Suite(s, at[0].slot).value, Under(t, at[0]);
    TargetBelow(t, at);
    if |at| == 1 {
      BehindBlockHere(s, at, t);
    } else {
      assert at == [at[0]] + at[1..];
      AlongTail([at[0]], at[1..], 1);
      assert next[0] == at[0] && next[1..] == Along(at[1..], 1);
      hide SubstInside, Moved, Links, Parts, Flatten, Under, Along;
      MovedStep(s, at, t);
      MovedStep(s, next, t);
      BehindBlock(suite[at[0].index], at[1..], u);
      var index := |Flatten(Parts(suite, at[0].slot, t)[..at[0].index])|;
      BehindFirst([Step(at[0].slot, index)], Links(u), Moved(suite[at[0].index], at[1..], u),
                  Moved(suite[at[0].index], next[1..], u), |t[at].stmts|);
    }
  }

  lemma {:induction false} BehindFirst(first: Address, links: Address, moved: Address, behind: Address, n: nat)
    requires moved != [] && Along(moved, n) <= behind
    ensures Along(first + (links + moved), n) <= first + (links + behind)
  {
    hide Along;
    AlongTail(links, moved, n);
    AlongTail(first, links + moved, n);
    SamePrefix(links, Along(moved, n), behind);
    SamePrefix(first, links + Along(moved, n), links + behind);
  }

  lemma {:induction false} BehindBlockHere(s: Stmt, at: Address, t: Targets)
    requires |at| == 1 && at in t && t[at].Block? && StmtAt(s, at).Some? && StmtAt(s, Along(at, 1)).Some?
    ensures var moved, behind := Moved(s, at, t), Moved(s, Along(at, 1), t);
            moved != [] && Along(moved, |t[at].stmts|) <= behind
  {
    hide SubstInside, Parts, Flatten, Under, SubstStmt, Moved, Along, Links;
    var slot, i := at[0].slot, at[0].index;
    MovedHere(s, at, t);
    assert at == [at[0]];
    AlongOne(at[0], 1);
    MovedStep(s, Along(at, 1), t);
    var suite := Suite(s, slot).value;
    var parts := Parts(suite, slot, t);
    PartAt(suite, slot, t, i);
    FlattenLast(parts, i);
    AlongOne(Step(slot, |Flatten(parts[..i])|), |t[at].stmts|);
  }

  lemma {:induction false} PartAt(suite: seq<Stmt>, slot: Slot, t: Targets, i: nat)
    requires i < |suite|
    ensures |Parts(suite, slot, t)| == |suite| && Parts(suite, slot, t)[i] == SubstStmt(suite[i], Under(t, Step(slot, i)))
  {
    hide SubstStmt, Under;
  }

  lemma {:induction false} SamePrefix<T>(first: seq<T>, a: seq<T>, b: seq<T>)
    requires a <= b
    ensures first + a <= first + b
  {
    assert b == a + b[|a|..];
    assert first + b == (first + a) + b[|a|..];
  }

  /** A suite grows by what its targets add: a block by its statements less the one it replaces, an expanded marker by nothing. */
  lemma {:induction false} SuiteGrowth(suite: seq<Stmt>, slot: Slot, t: Targets, i: nat)
    requires i < |suite|
    ensures |SubstSuite(suite, slot, t)| == |suite| + Growth(suite, slot, |suite|, t)
    ensures var at := [Step(slot, i)];
            Growth(suite, slot, i + 1, t) - Growth(suite, slot, i, t) ==
            if at !in t then 0
            else if t[at].Block? then |t[at].stmts| - 1
            else if t[at].clauses != [] then 0
            else |SubstSuite(suite[i].orelse, InOrelse, Under(t, Step(slot, i)))| - 1
  {
    var at := [Step(slot, i)];
    GrowthIsShift(suite, slot, |suite|, t);
    assert Parts(suite, slot, t)[..|suite|] == Parts(suite, slot, t);
    TargetBelow(t, at);
    assert at[1..] == [];
  }

  /**
   Statement `j` of the payload of edge `k` is found, from where its target moved, behind the payloads of the edges before
   it to that target.
   */
  lemma {:induction false} PayloadFound(m: Module, records: seq<Record>, edges: seq<EdgeInput>, other: OtherStep, k: nat, j: nat)
    requires Spliceable(m, records, edges) && PayloadsOk(edges)
    requires k < |edges| && edges[k].operation == SpliceBodyAtMarker && EdgeAddress(records, edges[k]).Ok?
    requires j < |edges[k].source.body|
    requires var at := EdgeAddress(records, edges[k]).value;
             StmtAt(m, at).Some? && SuiteSurvives(m, at, TargetsOf(records, edges))
    ensures var t, at := TargetsOf(records, edges), EdgeAddress(records, edges[k]).value;
            && at != [] && Moved(m, at, t) != []
            && StmtAt(SubstInside(m, t), Along(Moved(m, at, t), StatementsBefore(records, edges, at, k) + j)) ==
               Some(edges[k].source.body[j])
            && ((forall e :: e in edges ==> SplicesStatements(e.operation)) ==>
                  ApplyEdges(m, records, edges, other) == Ok(SubstInside(m, t)))
  {
    hide TargetsOf, SubstInside, StmtAt, SuiteSurvives, Moved, Along, ApplyEdges, AddressOf, StatementsBefore;
    var t, at := TargetsOf(records, edges), EdgeAddress(records, edges[k]).value;
    assert edges[k] in edges && ValidEdge(m, records, edges[k]);
    PayloadPlaced(m, records, edges, k);
    BlockFound(m, at, t, StatementsBefore(records, edges, at, k) + j);
    if forall e :: e in edges ==> SplicesStatements(e.operation) {
      StatementEdgesOutcome(m, records, edges, other);
    }
  }
}
