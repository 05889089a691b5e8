/** What the branches of an `elif` marker mean once they are in place (materialize_ir.rs). */
module ElifChain {
  import opened Wrappers
  import opened Ast
  import opened Splice
  import opened Templates
  import opened Navigation
  import opened EdgeApplication

  // ---------- running a suite ----------

  /** `Abrupt` stands for every way of leaving a suite early: an exception, `return`, `break`, `continue`. */
  datatype Outcome<S> = Normal(state: S) | Abrupt(state: S)

  /** Testing an expression may change the state and may leave the suite. */
  datatype Tested<S> = Tested(truth: bool, state: S) | Aborted(state: S)

  /** How tests and all statements other than `if` behave; the results hold whatever this is. */
  datatype Semantics<!S> = Semantics(test: (Expr, S) -> Tested<S>, other: (Stmt, S) -> Outcome<S>)

  function Run<S>(sem: Semantics<S>, suite: seq<Stmt>, st: S): Outcome<S>
    decreases suite
  {
    if suite == [] then Normal(st)
    else match RunStmt(sem, suite[0], st)
      case Abrupt(st') => Abrupt(st')
      case Normal(st') => Run(sem, suite[1..], st')
  }

  function RunStmt<S>(sem: Semantics<S>, s: Stmt, st: S): Outcome<S>
    decreases s
  {
    if !s.head.If? then sem.other(s, st)
    else match sem.test(s.head.test, st)
      case Aborted(st') => Abrupt(st')
      case Tested(truth, st') => if truth then Run(sem, s.body, st') else Run(sem, s.orelse, st')
  }

  lemma {:induction false} RunOne<S>(sem: Semantics<S>, s: Stmt, st: S)
    ensures Run(sem, [s], st) == RunStmt(sem, s, st)
  {
    assert [s][1..] == [];
  }

  lemma {:induction false} RunAppend<S>(sem: Semantics<S>, a: seq<Stmt>, b: seq<Stmt>, st: S)
    ensures Run(sem, a + b, st) ==
            if Run(sem, a, st).Abrupt? then Run(sem, a, st) else Run(sem, b, Run(sem, a, st).state)
  {
    if a == [] {
      assert a + b == b;
    } else {
      assert (a + b)[1..] == a[1..] + b;
      var first := RunStmt(sem, a[0], st);
      if first.Normal? {
        RunAppend(sem, a[1..], b, first.state);
      }
    }
  }

  // ---------- the meaning of a chain ----------

  /** The state after the first `k` tests, if they are all false. */
  function Tried<S>(sem: Semantics<S>, clauses: seq<Clause>, k: nat, st: S): Option<S>
    requires k <= |clauses|
  {
    if k == 0 then Some(st)
    else match Tried(sem, clauses, k - 1, st)
      case None => None
      case Some(st') =>
        match sem.test(clauses[k - 1].test, st')
        case Tested(false, st'') => Some(st'')
        case _ => None
  }

  lemma {:induction false} ChainSkips<S>(sem: Semantics<S>, clauses: seq<Clause>, orelse: seq<Stmt>, k: nat, st: S)
    requires k <= |clauses| && Tried(sem, clauses, k, st).Some?
    ensures Run(sem, Chain(clauses, orelse), st) == Run(sem, Chain(clauses[k..], orelse), Tried(sem, clauses, k, st).value)
  {
    if k == 0 {
      assert clauses[0..] == clauses;
    } else {
      ChainSkips(sem, clauses, orelse, k - 1, st);
      assert clauses[k - 1..][1..] == clauses[k..];
      RunOne(sem, Chain(clauses[k - 1..], orelse)[0], Tried(sem, clauses, k - 1, st).value);
    }
  }

  /**
   A chain tests its branches in order. When the first `k` are false, branch `k` decides: it runs if its test is
   true, and a test that leaves the suite ends the chain. After the last branch comes the `else` part.
   */
  lemma {:induction false} ChainMeaning<S>(sem: Semantics<S>, clauses: seq<Clause>, orelse: seq<Stmt>, k: nat, st: S)
    requires k <= |clauses| && Tried(sem, clauses, k, st).Some?
    ensures var st' := Tried(sem, clauses, k, st).value;
            var r := Run(sem, Chain(clauses, orelse), st);
            if k == |clauses| then r == Run(sem, orelse, st')
            else
              var tested := sem.test(clauses[k].test, st');
              if tested.Aborted? then r == Abrupt(tested.state)
              else tested.truth ==> r == Run(sem, clauses[k].body, tested.state)
  {
    ChainSkips(sem, clauses, orelse, k, st);
    if k == |clauses| {
      assert clauses[k..] == [];
    } else {
      RunOne(sem, Chain(clauses[k..], orelse)[0], Tried(sem, clauses, k, st).value);
    }
  }

  /** Some branch decides, or the `else` part does. */
  lemma {:induction false} ChainDecided<S>(sem: Semantics<S>, clauses: seq<Clause>, st: S) returns (k: nat)
    ensures k <= |clauses| && Tried(sem, clauses, k, st).Some?
    ensures k < |clauses| ==>
              var tested := sem.test(clauses[k].test, Tried(sem, clauses, k, st).value);
              tested.Aborted? || tested.truth
  {
    k := 0;
    while k < |clauses|
      invariant k <= |clauses| && Tried(sem, clauses, k, st).Some?
    {
      var tested := sem.test(clauses[k].test, Tried(sem, clauses, k, st).value);
      if tested.Aborted? || tested.truth {
        return;
      }
      k := k + 1;
    }
  }

  // ---------- expanding a marker ----------

  /** The branches of a chain are the payloads of the edges, in the order of the edges. */
  lemma {:induction false} ClausesInEdgeOrder(edges: seq<EdgeInput>, k: nat)
    requires ClausesOf(edges).Ok? && k < |edges|
    ensures |ClausesOf(edges).value| == |edges| && ClauseOf(edges[k]) == Ok(ClausesOf(edges).value[k])
  {
    hide ClauseOf;
    var rest := ClausesOf(edges[1..]).value;
    if k == 0 && |edges| == 1 {
      assert edges[1..] == [];
    } else {
      ClausesInEdgeOrder(edges[1..], if k == 0 then 0 else k - 1);
    }
  }

  /** Among the records, the only one on a surface. */
  predicate OnlyOn(records: seq<Record>, surfaceKey: string, i: nat) {
    && i < |records| && records[i].surfaceKey == surfaceKey
    && forall j :: 0 <= j < |records| && j != i ==> records[j].surfaceKey != surfaceKey
  }

  /** A locator is found exactly where one record, and no second one, is on the surface. */
  lemma {:induction false} LocatorIsUnique(records: seq<Record>, surfaceKey: string)
    ensures UniqueLocator(records, surfaceKey).Ok? <==> exists i: nat :: OnlyOn(records, surfaceKey, i)
    ensures forall i: nat :: OnlyOn(records, surfaceKey, i) ==> UniqueLocator(records, surfaceKey) == Ok(records[i].astPath)
  {
    if records != [] && records[0].surfaceKey == surfaceKey {
      FirstIsUnique(records, surfaceKey);
    } else if records != [] {
      var rest := records[1..];
      LocatorIsUnique(rest, surfaceKey);
      forall i: nat ensures OnlyOn(rest, surfaceKey, i) <==> OnlyOn(records, surfaceKey, i + 1) {
        OnlyOnLater(records, surfaceKey, i);
      }
      hide OnlyOn;
      if i: nat :| OnlyOn(rest, surfaceKey, i) {
        assert OnlyOn(records, surfaceKey, i + 1);
      }
      forall i: nat | OnlyOn(records, surfaceKey, i)
        ensures i > 0 && UniqueLocator(rest, surfaceKey) == Ok(records[i].astPath) && OnlyOn(rest, surfaceKey, i - 1)
      {
        assert i > 0 by { NotFirst(records, surfaceKey, i); }
        assert OnlyOn(rest, surfaceKey, i - 1) && records[i] == rest[i - 1];
      }
    }
  }

  lemma {:induction false} NotFirst(records: seq<Record>, surfaceKey: string, i: nat)
    requires OnlyOn(records, surfaceKey, i) && records[0].surfaceKey != surfaceKey
    ensures 0 < i < |records|
  {
  }

  lemma {:induction false} OnlyOnLater(records: seq<Record>, surfaceKey: string, i: nat)
    requires records != [] && records[0].surfaceKey != surfaceKey
    ensures OnlyOn(records[1..], surfaceKey, i) <==> OnlyOn(records, surfaceKey, i + 1)
  {
    var rest := records[1..];
    assert forall j :: 0 <= j < |rest| ==> rest[j] == records[j + 1];
    assert forall j :: 1 <= j < |records| ==> records[j] == rest[j - 1];
  }

  lemma {:induction false} FirstIsUnique(records: seq<Record>, surfaceKey: string)
    requires records != [] && records[0].surfaceKey == surfaceKey
    ensures UniqueLocator(records, surfaceKey).Ok? <==> OnlyOn(records, surfaceKey, 0)
    ensures UniqueLocator(records, surfaceKey).Ok? ==> UniqueLocator(records, surfaceKey) == Ok(records[0].astPath)
    ensures forall i: nat :: OnlyOn(records, surfaceKey, i) ==> i == 0
  {
    forall j | 1 <= j < |records| ensures records[j] in records[1..] {
      assert records[j] == records[1..][j - 1];
    }
  }

  /** In the body of a payload function, statement `i` is an `if` without `else`, and all others are markers. */
  predicate OnlyBranch(payload: Stmt, i: nat) {
    && payload.head.FunctionDef? && !payload.head.isAsync && payload.head.name == "astichi_elif"
    && i < |payload.body| && !IsMarkerOnly(payload.body[i]) && payload.body[i].head.If? && payload.body[i].orelse == []
    && forall j :: 0 <= j < |payload.body| && j != i ==> IsMarkerOnly(payload.body[j])
  }

  lemma {:induction false} OneIsLeft(body: seq<Stmt>) returns (i: nat)
    requires |WithoutMarkers(body)| == 1
    ensures i < |body| && body[i] == WithoutMarkers(body)[0] && !IsMarkerOnly(body[i])
    ensures forall j :: 0 <= j < |body| && j != i ==> IsMarkerOnly(body[j])
  {
    hide IsMarkerOnly;
    if IsMarkerOnly(body[0]) {
      var k := OneIsLeft(body[1..]);
      i := k + 1;
      assert forall j :: 1 <= j < |body| ==> body[j] == body[1..][j - 1];
    } else {
      i := 0;
      NothingIsLeft(body[1..]);
      assert forall j :: 1 <= j < |body| ==> body[j] == body[1..][j - 1];
    }
  }

  lemma {:induction false} NothingIsLeft(body: seq<Stmt>)
    ensures WithoutMarkers(body) == [] <==> forall j :: 0 <= j < |body| ==> IsMarkerOnly(body[j])
  {
    hide IsMarkerOnly;
    if body != [] {
      NothingIsLeft(body[1..]);
      assert forall j :: 1 <= j < |body| ==> body[j] == body[1..][j - 1];
    }
  }

  lemma {:induction false} LeftIsOne(body: seq<Stmt>, i: nat)
    requires i < |body| && !IsMarkerOnly(body[i]) && forall j :: 0 <= j < |body| && j != i ==> IsMarkerOnly(body[j])
    ensures WithoutMarkers(body) == [body[i]]
  {
    hide IsMarkerOnly;
    if i == 0 {
      NothingIsLeft(body[1..]);
    } else {
      LeftIsOne(body[1..], i - 1);
    }
  }

  /**
   The branch of an edge is read off the function at the only `elif` production of the source: its test and its body
   are those of the one `if` in there that is not a marker.
   */
  lemma {:induction false} ClauseIsBranch(edge: EdgeInput, i: nat, payload: Stmt)
    requires OnlyOn(edge.sourceRecords, "astichi.surface.elif.production", i)
    requires CloneStmtAtPath(edge.source, edge.sourceRecords[i].astPath) == Ok(payload)
    ensures ClauseOf(edge).Ok? <==> exists k: nat :: OnlyBranch(payload, k)
    ensures forall k: nat :: OnlyBranch(payload, k) ==> ClauseOf(edge) == Ok(Clause(payload.body[k].head.test, payload.body[k].body))
  {
    LocatorIsUnique(edge.sourceRecords, "astichi.surface.elif.production");
    hide CloneStmtAtPath, UniqueLocator, OnlyOn, WithoutMarkers, IsMarkerOnly;
    if ClauseOf(edge).Ok? {
      var k := OneIsLeft(payload.body);
      assert OnlyBranch(payload, k);
    }
    hide OnlyBranch;
    forall k: nat | OnlyBranch(payload, k)
      ensures ClauseOf(edge) == Ok(Clause(payload.body[k].head.test, payload.body[k].body))
    {
      BranchIsClause(edge, i, payload, k);
    }
  }

  lemma {:induction false} BranchIsClause(edge: EdgeInput, i: nat, payload: Stmt, k: nat)
    requires UniqueLocator(edge.sourceRecords, "astichi.surface.elif.production").Ok?
    requires CloneStmtAtPath(edge.source, UniqueLocator(edge.sourceRecords, "astichi.surface.elif.production").value) == Ok(payload)
    requires OnlyBranch(payload, k)
    ensures ClauseOf(edge) == Ok(Clause(payload.body[k].head.test, payload.body[k].body))
  {
    hide CloneStmtAtPath, UniqueLocator, WithoutMarkers, IsMarkerOnly;
    LeftIsOne(payload.body, k);
  }

  /** The marker's own test is false and does nothing. */
  ghost predicate NeverTaken<S>(sem: Semantics<S>, test: Expr, st: S) {
    sem.test(test, st) == Tested(false, st)
  }

  /**
   An expanded marker runs its first true branch. When no branch is true it does what the marker's own `else` part
   does, with every splice below that part made; if the tests changed nothing, that is what the marker did before.
   */
  lemma {:induction false} ExpandedMarkerMeaning<S>(sem: Semantics<S>, marker: Stmt, u: Targets, st: S) returns (k: nat)
    requires marker.head.If? && [] in u && u[[]].Clauses?
    ensures var clauses := u[[]].clauses;
            && k <= |clauses| && Tried(sem, clauses, k, st).Some?
            && var st' := Tried(sem, clauses, k, st).value;
               var r := Run(sem, SubstStmt(marker, u), st);
               if k == |clauses| then r == Run(sem, SubstSuite(marker.orelse, InOrelse, u), st')
               else
                 var tested := sem.test(clauses[k].test, st');
                 if tested.Aborted? then r == Abrupt(tested.state)
                 else tested.truth && r == Run(sem, clauses[k].body, tested.state)
    ensures Tried(sem, u[[]].clauses, |u[[]].clauses|, st) == Some(st) && NeverTaken(sem, marker.head.test, st) ==>
              Run(sem, SubstStmt(marker, u), st) == Run(sem, [SubstInside(marker, u)], st)
  {
    var clauses, orelse := u[[]].clauses, SubstSuite(marker.orelse, InOrelse, u);
    assert SubstStmt(marker, u) == Chain(clauses, orelse);
    RunOne(sem, SubstInside(marker, u), st);
    var kept := SubstInside(marker, u);
    assert kept.head == marker.head && kept.orelse == orelse;
    hide SubstStmt, SubstSuite, SubstInside;
    k := ChainDecided(sem, clauses, st);
    ChainMeaning(sem, clauses, orelse, k, st);
    if Tried(sem, clauses, |clauses|, st).Some? {
      ChainMeaning(sem, clauses, orelse, |clauses|, st);
    }
  }
}
