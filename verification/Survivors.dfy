/**
 Where the statements that no splice removes end up. Expression, parameter and call-argument groups run after the
 statement groups and still use the paths of the original module (materialize_ir.rs); this module says when that is right.
 */
module Survivors {
  import opened Wrappers
  import opened Ast
  import opened Splice

  /** How much the splices before index `i` of a suite lengthen it. */
  function Growth(suite: seq<Stmt>, slot: Slot, i: nat, t: Targets): int
    requires i <= |suite|
  {
    if i == 0 then 0
    else Growth(suite, slot, i - 1, t)
         + if [] in Under(t, Step(slot, i - 1)) then |SubstStmt(suite[i - 1], Under(t, Step(slot, i - 1)))| - 1 else 0
  }

  /** The targets seen from the statement at an address. */
  function UnderAddress(t: Targets, at: Address): Targets
    decreases |at|
  {
    if at == [] then t else UnderAddress(Under(t, at[0]), at[1..])
  }

  /** No splice removes the statement: above it, only `elif` markers are replaced, and it is in their `orelse`. */
  predicate Survives(s: Stmt, at: Address, t: Targets)
    requires StmtAt(s, at).Some?
    decreases |at|
  {
    at != [] ==>
      var u := Under(t, at[0]);
      && ([] in u ==> u[[]].Clauses? && u[[]].clauses != [] && |at| > 1 && at[1].slot == InOrelse)
      && Survives(Suite(s, at[0].slot).value[at[0].index], at[1..], u)
  }

  /** The links of an `elif` chain between its first branch and the old `orelse`. */
  function Links(u: Targets): Address {
    if [] in u && u[[]].Clauses? && |u[[]].clauses| > 1 then seq(|u[[]].clauses| - 1, _ => Step(InOrelse, 0)) else []
  }

  /** Where a surviving statement is after the splices. */
  function Moved(s: Stmt, at: Address, t: Targets): Address
    requires StmtAt(s, at).Some?
    decreases |at|
  {
    if at == [] then []
    else
      var suite := Suite(s, at[0].slot).value;
      var u := Under(t, at[0]);
      var index := |Flatten(Parts(suite, at[0].slot, t)[..at[0].index])|;
      [Step(at[0].slot, index)] + Links(u) + Moved(suite[at[0].index], at[1..], u)
  }

  /** At every level the splices before the statement add up to nothing, and no `elif` marker above it got more than one branch. */
  predicate Unmoved(s: Stmt, at: Address, t: Targets)
    requires StmtAt(s, at).Some?
    decreases |at|
  {
    at != [] ==>
      var suite := Suite(s, at[0].slot).value;
      var u := Under(t, at[0]);
      && Growth(suite, at[0].slot, at[0].index, t) == 0
      && Links(u) == []
      && Unmoved(suite[at[0].index], at[1..], u)
  }

  lemma {:induction false} FlattenLast(parts: seq<seq<Stmt>>, i: nat)
    requires i < |parts|
    ensures Flatten(parts[..i + 1]) == Flatten(parts[..i]) + parts[i]
  {
    FlattenAppend(parts[..i], [parts[i]]);
    assert parts[..i + 1] == parts[..i] + [parts[i]];
    assert Flatten([parts[i]]) == parts[i] + Flatten([parts[i]][1..]);
  }

  lemma {:induction false} GrowthIsShift(suite: seq<Stmt>, slot: Slot, i: nat, t: Targets)
    requires i <= |suite|
    ensures |Flatten(Parts(suite, slot, t)[..i])| == i + Growth(suite, slot, i, t)
  {
    if i > 0 {
      GrowthIsShift(suite, slot, i - 1, t);
      FlattenLast(Parts(suite, slot, t), i - 1);
      assert Parts(suite, slot, t)[i - 1] == SubstStmt(suite[i - 1], Under(t, Step(slot, i - 1)));
    }
  }

  // ---------- survivors are found where they moved ----------

  lemma {:induction false} ChainEnd(clauses: seq<Clause>, orelse: seq<Stmt>, rest: Address)
    requires clauses != [] && rest != [] && rest[0].slot == InOrelse
    ensures StmtAt(Chain(clauses, orelse)[0], seq(|clauses| - 1, _ => Step(InOrelse, 0)) + rest) ==
            if rest[0].index < |orelse| then StmtAt(orelse[rest[0].index], rest[1..]) else None
  {
    var path := seq(|clauses| - 1, _ => Step(InOrelse, 0)) + rest;
    if |clauses| == 1 {
      assert path == rest;
      assert clauses[1..] == [];
    } else {
      var inner := seq(|clauses[1..]| - 1, _ => Step(InOrelse, 0)) + rest;
      assert path[1..] == inner;
      ChainEnd(clauses[1..], orelse, rest);
    }
  }

  /** The substituted suite, from the place where a child was. */
  lemma {:induction false} SuiteFrom(s: Stmt, step: Step, t: Targets) returns (sub: seq<Stmt>, index: nat)
    requires Suite(s, step.slot).Some? && step.index < |Suite(s, step.slot).value|
    ensures Suite(SubstInside(s, t), step.slot) == Some(sub)
    ensures index == |Flatten(Parts(Suite(s, step.slot).value, step.slot, t)[..step.index])|
    ensures var part := SubstStmt(Suite(s, step.slot).value[step.index], Under(t, step));
            index + |part| <= |sub| && sub[index..index + |part|] == part
  {
    var suite := Suite(s, step.slot).value;
    var parts := Parts(suite, step.slot, t);
    SuiteOfSubst(s, step.slot, t);
    sub := SubstSuite(suite, step.slot, t);
    index := |Flatten(parts[..step.index])|;
    assert parts[step.index] == SubstStmt(suite[step.index], Under(t, step));
    hide *;
    FlattenSplit(parts, step.index);
  }

  lemma {:induction false} KeptChildMoved(s: Stmt, step: Step, t: Targets, tail: Address)
    requires Suite(s, step.slot).Some? && step.index < |Suite(s, step.slot).value|
    requires [] !in Under(t, step)
    ensures var suite := Suite(s, step.slot).value;
            var index := |Flatten(Parts(suite, step.slot, t)[..step.index])|;
            StmtAt(SubstInside(s, t), [Step(step.slot, index)] + tail) ==
            StmtAt(SubstInside(suite[step.index], Under(t, step)), tail)
  {
    var sub, index := SuiteFrom(s, step, t);
    assert ([Step(step.slot, index)] + tail)[1..] == tail;
    assert sub[index] == sub[index..index + 1][0];
  }

  lemma {:induction false} ElifChildMoved(s: Stmt, step: Step, t: Targets, tail: Address)
    requires Suite(s, step.slot).Some? && step.index < |Suite(s, step.slot).value|
    requires var u := Under(t, step); [] in u && u[[]].Clauses? && u[[]].clauses != []
    requires tail != [] && tail[0].slot == InOrelse && HasOrelse(Suite(s, step.slot).value[step.index].head)
    ensures var suite := Suite(s, step.slot).value;
            var index := |Flatten(Parts(suite, step.slot, t)[..step.index])|;
            StmtAt(SubstInside(s, t), [Step(step.slot, index)] + (Links(Under(t, step)) + tail)) ==
            StmtAt(SubstInside(suite[step.index], Under(t, step)), tail)
  {
    var marker, u := Suite(s, step.slot).value[step.index], Under(t, step);
    var sub, index := SuiteFrom(s, step, t);
    var path := [Step(step.slot, index)] + (Links(u) + tail);
    assert path[1..] == Links(u) + tail;
    var orelse := SubstSuite(marker.orelse, InOrelse, u);
    var part := Chain(u[[]].clauses, orelse);
    assert SubstStmt(marker, u) == part && |part| == 1;
    assert sub[index] == sub[index..index + 1][0] == part[0];
    SuiteOfSubst(marker, InOrelse, u);
    ChainEnd(u[[]].clauses, orelse, tail);
    assert Links(u) == seq(|u[[]].clauses| - 1, _ => Step(InOrelse, 0));
  }

  /** One step down: what follows a moved child is found in the substituted child. */
  lemma {:induction false} ChildMoved(s: Stmt, at: Address, t: Targets, tail: Address)
    requires at != [] && StmtAt(s, at).Some? && Survives(s, at, t)
    requires at[1..] == [] || (tail != [] && tail[0].slot == at[1].slot)
    ensures var suite := Suite(s, at[0].slot).value;
            var index := |Flatten(Parts(suite, at[0].slot, t)[..at[0].index])|;
            StmtAt(SubstInside(s, t), [Step(at[0].slot, index)] + (Links(Under(t, at[0])) + tail)) ==
            StmtAt(SubstInside(suite[at[0].index], Under(t, at[0])), tail)
  {
    hide SubstInside, Parts, Flatten, Under;
    if [] in Under(t, at[0]) {
      ElifChildMoved(s, at[0], t, tail);
    } else {
      KeptChildMoved(s, at[0], t, tail);
      assert Links(Under(t, at[0])) + tail == tail;
    }
  }

  /** A surviving statement is found where it moved, with the splices below it made. */
  lemma {:induction false} SurvivorFound(s: Stmt, at: Address, t: Targets)
    requires StmtAt(s, at).Some? && Survives(s, at, t)
    ensures StmtAt(SubstInside(s, t), Moved(s, at, t)) == Some(SubstInside(StmtAt(s, at).value, UnderAddress(t, at)))
    decreases |at|
  {
    if at != [] {
      var child, u := Suite(s, at[0].slot).value[at[0].index], Under(t, at[0]);
      SurvivorFound(child, at[1..], u);
      var tail := Moved(child, at[1..], u);
      if at[1..] != [] {
        MovedSlot(child, at[1..], u);
      }
      MovedStep(s, at, t);
      hide SubstInside, Moved, Links, Parts, Flatten, Under, Survives;
      ChildMoved(s, at, t, tail);
    }
  }

  lemma {:induction false} MovedSlot(s: Stmt, at: Address, t: Targets)
    requires at != [] && StmtAt(s, at).Some?
    ensures Moved(s, at, t) != [] && Moved(s, at, t)[0].slot == at[0].slot
  {
  }

  lemma {:induction false} MovedStep(s: Stmt, at: Address, t: Targets)
    requires at != [] && StmtAt(s, at).Some?
    ensures var suite := Suite(s, at[0].slot).value;
            var u := Under(t, at[0]);
            var index := |Flatten(Parts(suite, at[0].slot, t)[..at[0].index])|;
            Moved(s, at, t) == [Step(at[0].slot, index)] + (Links(u) + Moved(suite[at[0].index], at[1..], u))
  {
    hide Parts, Flatten, Links, Under;
  }

  // ---------- when the old path is still right ----------

  lemma {:induction false} MovedLength(s: Stmt, at: Address, t: Targets)
    requires StmtAt(s, at).Some?
    ensures |Moved(s, at, t)| >= |at|
    decreases |at|
  {
    if at != [] {
      MovedStep(s, at, t);
      MovedLength(Suite(s, at[0].slot).value[at[0].index], at[1..], Under(t, at[0]));
    }
  }

  lemma {:induction false} ConsEqual<T>(x: T, links: seq<T>, rest: seq<T>, at: seq<T>)
    requires at != [] && |rest| >= |at[1..]|
    ensures [x] + (links + rest) == at <==> x == at[0] && links == [] && rest == at[1..]
  {
    var moved := [x] + (links + rest);
    assert moved[0] == x && moved[1..] == links + rest;
    if x == at[0] && links == [] && rest == at[1..] {
      assert links + rest == rest;
      assert at == [at[0]] + at[1..];
    }
  }

  /** The path of the original module still leads to a surviving statement exactly when no level above it was shifted. */
  lemma {:induction false} OldPathRightIff(s: Stmt, at: Address, t: Targets)
    requires StmtAt(s, at).Some?
    ensures Moved(s, at, t) == at <==> Unmoved(s, at, t)
    decreases |at|
  {
    hide Flatten, SubstSuite, SubstStmt, Growth, Links, Under, Suite, HasBody, HasOrelse;
    if at != [] {
      hide Moved, Unmoved;
      var suite, u := Suite(s, at[0].slot).value, Under(t, at[0]);
      var rest := Moved(suite[at[0].index], at[1..], u);
      var index := |Flatten(Parts(suite, at[0].slot, t)[..at[0].index])|;
      UnmovedStep(s, at, t);
      MovedStep(s, at, t);
      OldPathRightIff(suite[at[0].index], at[1..], u);
      MovedLength(suite[at[0].index], at[1..], u);
      ConsEqual(Step(at[0].slot, index), Links(u), rest, at);
      GrowthIsShift(suite, at[0].slot, at[0].index, t);
    }
  }

  lemma {:induction false} UnmovedStep(s: Stmt, at: Address, t: Targets)
    requires at != [] && StmtAt(s, at).Some?
    ensures var suite := Suite(s, at[0].slot).value;
            var u := Under(t, at[0]);
            Unmoved(s, at, t) <==>
            Growth(suite, at[0].slot, at[0].index, t) == 0 && Links(u) == [] && Unmoved(suite[at[0].index], at[1..], u)
  {
    hide Growth, Links, Under;
  }

  /** Every splice puts one statement in the place of one. */
  predicate OneForOne(t: Targets) {
    forall q :: q in t ==>
      match t[q]
      case Block(stmts) => |stmts| == 1
      case Clauses(clauses) => |clauses| == 1
  }

  lemma {:induction false} OneForOneUnder(t: Targets, step: Step)
    requires OneForOne(t)
    ensures OneForOne(Under(t, step))
  {
    forall q | q in Under(t, step) ensures [step] + q in t && Under(t, step)[q] == t[[step] + q] {
      UnderMember(t, step, q);
    }
  }

  lemma {:induction false} OneForOneGrowth(suite: seq<Stmt>, slot: Slot, i: nat, t: Targets)
    requires i <= |suite| && OneForOne(t)
    ensures Growth(suite, slot, i, t) == 0
  {
    if i > 0 {
      OneForOneGrowth(suite, slot, i - 1, t);
      var u := Under(t, Step(slot, i - 1));
      OneForOneUnder(t, Step(slot, i - 1));
      if [] in u {
        var orelse := SubstSuite(suite[i - 1].orelse, InOrelse, u);
        assert u[[]].Clauses? ==> u[[]].clauses[1..] == [];
        assert |Expand(u[[]], orelse)| == 1;
      }
    }
  }

  /** When every splice is one for one, every path of the original module outside the replaced statements stays right. */
  lemma {:induction false} OneForOneKeepsPaths(s: Stmt, at: Address, t: Targets)
    requires StmtAt(s, at).Some? && OneForOne(t)
    ensures Unmoved(s, at, t)
    decreases |at|
  {
    if at != [] {
      var suite, u := Suite(s, at[0].slot).value, Under(t, at[0]);
      OneForOneUnder(t, at[0]);
      OneForOneGrowth(suite, at[0].slot, at[0].index, t);
      OneForOneKeepsPaths(suite[at[0].index], at[1..], u);
    }
  }

  /** The statement that a path of the original module reaches after the splices, when the condition holds. */
  lemma {:induction false} UnmovedSurvivorFound(s: Stmt, at: Address, t: Targets)
    requires StmtAt(s, at).Some? && Survives(s, at, t) && Unmoved(s, at, t)
    ensures StmtAt(SubstInside(s, t), at) == Some(SubstInside(StmtAt(s, at).value, UnderAddress(t, at)))
  {
    SurvivorFound(s, at, t);
    OldPathRightIff(s, at, t);
  }

  lemma {:induction false} TwoForOneTargets(t: Targets, splice: Splice)
    requires t == map[[Step(InBody, 0)] := splice]
    ensures [] in Under(t, Step(InBody, 0)) && Under(t, Step(InBody, 0))[[]] == splice
    ensures Under(t, Step(InBody, 1)) == map[]
  {
    hide Under;
    var u1 := Under(t, Step(InBody, 1));
    UnderMember(t, Step(InBody, 0), []);
    assert [Step(InBody, 0)] + [] == [Step(InBody, 0)];
    forall q: Address ensures q !in u1 {
      UnderMember(t, Step(InBody, 1), q);
      assert ([Step(InBody, 1)] + q)[0] == Step(InBody, 1);
    }
    assert u1 == map[];
  }

  /** The suite around a two-statement payload, after the splice. */
  lemma {:induction false} TwoForOne(hole: Stmt, next: Stmt, first: Stmt, second: Stmt, t: Targets)
    requires t == map[[Step(InBody, 0)] := Block([first, second])]
    ensures Growth([hole, next], InBody, 1, t) == 1
    ensures SubstSuite([hole, next], InBody, t) == [first, second, SubstInside(next, map[])]
  {
    hide SubstInside, Under, Flatten;
    var suite := [hole, next];
    TwoForOneTargets(t, Block([first, second]));
    assert SubstStmt(hole, Under(t, Step(InBody, 0))) == [first, second];
    assert SubstStmt(next, map[]) == [SubstInside(next, map[])];
    assert Growth(suite, InBody, 0, t) == 0;
    assert Parts(suite, InBody, t) == [[first, second], [SubstInside(next, map[])]];
    FlattenTwo([first, second], [SubstInside(next, map[])]);
  }

  lemma {:induction false} FlattenTwo(a: seq<Stmt>, b: seq<Stmt>)
    ensures Flatten([a, b]) == a + b
  {
    assert [a, b][1..] == [b] && [b][1..] == [];
    assert Flatten([b]) == b + Flatten([b][1..]);
  }

  /** The condition is needed: a two-statement payload in front sends the old path of the next statement into the payload. */
  lemma {:induction false} OldPathCanBeWrong(hole: Stmt, next: Stmt, first: Stmt, second: Stmt)
    ensures var m := Stmt(ModuleHead, [hole, next], [], [], []);
            var t: Targets := map[[Step(InBody, 0)] := Block([first, second])];
            var at := [Step(InBody, 1)];
            && StmtAt(m, at) == Some(next) && Survives(m, at, t) && !Unmoved(m, at, t)
            && StmtAt(SubstInside(m, t), at) == Some(second)
  {
    var m := Stmt(ModuleHead, [hole, next], [], [], []);
    var t: Targets := map[[Step(InBody, 0)] := Block([first, second])];
    var at := [Step(InBody, 1)];
    TwoForOne(hole, next, first, second, t);
    SuiteOfSubst(m, InBody, t);
    hide SubstInside, SubstSuite, Growth, Under;
    assert at[1..] == [];
    assert Suite(m, InBody) == Some([hole, next]);
  }

  /** Two surviving statements never end up in one place. */
  lemma {:induction false} MovedInjective(s: Stmt, a: Address, b: Address, t: Targets)
    requires StmtAt(s, a).Some? && StmtAt(s, b).Some? && Survives(s, a, t) && Survives(s, b, t)
    requires Moved(s, a, t) == Moved(s, b, t)
    ensures a == b
    decreases |a|
  {
    hide Survives, StmtAt, Flatten, Parts, Under, Links;
    if a == [] || b == [] {
      MovedLength(s, a, t);
      MovedLength(s, b, t);
    } else {
      hide Moved;
      var child := MovedTogether(s, a, b, t);
      MovedInjective(child, a[1..], b[1..], Under(t, a[0]));
      assert a == [a[0]] + a[1..] && b == [b[0]] + b[1..];
    }
  }

  lemma {:induction false} MovedTogether(s: Stmt, a: Address, b: Address, t: Targets) returns (child: Stmt)
    requires a != [] && b != []
    requires StmtAt(s, a).Some? && StmtAt(s, b).Some? && Survives(s, a, t) && Survives(s, b, t)
    requires Moved(s, a, t) == Moved(s, b, t)
    ensures a[0] == b[0]
    ensures StmtAt(child, a[1..]).Some? && StmtAt(child, b[1..]).Some?
    ensures Survives(child, a[1..], Under(t, a[0])) && Survives(child, b[1..], Under(t, a[0]))
    ensures Moved(child, a[1..], Under(t, a[0])) == Moved(child, b[1..], Under(t, a[0]))
  {
    MovedSlot(s, a, t);
    SameStep(s, a, b, t);
    child := Suite(s, a[0].slot).value[a[0].index];
    hide Moved, Survives, Under;
    SurvivesBelow(s, a, t);
    SurvivesBelow(s, b, t);
    SameMovedTail(s, a, b, t);
  }

  lemma {:induction false} SameMovedTail(s: Stmt, a: Address, b: Address, t: Targets)
    requires a != [] && b != [] && StmtAt(s, a).Some? && StmtAt(s, b).Some? && a[0] == b[0]
    requires Moved(s, a, t) == Moved(s, b, t)
    ensures var child := Suite(s, a[0].slot).value[a[0].index];
            && StmtAt(child, a[1..]).Some? && StmtAt(child, b[1..]).Some?
            && Moved(child, a[1..], Under(t, a[0])) == Moved(child, b[1..], Under(t, a[0]))
  {
    MovedStep(s, a, t);
    MovedStep(s, b, t);
    var child, u := Suite(s, a[0].slot).value[a[0].index], Under(t, a[0]);
    var index := |Flatten(Parts(Suite(s, a[0].slot).value, a[0].slot, t)[..a[0].index])|;
    hide Moved, Flatten, Parts, Under, Links;
    SameTail(Step(a[0].slot, index), Links(u), Moved(child, a[1..], u), Moved(child, b[1..], u));
  }

  lemma {:induction false} SurvivesBelow(s: Stmt, at: Address, t: Targets)
    requires at != [] && StmtAt(s, at).Some? && Survives(s, at, t)
    ensures var child := Suite(s, at[0].slot).value[at[0].index];
            StmtAt(child, at[1..]).Some? && Survives(child, at[1..], Under(t, at[0]))
  {
  }

  lemma {:induction false} SameTail<T>(x: T, links: seq<T>, a: seq<T>, b: seq<T>)
    requires [x] + (links + a) == [x] + (links + b)
    ensures a == b
  {
    assert ([x] + (links + a))[1 + |links|..] == a;
    assert ([x] + (links + b))[1 + |links|..] == b;
  }

  /** Statements of one suite that survive keep their order. */
  lemma {:induction false} SameStep(s: Stmt, a: Address, b: Address, t: Targets)
    requires a != [] && b != [] && StmtAt(s, a).Some? && StmtAt(s, b).Some? && Survives(s, a, t) && Survives(s, b, t)
    requires Moved(s, a, t)[0] == Moved(s, b, t)[0]
    ensures a[0] == b[0]
  {
    MovedStep(s, a, t);
    MovedStep(s, b, t);
    var suite := Suite(s, a[0].slot).value;
    if a[0].index < b[0].index {
      PrefixGrows(suite, a[0].slot, a[0].index, b[0].index, t);
    } else if b[0].index < a[0].index {
      PrefixGrows(suite, a[0].slot, b[0].index, a[0].index, t);
    }
  }

  lemma {:induction false} PrefixGrows(suite: seq<Stmt>, slot: Slot, i: nat, j: nat, t: Targets)
    requires i < j <= |suite|
    requires var u := Under(t, Step(slot, i)); [] in u ==> u[[]].Clauses? && u[[]].clauses != []
    ensures |Flatten(Parts(suite, slot, t)[..i])| < |Flatten(Parts(suite, slot, t)[..j])|
  {
    PartSize(suite, slot, i, t);
    hide *;
    FlattenGrows(Parts(suite, slot, t), i, j);
  }

  lemma {:induction false} PartSize(suite: seq<Stmt>, slot: Slot, i: nat, t: Targets)
    requires i < |suite|
    requires var u := Under(t, Step(slot, i)); [] in u ==> u[[]].Clauses? && u[[]].clauses != []
    ensures |Parts(suite, slot, t)| == |suite| && |Parts(suite, slot, t)[i]| == 1
  {
    hide SubstInside, Under;
    assert Parts(suite, slot, t)[i] == SubstStmt(suite[i], Under(t, Step(slot, i)));
  }

  lemma {:induction false} FlattenGrows(parts: seq<seq<Stmt>>, i: nat, j: nat)
    requires i < j <= |parts| && parts[i] != []
    ensures |Flatten(parts[..i])| < |Flatten(parts[..j])|
  {
    FlattenAppend(parts[..i], parts[i..j]);
    assert parts[..j] == parts[..i] + parts[i..j];
    assert Flatten(parts[i..j]) == parts[i..j][0] + Flatten(parts[i..j][1..]);
  }
}
