/**
 Path-addressed statement splices (materialize_ir.rs) and the simultaneous substitution they refine.

 The materializer changes a module in place, one target after another. `SubstInside` is the reference: it reads
 every target address off the original tree and expands them all at once.
 */
module Splice {
  import opened Wrappers
  import opened Ast

  /** One branch that an `elif` marker receives. */
  datatype Clause = Clause(test: Expr, body: seq<Stmt>)

  /** What a target statement becomes: a block of statements, or a chain of branches in front of its `orelse`. */
  datatype Splice = Block(stmts: seq<Stmt>) | Clauses(clauses: seq<Clause>)

  /** The splices to make below a statement, each keyed by the address of its target. */
  type Targets = map<Address, Splice>

  // ---------- one splice, applied to the tree as it stands ----------

  /** Replaces the statement at `at` by `payload`. */
  function ReplaceAt(s: Stmt, at: Address, payload: seq<Stmt>): Result<Stmt>
    decreases |at|
  {
    if at == [] then Err(BadPath)
    else match Suite(s, at[0].slot)
      case None => Err(BadPath)
      case Some(suite) =>
        var i := at[0].index;
        if i >= |suite| then Err(BadPath)
        else if |at| == 1 then Ok(WithSuite(s, at[0].slot, suite[..i] + payload + suite[i + 1..]))
        else
          var child :- ReplaceAt(suite[i], at[1..], payload);
          Ok(WithSuite(s, at[0].slot, suite[i := child]))
  }

  function Chain(clauses: seq<Clause>, orelse: seq<Stmt>): seq<Stmt> {
    if clauses == [] then orelse
    else [Stmt(If(clauses[0].test), clauses[0].body, Chain(clauses[1..], orelse), [], [])]
  }

  /** An `elif` marker is read again when its turn comes, so its chain ends in the `orelse` it then has. */
  function ApplyOne(s: Stmt, at: Address, splice: Splice): Result<Stmt> {
    match splice
    case Block(stmts) => ReplaceAt(s, at, stmts)
    case Clauses(clauses) =>
      match StmtAt(s, at)
      case None => Err(BadPath)
      case Some(marker) =>
        if marker.head.If? then ReplaceAt(s, at, Chain(clauses, marker.orelse)) else Err(BadPath)
  }

  // ---------- all splices at once ----------

  /** The targets below one nested statement, seen from that statement. */
  function Under(t: Targets, step: Step): Targets {
    map q | q in (set p | p in t && |p| > 0 && p[0] == step && [step] + p[1..] in t :: p[1..]) :: t[[step] + q]
  }

  lemma {:induction false} UnderMember(t: Targets, step: Step, q: Address)
    ensures q in Under(t, step) <==> [step] + q in t
    ensures q in Under(t, step) ==> Under(t, step)[q] == t[[step] + q]
  {
    var p := [step] + q;
    assert p[1..] == q;
  }

  function BranchSlot(h: Head, k: nat): Slot {
    if h.Match? then InCase(k) else InHandler(k)
  }

  function Expand(splice: Splice, orelse: seq<Stmt>): seq<Stmt> {
    match splice
    case Block(stmts) => stmts
    case Clauses(clauses) => Chain(clauses, orelse)
  }

  function Flatten(parts: seq<seq<Stmt>>): seq<Stmt> {
    if parts == [] then [] else parts[0] + Flatten(parts[1..])
  }

  /** What a statement becomes when `t` holds the targets seen from it. */
  function SubstStmt(s: Stmt, t: Targets): seq<Stmt>
    decreases s, 2
  {
    if [] in t then Expand(t[[]], SubstSuite(s.orelse, InOrelse, t)) else [SubstInside(s, t)]
  }

  function SubstSuite(suite: seq<Stmt>, slot: Slot, t: Targets): seq<Stmt>
    decreases suite, 1
  {
    Flatten(Parts(suite, slot, t))
  }

  /** What each statement of a suite becomes. */
  function Parts(suite: seq<Stmt>, slot: Slot, t: Targets): seq<seq<Stmt>>
    decreases suite, 0
  {
    seq(|suite|, j requires 0 <= j < |suite| => SubstStmt(suite[j], Under(t, Step(slot, j))))
  }

  /** The statement itself stays; its suites are substituted. */
  function SubstInside(s: Stmt, t: Targets): Stmt
    decreases s, 1
  {
    Stmt(s.head,
         SubstSuite(s.body, InBody, t),
         SubstSuite(s.orelse, InOrelse, t),
         SubstSuite(s.finalbody, InFinalbody, t),
         seq(|s.branches|, k requires 0 <= k < |s.branches| =>
           Branch(s.branches[k].tag, SubstSuite(s.branches[k].body, BranchSlot(s.head, k), t))))
  }

  /** The splice can be made at this address of the original module. */
  predicate ValidTarget(s: Stmt, at: Address, splice: Splice) {
    && at != []
    && StmtAt(s, at).Some?
    && (splice.Clauses? ==> StmtAt(s, at).value.head.If?)
  }

  // ---------- how a substitution depends on its targets ----------

  lemma {:induction false} SuiteOfSubst(s: Stmt, slot: Slot, t: Targets)
    ensures Suite(SubstInside(s, t), slot) ==
            if Suite(s, slot).None? then None else Some(SubstSuite(Suite(s, slot).value, slot, t))
  {
    var r := SubstInside(s, t);
    assert r.head == s.head && |r.branches| == |s.branches|;
    match slot
    case InHandler(k) => if s.head.Try? && k < |s.branches| { assert BranchSlot(s.head, k) == slot; }
    case InCase(k) => if s.head.Match? && k < |s.branches| { assert BranchSlot(s.head, k) == slot; }
    case _ =>
  }

  /** A suite sees only the targets inside it. */
  lemma {:induction false} SuiteDependsOn(suite: seq<Stmt>, slot: Slot, t: Targets, t': Targets)
    requires forall j: nat :: Under(t, Step(slot, j)) == Under(t', Step(slot, j))
    ensures SubstSuite(suite, slot, t) == SubstSuite(suite, slot, t')
  {
    assert Parts(suite, slot, t) == Parts(suite, slot, t');
  }

  lemma {:induction false} FlattenAppend(a: seq<seq<Stmt>>, b: seq<seq<Stmt>>)
    ensures Flatten(a + b) == Flatten(a) + Flatten(b)
  {
    if a == [] {
      assert a + b == b;
    } else {
      FlattenAppend(a[1..], b);
      assert (a + b)[1..] == a[1..] + b;
      assert (a[0] + Flatten(a[1..])) + Flatten(b) == a[0] + (Flatten(a[1..]) + Flatten(b));
    }
  }

  /** The statements before, in place of, and after part `i`. */
  lemma {:induction false} FlattenSplit(parts: seq<seq<Stmt>>, i: nat)
    requires i < |parts|
    ensures Flatten(parts) == Flatten(parts[..i]) + parts[i] + Flatten(parts[i + 1..])
  {
    assert parts == parts[..i] + parts[i..];
    FlattenAppend(parts[..i], parts[i..]);
    assert parts[i..][1..] == parts[i + 1..];
  }

  lemma {:induction false} FlattenSingles(parts: seq<seq<Stmt>>)
    requires forall j :: 0 <= j < |parts| ==> |parts[j]| == 1
    ensures |Flatten(parts)| == |parts|
  {
    if parts != [] {
      FlattenSingles(parts[1..]);
    }
  }

  // ---------- the step of the induction over a run ----------

  /** A splice at `q` moves or removes the statement at `p`. */
  predicate Shifts(q: Address, p: Address)
    decreases |q|
  {
    && |q| > 0 && |p| > 0
    && q[0].slot == p[0].slot
    && if |q| == 1 then q[0].index <= p[0].index else q[0].index == p[0].index && Shifts(q[1..], p[1..])
  }

  lemma {:induction false} UnderUpdate(t: Targets, p: Address, splice: Splice, step: Step)
    requires p != []
    ensures Under(t[p := splice], step) == if p[0] == step then Under(t, step)[p[1..] := splice] else Under(t, step)
  {
    hide Under;
    var l := Under(t[p := splice], step);
    var r := if p[0] == step then Under(t, step)[p[1..] := splice] else Under(t, step);
    forall q: Address ensures (q in l <==> q in r) && (q in l ==> l[q] == r[q]) {
      UnderMember(t[p := splice], step, q);
      UnderMember(t, step, q);
      assert [step] + q == p <==> step == p[0] && q == p[1..];
    }
  }

  /** A target at the statement itself does not show in its suites. */
  lemma {:induction false} SuiteIgnoresSelf(suite: seq<Stmt>, slot: Slot, t: Targets, splice: Splice)
    ensures SubstSuite(suite, slot, t[[] := splice]) == SubstSuite(suite, slot, t)
  {
    forall j: nat ensures Under(t[[] := splice], Step(slot, j)) == Under(t, Step(slot, j)) {
      var l, r := Under(t[[] := splice], Step(slot, j)), Under(t, Step(slot, j));
      forall q: Address ensures (q in l <==> q in r) && (q in l ==> l[q] == r[q]) {
        UnderMember(t[[] := splice], Step(slot, j), q);
        UnderMember(t, Step(slot, j), q);
      }
    }
    SuiteDependsOn(suite, slot, t[[] := splice], t);
  }

  /** Up to an unshifted address, a suite keeps its statements one for one. */
  lemma {:induction false} UnshiftedChild(s: Stmt, t: Targets, p: Address)
    requires p != [] && StmtAt(s, p).Some?
    requires forall q :: q in t ==> !Shifts(q, p)
    ensures var suite := Suite(s, p[0].slot).value;
            var parts := Parts(suite, p[0].slot, t);
            && |Flatten(parts[..p[0].index])| == p[0].index
            && parts[p[0].index] == [SubstInside(suite[p[0].index], Under(t, p[0]))]
            && [] !in Under(t, p[0])
  {
    var slot, i := p[0].slot, p[0].index;
    var suite := Suite(s, slot).value;
    var parts := Parts(suite, slot, t);
    forall j | 0 <= j <= i ensures [] !in Under(t, Step(slot, j)) && |parts[j]| == 1 {
      UnderMember(t, Step(slot, j), []);
      assert [Step(slot, j)] + [] == [Step(slot, j)];
      assert Shifts([Step(slot, j)], p);
      assert parts[j] == SubstStmt(suite[j], Under(t, Step(slot, j)));
    }
    FlattenSingles(parts[..i]);
  }

  /** A new target does not show in the suites its address does not enter. */
  lemma {:induction false} OtherSuite(suite: seq<Stmt>, slot: Slot, p: Address, t: Targets, splice: Splice)
    requires p != [] && slot != p[0].slot
    ensures SubstSuite(suite, slot, t[p := splice]) == SubstSuite(suite, slot, t)
  {
    forall j: nat ensures Under(t[p := splice], Step(slot, j)) == Under(t, Step(slot, j)) {
      UnderUpdate(t, p, splice, Step(slot, j));
    }
    SuiteDependsOn(suite, slot, t[p := splice], t);
  }

  lemma {:induction false} OtherBranch(s: Stmt, p: Address, t: Targets, splice: Splice, k: nat)
    requires p != [] && k < |s.branches| && BranchSlot(s.head, k) != p[0].slot
    ensures SubstInside(s, t[p := splice]).branches[k] == SubstInside(s, t).branches[k]
  {
    OtherSuite(s.branches[k].body, BranchSlot(s.head, k), p, t, splice);
  }

  lemma {:induction false} SubstInsideUpdate(s: Stmt, t: Targets, p: Address, splice: Splice)
    requires p != [] && Suite(s, p[0].slot).Some? && Suite(SubstInside(s, t), p[0].slot).Some?
    ensures SubstInside(s, t[p := splice]) ==
            WithSuite(SubstInside(s, t), p[0].slot, SubstSuite(Suite(s, p[0].slot).value, p[0].slot, t[p := splice]))
  {
    var slot := p[0].slot;
    var l := SubstInside(s, t[p := splice]);
    var r := SubstInside(s, t);
    var w := WithSuite(r, slot, SubstSuite(Suite(s, slot).value, slot, t[p := splice]));
    if slot != InBody { OtherSuite(s.body, InBody, p, t, splice); }
    if slot != InOrelse { OtherSuite(s.orelse, InOrelse, p, t, splice); }
    if slot != InFinalbody { OtherSuite(s.finalbody, InFinalbody, p, t, splice); }
    assert |l.branches| == |r.branches| == |w.branches| == |s.branches|;
    forall k | 0 <= k < |s.branches| ensures l.branches[k] == w.branches[k] {
      if BranchSlot(s.head, k) != slot {
        OtherBranch(s, p, t, splice, k);
      }
    }
    assert l.branches == w.branches;
  }

  /** A new target shows in the part at its first step and in no other part. */
  lemma {:induction false} PartUpdate(suite: seq<Stmt>, p: Address, t: Targets, splice: Splice, j: nat)
    requires p != [] && j < |suite|
    ensures Parts(suite, p[0].slot, t[p := splice])[j] ==
            if j == p[0].index then SubstStmt(suite[j], Under(t, p[0])[p[1..] := splice])
            else Parts(suite, p[0].slot, t)[j]
  {
    UnderUpdate(t, p, splice, Step(p[0].slot, j));
  }

  lemma {:induction false} PartsUpdate(suite: seq<Stmt>, p: Address, t: Targets, splice: Splice)
    requires p != [] && p[0].index < |suite|
    ensures Parts(suite, p[0].slot, t[p := splice]) ==
            Parts(suite, p[0].slot, t)[p[0].index := SubstStmt(suite[p[0].index], Under(t, p[0])[p[1..] := splice])]
  {
    forall j | 0 <= j < |suite| {
      PartUpdate(suite, p, t, splice, j);
    }
  }

  /** What surrounds one element of a sequence. */
  lemma {:induction false} Around<T>(s: seq<T>, a: seq<T>, x: T, b: seq<T>, y: T)
    requires s == a + [x] + b
    ensures |a| < |s| && s[..|a|] == a && s[|a|] == x && s[|a| + 1..] == b && s[|a| := y] == a + [y] + b
  {
  }

  lemma {:induction false} SuiteUpdate(suite: seq<Stmt>, p: Address, t: Targets, splice: Splice)
    requires p != [] && p[0].index < |suite|
    ensures var slot, i := p[0].slot, p[0].index;
            var parts := Parts(suite, slot, t);
            && SubstSuite(suite, slot, t) == Flatten(parts[..i]) + parts[i] + Flatten(parts[i + 1..])
            && SubstSuite(suite, slot, t[p := splice]) ==
               Flatten(parts[..i]) + SubstStmt(suite[i], Under(t, p[0])[p[1..] := splice]) + Flatten(parts[i + 1..])
  {
    hide Flatten, SubstStmt, Under;
    var slot, i := p[0].slot, p[0].index;
    var parts, parts' := Parts(suite, slot, t), Parts(suite, slot, t[p := splice]);
    PartsUpdate(suite, p, t, splice);
    FlattenSplit(parts, i);
    FlattenSplit(parts', i);
    assert parts'[..i] == parts[..i] && parts'[i + 1..] == parts[i + 1..];
  }

  /** The suite around an unshifted address, substituted, and the same suite after one more target. */
  lemma {:induction false} AroundTarget(s: Stmt, t: Targets, p: Address, splice: Splice, child: Stmt) returns (sub: seq<Stmt>)
    requires p != [] && StmtAt(s, p).Some?
    requires forall q :: q in t ==> !Shifts(q, p)
    ensures Suite(SubstInside(s, t), p[0].slot) == Some(sub) && p[0].index < |sub|
    ensures var i := p[0].index;
            var suite := Suite(s, p[0].slot).value;
            && sub[i] == SubstInside(suite[i], Under(t, p[0]))
            && sub[i := child] == sub[..i] + [child] + sub[i + 1..]
            && SubstInside(s, t[p := splice]) ==
               WithSuite(SubstInside(s, t), p[0].slot,
                         sub[..i] + SubstStmt(suite[i], Under(t, p[0])[p[1..] := splice]) + sub[i + 1..])
  {
    var suite := Suite(s, p[0].slot).value;
    var parts := Parts(suite, p[0].slot, t);
    sub := SubstSuite(suite, p[0].slot, t);
    UnshiftedChild(s, t, p);
    SuiteOfSubst(s, p[0].slot, t);
    SubstInsideUpdate(s, t, p, splice);
    SuiteUpdate(suite, p, t, splice);
    Around(sub, Flatten(parts[..p[0].index]), parts[p[0].index][0], Flatten(parts[p[0].index + 1..]), child);
  }

  lemma {:induction false} NotATarget(s: Stmt, t: Targets, p: Address)
    requires p != [] && StmtAt(s, p).Some?
    requires forall q :: q in t ==> !Shifts(q, p)
    ensures [] !in Under(t, p[0])
  {
    UnshiftedChild(s, t, p);
  }

  /** A splice of a statement of `s` itself. */
  lemma {:induction false} ApplyOneHere(s: Stmt, step: Step, splice: Splice, suite: seq<Stmt>)
    requires Suite(s, step.slot) == Some(suite) && step.index < |suite|
    requires splice.Clauses? ==> suite[step.index].head.If?
    ensures ApplyOne(s, [step], splice) ==
            Ok(WithSuite(s, step.slot,
                         suite[..step.index] + Expand(splice, suite[step.index].orelse) + suite[step.index + 1..]))
  {
    assert [step][1..] == [];
    assert StmtAt(s, [step]) == Some(suite[step.index]);
  }

  /** A splice below a nested statement changes that statement alone. */
  lemma {:induction false} ApplyOneBelow(s: Stmt, p: Address, splice: Splice, suite: seq<Stmt>, child: Stmt)
    requires |p| > 1 && Suite(s, p[0].slot) == Some(suite) && p[0].index < |suite|
    requires ApplyOne(suite[p[0].index], p[1..], splice) == Ok(child)
    ensures ApplyOne(s, p, splice) == Ok(WithSuite(s, p[0].slot, suite[p[0].index := child]))
  {
  }

  lemma {:induction false} RefinesHere(s: Stmt, t: Targets, step: Step, splice: Splice)
    requires ValidTarget(s, [step], splice)
    requires forall q :: q in t ==> !Shifts(q, [step])
    ensures ApplyOne(SubstInside(s, t), [step], splice) == Ok(SubstInside(s, t[[step] := splice]))
  {
    var p := [step];
    assert p[1..] == [];
    var here := Suite(s, step.slot).value[step.index];
    assert StmtAt(s, p) == Some(here);
    var sub := AroundTarget(s, t, p, splice, here);
    SuiteIgnoresSelf(here.orelse, InOrelse, Under(t, step), splice);
    ApplyOneHere(SubstInside(s, t), step, splice, sub);
  }

  lemma {:induction false} RefinesBelow(s: Stmt, t: Targets, p: Address, splice: Splice, here: Stmt)
    requires |p| > 1 && StmtAt(s, p).Some? && here == Suite(s, p[0].slot).value[p[0].index]
    requires forall q :: q in t ==> !Shifts(q, p)
    requires ApplyOne(SubstInside(here, Under(t, p[0])), p[1..], splice) ==
             Ok(SubstInside(here, Under(t, p[0])[p[1..] := splice]))
    ensures ApplyOne(SubstInside(s, t), p, splice) == Ok(SubstInside(s, t[p := splice]))
  {
    var child := SubstInside(here, Under(t, p[0])[p[1..] := splice]);
    NotATarget(s, t, p);
    assert SubstStmt(here, Under(t, p[0])[p[1..] := splice]) == [child];
    var sub := AroundTarget(s, t, p, splice, child);
    ApplyOneBelow(SubstInside(s, t), p, splice, sub, child);
  }

  /**
   Making one more splice in place equals adding its target to the simultaneous substitution, as long as no
   splice already made moves the address: the address read off the original module is still valid.
   */
  lemma {:induction false} ApplyOneRefines(s: Stmt, t: Targets, p: Address, splice: Splice)
    requires ValidTarget(s, p, splice)
    requires forall q :: q in t ==> !Shifts(q, p)
    ensures ApplyOne(SubstInside(s, t), p, splice) == Ok(SubstInside(s, t[p := splice]))
    decreases |p|
  {
    if |p| == 1 {
      assert p == [p[0]];
      RefinesHere(s, t, p[0], splice);
    } else {
      var here := Suite(s, p[0].slot).value[p[0].index];
      forall q | q in Under(t, p[0]) ensures !Shifts(q, p[1..]) {
        UnderMember(t, p[0], q);
        assert ([p[0]] + q)[1..] == q;
        assert !Shifts([p[0]] + q, p);
      }
      ApplyOneRefines(here, Under(t, p[0]), p[1..], splice);
      RefinesBelow(s, t, p, splice, here);
    }
  }
}
