/** Lowering the statement markers that are left after the splices (materialize_ir.rs). */
module Lowering {
  import opened Wrappers
  import opened Ast
  import opened Splice
  import opened Renaming
  import opened PyImports

  // ---------- sizes ----------

  function SizeStmt(s: Stmt): (n: nat)
    ensures n >= 1
    decreases s
  {
    match s
    case Stmt(_, body, orelse, finalbody, branches) =>
      1 + SizeSuite(body) + SizeSuite(orelse) + SizeSuite(finalbody) + SizeBranches(branches)
  }

  function SizeSuite(suite: seq<Stmt>): nat
    decreases suite
  {
    if suite == [] then 0 else SizeStmt(suite[0]) + SizeSuite(suite[1..])
  }

  function SizeBranch(b: Branch): nat
    decreases b
  {
    match b case Branch(_, body) => SizeSuite(body)
  }

  function SizeBranches(branches: seq<Branch>): nat
    decreases branches
  {
    if branches == [] then 0 else SizeBranch(branches[0]) + SizeBranches(branches[1..])
  }

  lemma {:induction false} SizeAppend(a: seq<Stmt>, b: seq<Stmt>)
    ensures SizeSuite(a + b) == SizeSuite(a) + SizeSuite(b)
  {
    if a == [] {
      assert a + b == b;
    } else {
      SizeAppend(a[1..], b);
      assert (a + b)[1..] == a[1..] + b;
    }
  }

  lemma {:induction false} SizeRenamed(s: Stmt, name: string, to: string)
    ensures SizeStmt(RenameStmt(s, name, to)) == SizeStmt(s)
    decreases s
  {
    match s
    case Stmt(_, body, orelse, finalbody, branches) =>
      SizeSuiteRenamed(body, name, to);
      SizeSuiteRenamed(orelse, name, to);
      SizeSuiteRenamed(finalbody, name, to);
      SizeBranchesRenamed(branches, name, to);
  }

  lemma {:induction false} SizeSuiteRenamed(suite: seq<Stmt>, name: string, to: string)
    ensures SizeSuite(RenameSuite(suite, name, to)) == SizeSuite(suite)
    decreases suite
  {
    if suite != [] {
      SizeRenamed(suite[0], name, to);
      SizeSuiteRenamed(suite[1..], name, to);
      assert RenameSuite(suite, name, to)[1..] == RenameSuite(suite[1..], name, to);
    }
  }

  function RenameBranches(branches: seq<Branch>, name: string, to: string): seq<Branch> {
    seq(|branches|, k requires 0 <= k < |branches| => RenameBranch(branches[k], name, to))
  }

  lemma {:induction false} SizeBranchesRenamed(branches: seq<Branch>, name: string, to: string)
    ensures SizeBranches(RenameBranches(branches, name, to)) == SizeBranches(branches)
    decreases branches
  {
    if branches != [] {
      SizeBranchRenamed(branches[0], name, to);
      SizeBranchesRenamed(branches[1..], name, to);
      assert RenameBranches(branches, name, to)[1..] == RenameBranches(branches[1..], name, to);
    }
  }

  lemma {:induction false} SizeBranchRenamed(b: Branch, name: string, to: string)
    ensures SizeBranch(RenameBranch(b, name, to)) == SizeBranch(b)
    decreases b
  {
    match b case Branch(_, body) => SizeSuiteRenamed(body, name, to);
  }

  lemma {:induction false} SizeOthers(suite: seq<Stmt>, name: string, to: string)
    ensures SizeSuite(RenameOthers(suite, name, to)) == SizeSuite(suite)
  {
    if suite != [] {
      SizeRenamed(suite[0], name, to);
      SizeOthers(suite[1..], name, to);
      assert RenameOthers(suite, name, to)[1..] == RenameOthers(suite[1..], name, to);
    }
  }

  lemma {:induction false} SizeEach(suite: seq<Stmt>, names: seq<string>, to: seq<string>)
    requires |names| == |to|
    ensures SizeSuite(RenameEach(suite, names, to)) == SizeSuite(suite)
    decreases names
  {
    if names != [] {
      SizeOthers(suite, names[0], to[0]);
      SizeEach(RenameOthers(suite, names[0], to[0]), names[1..], to[1..]);
    }
  }

  lemma {:induction false} SizeResolved(suite: seq<Stmt>)
    ensures Resolved(suite).Ok? ==> SizeSuite(Resolved(suite).value) == SizeSuite(suite)
  {
    if ImportNames(suite).Ok? {
      var colliding := Ascending(ImportNames(suite).value * ExistingNames(suite));
      SizeEach(suite, colliding, Replacements(colliding, ExistingNames(suite) + ImportNames(suite).value));
    }
  }

  lemma {:induction false} SizePlain(head: Head)
    ensures SizeSuite([Plainly(head)]) == 1
  {
    assert SizeStmt(Plainly(head)) == 1;
    assert [Plainly(head)][1..] == [];
  }

  lemma {:induction false} SizeFirst(branches: seq<Branch>)
    requires branches != []
    ensures SizeSuite(branches[0].body) + SizeBranches(branches[1..]) == SizeBranches(branches)
  {
    assert branches[0] == Branch(branches[0].tag, branches[0].body);
    assert SizeBranch(Branch(branches[0].tag, branches[0].body)) == SizeSuite(branches[0].body);
  }

  // ---------- markers ----------

  predicate IsBoundaryMarker(s: Stmt) {
    s.head.ExprStmt? && s.head.value.Call?
    && CallName(s.head.value.func) in {Some("astichi_pass"), Some("astichi_import"), Some("astichi_export")}
  }

  /** A `with` that holds the default for a block hole. */
  predicate IsFallback(s: Stmt) {
    && s.head.With? && !s.head.isAsync && |s.head.items| == 1
    && s.head.items[0].contextExpr.Call? && CallName(s.head.items[0].contextExpr.func) == Some("astichi_hole")
    && s.head.items[0].optionalVars.Some? && s.head.items[0].optionalVars.value.Name?
    && s.head.items[0].optionalVars.value.id == "astichi_fallback"
  }

  predicate IsHoleName(name: string) {
    var suffix := "__astichi_param_hole__";
    |suffix| <= |name| && name[|name| - |suffix|..] == suffix
  }

  predicate HasHole(a: Arguments) {
    || (exists k :: 0 <= k < |a.posonlyargs| && IsHoleName(a.posonlyargs[k].name))
    || (exists k :: 0 <= k < |a.args| && IsHoleName(a.args[k].name))
    || (exists k :: 0 <= k < |a.kwonlyargs| && IsHoleName(a.kwonlyargs[k].name))
    || (a.vararg.Some? && IsHoleName(a.vararg.value.name))
    || (a.kwarg.Some? && IsHoleName(a.kwarg.value.name))
  }

  // ---------- lowering ----------

  /** Import collisions are resolved first; then each statement is lowered in turn. */
  ghost function LowerSuite(suite: seq<Stmt>): (r: Result<seq<Stmt>>)
    ensures r.Ok? ==> SizeSuite(r.value) <= SizeSuite(suite)
    decreases SizeSuite(suite), 3
  {
    SizeResolved(suite);
    var renamed :- Resolved(suite);
    LowerEach(renamed)
  }

  ghost function LowerEach(suite: seq<Stmt>): (r: Result<seq<Stmt>>)
    ensures r.Ok? ==> SizeSuite(r.value) <= SizeSuite(suite)
    decreases SizeSuite(suite), 2, |suite|
  {
    if suite == [] then Ok([])
    else
      var first :- LowerStmt(suite[0]);
      var rest :- LowerEach(suite[1..]);
      SizeAppend(first, rest);
      Ok(first + rest)
  }

  /** What one statement becomes. The body of a `with` that stays is lowered a second time. */
  ghost function LowerStmt(s: Stmt): (r: Result<seq<Stmt>>)
    ensures r.Ok? ==> SizeSuite(r.value) <= SizeStmt(s)
    decreases SizeStmt(s), 1
  {
    if IsImportMarker(s) then
      var statement :- ImportStatement(s.head.value);
      SizePlain(statement.head);
      Ok([statement])
    else if IsBoundaryMarker(s) then Ok([])
    else if s.head.With? && !s.head.isAsync then
      var body :- LowerSuite(s.body);
      if IsFallback(s) then Ok(body)
      else
        var lowered :- LowerFields(s.(body := body));
        SizeAppend([lowered], []);
        Ok([lowered])
    else
      var lowered :- LowerFields(s);
      SizeAppend([lowered], []);
      Ok([lowered])
  }

  ghost function LowerFields(s: Stmt): (r: Result<Stmt>)
    ensures r.Ok? ==> SizeStmt(r.value) <= SizeStmt(s) && r.value.head == s.head
    decreases SizeStmt(s), 0
  {
    match s.head
    case FunctionDef(_, arguments, _) =>
      if HasHole(arguments) then Err(UnfilledHole)
      else
        var body :- LowerSuite(s.body);
        Ok(s.(body := body))
    case ClassDef(_) =>
      var body :- LowerSuite(s.body);
      Ok(s.(body := body))
    case With(_, _) =>
      var body :- LowerSuite(s.body);
      Ok(s.(body := body))
    case If(_) => LowerTwo(s)
    case While(_) => LowerTwo(s)
    case For(_, _, _) => LowerTwo(s)
    case Try(_) =>
      var body :- LowerSuite(s.body);
      var branches :- LowerBranches(s.branches);
      var orelse :- LowerSuite(s.orelse);
      var finalbody :- LowerSuite(s.finalbody);
      Ok(s.(body := body, branches := branches, orelse := orelse, finalbody := finalbody))
    case Match(_) =>
      var branches :- LowerBranches(s.branches);
      Ok(s.(branches := branches))
    case _ => Ok(s)
  }

  ghost function LowerTwo(s: Stmt): (r: Result<Stmt>)
    ensures r.Ok? ==> SizeStmt(r.value) <= SizeStmt(s) && r.value.head == s.head
    decreases SizeStmt(s) - 1, 4
  {
    var body :- LowerSuite(s.body);
    var orelse :- LowerSuite(s.orelse);
    Ok(s.(body := body, orelse := orelse))
  }

  ghost function LowerBranches(branches: seq<Branch>): (r: Result<seq<Branch>>)
    ensures r.Ok? ==> SizeBranches(r.value) <= SizeBranches(branches)
    decreases SizeBranches(branches), 4, |branches|
  {
    if branches == [] then Ok([])
    else
      SizeFirst(branches);
      var body :- LowerSuite(branches[0].body);
      var rest :- LowerBranches(branches[1..]);
      SizeFirst([Branch(branches[0].tag, body)] + rest);
      assert ([Branch(branches[0].tag, body)] + rest)[1..] == rest;
      Ok([Branch(branches[0].tag, body)] + rest)
  }

  // ---------- nothing left to lower ----------

  /** No marker, no fallback and no unfilled hole is left, in this statement or in the suites it enters. */
  predicate CleanStmt(s: Stmt)
    decreases s
  {
    && !IsImportMarker(s) && !IsBoundaryMarker(s) && !IsFallback(s)
    && (s.head.FunctionDef? ==> !HasHole(s.head.arguments))
    && match s
       case Stmt(head, body, orelse, finalbody, branches) =>
         && (HasBody(head) && !head.ModuleHead? ==> CleanSuite(body))
         && (HasOrelse(head) ==> CleanSuite(orelse))
         && (head.Try? ==> CleanSuite(finalbody))
         && (head.Try? || head.Match? ==> CleanBranches(branches))
  }

  predicate CleanSuite(suite: seq<Stmt>)
    decreases suite
  {
    forall k :: 0 <= k < |suite| ==> CleanStmt(suite[k])
  }

  predicate CleanBranch(b: Branch)
    decreases b
  {
    match b case Branch(_, body) => CleanSuite(body)
  }

  predicate CleanBranches(branches: seq<Branch>)
    decreases branches
  {
    forall k :: 0 <= k < |branches| ==> CleanBranch(branches[k])
  }

  /** Lowering that succeeds leaves nothing to lower, at any depth. */
  lemma {:induction false} LoweredIsClean(suite: seq<Stmt>)
    requires LowerSuite(suite).Ok?
    ensures CleanSuite(LowerSuite(suite).value)
    decreases SizeSuite(suite), 3
  {
    SizeResolved(suite);
    EachIsClean(Resolved(suite).value);
  }

  lemma {:induction false} EachIsClean(suite: seq<Stmt>)
    requires LowerEach(suite).Ok?
    ensures CleanSuite(LowerEach(suite).value)
    decreases SizeSuite(suite), 2, |suite|
  {
    hide LowerStmt, CleanStmt;
    if suite != [] {
      StmtIsClean(suite[0]);
      EachIsClean(suite[1..]);
    }
  }

  lemma {:induction false} StmtIsClean(s: Stmt)
    requires LowerStmt(s).Ok?
    ensures CleanSuite(LowerStmt(s).value)
    decreases SizeStmt(s), 1
  {
    hide LowerSuite, LowerFields;
    if IsImportMarker(s) {
      var statement := ImportStatement(s.head.value).value;
      assert CleanStmt(statement);
    } else if !IsBoundaryMarker(s) {
      if s.head.With? && !s.head.isAsync {
        LoweredIsClean(s.body);
        if !IsFallback(s) {
          var again := s.(body := LowerSuite(s.body).value);
          FieldsAreClean(again);
          assert LowerStmt(s) == Ok([LowerFields(again).value]);
        }
      } else {
        FieldsAreClean(s);
        assert LowerStmt(s) == Ok([LowerFields(s).value]);
      }
    }
  }

  lemma {:induction false} FieldsAreClean(s: Stmt)
    requires LowerFields(s).Ok? && !IsImportMarker(s) && !IsBoundaryMarker(s) && !IsFallback(s)
    ensures CleanStmt(LowerFields(s).value)
    decreases SizeStmt(s), 0
  {
    hide LowerSuite, LowerBranches, CleanSuite, CleanBranches;
    var r := LowerFields(s).value;
    assert s == Stmt(s.head, s.body, s.orelse, s.finalbody, s.branches);
    assert r == Stmt(r.head, r.body, r.orelse, r.finalbody, r.branches);
    if HasBody(s.head) && !s.head.ModuleHead? {
      LoweredIsClean(s.body);
    }
    if HasOrelse(s.head) {
      LoweredIsClean(s.orelse);
    }
    if s.head.Try? {
      LoweredIsClean(s.finalbody);
    }
    if s.head.Try? || s.head.Match? {
      BranchesAreClean(s.branches);
    }
  }

  lemma {:induction false} BranchesAreClean(branches: seq<Branch>)
    requires LowerBranches(branches).Ok?
    ensures CleanBranches(LowerBranches(branches).value)
    decreases SizeBranches(branches), 4, |branches|
  {
    hide LowerSuite, CleanSuite;
    if branches != [] {
      SizeFirst(branches);
      LoweredIsClean(branches[0].body);
      BranchesAreClean(branches[1..]);
    }
  }

  // ---------- lowering again changes nothing ----------

  lemma {:induction false} CleanNamesNothing(suite: seq<Stmt>)
    requires CleanSuite(suite)
    ensures ImportNames(suite) == Ok({})
  {
    hide CleanStmt;
    if suite != [] {
      assert CleanStmt(suite[0]);
      CleanIsNoMarker(suite[0]);
      NotMarkerNames(suite[0]);
      CleanNamesNothing(suite[1..]);
      var none: set<string> := {};
      assert none + none == {};
    }
  }

  lemma {:induction false} CleanIsNoMarker(s: Stmt)
    requires CleanStmt(s)
    ensures !IsImportMarker(s)
  {
  }

  /** A clean suite is lowered to itself. */
  lemma {:induction false} CleanIsFixed(suite: seq<Stmt>)
    requires CleanSuite(suite)
    ensures LowerSuite(suite) == Ok(suite)
    decreases SizeSuite(suite), 3
  {
    CleanNamesNothing(suite);
    assert {} * ExistingNames(suite) == {};
    assert Resolved(suite) == Ok(suite);
    EachIsFixed(suite);
  }

  lemma {:induction false} EachIsFixed(suite: seq<Stmt>)
    requires CleanSuite(suite)
    ensures LowerEach(suite) == Ok(suite)
    decreases SizeSuite(suite), 2, |suite|
  {
    hide LowerStmt, CleanStmt;
    if suite != [] {
      assert CleanStmt(suite[0]);
      StmtIsFixed(suite[0]);
      EachIsFixed(suite[1..]);
      assert suite == [suite[0]] + suite[1..];
    }
  }

  lemma {:induction false} StmtIsFixed(s: Stmt)
    requires CleanStmt(s)
    ensures LowerStmt(s) == Ok([s])
    decreases SizeStmt(s), 1
  {
    hide LowerSuite, LowerFields, CleanSuite, CleanBranches;
    FieldsAreFixed(s);
    assert s == Stmt(s.head, s.body, s.orelse, s.finalbody, s.branches);
    if s.head.With? && !s.head.isAsync {
      CleanIsFixed(s.body);
      assert s.(body := s.body) == s;
    }
  }

  lemma {:induction false} FieldsAreFixed(s: Stmt)
    requires CleanStmt(s)
    ensures LowerFields(s) == Ok(s)
    decreases SizeStmt(s), 0
  {
    hide LowerSuite, LowerBranches, CleanSuite, CleanBranches;
    assert s == Stmt(s.head, s.body, s.orelse, s.finalbody, s.branches);
    if HasBody(s.head) && !s.head.ModuleHead? {
      CleanIsFixed(s.body);
    }
    if HasOrelse(s.head) {
      CleanIsFixed(s.orelse);
    }
    if s.head.Try? {
      CleanIsFixed(s.finalbody);
    }
    if s.head.Try? || s.head.Match? {
      BranchesAreFixed(s.branches);
    }
  }

  lemma {:induction false} BranchesAreFixed(branches: seq<Branch>)
    requires CleanBranches(branches)
    ensures LowerBranches(branches) == Ok(branches)
    decreases SizeBranches(branches), 4, |branches|
  {
    hide LowerSuite, CleanSuite;
    if branches != [] {
      SizeFirst(branches);
      assert CleanBranch(Branch(branches[0].tag, branches[0].body));
      CleanIsFixed(branches[0].body);
      BranchesAreFixed(branches[1..]);
      assert branches == [branches[0]] + branches[1..];
    }
  }

  /** Lowering is idempotent, so lowering the body of a `with` twice is lowering it once. */
  lemma {:induction false} LoweringTwice(suite: seq<Stmt>)
    requires LowerSuite(suite).Ok?
    ensures LowerSuite(LowerSuite(suite).value) == LowerSuite(suite)
  {
    LoweredIsClean(suite);
    CleanIsFixed(LowerSuite(suite).value);
  }

  // ---------- order ----------

  /** Each suite of the one statement is the lowered suite of the other, in the same place. */
  ghost predicate SuitesLowered(s: Stmt, r: Stmt) {
    && r.head == s.head && |r.branches| == |s.branches|
    && (forall k :: 0 <= k < |s.branches| ==> r.branches[k].tag == s.branches[k].tag)
    && forall slot :: Suite(s, slot).Some? ==> Suite(r, slot).Some? && LowerSuite(Suite(s, slot).value) == Ok(Suite(r, slot).value)
  }

  /** What a statement, after the renaming, leaves in its suite. */
  ghost predicate Leaves(s: Stmt, part: seq<Stmt>) {
    if IsImportMarker(s) then ImportStatement(s.head.value).Ok? && part == [ImportStatement(s.head.value).value]
    else if IsBoundaryMarker(s) then part == []
    else if IsFallback(s) then LowerSuite(s.body) == Ok(part)
    else |part| == 1 && part[0].head == s.head && (!s.head.ModuleHead? ==> SuitesLowered(s, part[0]))
  }

  lemma {:induction false} BranchesLowered(branches: seq<Branch>)
    requires LowerBranches(branches).Ok?
    ensures var r := LowerBranches(branches).value;
            && |r| == |branches|
            && forall k :: 0 <= k < |branches| ==> r[k].tag == branches[k].tag && LowerSuite(branches[k].body) == Ok(r[k].body)
  {
    hide LowerSuite;
    if branches != [] {
      BranchesLowered(branches[1..]);
    }
  }

  lemma {:induction false} FieldsLowered(s: Stmt)
    requires LowerFields(s).Ok? && !s.head.ModuleHead?
    ensures SuitesLowered(s, LowerFields(s).value)
  {
    hide LowerSuite, LowerBranches;
    var r := LowerFields(s).value;
    if s.head.Try? || s.head.Match? {
      BranchesLowered(s.branches);
    }
    forall slot | Suite(s, slot).Some?
      ensures Suite(r, slot).Some? && LowerSuite(Suite(s, slot).value) == Ok(Suite(r, slot).value)
    {
    }
  }

  /** The body of a `with` that stays is lowered twice, which is the same as once. */
  lemma {:induction false} WithLowered(s: Stmt, body: seq<Stmt>)
    requires s.head.With? && LowerSuite(s.body) == Ok(body) && LowerFields(s.(body := body)).Ok?
    ensures SuitesLowered(s, LowerFields(s.(body := body)).value)
  {
    hide LowerSuite, LowerFields, SizeStmt, SizeSuite;
    LoweringTwice(s.body);
    FieldsLowered(s.(body := body));
    var r := LowerFields(s.(body := body)).value;
    assert Suite(s.(body := body), InBody) == Some(body) && Suite(r, InBody) == Some(r.body);
    assert r.body == body;
  }

  lemma {:induction false} EachLeaves(suite: seq<Stmt>) returns (parts: seq<seq<Stmt>>)
    requires LowerEach(suite).Ok?
    ensures |parts| == |suite| && LowerEach(suite) == Ok(Flatten(parts))
    ensures forall k :: 0 <= k < |suite| ==> Leaves(suite[k], parts[k])
    decreases |suite|
  {
    if suite == [] {
      parts := [];
    } else {
      StmtLeaves(suite[0]);
      hide LowerStmt, Leaves;
      var rest := EachLeaves(suite[1..]);
      parts := [LowerStmt(suite[0]).value] + rest;
      assert parts[1..] == rest;
    }
  }

  lemma {:induction false} StmtLeaves(s: Stmt)
    requires LowerStmt(s).Ok?
    ensures Leaves(s, LowerStmt(s).value)
  {
    hide LowerSuite, LowerFields, SuitesLowered;
    if !IsImportMarker(s) && !IsBoundaryMarker(s) && !IsFallback(s) {
      if s.head.With? && !s.head.isAsync {
        WithLowered(s, LowerSuite(s.body).value);
      } else if !s.head.ModuleHead? {
        FieldsLowered(s);
      }
    }
  }

  /** An import marker leaves one import, of the module that its `module` keyword spells. */
  lemma {:induction false} ImportMarkerLeaves(s: Stmt) returns (h: Head, m: nat, path: seq<string>, ctx: Ctx)
    requires IsImportMarker(s) && LowerStmt(s).Ok?
    ensures LowerStmt(s) == Ok([Plainly(h)])
    ensures ModuleSpelled(s.head.value, m, path, ctx) && SpellsImport(s.head.value, path, h)
  {
    hide ImportStatement;
    h := ImportStatement(s.head.value).value.head;
    m, path, ctx := ImportSpelled(s.head.value);
  }

  /** Statements keep their order: each leaves its own part, and the parts follow one another. */
  lemma {:induction false} OrderKept(suite: seq<Stmt>) returns (parts: seq<seq<Stmt>>)
    requires LowerSuite(suite).Ok?
    ensures Resolved(suite).Ok? && |Resolved(suite).value| == |suite| == |parts|
    ensures LowerSuite(suite) == Ok(Flatten(parts))
    ensures forall k :: 0 <= k < |suite| ==> Leaves(Resolved(suite).value[k], parts[k])
  {
    var renamed := Resolved(suite).value;
    assert |renamed| == |suite|;
    hide LowerEach, Resolved;
    parts := EachLeaves(renamed);
  }

  // ---------- names after lowering ----------

  lemma {:induction false} MarkerNamesCounted(suite: seq<Stmt>, k: nat)
    requires ImportNames(suite).Ok? && k < |suite|
    ensures MarkerNames(suite[k]).Ok? && MarkerNames(suite[k]).value <= ImportNames(suite).value
  {
    if k > 0 {
      MarkerNamesCounted(suite[1..], k - 1);
    }
  }

  lemma {:induction false} BoundNamesCounted(suite: seq<Stmt>, k: nat)
    requires k < |suite|
    ensures BoundNames(suite[k].head) <= ExistingNames(suite)
  {
    if k > 0 {
      BoundNamesCounted(suite[1..], k - 1);
    }
  }

  /** The import that a marker becomes binds no name that another statement of the suite binds. */
  lemma {:induction false} ImportsApart(suite: seq<Stmt>, k: nat, j: nat)
    requires ImportNames(suite).Ok? && NoDots(ImportNames(suite).value) && k < |suite| && j < |suite|
    requires IsImportMarker(suite[k]) && ImportStatement(suite[k].head.value).Ok?
    ensures Resolved(suite).Ok? && |Resolved(suite).value| == |suite| && Resolved(suite).value[k] == suite[k]
    ensures BoundNames(ImportStatement(suite[k].head.value).value.head) !! BoundNames(Resolved(suite).value[j].head)
  {
    var after, e := Resolved(suite).value, suite[k].head.value;
    CollisionsResolved(suite);
    hide Resolved, Ascending, Replacements;
    MarkerNamesCounted(suite, k);
    forall n | n in SetOf(FinalNames(e).value) ensures '.' !in n {
    }
    ImportBindsFinalNames(e);
    BoundNamesCounted(after, j);
  }

  /** What the statements other than import markers leave in the suite. */
  function OtherParts(suite: seq<Stmt>, parts: seq<seq<Stmt>>): seq<Stmt>
    requires |suite| == |parts|
  {
    if suite == [] then []
    else (if IsImportMarker(suite[0]) then [] else parts[0]) + OtherParts(suite[1..], parts[1..])
  }

  /** What the fallback statements leave in the suite. */
  function FallbackParts(suite: seq<Stmt>, parts: seq<seq<Stmt>>): seq<Stmt>
    requires |suite| == |parts|
  {
    if suite == [] then []
    else (if IsPlacedFallback(suite[0]) then parts[0] else []) + FallbackParts(suite[1..], parts[1..])
  }

  predicate IsPlacedFallback(s: Stmt) {
    !IsImportMarker(s) && !IsBoundaryMarker(s) && IsFallback(s)
  }

  lemma {:induction false} ExistingAppend(a: seq<Stmt>, b: seq<Stmt>)
    ensures ExistingNames(a + b) == ExistingNames(a) + ExistingNames(b)
  {
    if a == [] {
      assert a + b == b;
    } else {
      assert (a + b)[1..] == a[1..] + b;
      ExistingAppend(a[1..], b);
    }
  }

  lemma {:induction false} OneName(s: Stmt)
    ensures ExistingNames([s]) == BoundNames(s.head)
  {
    assert [s][1..] == [];
  }

  /** Of one statement: an import binds what its marker names; any other but a fallback binds no more than before. */
  lemma {:induction false} PartNames(s: Stmt, part: seq<Stmt>)
    requires Leaves(s, part) && MarkerNames(s).Ok? && NoDots(MarkerNames(s).value)
    ensures IsImportMarker(s) ==> ExistingNames(part) == MarkerNames(s).value
    ensures !IsImportMarker(s) ==> MarkerNames(s).value == {}
    ensures !IsImportMarker(s) && !IsPlacedFallback(s) ==> ExistingNames(part) <= BoundNames(s.head)
  {
    if IsImportMarker(s) {
      forall n | n in SetOf(FinalNames(s.head.value).value) ensures '.' !in n {
      }
      ImportBindsFinalNames(s.head.value);
      OneName(part[0]);
    } else {
      NotMarkerNames(s);
      if part != [] && !IsPlacedFallback(s) {
        OneName(part[0]);
        assert part == [part[0]];
      }
    }
  }

  lemma {:induction false} FirstNames(suite: seq<Stmt>)
    requires suite != [] && ImportNames(suite).Ok? && NoDots(ImportNames(suite).value)
    ensures MarkerNames(suite[0]).Ok? && NoDots(MarkerNames(suite[0]).value)
    ensures ImportNames(suite[1..]).Ok? && NoDots(ImportNames(suite[1..]).value)
    ensures ImportNames(suite).value == MarkerNames(suite[0]).value + ImportNames(suite[1..]).value
    ensures ExistingNames(suite) == BoundNames(suite[0].head) + ExistingNames(suite[1..])
    ensures ImportNames([]) == Ok({}) && ExistingNames([]) == {}
  {
    hide MarkerNames, BoundNames;
  }

  /** What a lowered suite binds: the import names, and what the other statements leave. */
  lemma {:induction false} LoweredNames(suite: seq<Stmt>, parts: seq<seq<Stmt>>)
    requires |parts| == |suite| && forall k :: 0 <= k < |suite| ==> Leaves(suite[k], parts[k])
    requires ImportNames(suite).Ok? && NoDots(ImportNames(suite).value)
    ensures ExistingNames(Flatten(parts)) == ImportNames(suite).value + ExistingNames(OtherParts(suite, parts))
  {
    if suite != [] {
      hide Leaves, MarkerNames, IsImportMarker, IsPlacedFallback, BoundNames, ExistingNames, ImportNames, NoDots;
      FirstNames(suite);
      PartNames(suite[0], parts[0]);
      LoweredNames(suite[1..], parts[1..]);
      ExistingAppend(parts[0], Flatten(parts[1..]));
      ExistingAppend(parts[0], OtherParts(suite[1..], parts[1..]));
      assert [] + OtherParts(suite[1..], parts[1..]) == OtherParts(suite[1..], parts[1..]);
    }
  }

  /** What the other statements leave binds what the fallbacks leave, and otherwise only names that were bound before. */
  lemma {:induction false} OtherNames(suite: seq<Stmt>, parts: seq<seq<Stmt>>)
    requires |parts| == |suite| && forall k :: 0 <= k < |suite| ==> Leaves(suite[k], parts[k])
    requires ImportNames(suite).Ok? && NoDots(ImportNames(suite).value)
    ensures ExistingNames(FallbackParts(suite, parts)) <= ExistingNames(OtherParts(suite, parts))
    ensures ExistingNames(OtherParts(suite, parts)) <= ExistingNames(suite) + ExistingNames(FallbackParts(suite, parts))
  {
    if suite != [] {
      hide Leaves, MarkerNames, IsImportMarker, BoundNames, ExistingNames, ImportNames, NoDots, IsBoundaryMarker, IsFallback;
      FirstNames(suite);
      PartNames(suite[0], parts[0]);
      OtherNames(suite[1..], parts[1..]);
      ExistingAppend(parts[0], OtherParts(suite[1..], parts[1..]));
      ExistingAppend(parts[0], FallbackParts(suite[1..], parts[1..]));
      assert [] + OtherParts(suite[1..], parts[1..]) == OtherParts(suite[1..], parts[1..]);
      assert [] + FallbackParts(suite[1..], parts[1..]) == FallbackParts(suite[1..], parts[1..]);
    }
  }

  /**
   A lowered suite binds its import names and what its other statements leave. The two are apart exactly when no
   fallback body, lowered as it joins the suite, binds an import name.
   */
  lemma {:induction false} LoweredImportsApartIff(suite: seq<Stmt>) returns (parts: seq<seq<Stmt>>)
    requires LowerSuite(suite).Ok? && NoDots(ImportNames(suite).value)
    ensures Resolved(suite).Ok? && |Resolved(suite).value| == |suite| == |parts|
    ensures LowerSuite(suite) == Ok(Flatten(parts))
    ensures forall k :: 0 <= k < |suite| ==> Leaves(Resolved(suite).value[k], parts[k])
    ensures var imports, others := ImportNames(suite).value, OtherParts(Resolved(suite).value, parts);
            && ExistingNames(LowerSuite(suite).value) == imports + ExistingNames(others)
            && (ExistingNames(others) !! imports <==> ExistingNames(FallbackParts(Resolved(suite).value, parts)) !! imports)
  {
    CollisionsResolved(suite);
    parts := OrderKept(suite);
    hide Resolved, Ascending, Replacements, LowerSuite, Leaves, Finals, Separate;
    LoweredNames(Resolved(suite).value, parts);
    OtherNames(Resolved(suite).value, parts);
  }

  /**
   They need not be: the body of a fallback `with` joins the suite after the renaming, and here it binds the name of an
   import.
   */
  lemma {:induction false} FallbackCanCollide(x: string, value: Expr)
    requires x != "astichi_fallback"
    ensures var marker := Call(Name("astichi_pyimport", Load), [], [Keyword(Some("module"), Name(x, Load))]);
            var hole := WithItem(Call(Name("astichi_hole", Load), [Name("h", Load)], []), Some(Name("astichi_fallback", Store)));
            var binding := Plainly(Assign([Name(x, Store)], value));
            var suite := [Plainly(ExprStmt(marker)), Stmt(With([hole], false), [binding], [], [], [])];
            LowerSuite(suite) == Ok([Plainly(Import([Alias(x, None)])), binding])
  {
    var marker := Call(Name("astichi_pyimport", Load), [], [Keyword(Some("module"), Name(x, Load))]);
    var hole := WithItem(Call(Name("astichi_hole", Load), [Name("h", Load)], []), Some(Name("astichi_fallback", Store)));
    var binding := Plainly(Assign([Name(x, Store)], value));
    var first, second := Plainly(ExprStmt(marker)), Stmt(With([hole], false), [binding], [], [], []);
    var suite := [first, second];
    hide Resolved, LowerSuite, LowerEach, LowerStmt;
    CollisionFree(first, second, marker, hole, x);
    FallbackLowered(second, hole, binding, x, value);
    MarkerLowered(first, marker, x);
    EachOfTwo(first, second, [Plainly(Import([Alias(x, None)]))], [binding]);
    assert [Plainly(Import([Alias(x, None)]))] + [binding] == [Plainly(Import([Alias(x, None)])), binding];
    LowerResolved(suite);
  }

  lemma {:induction false} FallbackLowered(s: Stmt, hole: WithItem, binding: Stmt, x: string, value: Expr)
    requires hole == WithItem(Call(Name("astichi_hole", Load), [Name("h", Load)], []), Some(Name("astichi_fallback", Store)))
    requires binding == Plainly(Assign([Name(x, Store)], value))
    requires s == Stmt(With([hole], false), [binding], [], [], [])
    ensures LowerStmt(s) == Ok([binding])
  {
    assert CleanSuite([binding]);
    CleanIsFixed([binding]);
    hide LowerSuite, LowerFields;
    assert IsFallback(s);
  }

  lemma {:induction false} EachOfTwo(first: Stmt, second: Stmt, a: seq<Stmt>, b: seq<Stmt>)
    requires LowerStmt(first) == Ok(a) && LowerStmt(second) == Ok(b)
    ensures LowerEach([first, second]) == Ok(a + b)
  {
    hide LowerStmt;
    assert [first, second][1..] == [second] && [second][1..] == [];
    assert LowerEach([]) == Ok([]) && b + [] == b;
    assert LowerEach([second]) == Ok(b);
  }

  lemma {:induction false} LowerResolved(suite: seq<Stmt>)
    requires Resolved(suite) == Ok(suite)
    ensures LowerSuite(suite) == LowerEach(suite)
  {
    hide Resolved, LowerEach;
  }

  lemma {:induction false} MarkerLowered(s: Stmt, marker: Expr, x: string)
    requires s == Plainly(ExprStmt(marker))
    requires marker == Call(Name("astichi_pyimport", Load), [], [Keyword(Some("module"), Name(x, Load))])
    ensures LowerStmt(s) == Ok([Plainly(Import([Alias(x, None)]))])
  {
    assert marker.keywords[1..] == [];
    assert KeywordValue(marker.keywords, "module") == Some(Name(x, Load));
    assert KeywordValue(marker.keywords, "names") == KeywordValue([], "names") == None;
    assert KeywordValue(marker.keywords, "as_") == KeywordValue([], "as_") == None;
    assert IsImportMarker(s);
  }

  lemma {:induction false} CollisionFree(first: Stmt, second: Stmt, marker: Expr, hole: WithItem, x: string)
    requires x != "astichi_fallback"
    requires first == Plainly(ExprStmt(marker)) && second.head == With([hole], false)
    requires marker == Call(Name("astichi_pyimport", Load), [], [Keyword(Some("module"), Name(x, Load))])
    requires hole.optionalVars == Some(Name("astichi_fallback", Store))
    ensures Resolved([first, second]) == Ok([first, second])
  {
    var suite := [first, second];
    assert marker.keywords[1..] == [];
    assert KeywordValue(marker.keywords, "module") == Some(Name(x, Load));
    assert KeywordValue(marker.keywords, "names") == KeywordValue([], "names") == None;
    assert KeywordValue(marker.keywords, "as_") == KeywordValue([], "as_") == None;
    assert FinalNames(marker) == Ok([x]);
    assert SetOf([x]) == {x};
    assert suite[1..] == [second] && [second][1..] == [];
    var none: set<string> := {};
    assert ImportNames([]) == Ok(none) && none + none == none && {x} + none == {x};
    NotMarkerNames(second);
    assert ImportNames([second]) == Ok(none);
    assert ImportNames(suite) == Ok({x});
    assert ExistingNames(suite) == none + (BoundNames(second.head) + none) by {
      assert ExistingNames([second]) == BoundNames(second.head) + ExistingNames([]);
    }
    assert ItemNames(hole) == {"astichi_fallback"};
    assert [hole][0] == hole;
    assert forall n :: n in BoundNames(second.head) ==> n == "astichi_fallback";
    assert {x} * ExistingNames(suite) == {};
    assert Ascending({}) == [];
  }

  // ---------- lowering as it runs ----------

  method LowerStatementList(suite: seq<Stmt>) returns (r: Result<seq<Stmt>>)
    ensures r == LowerSuite(suite)
    decreases SizeSuite(suite), 3
  {
    hide LowerStmt, LowerEach, Resolved, SizeStmt;
    SizeResolved(suite);
    SuiteForm(suite);
    var renamed := RenamePyImportCollisions(suite);
    if renamed.Err? {
      return Err(renamed.error);
    }
    var original, body := renamed.value, [];
    ghost var all := LowerEach(original);
    assert original[0..] == original && all.Ok? ==> body + all.value == all.value;
    for k := 0 to |original|
      invariant var rest := LowerEach(original[k..]);
                all == if rest.Err? then rest else Ok(body + rest.value)
    {
      SizeRest(original, k);
      EachForm(original, k);
      var lowered := LowerStatement(original[k]);
      if lowered.Err? {
        return Err(lowered.error);
      }
      ghost var rest := LowerEach(original[k + 1..]);
      assert rest.Ok? ==> body + (lowered.value + rest.value) == (body + lowered.value) + rest.value;
      body := body + lowered.value;
    }
    EachForm(original, |original|);
    assert body + [] == body;
    r := Ok(body);
  }

  lemma {:induction false} SuiteForm(suite: seq<Stmt>)
    ensures LowerSuite(suite) == if Resolved(suite).Err? then Resolved(suite) else LowerEach(Resolved(suite).value)
  {
    hide Resolved, LowerEach;
  }

  lemma {:induction false} EachForm(suite: seq<Stmt>, k: nat)
    requires k <= |suite|
    ensures k == |suite| ==> LowerEach(suite[k..]) == Ok([])
    ensures k < |suite| ==>
              var first, rest := LowerStmt(suite[k]), LowerEach(suite[k + 1..]);
              LowerEach(suite[k..]) ==
              if first.Err? then Err(first.error) else if rest.Err? then rest else Ok(first.value + rest.value)
  {
    hide LowerStmt;
    if k < |suite| {
      assert suite[k..][0] == suite[k] && suite[k..][1..] == suite[k + 1..];
    }
  }

  lemma {:induction false} SizeRest(suite: seq<Stmt>, k: nat)
    requires k < |suite|
    ensures SizeStmt(suite[k]) <= SizeSuite(suite)
  {
    if k > 0 {
      SizeRest(suite[1..], k - 1);
    }
  }

  method LowerStatement(s: Stmt) returns (r: Result<seq<Stmt>>)
    ensures r == LowerStmt(s)
    decreases SizeStmt(s), 1
  {
    if s.head.ExprStmt? {
      if IsPyImport(s.head.value) {
        var statement := ImportStatement(s.head.value);
        return if statement.Ok? then Ok([statement.value]) else Err(statement.error);
      }
      if IsBoundaryMarker(s) {
        return Ok([]);
      }
    }
    var stmt := s;
    if s.head.With? && !s.head.isAsync {
      var body := LowerStatementList(s.body);
      if body.Err? {
        return Err(body.error);
      }
      if IsFallback(s) {
        return body;
      }
      stmt := s.(body := body.value);
    }
    var lowered := LowerStatementFields(stmt);
    r := if lowered.Ok? then Ok([lowered.value]) else Err(lowered.error);
  }

  method LowerStatementFields(s: Stmt) returns (r: Result<Stmt>)
    ensures r == LowerFields(s)
    decreases SizeStmt(s), 0
  {
    if s.head.FunctionDef? && HasHole(s.head.arguments) {
      return Err(UnfilledHole);
    }
    var stmt := s;
    if HasBody(s.head) && !s.head.ModuleHead? {
      var body := LowerStatementList(s.body);
      if body.Err? {
        return Err(body.error);
      }
      stmt := stmt.(body := body.value);
    }
    if s.head.Try? || s.head.Match? {
      var branches := LowerBranchList(s.branches);
      if branches.Err? {
        return Err(branches.error);
      }
      stmt := stmt.(branches := branches.value);
    }
    if HasOrelse(s.head) {
      var orelse := LowerStatementList(s.orelse);
      if orelse.Err? {
        return Err(orelse.error);
      }
      stmt := stmt.(orelse := orelse.value);
    }
    if s.head.Try? {
      var finalbody := LowerStatementList(s.finalbody);
      if finalbody.Err? {
        return Err(finalbody.error);
      }
      stmt := stmt.(finalbody := finalbody.value);
    }
    r := Ok(stmt);
  }

  method LowerBranchList(branches: seq<Branch>) returns (r: Result<seq<Branch>>)
    ensures r == LowerBranches(branches)
    decreases SizeBranches(branches), 4
  {
    var done := [];
    ghost var all := LowerBranches(branches);
    assert branches[0..] == branches && all.Ok? ==> done + all.value == all.value;
    for k := 0 to |branches|
      invariant var rest := LowerBranches(branches[k..]);
                all == if rest.Err? then rest else Ok(done + rest.value)
    {
      assert branches[k..][0] == branches[k] && branches[k..][1..] == branches[k + 1..];
      SizeLater(branches, k);
      var body := LowerStatementList(branches[k].body);
      if body.Err? {
        return Err(body.error);
      }
      var lowered := Branch(branches[k].tag, body.value);
      ghost var rest := LowerBranches(branches[k + 1..]);
      assert rest.Ok? ==> done + ([lowered] + rest.value) == (done + [lowered]) + rest.value;
      done := done + [lowered];
    }
    assert branches[|branches|..] == [] && done + [] == done;
    r := Ok(done);
  }

  lemma {:induction false} SizeLater(branches: seq<Branch>, k: nat)
    requires k < |branches|
    ensures SizeSuite(branches[k].body) <= SizeBranches(branches)
  {
    SizeFirst(branches);
    if k > 0 {
      SizeLater(branches[1..], k - 1);
    }
  }
}
