/**
 The traversal that finds the statement markers of a template and prints their locators (template_extract.rs), and
 what it visits.
 */
module Extraction {
  import opened Wrappers
  import opened Ast
  import opened AstPaths
  import opened Navigation

  /** A marker record: where the marker is, its inventory kind and the name of its resource. */
  datatype Marker = Marker(astPath: string, inventoryKind: string, resourceName: string)

  /** A statement the traversal enters, with its address in the module. */
  datatype Visit = Visit(at: Address, stmt: Stmt)

  // ---------- the markers of one statement ----------

  predicate IsCallNamed(e: Expr, name: string) {
    e.Call? && e.func.Name? && e.func.id == name
  }

  function FirstNameArg(call: Expr): Result<string>
    requires call.Call?
  {
    if |call.args| > 0 && call.args[0].Name? then Ok(call.args[0].id) else Err(BadMarker)
  }

  /** The statement forms that carry a marker. */
  datatype MarkerForm = HoleStatement | HoleWith | ElifTest | ElifProduction

  function FormOf(s: Stmt): Result<Option<(MarkerForm, string)>> {
    match s.head
    case ExprStmt(value) =>
      if IsCallNamed(value, "astichi_hole") then
        var name :- FirstNameArg(value);
        Ok(Some((HoleStatement, name)))
      else Ok(None)
    case With(items, false) =>
      if |items| > 0 && IsCallNamed(items[0].contextExpr, "astichi_hole") then
        if items[0].optionalVars.Some? && items[0].optionalVars.value.Name?
           && items[0].optionalVars.value.id == "astichi_fallback" then
          var name :- FirstNameArg(items[0].contextExpr);
          Ok(Some((HoleWith, name)))
        else Err(BadMarker)
      else Ok(None)
    case If(test) =>
      if IsCallNamed(test, "astichi_elif") then
        var name :- FirstNameArg(test);
        Ok(Some((ElifTest, name)))
      else Ok(None)
    case FunctionDef(name, _, _) =>
      Ok(if name == "astichi_elif" then Some((ElifProduction, name)) else None)
    case _ => Ok(None)
  }

  function Locate(form: MarkerForm, name: string, path: string): Marker {
    match form
    case HoleStatement => Marker(path + "/value", "hole.block", name)
    case HoleWith => Marker(path, "hole.block", name)
    case ElifTest => Marker(path + "/test", "hole.elif", name)
    case ElifProduction => Marker(path, "production.elif", name)
  }

  function MarkersOf(s: Stmt, path: string): Result<seq<Marker>> {
    var form :- FormOf(s);
    Ok(if form.None? then [] else [Locate(form.value.0, form.value.1, path)])
  }

  /** A call of a marker with a name as its first argument. */
  predicate Calls(e: Expr, marker: string, name: string) {
    IsCallNamed(e, marker) && |e.args| > 0 && e.args[0].Name? && e.args[0].id == name
  }

  /** A call of a marker without one. */
  predicate CallsNothing(e: Expr, marker: string) {
    IsCallNamed(e, marker) && (e.args == [] || !e.args[0].Name?)
  }

  predicate HoleStatementNamed(s: Stmt, name: string) {
    s.head.ExprStmt? && Calls(s.head.value, "astichi_hole", name)
  }

  /** A `with` over a hole whose target says that its body is a fallback. */
  predicate HoleWithNamed(s: Stmt, name: string) {
    && s.head.With? && !s.head.isAsync && s.head.items != [] && Calls(s.head.items[0].contextExpr, "astichi_hole", name)
    && s.head.items[0].optionalVars.Some? && s.head.items[0].optionalVars.value.Name?
    && s.head.items[0].optionalVars.value.id == "astichi_fallback"
  }

  predicate ElifNamed(s: Stmt, name: string) {
    s.head.If? && Calls(s.head.test, "astichi_elif", name)
  }

  /** A marker without a name, or a `with` over a hole that is no fallback. */
  ghost predicate Broken(s: Stmt) {
    || (s.head.ExprStmt? && CallsNothing(s.head.value, "astichi_hole"))
    || (s.head.If? && CallsNothing(s.head.test, "astichi_elif"))
    || (s.head.With? && !s.head.isAsync && s.head.items != [] && IsCallNamed(s.head.items[0].contextExpr, "astichi_hole")
        && forall name :: !HoleWithNamed(s, name))
  }

  /** Which statements are recorded, as what, and where. */
  lemma {:induction false} MarkersOfStatement(s: Stmt, path: string, name: string)
    ensures HoleStatementNamed(s, name) ==> MarkersOf(s, path) == Ok([Marker(path + "/value", "hole.block", name)])
    ensures HoleWithNamed(s, name) ==> MarkersOf(s, path) == Ok([Marker(path, "hole.block", name)])
    ensures ElifNamed(s, name) ==> MarkersOf(s, path) == Ok([Marker(path + "/test", "hole.elif", name)])
    ensures s.head.FunctionDef? && s.head.name == "astichi_elif" ==>
              MarkersOf(s, path) == Ok([Marker(path, "production.elif", "astichi_elif")])
  {
  }

  /** The other statements are not recorded, or stop the traversal. */
  lemma {:induction false} OtherStatements(s: Stmt, path: string)
    ensures MarkersOf(s, path).Err? <==> Broken(s)
    ensures MarkersOf(s, path) == Ok([]) ==>
              (forall name :: !HoleStatementNamed(s, name) && !HoleWithNamed(s, name) && !ElifNamed(s, name))
              && !(s.head.FunctionDef? && s.head.name == "astichi_elif")
    ensures MarkersOf(s, path).Ok? && MarkersOf(s, path).value != [] ==>
              (exists name :: HoleStatementNamed(s, name) || HoleWithNamed(s, name) || ElifNamed(s, name))
              || (s.head.FunctionDef? && s.head.name == "astichi_elif")
  {
    if s.head.With? && !s.head.isAsync && s.head.items != [] && IsCallNamed(s.head.items[0].contextExpr, "astichi_hole") {
      var call := s.head.items[0].contextExpr;
      if call.args != [] && call.args[0].Name? {
        assert HoleWithNamed(s, call.args[0].id) <==> MarkersOf(s, path).Ok?;
      }
    } else if s.head.ExprStmt? && IsCallNamed(s.head.value, "astichi_hole") && MarkersOf(s, path).Ok? {
      assert HoleStatementNamed(s, s.head.value.args[0].id);
    } else if s.head.If? && IsCallNamed(s.head.test, "astichi_elif") && MarkersOf(s, path).Ok? {
      assert ElifNamed(s, s.head.test.args[0].id);
    }
  }

  // ---------- the statements visited, in order ----------

  /** The body of a parameter payload is not searched. */
  predicate Entered(s: Stmt) {
    !(s.head.FunctionDef? && s.head.name == "astichi_params")
  }

  function Visits(s: Stmt, at: Address): seq<Visit>
    decreases s, 1
  {
    [Visit(at, s)] + if Entered(s) then VisitSuites(s, at) else []
  }

  function VisitSuites(s: Stmt, at: Address): seq<Visit>
    decreases s, 0
  {
    SuiteIf(HasBody(s.head), s.body, InBody, at)
    + (if s.head.Try? || s.head.Match? then VisitBranches(s.branches, s.head.Match?, 0, at) else [])
    + SuiteIf(HasOrelse(s.head), s.orelse, InOrelse, at)
    + SuiteIf(s.head.Try?, s.finalbody, InFinalbody, at)
  }

  function SuiteIf(present: bool, suite: seq<Stmt>, slot: Slot, at: Address): seq<Visit>
    decreases suite, 1
  {
    if present then VisitSuite(suite, slot, 0, at) else []
  }

  function VisitSuite(suite: seq<Stmt>, slot: Slot, from: nat, at: Address): seq<Visit>
    decreases suite, 0
  {
    if suite == [] then []
    else Visits(suite[0], at + [Step(slot, from)]) + VisitSuite(suite[1..], slot, from + 1, at)
  }

  function BranchSlotOf(isMatch: bool, k: nat): Slot {
    if isMatch then InCase(k) else InHandler(k)
  }

  function VisitBranches(branches: seq<Branch>, isMatch: bool, from: nat, at: Address): seq<Visit>
    decreases branches
  {
    if branches == [] then []
    else VisitSuite(branches[0].body, BranchSlotOf(isMatch, from), 0, at)
         + VisitBranches(branches[1..], isMatch, from + 1, at)
  }

  function ModuleVisits(m: Module): seq<Visit> {
    VisitSuite(m.body, InBody, 0, [])
  }

  /** The records of a run of visits, up to the first malformed marker. */
  function RecordsOf(visits: seq<Visit>): Result<seq<Marker>> {
    Collect(Results(visits))
  }

  function Results(visits: seq<Visit>): seq<Result<seq<Marker>>> {
    seq(|visits|, i requires 0 <= i < |visits| => MarkersOf(visits[i].stmt, PrintAddress(visits[i].at)))
  }

  function Collect(results: seq<Result<seq<Marker>>>): Result<seq<Marker>> {
    if results == [] then Ok([]) else Then(results[0], Collect(results[1..]))
  }

  /** The records of two traversals in a row. */
  function Then(first: Result<seq<Marker>>, second: Result<seq<Marker>>): Result<seq<Marker>> {
    match first
    case Err(e) => Err(e)
    case Ok(records) => Extend(records, second)
  }

  function Extend(records: seq<Marker>, more: Result<seq<Marker>>): Result<seq<Marker>> {
    match more
    case Ok(ms) => Ok(records + ms)
    case Err(e) => Err(e)
  }

  lemma {:induction false} ThenAssociates(a: Result<seq<Marker>>, b: Result<seq<Marker>>, c: Result<seq<Marker>>)
    ensures Then(Then(a, b), c) == Then(a, Then(b, c))
    ensures Then(Ok([]), c) == c
  {
    if c.Ok? {
      assert [] + c.value == c.value;
      if a.Ok? && b.Ok? {
        assert a.value + b.value + c.value == a.value + (b.value + c.value);
      }
    }
  }

  lemma {:induction false} CollectAppend(a: seq<Result<seq<Marker>>>, b: seq<Result<seq<Marker>>>)
    ensures Collect(a + b) == Then(Collect(a), Collect(b))
  {
    if a == [] {
      assert a + b == b;
      ThenAssociates(Ok([]), Ok([]), Collect(b));
    } else {
      CollectAppend(a[1..], b);
      assert (a + b)[1..] == a[1..] + b;
      ThenAssociates(a[0], Collect(a[1..]), Collect(b));
    }
  }

  lemma {:induction false} RecordsAppend(a: seq<Visit>, b: seq<Visit>)
    ensures RecordsOf(a + b) == Then(RecordsOf(a), RecordsOf(b))
  {
    hide MarkersOf;
    assert Results(a + b) == Results(a) + Results(b);
    CollectAppend(Results(a), Results(b));
  }

  lemma {:induction false} RecordsOfOne(v: Visit)
    ensures RecordsOf([v]) == MarkersOf(v.stmt, PrintAddress(v.at))
  {
    var own := MarkersOf(v.stmt, PrintAddress(v.at));
    assert Results([v]) == [own] && [own][1..] == [];
    assert Collect([own]) == Then(own, Collect([]));
    if own.Ok? {
      assert own.value + [] == own.value;
    }
  }

  // ---------- the traversal itself, pushing into one vector ----------

  /** Two traversals in a row push what the visits of both, in order, yield. */
  lemma {:induction false} ExtendTwice(records: seq<Marker>, a: seq<Visit>, b: seq<Visit>)
    ensures Extend(records, RecordsOf(a + b)) == Then(Extend(records, RecordsOf(a)), RecordsOf(b))
  {
    RecordsAppend(a, b);
    ThenAssociates(Ok(records), RecordsOf(a), RecordsOf(b));
  }

  method StmtRecords(s: Stmt, path: string, ghost at: Address, records: seq<Marker>) returns (r: Result<seq<Marker>>)
    requires at != [] && path == PrintAddress(at)
    ensures r == Extend(records, RecordsOf(Visits(s, at)))
    decreases s, 1
  {
    ExtendTwice(records, [Visit(at, s)], if Entered(s) then VisitSuites(s, at) else []);
    RecordsOfOne(Visit(at, s));
    var own := MarkersOf(s, path);
    if own.Err? {
      return own;
    }
    if Entered(s) {
      r := NestedRecords(s, path, at, records + own.value);
    } else {
      assert records + own.value + [] == records + own.value;
      r := Ok(records + own.value);
    }
  }

  method NestedRecords(s: Stmt, path: string, ghost at: Address, records: seq<Marker>) returns (r: Result<seq<Marker>>)
    requires at != [] && path == PrintAddress(at)
    ensures r == Extend(records, RecordsOf(VisitSuites(s, at)))
    decreases s, 0
  {
    ghost var body := SuiteIf(HasBody(s.head), s.body, InBody, at);
    ghost var branches := if s.head.Try? || s.head.Match? then VisitBranches(s.branches, s.head.Match?, 0, at) else [];
    ghost var orelse := SuiteIf(HasOrelse(s.head), s.orelse, InOrelse, at);
    ghost var final := SuiteIf(s.head.Try?, s.finalbody, InFinalbody, at);
    ExtendTwice(records, body, branches);
    ExtendTwice(records, body + branches, orelse);
    ExtendTwice(records, body + branches + orelse, final);
    r := FieldRecords(HasBody(s.head), s.body, path, InBody, at, records);
    if r.Ok? {
      if s.head.Try? || s.head.Match? {
        r := BranchRecords(s.branches, path, s.head.Match?, at, r.value);
      } else {
        assert r.value + [] == r.value;
      }
    }
    if r.Ok? {
      r := FieldRecords(HasOrelse(s.head), s.orelse, path, InOrelse, at, r.value);
    }
    if r.Ok? {
      r := FieldRecords(s.head.Try?, s.finalbody, path, InFinalbody, at, r.value);
    }
  }

  method FieldRecords(present: bool, suite: seq<Stmt>, path: string, slot: Slot, ghost at: Address, records: seq<Marker>)
    returns (r: Result<seq<Marker>>)
    requires at != [] && path == PrintAddress(at)
    requires slot.InBody? || slot.InOrelse? || slot.InFinalbody?
    ensures r == Extend(records, RecordsOf(SuiteIf(present, suite, slot, at)))
    decreases suite, 2
  {
    if present {
      var field := if slot.InBody? then "body" else if slot.InOrelse? then "orelse" else "finalbody";
      r := SuiteRecords(suite, path + "/" + field, slot, at, records);
    } else {
      assert records + [] == records;
      r := Ok(records);
    }
  }

  function SlotPath(slot: Slot): string {
    match slot
    case InBody => "body"
    case InOrelse => "orelse"
    case InFinalbody => "finalbody"
    case InHandler(k) => Indexed("handlers", k) + "/" + "body"
    case InCase(k) => Indexed("cases", k) + "/" + "body"
  }

  /** The path of a suite: the path of its statement and the field names on the way in. */
  function SuitePath(at: Address, slot: Slot): string {
    (if at == [] then "" else PrintAddress(at) + "/") + SlotPath(slot)
  }

  lemma {:induction false} IndexedAppend(a: string, b: string, i: nat)
    ensures Indexed(a + b, i) == a + Indexed(b, i)
  {
  }

  lemma {:induction false} Assoc(a: string, b: string, c: string)
    ensures a + (b + c) == a + b + c
  {
  }

  lemma {:induction false} PrintShort(a: Segment, b: Segment)
    ensures PrintPath([a]) == PrintSegment(a)
    ensures PrintPath([a, b]) == PrintSegment(a) + "/" + PrintSegment(b)
  {
    PrintSegmentsAppend([], []);
    assert [b][1..] == [] && [a][1..] == [] && [a, b][1..] == [b];
    var ta, tb := PrintSegment(a), PrintSegment(b);
    assert PrintSegments([b]) == [tb] + [] == [tb];
    assert PrintSegments([a]) == [ta] + [] == [ta];
    assert PrintSegments([a, b]) == [ta] + [tb] == [ta, tb];
    assert [ta, tb][1..] == [tb];
    assert Join([ta, tb]) == ta + "/" + Join([tb]);
  }

  lemma {:induction false} PrintOneStep(step: Step)
    ensures PrintAddress([step]) == Indexed(SlotPath(step.slot), step.index)
  {
    assert Segments([step]) == StepSegments(step) + Segments([step][1..]) == StepSegments(step);
    var last := Segment(Body, Some(step.index));
    PrintShort(StepSegments(step)[0], last);
    match step.slot
    case InHandler(k) =>
      IndexedAppend(Indexed("handlers", k) + "/", "body", step.index);
    case InCase(k) =>
      IndexedAppend(Indexed("cases", k) + "/", "body", step.index);
    case _ =>
  }

  /** The traversal and the address model print the same path for a nested statement. */
  lemma {:induction false} SuitePathIndex(at: Address, step: Step)
    ensures PrintAddress(at + [step]) == Indexed(SuitePath(at, step.slot), step.index)
  {
    PrintOneStep(step);
    if at == [] {
      assert at + [step] == [step];
      assert "" + SlotPath(step.slot) == SlotPath(step.slot);
    } else {
      PrintStep(at, step);
      IndexedAppend(PrintAddress(at) + "/", SlotPath(step.slot), step.index);
    }
  }

  method SuiteRecords(suite: seq<Stmt>, path: string, ghost slot: Slot, ghost at: Address, records: seq<Marker>)
    returns (r: Result<seq<Marker>>)
    requires path == SuitePath(at, slot)
    ensures r == Extend(records, RecordsOf(VisitSuite(suite, slot, 0, at)))
    decreases suite, 1
  {
    r := Ok(records);
    var index := 0;
    assert suite[0..] == suite;
    while index < |suite| && r.Ok?
      invariant index <= |suite|
      invariant Extend(records, RecordsOf(VisitSuite(suite, slot, 0, at))) ==
                if r.Ok? then Extend(r.value, RecordsOf(VisitSuite(suite[index..], slot, index, at))) else r
    {
      SuitePathIndex(at, Step(slot, index));
      ExtendTwice(r.value, Visits(suite[index], at + [Step(slot, index)]), VisitSuite(suite[index + 1..], slot, index + 1, at));
      assert suite[index..][1..] == suite[index + 1..];
      r := StmtRecords(suite[index], Indexed(path, index), at + [Step(slot, index)], r.value);
      index := index + 1;
    }
    if r.Ok? {
      assert suite[index..] == [] && r.value + [] == r.value;
    }
  }

  lemma {:induction false} BranchSuitePath(at: Address, isMatch: bool, index: nat)
    requires at != []
    ensures var branch := Indexed(if isMatch then "cases" else "handlers", index);
            PrintAddress(at) + "/" + branch + "/" + "body" == SuitePath(at, BranchSlotOf(isMatch, index))
  {
    hide PrintAddress, Indexed;
    var branch := Indexed(if isMatch then "cases" else "handlers", index);
    Assoc(PrintAddress(at) + "/", branch + "/", "body");
    Assoc(PrintAddress(at) + "/", branch, "/");
  }

  method BranchRecords(branches: seq<Branch>, path: string, isMatch: bool, ghost at: Address, records: seq<Marker>)
    returns (r: Result<seq<Marker>>)
    requires at != [] && path == PrintAddress(at)
    ensures r == Extend(records, RecordsOf(VisitBranches(branches, isMatch, 0, at)))
    decreases branches, 1
  {
    hide SuitePath, Indexed, PrintAddress, VisitSuite;
    r := Ok(records);
    var index := 0;
    assert branches[0..] == branches;
    while index < |branches| && r.Ok?
      invariant index <= |branches|
      invariant Extend(records, RecordsOf(VisitBranches(branches, isMatch, 0, at))) ==
                if r.Ok? then Extend(r.value, RecordsOf(VisitBranches(branches[index..], isMatch, index, at))) else r
    {
      ghost var slot := BranchSlotOf(isMatch, index);
      ExtendTwice(r.value, VisitSuite(branches[index].body, slot, 0, at), VisitBranches(branches[index + 1..], isMatch, index + 1, at));
      assert branches[index..][1..] == branches[index + 1..];
      var branch := Indexed(if isMatch then "cases" else "handlers", index);
      BranchSuitePath(at, isMatch, index);
      r := SuiteRecords(branches[index].body, path + "/" + branch + "/" + "body", slot, at, r.value);
      index := index + 1;
    }
    if r.Ok? {
      assert branches[index..] == [] && r.value + [] == r.value;
    }
  }

  /** The marker records of a template. */
  method ExtractRecords(m: Module) returns (r: Result<seq<Marker>>)
    ensures r == RecordsOf(ModuleVisits(m))
  {
    r := SuiteRecords(m.body, "body", InBody, [], []);
    if r.Ok? {
      assert [] + RecordsOf(ModuleVisits(m)).value == RecordsOf(ModuleVisits(m)).value;
    }
  }
}
