/** What extraction prints, the materializer finds: the two traversals agree on every template. */
module LocatorRoundTrip {
  import opened Wrappers
  import opened Ast
  import opened AstPaths
  import opened Navigation
  import opened Extraction
  import opened DocumentOrder

  /** Every statement on the way down is entered by the traversal. */
  predicate AllEntered(s: Stmt, rel: Address)
    requires StmtAt(s, rel).Some?
    decreases |rel|
  {
    rel != [] ==> Entered(s) && AllEntered(Suite(s, rel[0].slot).value[rel[0].index], rel[1..])
  }

  ghost predicate VisitedAt(s: Stmt, at: Address, v: Visit) {
    && at <= v.at
    && StmtAt(s, v.at[|at|..]) == Some(v.stmt)
    && AllEntered(s, v.at[|at|..])
  }

  ghost predicate VisitedIn(suite: seq<Stmt>, slot: Slot, from: nat, at: Address, v: Visit) {
    && at < v.at
    && v.at[|at|].slot == slot
    && from <= v.at[|at|].index < from + |suite|
    && VisitedAt(suite[v.at[|at|].index - from], at + [v.at[|at|]], v)
  }

  lemma {:induction false} VisitedInFirstOrRest(suite: seq<Stmt>, slot: Slot, from: nat, at: Address, v: Visit)
    requires suite != []
    ensures VisitedIn(suite, slot, from, at, v) <==>
            VisitedAt(suite[0], at + [Step(slot, from)], v) || VisitedIn(suite[1..], slot, from + 1, at, v)
  {
    PrefixStep(at, Step(slot, from), v.at);
    if at < v.at && from < v.at[|at|].index < from + |suite| {
      assert suite[1..][v.at[|at|].index - (from + 1)] == suite[v.at[|at|].index - from];
    }
  }

  lemma {:induction false} VisitSuiteExact(suite: seq<Stmt>, slot: Slot, from: nat, at: Address, v: Visit)
    ensures v in VisitSuite(suite, slot, from, at) <==> VisitedIn(suite, slot, from, at, v)
    decreases suite, 0
  {
    if suite != [] {
      VisitsExact(suite[0], at + [Step(slot, from)], v);
      VisitSuiteExact(suite[1..], slot, from + 1, at, v);
      VisitedInFirstOrRest(suite, slot, from, at, v);
    }
  }

  lemma {:induction false} PrefixStep(at: Address, step: Step, p: Address)
    ensures at + [step] <= p <==> at < p && p[|at|] == step
  {
  }

  ghost predicate InSomeBranch(branches: seq<Branch>, isMatch: bool, from: nat, at: Address, v: Visit) {
    exists k :: 0 <= k < |branches| && VisitedIn(branches[k].body, BranchSlotOf(isMatch, from + k), 0, at, v)
  }

  lemma {:induction false} VisitBranchesExact(branches: seq<Branch>, isMatch: bool, from: nat, at: Address, v: Visit)
    ensures v in VisitBranches(branches, isMatch, from, at) <==> InSomeBranch(branches, isMatch, from, at, v)
    decreases branches, 0
  {
    if branches != [] {
      VisitSuiteExact(branches[0].body, BranchSlotOf(isMatch, from), 0, at, v);
      VisitBranchesExact(branches[1..], isMatch, from + 1, at, v);
      forall k | 0 <= k < |branches| - 1
        ensures branches[1..][k] == branches[k + 1]
      {
      }
    }
  }

  lemma {:induction false} VisitSuitesExact(s: Stmt, at: Address, v: Visit)
    ensures v in VisitSuites(s, at) <==>
            && at < v.at
            && Suite(s, v.at[|at|].slot).Some?
            && VisitedIn(Suite(s, v.at[|at|].slot).value, v.at[|at|].slot, 0, at, v)
    decreases s, 0
  {
    VisitSuiteExact(s.body, InBody, 0, at, v);
    VisitBranchesExact(s.branches, s.head.Match?, 0, at, v);
    VisitSuiteExact(s.orelse, InOrelse, 0, at, v);
    VisitSuiteExact(s.finalbody, InFinalbody, 0, at, v);
    var inBranch := InSomeBranch(s.branches, s.head.Match?, 0, at, v);
    if at < v.at {
      match v.at[|at|].slot
      case InHandler(k) =>
        if k < |s.branches| && s.head.Try? {
          assert inBranch <==> VisitedIn(s.branches[k].body, InHandler(k), 0, at, v);
        }
      case InCase(k) =>
        if k < |s.branches| && s.head.Match? {
          assert inBranch <==> VisitedIn(s.branches[k].body, InCase(k), 0, at, v);
        }
      case _ =>
        assert !inBranch;
    }
  }

  /** The traversal visits a statement exactly when an entered path leads to it, and notes that path. */
  lemma {:induction false} VisitsExact(s: Stmt, at: Address, v: Visit)
    ensures v in Visits(s, at) <==> VisitedAt(s, at, v)
    decreases s, 1
  {
    VisitSuitesExact(s, at, v);
    if at < v.at {
      var step := v.at[|at|];
      assert v.at[|at|..][1..] == v.at[|at + [step]|..];
      PrefixStep(at, step, v.at);
      assert v != Visit(at, s);
    } else if at <= v.at {
      assert v.at == at && v.at[|at|..] == [];
    }
  }

  // ---------- the visits come in document order ----------

  ghost predicate InOrder(visits: seq<Visit>) {
    forall i, j :: 0 <= i < j < |visits| ==> AddressBefore(visits[i].at, visits[j].at)
  }

  lemma {:induction false} OrderAppend(a: seq<Visit>, b: seq<Visit>)
    requires InOrder(a) && InOrder(b)
    requires forall v, w :: v in a && w in b ==> AddressBefore(v.at, w.at)
    ensures InOrder(a + b)
  {
    forall i, j | 0 <= i < j < |a + b| ensures AddressBefore((a + b)[i].at, (a + b)[j].at) {
      if i < |a| && |a| <= j {
        assert (a + b)[i] in a && (a + b)[j] in b;
      }
    }
  }

  lemma {:induction false} SuiteInOrder(suite: seq<Stmt>, slot: Slot, from: nat, at: Address)
    ensures InOrder(VisitSuite(suite, slot, from, at))
    decreases suite, 0
  {
    if suite != [] {
      var step := Step(slot, from);
      VisitsInOrder(suite[0], at + [step]);
      SuiteInOrder(suite[1..], slot, from + 1, at);
      forall v, w | v in Visits(suite[0], at + [step]) && w in VisitSuite(suite[1..], slot, from + 1, at)
        ensures AddressBefore(v.at, w.at)
      {
        VisitsExact(suite[0], at + [step], v);
        VisitSuiteExact(suite[1..], slot, from + 1, at, w);
        assert v.at[|at|] == step;
        BeforeParted(at, v.at, w.at);
      }
      OrderAppend(Visits(suite[0], at + [step]), VisitSuite(suite[1..], slot, from + 1, at));
    }
  }

  lemma {:induction false} BranchesInOrder(branches: seq<Branch>, isMatch: bool, from: nat, at: Address)
    ensures InOrder(VisitBranches(branches, isMatch, from, at))
    decreases branches, 0
  {
    if branches != [] {
      SuiteInOrder(branches[0].body, BranchSlotOf(isMatch, from), 0, at);
      BranchesInOrder(branches[1..], isMatch, from + 1, at);
      forall v, w | v in VisitSuite(branches[0].body, BranchSlotOf(isMatch, from), 0, at)
                    && w in VisitBranches(branches[1..], isMatch, from + 1, at)
        ensures AddressBefore(v.at, w.at)
      {
        VisitSuiteExact(branches[0].body, BranchSlotOf(isMatch, from), 0, at, v);
        VisitBranchesExact(branches[1..], isMatch, from + 1, at, w);
        BeforeParted(at, v.at, w.at);
      }
      OrderAppend(VisitSuite(branches[0].body, BranchSlotOf(isMatch, from), 0, at),
                  VisitBranches(branches[1..], isMatch, from + 1, at));
    }
  }

  /** Visits that lie in the suites of the statement at `at` whose rank is one of those given. */
  ghost predicate Ranked(visits: seq<Visit>, at: Address, low: nat, high: nat) {
    forall v :: v in visits ==> at < v.at && low <= Rank(v.at[|at|].slot).0 <= high
  }

  lemma {:induction false} RankedAppend(a: seq<Visit>, b: seq<Visit>, at: Address, low: nat, high: nat)
    requires low <= high && InOrder(a) && InOrder(b) && Ranked(a, at, low, high) && Ranked(b, at, high + 1, high + 1)
    ensures InOrder(a + b) && Ranked(a + b, at, low, high + 1)
  {
    forall v, w | v in a && w in b ensures AddressBefore(v.at, w.at) {
      BeforeParted(at, v.at, w.at);
    }
    OrderAppend(a, b);
  }

  lemma {:induction false} SuiteRanked(suite: seq<Stmt>, slot: Slot, at: Address)
    ensures Ranked(VisitSuite(suite, slot, 0, at), at, Rank(slot).0, Rank(slot).0)
  {
    forall v | v in VisitSuite(suite, slot, 0, at) ensures at < v.at && v.at[|at|].slot == slot {
      VisitSuiteExact(suite, slot, 0, at, v);
    }
  }

  lemma {:induction false} SuitesInOrder(s: Stmt, at: Address)
    ensures InOrder(VisitSuites(s, at)) && Ranked(VisitSuites(s, at), at, 0, 3)
    decreases s, 0
  {
    var body := SuiteIf(HasBody(s.head), s.body, InBody, at);
    var branches := if s.head.Try? || s.head.Match? then VisitBranches(s.branches, s.head.Match?, 0, at) else [];
    var orelse := SuiteIf(HasOrelse(s.head), s.orelse, InOrelse, at);
    var final := SuiteIf(s.head.Try?, s.finalbody, InFinalbody, at);
    SuiteInOrder(s.body, InBody, 0, at);
    SuiteInOrder(s.orelse, InOrelse, 0, at);
    SuiteInOrder(s.finalbody, InFinalbody, 0, at);
    BranchesInOrder(s.branches, s.head.Match?, 0, at);
    SuiteRanked(s.body, InBody, at);
    SuiteRanked(s.orelse, InOrelse, at);
    SuiteRanked(s.finalbody, InFinalbody, at);
    forall v | v in branches ensures at < v.at && Rank(v.at[|at|].slot).0 == 1 {
      VisitBranchesExact(s.branches, s.head.Match?, 0, at, v);
    }
    hide VisitSuite, VisitBranches;
    RankedAppend(body, branches, at, 0, 0);
    RankedAppend(body + branches, orelse, at, 0, 1);
    RankedAppend(body + branches + orelse, final, at, 0, 2);
  }

  /** Visits come in document order, so no statement is visited twice. */
  lemma {:induction false} VisitsInOrder(s: Stmt, at: Address)
    ensures InOrder(Visits(s, at))
    decreases s, 1
  {
    if Entered(s) {
      SuitesInOrder(s, at);
      forall v | v in VisitSuites(s, at) ensures AddressBefore(at, v.at) {
        VisitSuitesExact(s, at, v);
        BeforeInside(at, v.at);
      }
      hide VisitSuites;
      OrderAppend([Visit(at, s)], VisitSuites(s, at));
    }
  }

  // ---------- the round trip ----------

  /** Indexes into the suites of a module are machine words. */
  ghost predicate FitsMachine(m: Module) {
    forall at :: StmtAt(m, at).Some? ==> MachineSized(at)
  }

  lemma {:induction false} ModuleVisitsExact(m: Module, v: Visit)
    requires m.head.ModuleHead?
    ensures v in ModuleVisits(m) <==> v.at != [] && VisitedAt(m, [], v)
  {
    VisitSuitesExact(m, [], v);
    assert VisitSuites(m, []) == ModuleVisits(m);
    VisitsExact(m, [], v);
  }

  /** A path that extraction prints for a statement leads the materializer to that very statement. */
  lemma {:induction false} VisitedStatementsAreFound(m: Module, v: Visit)
    requires m.head.ModuleHead? && FitsMachine(m) && v in ModuleVisits(m)
    ensures CloneStmtAtPath(m, PrintAddress(v.at)) == Ok(v.stmt)
  {
    ModuleVisitsExact(m, v);
    assert v.at[0..] == v.at;
    PrintedAddressFound(m, v.at);
  }

  /** Extraction prints no path twice. */
  lemma {:induction false} VisitedPathsDiffer(m: Module, i: nat, j: nat)
    requires m.head.ModuleHead? && FitsMachine(m) && i < j < |ModuleVisits(m)|
    ensures PrintAddress(ModuleVisits(m)[i].at) != PrintAddress(ModuleVisits(m)[j].at)
  {
    var visits := ModuleVisits(m);
    SuiteInOrder(m.body, InBody, 0, []);
    NotBeforeItself(visits[i].at);
    forall v | v in visits ensures MachineSized(v.at) {
      ModuleVisitsExact(m, v);
      assert v.at[0..] == v.at;
    }
    assert visits[i] in visits && visits[j] in visits;
    if PrintAddress(visits[i].at) == PrintAddress(visits[j].at) {
      PrintAddressInjective(visits[i].at, visits[j].at);
    }
  }

  /** What the materializer can reach, extraction visits, except inside the body of a parameter payload. */
  lemma {:induction false} ReachableStatementsAreVisited(m: Module, at: Address)
    requires m.head.ModuleHead? && at != [] && StmtAt(m, at).Some?
    ensures Visit(at, StmtAt(m, at).value) in ModuleVisits(m) <==> AllEntered(m, at)
  {
    ModuleVisitsExact(m, Visit(at, StmtAt(m, at).value));
    assert at[0..] == at;
  }

  // ---------- the splice targets of a template ----------

  /** The statement path of a block or `elif` marker. */
  function StatementPath(inventoryKind: string, astPath: string): Result<string> {
    if inventoryKind == "hole.block" then StatementPathForLocator(astPath)
    else if inventoryKind == "hole.elif" then IfStatementPathForElifLocator(astPath)
    else Err(BadPath)
  }

  /** The address of the statement that a block or `elif` record will replace. */
  function TargetAddress(inventoryKind: string, astPath: string): Result<Address> {
    var path :- StatementPath(inventoryKind, astPath);
    var segments :- ParseAstPath(path);
    match ToAddress(segments)
    case None => Err(BadPath)
    case Some(at) => Ok(at)
  }

  predicate IsStatementTarget(r: Marker) {
    r.inventoryKind == "hole.block" || r.inventoryKind == "hole.elif"
  }

  function Target(r: Marker): Result<Address> {
    TargetAddress(r.inventoryKind, r.astPath)
  }

  /** The record replaces the visited statement. */
  predicate RecordReplaces(r: Marker, v: Visit) {
    Target(r) == Ok(v.at) && (r.inventoryKind == "hole.elif" ==> v.stmt.head.If?)
  }

  lemma {:induction false} TargetsOfLocators(at: Address)
    requires at != [] && MachineSized(at)
    ensures TargetAddress("hole.block", PrintAddress(at) + "/value") == Ok(at)
    ensures TargetAddress("hole.block", PrintAddress(at)) == Ok(at)
    ensures TargetAddress("hole.elif", PrintAddress(at) + "/test") == Ok(at)
  {
    LocatorsLeadBack(at);
    SegmentsPrintable(at);
    ParsePrint(Segments(at));
    AddressOfSegments(at);
  }

  lemma {:induction false} FormTargets(form: MarkerForm, name: string, at: Address)
    requires at != [] && MachineSized(at)
    ensures var r := Locate(form, name, PrintAddress(at));
            && (IsStatementTarget(r) <==> form != ElifProduction)
            && (IsStatementTarget(r) ==> TargetAddress(r.inventoryKind, r.astPath) == Ok(at))
            && (r.inventoryKind == "hole.elif" <==> form == ElifTest)
  {
    TargetsOfLocators(at);
    assert "hole.block" != "hole.elif" && "production.elif" != "hole.block" && "production.elif" != "hole.elif";
  }

  lemma {:induction false} MarkerTargets(v: Visit, r: Marker)
    requires v.at != [] && MachineSized(v.at) && MarkersOf(v.stmt, PrintAddress(v.at)).Ok?
    requires r in MarkersOf(v.stmt, PrintAddress(v.at)).value && IsStatementTarget(r)
    ensures RecordReplaces(r, v)
  {
    var form := FormOf(v.stmt).value;
    ElifTestsAreIfs(v.stmt);
    hide FormOf, PrintAddress, TargetAddress, Locate;
    FormTargets(form.value.0, form.value.1, v.at);
  }

  lemma {:induction false} ElifTestsAreIfs(s: Stmt)
    ensures FormOf(s).Ok? && FormOf(s).value.Some? && FormOf(s).value.value.0 == ElifTest ==> s.head.If?
  {
    hide IsCallNamed, FirstNameArg;
  }

  // ---------- which visit each record comes from ----------

  function MarkersAt(v: Visit): Result<seq<Marker>> {
    MarkersOf(v.stmt, PrintAddress(v.at))
  }

  /** Record `k` is the marker of visit `owners[k]`, and no other visit has one. */
  ghost predicate Owns(visits: seq<Visit>, records: seq<Marker>, owners: seq<nat>) {
    && |owners| == |records|
    && (forall k :: 0 <= k < |owners| ==> owners[k] < |visits| && MarkersAt(visits[owners[k]]) == Ok([records[k]]))
    && (forall k, l :: 0 <= k < l < |owners| ==> owners[k] < owners[l])
    && (forall v: nat :: v < |visits| ==> v in owners || MarkersAt(visits[v]) == Ok([]))
  }

  /** The records are those of the visited markers, each once and in the order of the visits. */
  lemma {:induction false} RecordsExact(visits: seq<Visit>, records: seq<Marker>) returns (owners: seq<nat>)
    requires RecordsOf(visits) == Ok(records)
    ensures Owns(visits, records, owners)
  {
    if visits == [] {
      NoRecords();
      owners := [];
    } else {
      var n := |visits| - 1;
      var before, own := LastRecords(visits, records);
      var some := RecordsExact(visits[..n], before);
      hide RecordsOf, Owns, MarkersAt;
      OneMoreOwner(visits, before, own, some);
      owners := if own == [] then some else some + [n];
    }
  }

  lemma {:induction false} OneMoreOwner(visits: seq<Visit>, before: seq<Marker>, own: seq<Marker>, some: seq<nat>)
    requires visits != [] && Owns(visits[..|visits| - 1], before, some)
    requires MarkersAt(visits[|visits| - 1]) == Ok(own) && |own| <= 1
    ensures Owns(visits, before + own, if own == [] then some else some + [|visits| - 1])
  {
    hide MarkersAt;
    var n := |visits| - 1;
    var owners, records := if own == [] then some else some + [n], before + own;
    assert forall v :: 0 <= v < n ==> visits[..n][v] == visits[v];
    forall v: nat | v < |visits| ensures v in owners || MarkersAt(visits[v]) == Ok([]) {
      if v == n && own != [] {
        assert owners[|some|] == n;
      }
      if v < n {
        assert v in some || MarkersAt(visits[..n][v]) == Ok([]);
      }
    }
    if own != [] {
      assert own == [own[0]];
    }
  }

  lemma {:induction false} LastRecords(visits: seq<Visit>, records: seq<Marker>) returns (before: seq<Marker>, own: seq<Marker>)
    requires visits != [] && RecordsOf(visits) == Ok(records)
    ensures RecordsOf(visits[..|visits| - 1]) == Ok(before) && MarkersAt(visits[|visits| - 1]) == Ok(own)
    ensures records == before + own && |own| <= 1
  {
    var n := |visits| - 1;
    assert visits == visits[..n] + [visits[n]];
    RecordsAppend(visits[..n], [visits[n]]);
    RecordsOfOne(visits[n]);
    hide RecordsOf, PrintAddress, FormOf, Locate;
    before := RecordsOf(visits[..n]).value;
    own := MarkersAt(visits[n]).value;
  }

  lemma {:induction false} NoRecords()
    ensures RecordsOf([]) == Ok([])
  {
    assert Results([]) == [];
  }

  /** A traversal fails exactly when it comes to a malformed marker. */
  lemma {:induction false} RecordsFailIff(visits: seq<Visit>)
    ensures RecordsOf(visits).Err? <==> exists v :: 0 <= v < |visits| && MarkersAt(visits[v]).Err?
  {
    hide MarkersAt;
    if visits == [] {
      NoRecords();
    } else {
      var n := |visits| - 1;
      RecordsFailIff(visits[..n]);
      assert visits == visits[..n] + [visits[n]];
      RecordsAppend(visits[..n], [visits[n]]);
      assert RecordsOf([visits[n]]) == MarkersAt(visits[n]) by { OneVisit(visits[n]); }
      hide RecordsOf;
      if v :| 0 <= v < n && MarkersAt(visits[..n][v]).Err? {
        assert MarkersAt(visits[v]).Err?;
      }
      if v :| 0 <= v < |visits| && MarkersAt(visits[v]).Err? {
        assert v < n ==> MarkersAt(visits[..n][v]).Err?;
      }
    }
  }

  lemma {:induction false} OneVisit(v: Visit)
    ensures RecordsOf([v]) == MarkersAt(v)
  {
    RecordsOfOne(v);
  }

  /**
   The block and `elif` records of a template name different statements that are all there, in document order, and the
   `elif` records name `if` statements: every record is a valid splice target.
   */
  lemma {:induction false} ExtractedTargetsAreValid(m: Module, records: seq<Marker>, i: nat)
    requires m.head.ModuleHead? && FitsMachine(m) && RecordsOf(ModuleVisits(m)) == Ok(records)
    requires i < |records| && IsStatementTarget(records[i])
    ensures Target(records[i]).Ok?
    ensures var at := Target(records[i]).value;
            && at != [] && StmtAt(m, at).Some?
            && (records[i].inventoryKind == "hole.elif" ==> StmtAt(m, at).value.head.If?)
    ensures forall j :: 0 <= j < |records| && j != i && IsStatementTarget(records[j]) ==> Target(records[j]) != Target(records[i])
    ensures forall j :: i < j < |records| && IsStatementTarget(records[j]) ==>
              Target(records[j]).Ok? && AddressBefore(Target(records[i]).value, Target(records[j]).value)
  {
    var visits := ModuleVisits(m);
    var owners := RecordsExact(visits, records);
    SuiteInOrder(m.body, InBody, 0, []);
    hide VisitSuite, RecordsOf, Target, MarkersOf, PrintAddress, IsStatementTarget;
    forall k | 0 <= k < |records|
      ensures var v := visits[owners[k]]; v.at != [] && StmtAt(m, v.at) == Some(v.stmt)
      ensures IsStatementTarget(records[k]) ==> RecordReplaces(records[k], visits[owners[k]])
    {
      OwnedRecord(m, records[k], owners[k]);
    }
    forall j | 0 <= j < |records| && j != i && IsStatementTarget(records[j])
      ensures Target(records[j]) != Target(records[i])
      ensures i < j ==> Target(records[j]).Ok? && AddressBefore(Target(records[i]).value, Target(records[j]).value)
    {
      var a, b := visits[owners[i]].at, visits[owners[j]].at;
      assert Target(records[j]) == Ok(b) && Target(records[i]) == Ok(a);
      NotBeforeItself(a);
    }
  }

  lemma {:induction false} OwnedRecord(m: Module, r: Marker, k: nat)
    requires m.head.ModuleHead? && FitsMachine(m) && k < |ModuleVisits(m)| && MarkersAt(ModuleVisits(m)[k]) == Ok([r])
    ensures var v := ModuleVisits(m)[k];
            && v.at != [] && StmtAt(m, v.at) == Some(v.stmt)
            && (IsStatementTarget(r) ==> RecordReplaces(r, v))
  {
    hide VisitSuite, Target, FormOf, PrintAddress, IsStatementTarget;
    var v := ModuleVisits(m)[k];
    assert v in ModuleVisits(m);
    ModuleVisitsExact(m, v);
    assert v.at[0..] == v.at;
    if IsStatementTarget(r) {
      assert r in MarkersOf(v.stmt, PrintAddress(v.at)).value;
      MarkerTargets(v, r);
    }
  }
}
