/** Templates rebuilt from a package (occurrence_store.rs) are templates that extraction describes. */
module RebuiltTemplates {
  import opened Wrappers
  import opened Ast
  import opened Templates
  import opened Extraction
  import opened LocatorRoundTrip
  import SpliceOutcomes
  import Interning

  /** A record with the path of its locator. */
  function RebuiltRecord(t: Interning.NativeTemplate, r: Interning.NativeRecord): Record {
    Record(r.codeOwner, r.inventoryKind, if r.locatorId < |t.locators| then t.locators[r.locatorId].astPath else "", r.resourceName, r.surfaceKey)
  }

  function RebuiltRecords(t: Interning.NativeTemplate): seq<Record> {
    seq(|t.records|, k requires 0 <= k < |t.records| => RebuiltRecord(t, t.records[k]))
  }

  function MarkerOf(e: Interning.Extracted): Marker {
    Marker(e.astPath, e.inventoryKind, e.resourceName)
  }

  function MarkersOfAll(extracted: seq<Interning.Extracted>): seq<Marker> {
    seq(|extracted|, k requires 0 <= k < |extracted| => MarkerOf(extracted[k]))
  }

  /** The statement holes among some markers. */
  function StatementTargets(markers: seq<Marker>): seq<Marker> {
    if markers == [] then []
    else (if IsStatementTarget(markers[0]) then [markers[0]] else []) + StatementTargets(markers[1..])
  }

  lemma {:induction false} TargetPosition(markers: seq<Marker>, i: nat) returns (a: nat)
    requires i < |markers| && IsStatementTarget(markers[i])
    ensures a < |StatementTargets(markers)| && StatementTargets(markers)[a] == markers[i]
    ensures a == |StatementTargets(markers[..i])|
  {
    if i == 0 {
      a := 0;
    } else {
      var b := TargetPosition(markers[1..], i - 1);
      a := b + if IsStatementTarget(markers[0]) then 1 else 0;
      assert markers[..i][1..] == markers[1..][..i - 1];
    }
  }

  lemma {:induction false} TargetsGrow(markers: seq<Marker>, i: nat, j: nat)
    requires i < j <= |markers| && IsStatementTarget(markers[i])
    ensures |StatementTargets(markers[..i])| < |StatementTargets(markers[..j])|
  {
    assert markers[..j][..i] == markers[..i];
    var a := TargetPosition(markers[..j], i);
  }

  /** Where a statement hole comes from: the positions grow with each other. */
  lemma {:induction false} TargetSource(markers: seq<Marker>, a: nat) returns (i: nat)
    requires a < |StatementTargets(markers)|
    ensures i < |markers| && IsStatementTarget(markers[i]) && markers[i] == StatementTargets(markers)[a]
    ensures a == |StatementTargets(markers[..i])|
  {
    if IsStatementTarget(markers[0]) && a == 0 {
      i := 0;
    } else {
      var k := TargetSource(markers[1..], a - if IsStatementTarget(markers[0]) then 1 else 0);
      i := k + 1;
      assert markers[..i][1..] == markers[1..][..k];
    }
  }

  /** When the extracted records hold the statement holes of the module, the template rebuilt from them has what the splice theorem asks. */
  lemma {:induction false} RebuiltIsExtracted(tree: Module, extracted: seq<Interning.Extracted>, key: string, summary: string)
    requires tree.head.ModuleHead? && FitsMachine(tree) && RecordsOf(ModuleVisits(tree)).Ok?
    requires StatementTargets(MarkersOfAll(extracted)) == StatementTargets(RecordsOf(ModuleVisits(tree)).value)
    ensures var t := Interning.NativeTemplate(key, summary, Interning.LocatorsFor(extracted), Interning.RecordsFor(extracted));
            SpliceOutcomes.Extracted(Template(tree, RebuiltRecords(t)))
  {
    var t := Interning.NativeTemplate(key, summary, Interning.LocatorsFor(extracted), Interning.RecordsFor(extracted));
    var records := RebuiltRecords(t);
    var found, markers := MarkersOfAll(extracted), RecordsOf(ModuleVisits(tree)).value;
    RebuiltMarkers(extracted, key, summary);
    hide RecordsOf, ModuleVisits, FitsMachine, StatementTargets, MarkersOfAll, RebuiltRecords, Target, SpliceOutcomes.AsMarker;
    forall r | r in records && IsStatementTarget(SpliceOutcomes.AsMarker(r)) ensures SpliceOutcomes.AsMarker(r) in markers {
      var k :| 0 <= k < |records| && records[k] == r;
      var a := TargetPosition(found, k);
      var i := TargetSource(markers, a);
    }
    forall i, j | 0 <= i < j < |records| && IsStatementTarget(SpliceOutcomes.AsMarker(records[i]))
      ensures SpliceOutcomes.AsMarker(records[i]) != SpliceOutcomes.AsMarker(records[j])
    {
      if IsStatementTarget(found[j]) {
        TwiceInModule(tree, found, markers, i, j);
      }
    }
  }

  lemma {:induction false} RebuiltMarkers(extracted: seq<Interning.Extracted>, key: string, summary: string)
    ensures var t := Interning.NativeTemplate(key, summary, Interning.LocatorsFor(extracted), Interning.RecordsFor(extracted));
            && |RebuiltRecords(t)| == |MarkersOfAll(extracted)|
            && forall k :: 0 <= k < |extracted| ==> SpliceOutcomes.AsMarker(RebuiltRecords(t)[k]) == MarkersOfAll(extracted)[k]
  {
  }

  lemma {:induction false} TwiceInModule(tree: Module, found: seq<Marker>, markers: seq<Marker>, i: nat, j: nat)
    requires tree.head.ModuleHead? && FitsMachine(tree) && RecordsOf(ModuleVisits(tree)) == Ok(markers)
    requires StatementTargets(found) == StatementTargets(markers) && i < j < |found| && IsStatementTarget(found[i]) && IsStatementTarget(found[j])
    ensures found[i] != found[j]
  {
    hide RecordsOf, ModuleVisits, FitsMachine, StatementTargets, Target;
    var a := TargetPosition(found, i);
    var b := TargetPosition(found, j);
    TargetsGrow(found, i, j);
    var k := TargetSource(markers, a);
    var l := TargetSource(markers, b);
    assert k != l;
    ExtractedTargetsAreValid(tree, markers, k);
  }
}
