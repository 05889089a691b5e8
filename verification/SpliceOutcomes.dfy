/** Which splices succeed, and why the templates that extraction describes always meet the terms of the splice theorem. */
module SpliceOutcomes {
  import opened Wrappers
  import opened Ast
  import opened Extraction
  import opened LocatorRoundTrip
  import opened Splice
  import opened Templates
  import opened EdgeApplication
  import opened EdgeTargets
  import opened SpliceTheorem

  // ---------- malformed payloads ----------

  lemma {:induction false} OneFailureFails(m: Module, records: seq<Record>, groups: seq<KeyedGroup>, i: nat, other: OtherStep)
    requires i < |groups|
    requires forall tree :: ApplyGroup(tree, records, groups[i].group, other).Err?
    ensures ApplyAll(m, records, groups, other).Err?
    decreases i
  {
    hide ApplyGroup;
    var first := ApplyGroup(m, records, groups[0].group, other);
    if i > 0 && first.Ok? {
      assert groups[1..][i - 1] == groups[i];
      OneFailureFails(first.value, records, groups[1..], i - 1, other);
    }
  }

  /** A malformed `elif` payload fails the whole occurrence, whatever the other edges do. */
  lemma {:induction false} MalformedPayloadFails(m: Module, records: seq<Record>, edges: seq<EdgeInput>, other: OtherStep)
    requires Spliceable(m, records, edges) && !PayloadsOk(edges)
    ensures ApplyEdges(m, records, edges, other).Err?
  {
    var e :| e in edges && e.operation == AppendClause && ClauseOf(e).Err?;
    GroupsPartition(edges);
    var g :| g in GroupsOf(edges) && g.target == e.target && g.operation == e.operation;
    GroupFacts(m, records, edges, g);
    EdgesOfMembers(edges, g.target, g.operation);
    ClausesOkIff(g.edges);
    assert ValidEdge(m, records, e);
    var at := AddressOf(records, g.target, g.operation).value;
    hide ClauseOf, ClausesOf, AddressOf, StmtAt, GroupsOf, KeyGroup, Before, ApplyGroup, Spliceable, Partition;
    forall tree ensures ApplyGroup(tree, records, g, other).Err? {
      ElifGroupApplied(tree, records, g, at, other);
    }
    var ordered := OrderedGroupsFacts(m, records, edges);
    var k :| k in ordered && k.group == g;
    var i :| 0 <= i < |ordered| && ordered[i] == k;
    ApplyIsOrdered(m, records, edges, other);
    OneFailureFails(m, records, ordered, i, other);
  }

  /** When every edge splices statements, the edges succeed exactly when all their payloads are well formed. */
  lemma {:induction false} StatementEdgesOutcome(m: Module, records: seq<Record>, edges: seq<EdgeInput>, other: OtherStep)
    requires Spliceable(m, records, edges) && forall e :: e in edges ==> SplicesStatements(e.operation)
    ensures ApplyEdges(m, records, edges, other).Ok? <==> PayloadsOk(edges)
    ensures PayloadsOk(edges) ==> ApplyEdges(m, records, edges, other) == Ok(SubstInside(m, TargetsOf(records, edges)))
  {
    if PayloadsOk(edges) {
      var statements, others := EdgesRefineSubstitution(m, records, edges, other);
      NoOthers(m, records, edges, statements, others);
    } else {
      MalformedPayloadFails(m, records, edges, other);
    }
  }

  lemma {:induction false} NoOthers(m: Module, records: seq<Record>, edges: seq<EdgeInput>, statements: seq<KeyedGroup>, others: seq<KeyedGroup>)
    requires Spliceable(m, records, edges) && forall e :: e in edges ==> SplicesStatements(e.operation)
    requires OrderedGroups(records, edges) == Ok(statements + others) && StatementsThenOthers(statements, others)
    ensures others == []
  {
    var ordered := OrderedGroupsFacts(m, records, edges);
    hide GroupsOf, Before, KeyGroup, OrderedGroups, Spliceable;
    if others != [] {
      assert (statements + others)[|statements|] == others[0];
      assert others[0] in ordered && others[0] in others;
      GroupFacts(m, records, edges, others[0].group);
    }
  }

  // ---------- extracted templates ----------

  function AsMarker(r: Record): Marker {
    Marker(r.astPath, r.inventoryKind, r.resourceName)
  }

  /** The block and `elif` records of a template are markers that extraction finds in its module, each recorded once. */
  ghost predicate Extracted(t: Template) {
    && t.tree.head.ModuleHead? && FitsMachine(t.tree)
    && RecordsOf(ModuleVisits(t.tree)).Ok?
    && (forall r :: r in t.records && IsStatementTarget(AsMarker(r)) ==> AsMarker(r) in RecordsOf(ModuleVisits(t.tree)).value)
    && (forall i, j :: 0 <= i < j < |t.records| && IsStatementTarget(AsMarker(t.records[i])) ==> AsMarker(t.records[i]) != AsMarker(t.records[j]))
  }

  /** Edges to records of one occurrence, each with the operation for the kind of its record. */
  ghost predicate EdgesFitRecords(records: seq<Record>, edges: seq<EdgeInput>, occurrence: nat) {
    forall e :: e in edges ==>
      && e.target.occurrence == occurrence
      && e.target.record < |records|
      && e.operation == OperationForKind(records[e.target.record].inventoryKind)
  }

  lemma {:induction false} KindOfOperation(inventoryKind: string)
    ensures OperationForKind(inventoryKind) == SpliceBodyAtMarker <==> inventoryKind == "hole.block"
    ensures OperationForKind(inventoryKind) == AppendClause <==> inventoryKind == "hole.elif"
  {
    hide StartsWith;
    assert "hole.block" != "hole.elif" && "hole.elif" != "hole.params" && "hole.elif" != "hole.expr" && "hole.block" != "hole.expr";
  }

  lemma {:induction false} ExtractedRecord(t: Template, k: nat) returns (i: nat)
    requires Extracted(t) && k < |t.records| && IsStatementTarget(AsMarker(t.records[k]))
    ensures var markers := RecordsOf(ModuleVisits(t.tree)).value;
            i < |markers| && markers[i] == AsMarker(t.records[k])
  {
    var markers := RecordsOf(ModuleVisits(t.tree)).value;
    assert t.records[k] in t.records;
    i :| 0 <= i < |markers| && markers[i] == AsMarker(t.records[k]);
  }

  /** The address that an edge to an extracted record replaces is there, and no other record has it. */
  lemma {:induction false} ExtractedEdge(t: Template, e: EdgeInput)
    requires Extracted(t) && EdgesFitRecords(t.records, [e], e.target.occurrence)
    ensures ValidEdge(t.tree, t.records, e)
    ensures SplicesStatements(e.operation) ==>
              var r := AsMarker(t.records[e.target.record]);
              IsStatementTarget(r) && EdgeAddress(t.records, e) == Target(r)
  {
    assert e in [e];
    KindOfOperation(t.records[e.target.record].inventoryKind);
    if SplicesStatements(e.operation) {
      var i := ExtractedRecord(t, e.target.record);
      hide Target, RecordsOf, ModuleVisits, TargetAddress, OperationForKind, StmtAt;
      ExtractedTargetsAreValid(t.tree, RecordsOf(ModuleVisits(t.tree)).value, i);
      AddressIsTarget(t.records, e);
    }
  }

  lemma {:induction false} AddressIsTarget(records: seq<Record>, e: EdgeInput)
    requires e.target.record < |records|
    requires records[e.target.record].inventoryKind == if e.operation == AppendClause then "hole.elif" else "hole.block"
    ensures EdgeAddress(records, e) == Target(AsMarker(records[e.target.record]))
  {
    hide TargetAddress;
  }

  /** Records of one template that name the same statement are the same record. */
  lemma {:induction false} ExtractedTargetsDiffer(t: Template, k: nat, l: nat)
    requires Extracted(t) && k < |t.records| && l < |t.records| && k != l
    requires IsStatementTarget(AsMarker(t.records[k])) && IsStatementTarget(AsMarker(t.records[l]))
    ensures Target(AsMarker(t.records[k])) != Target(AsMarker(t.records[l]))
  {
    var i := ExtractedRecord(t, k);
    var j := ExtractedRecord(t, l);
    assert AsMarker(t.records[k]) != AsMarker(t.records[l]);
    hide Target, RecordsOf, ModuleVisits;
    ExtractedTargetsAreValid(t.tree, RecordsOf(ModuleVisits(t.tree)).value, i);
  }

  /** Every template that extraction describes meets the terms of the splice theorem. */
  lemma {:induction false} ExtractedTemplatesAreSpliceable(t: Template, edges: seq<EdgeInput>, occurrence: nat)
    requires Extracted(t) && EdgesFitRecords(t.records, edges, occurrence)
    ensures Spliceable(t.tree, t.records, edges)
  {
    hide Extracted, Target, EdgeAddress, ValidEdge, OperationForKind;
    forall e | e in edges
      ensures ValidEdge(t.tree, t.records, e)
      ensures SplicesStatements(e.operation) ==>
                IsStatementTarget(AsMarker(t.records[e.target.record]))
                && EdgeAddress(t.records, e) == Target(AsMarker(t.records[e.target.record]))
    {
      ExtractedEdge(t, e);
    }
    forall e, f | e in edges && f in edges && SplicesStatements(e.operation) && SplicesStatements(f.operation)
                  && EdgeAddress(t.records, e) == EdgeAddress(t.records, f)
      ensures e.target == f.target && e.operation == f.operation
    {
      if e.target.record != f.target.record {
        ExtractedTargetsDiffer(t, e.target.record, f.target.record);
      }
    }
  }
}
