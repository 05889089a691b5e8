/** The append-only assembly state with its six indexes (occurrence_store.rs). */
module AssemblyState {
  import opened Wrappers
  import opened Templates
  import opened Assembly
  import opened AssemblyIndexes

  class NativeAssemblyState {
    var occurrences: seq<Occurrence>
    var edges: seq<Edge>
    var overlays: seq<Overlay>
    var satisfiedRecords: set<RecordKey>
    var deadRecords: set<RecordKey>
    var byBuildPath: map<seq<string>, seq<RecordKey>>
    var bySurface: map<string, seq<RecordKey>>
    var byResourceName: map<string, seq<RecordKey>>
    var byInventoryKind: map<string, seq<RecordKey>>
    var byOwner: map<seq<string>, seq<RecordKey>>
    var byNameAndKind: map<(string, string), seq<RecordKey>>

    ghost predicate Indexes(rows: seq<Row>)
      reads this`byBuildPath, this`bySurface, this`byResourceName, this`byInventoryKind, this`byOwner, this`byNameAndKind
    {
      && Agrees(byBuildPath, rows, BuildPathOf)
      && Agrees(bySurface, rows, SurfaceOf)
      && Agrees(byResourceName, rows, NameOf)
      && Agrees(byInventoryKind, rows, KindOf)
      && Agrees(byOwner, rows, OwnerOf)
      && Agrees(byNameAndKind, rows, NameAndKindOf)
    }

    /** Every index agrees with a scan of all records. */
    ghost predicate Valid(templates: seq<Template>)
      reads this
    {
      Known(templates, occurrences) && Indexes(AllRows(templates, occurrences))
    }

    /** In every valid state each of the six indexes holds, under each key, exactly the records with it, ascending, once each. */
    lemma {:induction false} IndexesExact(templates: seq<Template>)
      requires Valid(templates)
      ensures Exact(templates, occurrences, byBuildPath, BuildPathOf)
      ensures Exact(templates, occurrences, bySurface, SurfaceOf)
      ensures Exact(templates, occurrences, byResourceName, NameOf)
      ensures Exact(templates, occurrences, byInventoryKind, KindOf)
      ensures Exact(templates, occurrences, byOwner, OwnerOf)
      ensures Exact(templates, occurrences, byNameAndKind, NameAndKindOf)
    {
      hide Agrees, Exact, AllRows;
      AgreesIsExact(templates, occurrences, byBuildPath, BuildPathOf);
      AgreesIsExact(templates, occurrences, bySurface, SurfaceOf);
      AgreesIsExact(templates, occurrences, byResourceName, NameOf);
      AgreesIsExact(templates, occurrences, byInventoryKind, KindOf);
      AgreesIsExact(templates, occurrences, byOwner, OwnerOf);
      AgreesIsExact(templates, occurrences, byNameAndKind, NameAndKindOf);
    }

    function Value(): State
      reads this
    {
      State(occurrences, edges, overlays, satisfiedRecords, deadRecords)
    }

    constructor ()
      ensures Value() == State([], [], [], {}, {})
      ensures forall templates :: Valid(templates)
    {
      occurrences, edges, overlays, satisfiedRecords, deadRecords := [], [], [], {}, {};
      byBuildPath, bySurface, byResourceName, byInventoryKind, byOwner, byNameAndKind := map[], map[], map[], map[], map[], map[];
    }

    /** Adds one record to the indexes. */
    method AppendToIndexes(buildPath: seq<string>, record: Record, key: RecordKey)
      modifies this`byBuildPath, this`bySurface, this`byResourceName, this`byInventoryKind, this`byOwner, this`byNameAndKind
      ensures forall rows {:trigger old(Indexes(rows))} {:trigger Indexes(rows + [Row(key, buildPath, record)])} ::
                old(Indexes(rows)) ==> Indexes(rows + [Row(key, buildPath, record)])
    {
      byBuildPath := byBuildPath[buildPath := Entry(byBuildPath, buildPath) + [key]];
      bySurface := bySurface[record.surfaceKey := Entry(bySurface, record.surfaceKey) + [key]];
      if record.resourceName != "" {
        byResourceName := byResourceName[record.resourceName := Entry(byResourceName, record.resourceName) + [key]];
        if record.inventoryKind != "" {
          var both := (record.resourceName, record.inventoryKind);
          byNameAndKind := byNameAndKind[both := Entry(byNameAndKind, both) + [key]];
        }
      }
      if record.inventoryKind != "" {
        byInventoryKind := byInventoryKind[record.inventoryKind := Entry(byInventoryKind, record.inventoryKind) + [key]];
      }
      byOwner := byOwner[record.codeOwner := Entry(byOwner, record.codeOwner) + [key]];
      ghost var row := Row(key, buildPath, record);
      hide Agrees, KeysWith;
      assert byBuildPath == Push(old(byBuildPath), BuildPathOf(row), key);
      assert bySurface == Push(old(bySurface), SurfaceOf(row), key);
      assert byResourceName == Push(old(byResourceName), NameOf(row), key);
      assert byInventoryKind == Push(old(byInventoryKind), KindOf(row), key);
      assert byOwner == Push(old(byOwner), OwnerOf(row), key);
      assert byNameAndKind == Push(old(byNameAndKind), NameAndKindOf(row), key);
      forall rows | old(Indexes(rows)) ensures Indexes(rows + [row]) {
        AgreesPush(old(byBuildPath), rows, BuildPathOf, row);
        AgreesPush(old(bySurface), rows, SurfaceOf, row);
        AgreesPush(old(byResourceName), rows, NameOf, row);
        AgreesPush(old(byInventoryKind), rows, KindOf, row);
        AgreesPush(old(byOwner), rows, OwnerOf, row);
        AgreesPush(old(byNameAndKind), rows, NameAndKindOf, row);
      }
    }

    /** Appends an occurrence of a template and indexes its records. */
    method AppendOccurrence(templates: seq<Template>, templateIndex: nat, buildPath: seq<string>, parent: Option<nat>) returns (index: nat)
      requires Valid(templates) && templateIndex < |templates|
      modifies this
      ensures Valid(templates)
      ensures index == |old(occurrences)|
      ensures Value() == old(Value()).(occurrences := old(occurrences) + [Occurrence(templateIndex, buildPath, parent, true)])
    {
      hide Indexes, Agrees, KeysWith, AllRows;
      index := |occurrences|;
      ghost var rows := AllRows(templates, occurrences);
      var records := templates[templateIndex].records;
      var occurrence := Occurrence(templateIndex, buildPath, parent, true);
      occurrences := occurrences + [occurrence];
      assert rows + OccurrenceRows(occurrence, index, records, 0) == rows;
      for k := 0 to |records|
        invariant Value() == old(Value()).(occurrences := old(occurrences) + [occurrence])
        invariant Indexes(rows + OccurrenceRows(occurrence, index, records, k))
      {
        ghost var before := rows + OccurrenceRows(occurrence, index, records, k);
        AppendToIndexes(buildPath, records[k], RecordKey(index, k));
        assert rows + OccurrenceRows(occurrence, index, records, k + 1) == before + [Row(RecordKey(index, k), buildPath, records[k])];
      }
      OneMoreOccurrence(templates, old(occurrences), occurrence);
    }

    method AppendEdge(target: RecordKey, source: nat, operation: Operation, order: int) returns (index: nat)
      modifies this`edges
      ensures index == |old(edges)| && edges == old(edges) + [Edge(target, source, operation, order)]
    {
      index := |edges|;
      edges := edges + [Edge(target, source, operation, order)];
    }

    method AppendOverlay(kind: string, sourceLabel: string, target: RecordKey) returns (index: nat)
      modifies this`overlays
      ensures index == |old(overlays)| && overlays == old(overlays) + [Overlay(kind, sourceLabel, target)]
    {
      index := |overlays|;
      overlays := overlays + [Overlay(kind, sourceLabel, target)];
    }

    method MarkSatisfied(key: RecordKey)
      modifies this`satisfiedRecords
      ensures satisfiedRecords == old(satisfiedRecords) + {key}
    {
      satisfiedRecords := satisfiedRecords + {key};
    }
  }
}
