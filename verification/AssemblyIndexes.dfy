/** Secondary indexes over the record rows of an assembly state (occurrence_store.rs), and what it means that they agree. */
module AssemblyIndexes {
  import opened Wrappers
  import opened Templates
  import opened Assembly

  /** One record of one occurrence. */
  datatype Row = Row(key: RecordKey, buildPath: seq<string>, record: Record)

  predicate Known(templates: seq<Template>, occurrences: seq<Occurrence>) {
    forall i :: 0 <= i < |occurrences| ==> occurrences[i].templateIndex < |templates|
  }

  /** The rows of one occurrence, for its first `n` records. */
  function OccurrenceRows(occurrence: Occurrence, i: nat, records: seq<Record>, n: nat): (r: seq<Row>)
    requires n <= |records|
    ensures |r| == n
    ensures forall k :: 0 <= k < n ==> r[k] == Row(RecordKey(i, k), occurrence.buildPath, records[k])
  {
    if n == 0 then []
    else OccurrenceRows(occurrence, i, records, n - 1) + [Row(RecordKey(i, n - 1), occurrence.buildPath, records[n - 1])]
  }

  /** Every row, by occurrence and then by record. */
  function AllRows(templates: seq<Template>, occurrences: seq<Occurrence>): seq<Row>
    requires Known(templates, occurrences)
  {
    if occurrences == [] then []
    else
      var n := |occurrences| - 1;
      var records := templates[occurrences[n].templateIndex].records;
      AllRows(templates, occurrences[..n]) + OccurrenceRows(occurrences[n], n, records, |records|)
  }

  lemma {:induction false} OneMoreOccurrence(templates: seq<Template>, occurrences: seq<Occurrence>, occurrence: Occurrence)
    requires Known(templates, occurrences) && occurrence.templateIndex < |templates|
    ensures var records := templates[occurrence.templateIndex].records;
            && Known(templates, occurrences + [occurrence])
            && AllRows(templates, occurrences + [occurrence]) ==
               AllRows(templates, occurrences) + OccurrenceRows(occurrence, |occurrences|, records, |records|)
  {
    assert (occurrences + [occurrence])[..|occurrences|] == occurrences;
  }

  predicate KeyBefore(a: RecordKey, b: RecordKey) {
    a.occurrence < b.occurrence || (a.occurrence == b.occurrence && a.record < b.record)
  }

  ghost predicate Ascending(rows: seq<Row>) {
    forall i, j :: 0 <= i < j < |rows| ==> KeyBefore(rows[i].key, rows[j].key)
  }

  predicate IsRecord(templates: seq<Template>, occurrences: seq<Occurrence>, key: RecordKey) {
    && key.occurrence < |occurrences|
    && occurrences[key.occurrence].templateIndex < |templates|
    && key.record < |templates[occurrences[key.occurrence].templateIndex].records|
  }

  function RecordOf(templates: seq<Template>, occurrences: seq<Occurrence>, key: RecordKey): Record
    requires IsRecord(templates, occurrences, key)
  {
    templates[occurrences[key.occurrence].templateIndex].records[key.record]
  }

  function RowOf(templates: seq<Template>, occurrences: seq<Occurrence>, key: RecordKey): Row
    requires IsRecord(templates, occurrences, key)
  {
    Row(key, occurrences[key.occurrence].buildPath, RecordOf(templates, occurrences, key))
  }

  /** The rows are in ascending order, and they are exactly the records of the occurrences. */
  lemma {:induction false} RowsAreRecords(templates: seq<Template>, occurrences: seq<Occurrence>)
    requires Known(templates, occurrences)
    ensures var rows := AllRows(templates, occurrences);
            && Ascending(rows)
            && (forall row :: row in rows ==> IsRecord(templates, occurrences, row.key) && row == RowOf(templates, occurrences, row.key))
            && (forall key :: IsRecord(templates, occurrences, key) ==> RowOf(templates, occurrences, key) in rows)
  {
    if occurrences != [] {
      var n := |occurrences| - 1;
      var records := templates[occurrences[n].templateIndex].records;
      var before := AllRows(templates, occurrences[..n]);
      var last := OccurrenceRows(occurrences[n], n, records, |records|);
      var rows := AllRows(templates, occurrences);
      RowsAreRecords(templates, occurrences[..n]);
      forall i, j | 0 <= i < j < |rows| ensures KeyBefore(rows[i].key, rows[j].key) {
        if i < |before| {
          assert rows[i] in before;
        }
      }
      forall row | row in rows ensures IsRecord(templates, occurrences, row.key) && row == RowOf(templates, occurrences, row.key) {
        if row in before {
          assert IsRecord(templates, occurrences[..n], row.key);
        } else {
          assert row in last;
        }
      }
      forall key | IsRecord(templates, occurrences, key) ensures RowOf(templates, occurrences, key) in rows {
        if key.occurrence == n {
          assert last[key.record] == RowOf(templates, occurrences, key);
        } else {
          assert IsRecord(templates, occurrences[..n], key);
        }
      }
    }
  }

  // ---------- indexes ----------

  function Entry<K>(index: map<K, seq<RecordKey>>, k: K): seq<RecordKey> {
    if k in index then index[k] else []
  }

  /** Pushes a record under its key, or leaves the index alone. */
  function Push<K>(index: map<K, seq<RecordKey>>, k: Option<K>, key: RecordKey): map<K, seq<RecordKey>> {
    if k.None? then index else index[k.value := Entry(index, k.value) + [key]]
  }

  function KeysWith<K(==)>(rows: seq<Row>, column: Row -> Option<K>, k: K): seq<RecordKey> {
    if rows == [] then []
    else
      var n := |rows| - 1;
      KeysWith(rows[..n], column, k) + if column(rows[n]) == Some(k) then [rows[n].key] else []
  }

  /** An index holds, under each key, exactly the rows with that key, in row order. */
  ghost predicate Agrees<K(!new)>(index: map<K, seq<RecordKey>>, rows: seq<Row>, column: Row -> Option<K>) {
    && (forall k :: Entry(index, k) == KeysWith(rows, column, k))
    && (forall k :: k in index ==> index[k] != [])
  }

  lemma {:induction false} AgreesPush<K(!new)>(index: map<K, seq<RecordKey>>, rows: seq<Row>, column: Row -> Option<K>, row: Row)
    requires Agrees(index, rows, column)
    ensures Agrees(Push(index, column(row), row.key), rows + [row], column)
  {
    assert (rows + [row])[..|rows|] == rows;
    var after := Push(index, column(row), row.key);
    forall k ensures Entry(after, k) == KeysWith(rows + [row], column, k) {
      assert Entry(index, k) == KeysWith(rows, column, k);
    }
  }

  lemma {:induction false} KeysWithMembers<K>(rows: seq<Row>, column: Row -> Option<K>, k: K)
    ensures forall key :: key in KeysWith(rows, column, k) <==> exists row :: row in rows && row.key == key && column(row) == Some(k)
  {
    if rows != [] {
      var n := |rows| - 1;
      KeysWithMembers(rows[..n], column, k);
      assert rows == rows[..n] + [rows[n]];
    }
  }

  ghost predicate AscendingKeys(keys: seq<RecordKey>) {
    forall i, j :: 0 <= i < j < |keys| ==> KeyBefore(keys[i], keys[j])
  }

  /** Under each key of an index the records come in ascending order, so each is there once. */
  lemma {:induction false} KeysWithAscending<K>(rows: seq<Row>, column: Row -> Option<K>, k: K)
    requires Ascending(rows)
    ensures AscendingKeys(KeysWith(rows, column, k))
  {
    if rows != [] {
      var n := |rows| - 1;
      KeysWithAscending(rows[..n], column, k);
      KeysWithMembers(rows[..n], column, k);
      var before, keys := KeysWith(rows[..n], column, k), KeysWith(rows, column, k);
      forall i, j | 0 <= i < j < |keys| ensures KeyBefore(keys[i], keys[j]) {
        if j == |before| {
          assert before[i] in before;
          var row :| row in rows[..n] && row.key == before[i];
        }
      }
    }
  }

  /** An entry of an index is exactly the records with the attribute, in ascending order and so once each. */
  ghost predicate Exact<K(!new)>(
      templates: seq<Template>, occurrences: seq<Occurrence>, index: map<K, seq<RecordKey>>, column: Row -> Option<K>) {
    && (forall k :: AscendingKeys(Entry(index, k)))
    && (forall k, key :: key in Entry(index, k) <==>
                         IsRecord(templates, occurrences, key) && column(RowOf(templates, occurrences, key)) == Some(k))
  }

  lemma {:induction false} AgreesIsExact<K(!new)>(
      templates: seq<Template>, occurrences: seq<Occurrence>, index: map<K, seq<RecordKey>>, column: Row -> Option<K>)
    requires Known(templates, occurrences) && Agrees(index, AllRows(templates, occurrences), column)
    ensures Exact(templates, occurrences, index, column)
  {
    var rows := AllRows(templates, occurrences);
    RowsAreRecords(templates, occurrences);
    hide AllRows, KeysWith, Ascending, IsRecord, RowOf;
    forall k ensures AscendingKeys(Entry(index, k)) {
      KeysWithAscending(rows, column, k);
    }
    forall k, key
      ensures key in Entry(index, k) <==>
              IsRecord(templates, occurrences, key) && column(RowOf(templates, occurrences, key)) == Some(k)
    {
      assert Entry(index, k) == KeysWith(rows, column, k);
      KeysWithMembers(rows, column, k);
    }
  }

  // ---------- the six columns ----------

  function BuildPathOf(row: Row): Option<seq<string>> {
    Some(row.buildPath)
  }

  function SurfaceOf(row: Row): Option<string> {
    Some(row.record.surfaceKey)
  }

  /** Records without a name or without a kind are left out of the indexes by name and kind. */
  function NameOf(row: Row): Option<string> {
    if row.record.resourceName == "" then None else Some(row.record.resourceName)
  }

  function KindOf(row: Row): Option<string> {
    if row.record.inventoryKind == "" then None else Some(row.record.inventoryKind)
  }

  function OwnerOf(row: Row): Option<seq<string>> {
    Some(row.record.codeOwner)
  }

  function NameAndKindOf(row: Row): Option<(string, string)> {
    if row.record.resourceName == "" || row.record.inventoryKind == "" then None
    else Some((row.record.resourceName, row.record.inventoryKind))
  }
}
