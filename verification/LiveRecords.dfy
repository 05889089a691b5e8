/** Counting the records that are still live (occurrence_store.rs): live and satisfied records together are all records. */
module LiveRecords {
  import opened Wrappers
  import opened Templates
  import opened Assembly
  import opened AssemblyIndexes
  import opened AssemblyState
  import opened Runs

  datatype Standing = Dead | Satisfied | Live

  function RecordState(state: State, key: RecordKey): Result<Standing> {
    if key.occurrence >= |state.occurrences| then Err(StaleHandle)
    else if !state.occurrences[key.occurrence].live || key in state.dead then Ok(Dead)
    else if key in state.satisfied then Ok(Satisfied)
    else Ok(Live)
  }

  function IsLive(state: State, key: RecordKey): nat {
    if RecordState(state, key) == Ok(Live) then 1 else 0
  }

  function CountLive(state: State, keys: seq<RecordKey>): nat {
    if keys == [] then 0 else CountLive(state, keys[..|keys| - 1]) + IsLive(state, keys[|keys| - 1])
  }

  /** The live rows at some build paths. */
  function LiveAt(state: State, rows: seq<Row>, paths: set<seq<string>>): nat {
    if rows == [] then 0
    else
      var n := |rows| - 1;
      LiveAt(state, rows[..n], paths) + if rows[n].buildPath in paths then IsLive(state, rows[n].key) else 0
  }

  function LiveRows(state: State, rows: seq<Row>): nat {
    if rows == [] then 0 else LiveRows(state, rows[..|rows| - 1]) + IsLive(state, rows[|rows| - 1].key)
  }

  lemma {:induction false} CountLast(state: State, keys: seq<RecordKey>, key: RecordKey)
    ensures CountLive(state, keys + [key]) == CountLive(state, keys) + IsLive(state, key)
  {
    assert (keys + [key])[..|keys|] == keys;
  }

  lemma {:induction false} OneMorePath(state: State, rows: seq<Row>, paths: set<seq<string>>, path: seq<string>)
    requires path !in paths
    ensures LiveAt(state, rows, paths + {path}) == LiveAt(state, rows, paths) + CountLive(state, KeysWith(rows, BuildPathOf, path))
  {
    hide IsLive;
    if rows != [] {
      var n := |rows| - 1;
      OneMorePath(state, rows[..n], paths, path);
      var before := KeysWith(rows[..n], BuildPathOf, path);
      CountLast(state, before, rows[n].key);
      assert before + [] == before;
      assert BuildPathOf(rows[n]) == Some(path) <==> rows[n].buildPath == path;
    }
  }

  lemma {:induction false} AllPaths(state: State, rows: seq<Row>, paths: set<seq<string>>)
    requires forall row :: row in rows ==> row.buildPath in paths
    ensures LiveAt(state, rows, paths) == LiveRows(state, rows)
  {
    hide IsLive;
    if rows != [] {
      assert rows[|rows| - 1] in rows;
      AllPaths(state, rows[..|rows| - 1], paths);
    }
  }

  lemma {:induction false} NoPaths(state: State, rows: seq<Row>)
    ensures LiveAt(state, rows, {}) == 0
  {
    if rows != [] {
      NoPaths(state, rows[..|rows| - 1]);
    }
  }

  /** Every build path with a row is a key of the index. */
  lemma {:induction false} PathsIndexed(index: map<seq<string>, seq<RecordKey>>, rows: seq<Row>)
    requires Agrees(index, rows, BuildPathOf)
    ensures forall row :: row in rows ==> row.buildPath in index
  {
    forall row | row in rows ensures row.buildPath in index {
      KeysWithMembers(rows, BuildPathOf, row.buildPath);
      assert row.key in KeysWith(rows, BuildPathOf, row.buildPath);
      assert Entry(index, row.buildPath) == KeysWith(rows, BuildPathOf, row.buildPath);
    }
  }

  /** The keys under one build path are records, so none of them fails. */
  lemma {:induction false} PathKeys(templates: seq<Template>, state: State, index: map<seq<string>, seq<RecordKey>>, path: seq<string>)
    requires Known(templates, state.occurrences) && Agrees(index, AllRows(templates, state.occurrences), BuildPathOf) && path in index
    ensures index[path] == KeysWith(AllRows(templates, state.occurrences), BuildPathOf, path)
    ensures forall key :: key in index[path] ==> key.occurrence < |state.occurrences|
  {
    RowsAreRecords(templates, state.occurrences);
    KeysWithMembers(AllRows(templates, state.occurrences), BuildPathOf, path);
    assert Entry(index, path) == index[path];
  }

  method CountLiveKeys(state: State, keys: seq<RecordKey>) returns (r: Result<nat>)
    ensures (exists key :: key in keys && key.occurrence >= |state.occurrences|) ==> r == Err(StaleHandle)
    ensures (forall key :: key in keys ==> key.occurrence < |state.occurrences|) ==> r == Ok(CountLive(state, keys))
  {
    var found := 0;
    for k := 0 to |keys|
      invariant found == CountLive(state, keys[..k])
      invariant forall key :: key in keys[..k] ==> key.occurrence < |state.occurrences|
    {
      assert keys[..k + 1] == keys[..k] + [keys[k]] && keys[..k + 1][..k] == keys[..k];
      assert keys[k] in keys;
      var standing := RecordState(state, keys[k]);
      if standing.Err? {
        return Err(standing.error);
      }
      if standing.value == Live {
        found := found + 1;
      }
    }
    assert keys[..|keys|] == keys;
    r := Ok(found);
  }

  /** The number of live records, gathered from the index by build path. */
  method LiveRecordCount(templates: seq<Template>, state: NativeAssemblyState) returns (r: Result<nat>)
    requires state.Valid(templates)
    ensures r == Ok(LiveRows(state.Value(), AllRows(templates, state.occurrences)))
  {
    hide Agrees, AllRows, KeysWith, LiveAt, LiveRows, CountLive;
    ghost var rows := AllRows(templates, state.occurrences);
    var value := state.Value();
    RowsAreRecords(templates, state.occurrences);
    PathsIndexed(state.byBuildPath, rows);
    NoPaths(value, rows);
    var count, todo := 0, state.byBuildPath.Keys;
    ghost var done: set<seq<string>> := {};
    while todo != {}
      invariant done + todo == state.byBuildPath.Keys && done !! todo
      invariant count == LiveAt(value, rows, done)
      decreases todo
    {
      var path :| path in todo;
      var found := CountLiveKeys(value, state.byBuildPath[path]);
      PathKeys(templates, value, state.byBuildPath, path);
      if found.Err? {
        return found;
      }
      OneMorePath(value, rows, done, path);
      count, todo := count + found.value, todo - {path};
      done := done + {path};
    }
    AllPaths(value, rows, done);
    r := Ok(count);
  }

  // ---------- conservation ----------

  function KeysOf(rows: seq<Row>): set<RecordKey> {
    set row | row in rows :: row.key
  }

  lemma {:induction false} LiveOrSatisfied(templates: seq<Template>, state: State, rows: seq<Row>)
    requires Sane(templates, state) && Ascending(rows)
    requires forall row :: row in rows ==> row.key.occurrence < |state.occurrences|
    ensures LiveRows(state, rows) + |state.satisfied * KeysOf(rows)| == |rows|
  {
    if rows == [] {
      assert state.satisfied * KeysOf(rows) == {};
    } else {
      var before, last := rows[..|rows| - 1], rows[|rows| - 1];
      LiveOrSatisfied(templates, state, before);
      assert last in rows;
      LiveUnlessSatisfied(templates, state, last.key);
      KeysOfLast(rows);
      hide Sane, Ascending, KeysOf, IsLive;
      OneMoreKey(state.satisfied, KeysOf(before), last.key);
    }
  }

  lemma {:induction false} LiveUnlessSatisfied(templates: seq<Template>, state: State, key: RecordKey)
    requires Sane(templates, state) && key.occurrence < |state.occurrences|
    ensures IsLive(state, key) == if key in state.satisfied then 0 else 1
  {
  }

  lemma {:induction false} KeysOfLast(rows: seq<Row>)
    requires rows != [] && Ascending(rows)
    ensures var n := |rows| - 1;
            KeysOf(rows) == KeysOf(rows[..n]) + {rows[n].key} && rows[n].key !in KeysOf(rows[..n])
  {
    var n := |rows| - 1;
    assert rows == rows[..n] + [rows[n]];
  }

  lemma {:induction false} OneMoreKey<T>(s: set<T>, keys: set<T>, key: T)
    requires key !in keys
    ensures |s * (keys + {key})| == |s * keys| + if key in s then 1 else 0
  {
    assert s * (keys + {key}) == if key in s then s * keys + {key} else s * keys;
  }

  /** In every reachable state, live and satisfied records together are all records. */
  lemma {:induction false} NothingLost(templates: seq<Template>, state: State)
    requires Sane(templates, state)
    ensures LiveRows(state, AllRows(templates, state.occurrences)) + |state.satisfied| == |AllRows(templates, state.occurrences)|
  {
    var rows := AllRows(templates, state.occurrences);
    RowsAreRecords(templates, state.occurrences);
    LiveOrSatisfied(templates, state, rows);
    forall key | key in state.satisfied ensures key in KeysOf(rows) {
      assert RowOf(templates, state.occurrences, key) in rows;
    }
    assert state.satisfied * KeysOf(rows) == state.satisfied;
  }
}
