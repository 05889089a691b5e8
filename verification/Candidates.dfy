/** The indexed candidate query (occurrence_store.rs), and the scan over all records that it answers like. */
module Candidates {
  import opened Wrappers
  import Ast
  import opened Templates
  import opened Assembly
  import opened AssemblyIndexes
  import opened AssemblyState
  import opened PathMatcher

  /** For each occurrence, the names that its identifiers were bound to. */
  type Bindings = map<nat, map<string, string>>

  datatype Query = Query(
    name: Option<string>, buildMatch: Option<seq<string>>, ownerMatch: Option<seq<string>>, kinds: seq<string>, bindings: Bindings)

  // ---------- identifier bindings ----------

  function BindingsAt(bindings: Bindings, i: nat): map<string, string> {
    if i in bindings then bindings[i] else map[]
  }

  /** The bindings that the first `n` overlays make. */
  function OverlayBindings(templates: seq<Template>, state: State, n: nat): Result<Bindings>
    requires n <= |state.overlays|
  {
    if n == 0 then Ok(map[])
    else
      var bindings :- OverlayBindings(templates, state, n - 1);
      var overlay := state.overlays[n - 1];
      if overlay.kind != "identifier" then Ok(bindings)
      else if !IsRecord(templates, state.occurrences, overlay.target) then Err(StaleHandle)
      else
        var name := RecordOf(templates, state.occurrences, overlay.target).resourceName;
        var i := overlay.target.occurrence;
        if name == "" then Err(MissingName) else Ok(bindings[i := BindingsAt(bindings, i)[name := overlay.sourceLabel]])
  }

  /** The bindings of the overlays, with those of the request over them. */
  function AllBindings(templates: seq<Template>, state: State, requested: Bindings): Result<Bindings> {
    var bindings :- OverlayBindings(templates, state, |state.overlays|);
    Ok(map i | i in bindings.Keys + requested.Keys :: BindingsAt(bindings, i) + BindingsAt(requested, i))
  }

  /** Overlay `k` binds a name in an occurrence: the name of the record that it is over. */
  predicate Binds(templates: seq<Template>, state: State, k: nat, i: nat, name: string) {
    && k < |state.overlays| && state.overlays[k].kind == "identifier" && state.overlays[k].target.occurrence == i
    && IsRecord(templates, state.occurrences, state.overlays[k].target)
    && RecordOf(templates, state.occurrences, state.overlays[k].target).resourceName == name
  }

  /** An overlay whose name cannot be read. */
  predicate BindsNothing(templates: seq<Template>, state: State, k: nat) {
    && k < |state.overlays| && state.overlays[k].kind == "identifier"
    && (IsRecord(templates, state.occurrences, state.overlays[k].target) ==>
          RecordOf(templates, state.occurrences, state.overlays[k].target).resourceName == "")
  }

  /** A name stands for the label of the last identifier overlay over a record of that name in the occurrence. */
  lemma {:induction false} BindingMeaning(templates: seq<Template>, state: State, n: nat, i: nat, name: string)
    requires n <= |state.overlays|
    ensures OverlayBindings(templates, state, n).Err? <==> exists k :: 0 <= k < n && BindsNothing(templates, state, k)
    ensures OverlayBindings(templates, state, n).Ok? ==>
              var names := BindingsAt(OverlayBindings(templates, state, n).value, i);
              && (name in names <==> exists k :: 0 <= k < n && Binds(templates, state, k, i, name))
              && forall k :: 0 <= k < n && Binds(templates, state, k, i, name)
                             && (forall j :: k < j < n ==> !Binds(templates, state, j, i, name)) ==>
                   name in names && names[name] == state.overlays[k].sourceLabel
  {
    if n > 0 {
      BindingMeaning(templates, state, n - 1, i, name);
      hide IsRecord;
      var last := n - 1;
      assert OverlayBindings(templates, state, last).Ok? ==>
               (OverlayBindings(templates, state, n).Err? <==> BindsNothing(templates, state, last));
      if OverlayBindings(templates, state, n).Ok? {
        var names, before := BindingsAt(OverlayBindings(templates, state, n).value, i), BindingsAt(OverlayBindings(templates, state, last).value, i);
        if Binds(templates, state, last, i, name) {
          assert names[name] == state.overlays[last].sourceLabel;
        } else {
          assert name in names <==> name in before;
          assert name in names ==> names[name] == before[name];
        }
      }
    }
  }

  /** A request's own bindings come before those of the overlays. */
  lemma {:induction false} RequestedFirst(templates: seq<Template>, state: State, requested: Bindings, i: nat, name: string)
    requires OverlayBindings(templates, state, |state.overlays|).Ok?
    ensures AllBindings(templates, state, requested).Ok?
    ensures var all, overlaid, own :=
              BindingsAt(AllBindings(templates, state, requested).value, i),
              BindingsAt(OverlayBindings(templates, state, |state.overlays|).value, i), BindingsAt(requested, i);
            && (name in all <==> name in own || name in overlaid)
            && (name in own ==> all[name] == own[name])
            && (name in overlaid && name !in own ==> all[name] == overlaid[name])
  {
    hide OverlayBindings;
  }

  function ResolvedName(name: string, bindings: map<string, string>): string {
    if name in bindings then bindings[name] else name
  }

  function ResolvedOwner(owner: seq<string>, bindings: map<string, string>): seq<string> {
    seq(|owner|, k requires 0 <= k < |owner| => ResolvedName(owner[k], bindings))
  }

  // ---------- what the query asks of one record ----------

  predicate Visible(state: State, key: RecordKey)
    requires key.occurrence < |state.occurrences|
  {
    state.occurrences[key.occurrence].live && key !in state.dead && key !in state.satisfied
  }

  function Fits(selector: Option<seq<string>>, path: seq<string>): Result<bool> {
    if selector.None? then Ok(true) else Match(selector.value, path)
  }

  /** Whether a record is a candidate; a malformed selector shows only when the other conditions hold. */
  function Accepted(templates: seq<Template>, state: State, query: Query, bindings: Bindings, key: RecordKey): Result<bool>
    requires IsRecord(templates, state.occurrences, key)
  {
    var record := RecordOf(templates, state.occurrences, key);
    var names := BindingsAt(bindings, key.occurrence);
    if !Visible(state, key) || record.inventoryKind !in query.kinds
       || (query.name.Some? && ResolvedName(record.resourceName, names) != query.name.value)
    then Ok(false)
    else
      var builds :- Fits(query.buildMatch, state.occurrences[key.occurrence].buildPath);
      if builds then Fits(query.ownerMatch, ResolvedOwner(record.codeOwner, names)) else Ok(false)
  }

  /** The selector, if there is one, splits the path. */
  ghost predicate Selects(selector: Option<seq<string>>, path: seq<string>) {
    selector.Some? ==> Matches(selector.value, path)
  }

  /** What makes a record a candidate: it is live and unsatisfied, of a kind asked for, and fits the name and both selectors. */
  lemma {:induction false} AcceptedMeaning(templates: seq<Template>, state: State, query: Query, bindings: Bindings, key: RecordKey)
    requires IsRecord(templates, state.occurrences, key)
    ensures var record := RecordOf(templates, state.occurrences, key);
            var names := BindingsAt(bindings, key.occurrence);
            var occurrence := state.occurrences[key.occurrence];
            && (Accepted(templates, state, query, bindings, key) == Ok(true) <==>
                && occurrence.live && key !in state.dead && key !in state.satisfied
                && record.inventoryKind in query.kinds
                && (query.name.Some? ==> ResolvedName(record.resourceName, names) == query.name.value)
                && Selects(query.buildMatch, occurrence.buildPath)
                && Selects(query.ownerMatch, ResolvedOwner(record.codeOwner, names)))
            && (Accepted(templates, state, query, bindings, key).Err? ==>
                  (exists part :: query.buildMatch.Some? && part in query.buildMatch.value && Malformed(part))
                  || (exists part :: query.ownerMatch.Some? && part in query.ownerMatch.value && Malformed(part)))
  {
    var record := RecordOf(templates, state.occurrences, key);
    var names := BindingsAt(bindings, key.occurrence);
    hide Matches, Malformed, ResolvedOwner, Match;
    SelectorDecides(query.buildMatch, state.occurrences[key.occurrence].buildPath);
    SelectorDecides(query.ownerMatch, ResolvedOwner(record.codeOwner, names));
  }

  lemma {:induction false} SelectorDecides(selector: Option<seq<string>>, path: seq<string>)
    ensures Fits(selector, path) == Ok(true) <==> Selects(selector, path)
    ensures Fits(selector, path).Err? ==> exists part :: selector.Some? && part in selector.value && Malformed(part)
  {
    if selector.Some? {
      MatchDecides(selector.value, path);
      if Stuck(selector.value, path) {
        var k, j :| StuckAt(selector.value, path, k, j);
        assert selector.value[k] in selector.value;
        StuckNeverMatches(selector.value, path, k);
      }
    }
  }

  lemma {:induction false} StuckNeverMatches(selector: seq<string>, path: seq<string>, k: nat)
    requires k < |selector| && Malformed(selector[k])
    ensures !Matches(selector, path)
  {
    forall pieces ensures !SplitsInto(selector, path, pieces) {
      if |pieces| == |selector| {
        assert !Accepts(selector[k], pieces[k]);
      }
    }
  }

  // ---------- the query ----------

  function KindTargets(rows: seq<Row>, kinds: seq<string>): seq<RecordKey> {
    if kinds == [] then []
    else KindTargets(rows, kinds[..|kinds| - 1]) + KeysWith(rows, KindOf, kinds[|kinds| - 1])
  }

  /** Without identifier bindings a name leads straight to its records; otherwise a name may have been bound to it. */
  predicate ByName(query: Query, bindings: Bindings) {
    query.name.Some? && bindings == map[]
  }

  function RawTargets(rows: seq<Row>, query: Query, bindings: Bindings): seq<RecordKey> {
    if ByName(query, bindings) then KeysWith(rows, NameOf, query.name.value) else KindTargets(rows, query.kinds)
  }

  /** The accepted records among the first `n` raw targets, each at its first place. */
  function Keep(templates: seq<Template>, state: State, query: Query, bindings: Bindings, raw: seq<RecordKey>, n: nat): Result<seq<RecordKey>>
    requires n <= |raw| && forall key :: key in raw ==> IsRecord(templates, state.occurrences, key)
  {
    if n == 0 then Ok([])
    else
      var kept :- Keep(templates, state, query, bindings, raw, n - 1);
      assert raw[n - 1] in raw;
      if raw[n - 1] in raw[..n - 1] then Ok(kept)
      else
        var accepted :- Accepted(templates, state, query, bindings, raw[n - 1]);
        Ok(if accepted then kept + [raw[n - 1]] else kept)
  }

  function TargetKeys(templates: seq<Template>, state: State, query: Query): Result<seq<RecordKey>>
    requires Known(templates, state.occurrences)
  {
    var bindings :- AllBindings(templates, state, query.bindings);
    var raw := RawTargets(AllRows(templates, state.occurrences), query, bindings);
    RawTargetsAreRecords(templates, state.occurrences, query, bindings);
    Keep(templates, state, query, bindings, raw, |raw|)
  }

  /** The records that the indexes of the state list for the query. */
  method RawTargetRecordKeys(templates: seq<Template>, state: NativeAssemblyState, query: Query, bindings: Bindings) returns (raw: seq<RecordKey>)
    requires state.Valid(templates)
    ensures raw == RawTargets(AllRows(templates, state.occurrences), query, bindings)
  {
    hide KeysWith, AllRows;
    ghost var rows := AllRows(templates, state.occurrences);
    if query.name.Some? && bindings == map[] {
      return Entry(state.byResourceName, query.name.value);
    }
    raw := [];
    for k := 0 to |query.kinds|
      invariant raw == KindTargets(rows, query.kinds[..k])
    {
      assert query.kinds[..k + 1][..k] == query.kinds[..k];
      raw := raw + Entry(state.byInventoryKind, query.kinds[k]);
    }
    assert query.kinds[..|query.kinds|] == query.kinds;
  }

  /** The query, answered from the indexes of the state. */
  method QueryTargetRecordKeys(templates: seq<Template>, state: NativeAssemblyState, query: Query) returns (r: Result<seq<RecordKey>>)
    requires state.Valid(templates)
    ensures r == TargetKeys(templates, state.Value(), query)
  {
    var value := state.Value();
    var found := AllBindings(templates, value, query.bindings);
    if found.Err? {
      return Err(found.error);
    }
    var bindings := found.value;
    var raw := RawTargetRecordKeys(templates, state, query, bindings);
    RawTargetsAreRecords(templates, value.occurrences, query, bindings);
    hide AllBindings, AllRows, RawTargets, IsRecord, Accepted;
    var candidates: seq<RecordKey> := [];
    var seen: set<RecordKey> := {};
    for n := 0 to |raw|
      invariant forall key :: key in seen <==> key in raw[..n]
      invariant Keep(templates, value, query, bindings, raw, n) == Ok(candidates)
    {
      var key := raw[n];
      assert raw[..n + 1] == raw[..n] + [key];
      if key !in seen {
        seen := seen + {key};
        var accepted := Accept(templates, value, query, bindings, key);
        if accepted.Err? {
          KeepFails(templates, value, query, bindings, raw, n + 1);
          return Err(accepted.error);
        }
        if accepted.value {
          candidates := candidates + [key];
        }
      }
    }
    r := Ok(candidates);
  }

  /** The tests on one record, in the order in which they are made. */
  method Accept(templates: seq<Template>, state: State, query: Query, bindings: Bindings, key: RecordKey) returns (r: Result<bool>)
    requires IsRecord(templates, state.occurrences, key)
    ensures r == Accepted(templates, state, query, bindings, key)
  {
    var record := RecordOf(templates, state.occurrences, key);
    var names := BindingsAt(bindings, key.occurrence);
    if !Visible(state, key) {
      return Ok(false);
    }
    if record.inventoryKind !in query.kinds {
      return Ok(false);
    }
    if query.name.Some? && ResolvedName(record.resourceName, names) != query.name.value {
      return Ok(false);
    }
    if query.buildMatch.Some? {
      var builds, _ := MatchesPath(query.buildMatch.value, state.occurrences[key.occurrence].buildPath);
      if builds != Ok(true) {
        return builds;
      }
    }
    r := Ok(true);
    if query.ownerMatch.Some? {
      var owned, _ := MatchesPath(query.ownerMatch.value, ResolvedOwner(record.codeOwner, names));
      return owned;
    }
  }

  lemma {:induction false} KeepFails(templates: seq<Template>, state: State, query: Query, bindings: Bindings, raw: seq<RecordKey>, n: nat)
    requires n <= |raw| && forall key :: key in raw ==> IsRecord(templates, state.occurrences, key)
    requires Keep(templates, state, query, bindings, raw, n).Err?
    ensures Keep(templates, state, query, bindings, raw, |raw|) == Keep(templates, state, query, bindings, raw, n)
    decreases |raw| - n
  {
    hide Accepted;
    if n < |raw| {
      KeepFails(templates, state, query, bindings, raw, n + 1);
    }
  }

  lemma {:induction false} KindTargetsMembers(rows: seq<Row>, kinds: seq<string>)
    ensures forall key :: key in KindTargets(rows, kinds) <==>
                          exists row :: row in rows && row.key == key && row.record.inventoryKind in kinds && row.record.inventoryKind != ""
  {
    if kinds != [] {
      var last := kinds[|kinds| - 1];
      assert kinds == kinds[..|kinds| - 1] + [last];
      KindTargetsMembers(rows, kinds[..|kinds| - 1]);
      KeysWithMembers(rows, KindOf, last);
      forall key
        ensures key in KindTargets(rows, kinds) <==>
                exists row :: row in rows && row.key == key && row.record.inventoryKind in kinds && row.record.inventoryKind != ""
      {
        assert key in KindTargets(rows, kinds) <==> key in KindTargets(rows, kinds[..|kinds| - 1]) || key in KeysWith(rows, KindOf, last);
      }
    }
  }

  /** The rows that the index in use knows about: those with a name, or those with a kind. */
  predicate Listed(record: Record, query: Query, bindings: Bindings) {
    if ByName(query, bindings) then record.resourceName != "" else record.inventoryKind != ""
  }

  predicate Asked(record: Record, query: Query, bindings: Bindings) {
    if ByName(query, bindings) then record.resourceName == query.name.value else record.inventoryKind in query.kinds
  }

  lemma {:induction false} RawTargetsMembers(templates: seq<Template>, occurrences: seq<Occurrence>, query: Query, bindings: Bindings, key: RecordKey)
    requires Known(templates, occurrences)
    ensures key in RawTargets(AllRows(templates, occurrences), query, bindings) <==>
            && IsRecord(templates, occurrences, key)
            && Listed(RecordOf(templates, occurrences, key), query, bindings)
            && Asked(RecordOf(templates, occurrences, key), query, bindings)
  {
    var rows := AllRows(templates, occurrences);
    RowsAreRecords(templates, occurrences);
    if ByName(query, bindings) {
      KeysWithMembers(rows, NameOf, query.name.value);
    } else {
      KindTargetsMembers(rows, query.kinds);
    }
    if IsRecord(templates, occurrences, key) {
      assert RowOf(templates, occurrences, key) in rows;
    }
  }

  lemma {:induction false} RawTargetsAreRecords(templates: seq<Template>, occurrences: seq<Occurrence>, query: Query, bindings: Bindings)
    requires Known(templates, occurrences)
    ensures forall key :: key in RawTargets(AllRows(templates, occurrences), query, bindings) ==> IsRecord(templates, occurrences, key)
  {
    forall key | key in RawTargets(AllRows(templates, occurrences), query, bindings) ensures IsRecord(templates, occurrences, key) {
      RawTargetsMembers(templates, occurrences, query, bindings, key);
    }
  }

  // ---------- the query is a scan ----------

  ghost predicate NoneTwice(keys: seq<RecordKey>) {
    forall i, j :: 0 <= i < j < |keys| ==> keys[i] != keys[j]
  }

  lemma {:induction false} KeepMembers(templates: seq<Template>, state: State, query: Query, bindings: Bindings, raw: seq<RecordKey>, n: nat)
    requires n <= |raw| && forall key :: key in raw ==> IsRecord(templates, state.occurrences, key)
    ensures Keep(templates, state, query, bindings, raw, n).Err? <==>
            exists key :: key in raw[..n] && Accepted(templates, state, query, bindings, key).Err?
    ensures Keep(templates, state, query, bindings, raw, n).Ok? ==>
              var kept := Keep(templates, state, query, bindings, raw, n).value;
              && NoneTwice(kept)
              && forall key :: key in kept <==> key in raw[..n] && Accepted(templates, state, query, bindings, key) == Ok(true)
  {
    hide Accepted;
    if n > 0 {
      KeepMembers(templates, state, query, bindings, raw, n - 1);
      assert raw[..n] == raw[..n - 1] + [raw[n - 1]];
    }
  }

  /** The rows a scan would look at: every record the index in use lists. */
  ghost predicate Scanned(templates: seq<Template>, state: State, query: Query, bindings: Bindings, key: RecordKey) {
    IsRecord(templates, state.occurrences, key) && Listed(RecordOf(templates, state.occurrences, key), query, bindings)
  }

  lemma {:induction false} AskedOrRefused(templates: seq<Template>, state: State, query: Query, bindings: Bindings, key: RecordKey)
    requires IsRecord(templates, state.occurrences, key)
    ensures !Asked(RecordOf(templates, state.occurrences, key), query, bindings) ==> Accepted(templates, state, query, bindings, key) == Ok(false)
  {
  }

  /**
   The query answers like a scan over all records that the index in use lists, whichever index that is and whatever
   identifiers were bound: the same records, none twice, and an error exactly when a scan would meet one.
   */
  lemma {:induction false} QueryIsScan(templates: seq<Template>, state: State, query: Query)
    requires Known(templates, state.occurrences)
    requires AllBindings(templates, state, query.bindings).Ok?
    ensures var bindings := AllBindings(templates, state, query.bindings).value;
            var r := TargetKeys(templates, state, query);
            && (r.Err? <==> exists key :: Scanned(templates, state, query, bindings, key)
                                          && Accepted(templates, state, query, bindings, key).Err?)
            && (r.Ok? ==> NoneTwice(r.value))
            && (r.Ok? ==> forall key :: key in r.value <==>
                                        Scanned(templates, state, query, bindings, key)
                                        && Accepted(templates, state, query, bindings, key) == Ok(true))
  {
    var bindings := AllBindings(templates, state, query.bindings).value;
    var raw := RawTargets(AllRows(templates, state.occurrences), query, bindings);
    RawTargetsAreRecords(templates, state.occurrences, query, bindings);
    KeepMembers(templates, state, query, bindings, raw, |raw|);
    assert raw[..|raw|] == raw;
    hide Accepted, Keep, RawTargets, Listed, Asked, AllBindings, IsRecord;
    forall key ensures key in raw ==> Scanned(templates, state, query, bindings, key) {
      RawTargetsMembers(templates, state.occurrences, query, bindings, key);
    }
    forall key | Scanned(templates, state, query, bindings, key)
      ensures key in raw || Accepted(templates, state, query, bindings, key) == Ok(false)
    {
      RawTargetsMembers(templates, state.occurrences, query, bindings, key);
      AskedOrRefused(templates, state, query, bindings, key);
    }
  }

  // ---------- the order of the answer ----------

  /** The place where a kind is first asked for. */
  function KindRank(kinds: seq<string>, kind: string): (i: nat)
    requires kind in kinds
    ensures i < |kinds| && kinds[i] == kind && forall j :: 0 <= j < i ==> kinds[j] != kind
  {
    if kinds[0] == kind then 0 else 1 + KindRank(kinds[1..], kind)
  }

  predicate EarlierKind(templates: seq<Template>, occurrences: seq<Occurrence>, kinds: seq<string>, a: RecordKey, b: RecordKey) {
    && IsRecord(templates, occurrences, a) && IsRecord(templates, occurrences, b)
    && var kind, kind' := RecordOf(templates, occurrences, a).inventoryKind, RecordOf(templates, occurrences, b).inventoryKind;
       && kind in kinds && kind' in kinds
       && (KindRank(kinds, kind) < KindRank(kinds, kind') || (kind == kind' && KeyBefore(a, b)))
  }

  /** By name the records come in key order; by kind, in the order of the kinds asked for, and in key order within each. */
  predicate Earlier(templates: seq<Template>, occurrences: seq<Occurrence>, query: Query, bindings: Bindings, a: RecordKey, b: RecordKey) {
    if ByName(query, bindings) then KeyBefore(a, b) else EarlierKind(templates, occurrences, query.kinds, a, b)
  }

  lemma {:induction false} RankKept(kinds: seq<string>, more: seq<string>, kind: string)
    requires kind in kinds
    ensures kind in kinds + more && KindRank(kinds + more, kind) == KindRank(kinds, kind)
  {
    var i, j := KindRank(kinds, kind), KindRank(kinds + more, kind);
    assert (kinds + more)[i] == kind;
    assert j <= i;
    assert (kinds + more)[j] == kinds[j];
  }

  lemma {:induction false} KindKeys(templates: seq<Template>, occurrences: seq<Occurrence>, kind: string, key: RecordKey)
    requires Known(templates, occurrences)
    ensures key in KeysWith(AllRows(templates, occurrences), KindOf, kind) <==>
            IsRecord(templates, occurrences, key) && RecordOf(templates, occurrences, key).inventoryKind == kind && kind != ""
  {
    RowsAreRecords(templates, occurrences);
    KeysWithMembers(AllRows(templates, occurrences), KindOf, kind);
    if IsRecord(templates, occurrences, key) {
      assert RowOf(templates, occurrences, key) in AllRows(templates, occurrences);
    }
  }

  lemma {:induction false} KindTargetsKeys(templates: seq<Template>, occurrences: seq<Occurrence>, kinds: seq<string>, key: RecordKey)
    requires Known(templates, occurrences)
    ensures key in KindTargets(AllRows(templates, occurrences), kinds) <==>
            && IsRecord(templates, occurrences, key)
            && RecordOf(templates, occurrences, key).inventoryKind in kinds && RecordOf(templates, occurrences, key).inventoryKind != ""
  {
    RowsAreRecords(templates, occurrences);
    KindTargetsMembers(AllRows(templates, occurrences), kinds);
    if IsRecord(templates, occurrences, key) {
      assert RowOf(templates, occurrences, key) in AllRows(templates, occurrences);
    }
  }

  ghost predicate FirstsInOrder(templates: seq<Template>, occurrences: seq<Occurrence>, kinds: seq<string>, raw: seq<RecordKey>) {
    forall p, q :: 0 <= p < q < |raw| && raw[q] !in raw[..q] ==> EarlierKind(templates, occurrences, kinds, raw[p], raw[q])
  }

  /** Where a record first comes up among the raw targets, those in front of it are earlier. */
  lemma {:induction false} KindTargetsInOrder(templates: seq<Template>, occurrences: seq<Occurrence>, kinds: seq<string>)
    requires Known(templates, occurrences)
    ensures FirstsInOrder(templates, occurrences, kinds, KindTargets(AllRows(templates, occurrences), kinds))
  {
    var rows := AllRows(templates, occurrences);
    if kinds != [] {
      var front, last := kinds[..|kinds| - 1], kinds[|kinds| - 1];
      KindTargetsInOrder(templates, occurrences, front);
      RowsAreRecords(templates, occurrences);
      KeysWithAscending(rows, KindOf, last);
      assert kinds == front + [last];
      var before, part, raw := KindTargets(rows, front), KeysWith(rows, KindOf, last), KindTargets(rows, kinds);
      assert raw == before + part;
      hide AllRows, KindTargets, KeysWith, EarlierKind, Ascending;
      forall p, q | 0 <= p < q < |raw| && raw[q] !in raw[..q] ensures EarlierKind(templates, occurrences, kinds, raw[p], raw[q]) {
        if q < |before| {
          assert raw[..q] == before[..q];
          EarlierKept(templates, occurrences, front, last, before[p], before[q]);
        } else {
          assert raw[q] in part && forall k :: 0 <= k < |before| ==> raw[..q][k] == before[k];
          if p < |before| {
            assert before[p] in before;
            NewKindIsLater(templates, occurrences, front, last, before[p], raw[q]);
          } else {
            assert raw[p] in part;
            SameKindInOrder(templates, occurrences, front, last, raw[p], raw[q]);
          }
        }
      }
    }
  }

  lemma {:induction false} EarlierKept(
      templates: seq<Template>, occurrences: seq<Occurrence>, front: seq<string>, last: string, a: RecordKey, b: RecordKey)
    requires EarlierKind(templates, occurrences, front, a, b)
    ensures EarlierKind(templates, occurrences, front + [last], a, b)
  {
    RankKept(front, [last], RecordOf(templates, occurrences, a).inventoryKind);
    RankKept(front, [last], RecordOf(templates, occurrences, b).inventoryKind);
  }

  lemma {:induction false} NewKindIsLater(
      templates: seq<Template>, occurrences: seq<Occurrence>, front: seq<string>, last: string, a: RecordKey, b: RecordKey)
    requires Known(templates, occurrences)
    requires a in KindTargets(AllRows(templates, occurrences), front)
    requires b in KeysWith(AllRows(templates, occurrences), KindOf, last) && b !in KindTargets(AllRows(templates, occurrences), front)
    ensures EarlierKind(templates, occurrences, front + [last], a, b)
  {
    KindTargetsKeys(templates, occurrences, front, a);
    KindTargetsKeys(templates, occurrences, front, b);
    KindKeys(templates, occurrences, last, b);
    hide AllRows, KindTargets, KeysWith;
    var kind := RecordOf(templates, occurrences, a).inventoryKind;
    RankKept(front, [last], kind);
    assert (front + [last])[|front|] == last;
    forall k | 0 <= k < |front| ensures (front + [last])[k] != last {
      assert front[k] in front;
    }
  }

  lemma {:induction false} SameKindInOrder(
      templates: seq<Template>, occurrences: seq<Occurrence>, front: seq<string>, last: string, a: RecordKey, b: RecordKey)
    requires Known(templates, occurrences) && KeyBefore(a, b)
    requires a in KeysWith(AllRows(templates, occurrences), KindOf, last) && b in KeysWith(AllRows(templates, occurrences), KindOf, last)
    ensures EarlierKind(templates, occurrences, front + [last], a, b)
  {
    KindKeys(templates, occurrences, last, a);
    KindKeys(templates, occurrences, last, b);
    assert (front + [last])[|front|] == last;
  }

  lemma {:induction false} NotEarlierBack(
      templates: seq<Template>, occurrences: seq<Occurrence>, query: Query, bindings: Bindings, a: RecordKey, b: RecordKey)
    requires Earlier(templates, occurrences, query, bindings, a, b)
    ensures a != b && !Earlier(templates, occurrences, query, bindings, b, a)
  {
    hide IsRecord;
  }

  ghost predicate InOrder(templates: seq<Template>, occurrences: seq<Occurrence>, query: Query, bindings: Bindings, keys: seq<RecordKey>) {
    forall i, j :: 0 <= i < j < |keys| ==> Earlier(templates, occurrences, query, bindings, keys[i], keys[j])
  }

  lemma {:induction false} KeepInOrder(templates: seq<Template>, state: State, query: Query, bindings: Bindings, raw: seq<RecordKey>, n: nat)
    requires n <= |raw| && forall key :: key in raw ==> IsRecord(templates, state.occurrences, key)
    requires forall p, q :: 0 <= p < q < |raw| && raw[q] !in raw[..q] ==> Earlier(templates, state.occurrences, query, bindings, raw[p], raw[q])
    ensures Keep(templates, state, query, bindings, raw, n).Ok? ==>
              var kept := Keep(templates, state, query, bindings, raw, n).value;
              InOrder(templates, state.occurrences, query, bindings, kept) && forall key :: key in kept ==> key in raw[..n]
  {
    hide Accepted, Earlier;
    if n > 0 && Keep(templates, state, query, bindings, raw, n).Ok? {
      KeepInOrder(templates, state, query, bindings, raw, n - 1);
      var kept, before := Keep(templates, state, query, bindings, raw, n).value, Keep(templates, state, query, bindings, raw, n - 1).value;
      assert raw[..n] == raw[..n - 1] + [raw[n - 1]];
      if kept != before {
        forall i | 0 <= i < |before| ensures Earlier(templates, state.occurrences, query, bindings, before[i], raw[n - 1]) {
          assert before[i] in raw[..n - 1];
          var p :| 0 <= p < n - 1 && raw[..n - 1][p] == before[i];
        }
      }
    }
  }

  /** The answer comes in that order; the first of several candidates is the first of it. */
  lemma {:induction false} TargetsInOrder(templates: seq<Template>, state: State, query: Query)
    requires Known(templates, state.occurrences) && AllBindings(templates, state, query.bindings).Ok?
    ensures var r := TargetKeys(templates, state, query);
            r.Ok? ==> InOrder(templates, state.occurrences, query, AllBindings(templates, state, query.bindings).value, r.value)
  {
    var bindings := AllBindings(templates, state, query.bindings).value;
    var rows := AllRows(templates, state.occurrences);
    var raw := RawTargets(rows, query, bindings);
    RawTargetsAreRecords(templates, state.occurrences, query, bindings);
    RowsAreRecords(templates, state.occurrences);
    if ByName(query, bindings) {
      KeysWithAscending(rows, NameOf, query.name.value);
    } else {
      KindTargetsInOrder(templates, state.occurrences, query.kinds);
    }
    hide Keep, AllRows, KindTargets, KeysWith, AllBindings;
    KeepInOrder(templates, state, query, bindings, raw, |raw|);
  }

  /** An answer that a scan over all records would give. */
  ghost predicate LikeFullScan(templates: seq<Template>, state: State, query: Query, bindings: Bindings, r: Result<seq<RecordKey>>) {
    && (r.Err? <==> exists key :: IsRecord(templates, state.occurrences, key)
                                  && Accepted(templates, state, query, bindings, key).Err?)
    && (r.Ok? ==> NoneTwice(r.value))
    && (r.Ok? ==> forall key :: key in r.value <==>
                                IsRecord(templates, state.occurrences, key)
                                && Accepted(templates, state, query, bindings, key) == Ok(true))
  }

  /** No record that the index in use leaves out would be accepted, or would make the filter fail. */
  ghost predicate NothingUnlisted(templates: seq<Template>, state: State, query: Query, bindings: Bindings) {
    forall key :: IsRecord(templates, state.occurrences, key) && !Listed(RecordOf(templates, state.occurrences, key), query, bindings) ==>
      Accepted(templates, state, query, bindings, key) == Ok(false)
  }

  /** A query that succeeds answers like a full scan exactly when nothing is left out. */
  lemma {:induction false} FullScanIff(templates: seq<Template>, state: State, query: Query)
    requires Known(templates, state.occurrences)
    requires AllBindings(templates, state, query.bindings).Ok?
    ensures var bindings := AllBindings(templates, state, query.bindings).value;
            var r := TargetKeys(templates, state, query);
            LikeFullScan(templates, state, query, bindings, r) <==> r.Err? || NothingUnlisted(templates, state, query, bindings)
  {
    var bindings := AllBindings(templates, state, query.bindings).value;
    var r := TargetKeys(templates, state, query);
    QueryIsScan(templates, state, query);
    hide TargetKeys, AllBindings, IsRecord, Accepted, Listed, LikeFullScan, NothingUnlisted;
    if r.Ok? {
      ScannedOrUnlisted(templates, state, query, bindings, r.value);
    } else {
      var key :| Scanned(templates, state, query, bindings, key) && Accepted(templates, state, query, bindings, key).Err?;
      FailureIsLikeFullScan(templates, state, query, bindings, r.error, key);
    }
  }

  lemma {:induction false} ScannedOrUnlisted(templates: seq<Template>, state: State, query: Query, bindings: Bindings, keys: seq<RecordKey>)
    requires NoneTwice(keys)
    requires forall key :: key in keys <==> Scanned(templates, state, query, bindings, key)
                                            && Accepted(templates, state, query, bindings, key) == Ok(true)
    requires forall key :: Scanned(templates, state, query, bindings, key) ==> Accepted(templates, state, query, bindings, key).Ok?
    ensures LikeFullScan(templates, state, query, bindings, Ok(keys)) <==> NothingUnlisted(templates, state, query, bindings)
  {
    hide IsRecord, Accepted, Listed;
    if NothingUnlisted(templates, state, query, bindings) {
      forall key | IsRecord(templates, state.occurrences, key)
        ensures Accepted(templates, state, query, bindings, key).Ok?
        ensures key in keys <==> Accepted(templates, state, query, bindings, key) == Ok(true)
      {
        assert Scanned(templates, state, query, bindings, key) || Accepted(templates, state, query, bindings, key) == Ok(false);
      }
    } else {
      var key :| IsRecord(templates, state.occurrences, key) && !Listed(RecordOf(templates, state.occurrences, key), query, bindings)
                 && Accepted(templates, state, query, bindings, key) != Ok(false);
      assert !Scanned(templates, state, query, bindings, key) && key !in keys;
      var accepted := Accepted(templates, state, query, bindings, key);
      assert accepted.Ok? ==> accepted == Ok(accepted.value) && accepted.value;
    }
  }

  lemma {:induction false} FailureIsLikeFullScan(
      templates: seq<Template>, state: State, query: Query, bindings: Bindings, error: Error, key: RecordKey)
    requires IsRecord(templates, state.occurrences, key) && Accepted(templates, state, query, bindings, key).Err?
    ensures LikeFullScan(templates, state, query, bindings, Err(error))
  {
    hide IsRecord, Accepted;
  }

  /** The index in use lists every record that the query can ask for: it does not look for the empty name, or the empty kind. */
  predicate AsksIndexed(query: Query, bindings: Bindings) {
    if ByName(query, bindings) then query.name != Some("") else "" !in query.kinds
  }

  /** Such a query answers like a full scan in every state. */
  lemma {:induction false} QueryIsFullScan(templates: seq<Template>, state: State, query: Query)
    requires Known(templates, state.occurrences)
    requires AllBindings(templates, state, query.bindings).Ok?
    requires AsksIndexed(query, AllBindings(templates, state, query.bindings).value)
    ensures var bindings := AllBindings(templates, state, query.bindings).value;
            && NothingUnlisted(templates, state, query, bindings)
            && LikeFullScan(templates, state, query, bindings, TargetKeys(templates, state, query))
  {
    FullScanIff(templates, state, query);
    hide TargetKeys, AllBindings, LikeFullScan;
  }

  // ---------- the states in which a record is missed ----------

  function LoneTemplates(record: Record): seq<Template> {
    [Template(Ast.Stmt(Ast.ModuleHead, [], [], [], []), [record])]
  }

  const LONE_STATE := State([Occurrence(0, [], None, true)], [], [], {}, {})

  /** A query without selectors, over a state with one record. */
  lemma {:induction false} LoneQuery(record: Record, query: Query)
    requires query.buildMatch.None? && query.ownerMatch.None? && query.bindings == map[]
    requires record.inventoryKind in query.kinds && (query.name.Some? ==> query.name.value == record.resourceName)
    ensures var templates, key := LoneTemplates(record), RecordKey(0, 0);
            && Known(templates, LONE_STATE.occurrences)
            && AllBindings(templates, LONE_STATE, query.bindings) == Ok(map[])
            && IsRecord(templates, LONE_STATE.occurrences, key) && RecordOf(templates, LONE_STATE.occurrences, key) == record
            && Accepted(templates, LONE_STATE, query, map[], key) == Ok(true)
            && TargetKeys(templates, LONE_STATE, query) == Ok(if Listed(record, query, map[]) then [key] else [])
  {
    var templates, key := LoneTemplates(record), RecordKey(0, 0);
    var none: Bindings := map[];
    assert OverlayBindings(templates, LONE_STATE, 0) == Ok(none);
    assert AllBindings(templates, LONE_STATE, query.bindings) == Ok(none);
    assert Accepted(templates, LONE_STATE, query, none, key) == Ok(true);
    QueryIsScan(templates, LONE_STATE, query);
    hide Accepted, TargetKeys, Listed, AllBindings;
    var keys := TargetKeys(templates, LONE_STATE, query).value;
    forall k | k in keys ensures k == key {
    }
    OnlyOne(keys, key);
  }

  lemma {:induction false} OnlyOne(keys: seq<RecordKey>, key: RecordKey)
    requires NoneTwice(keys) && forall k :: k in keys ==> k == key
    ensures keys == if key in keys then [key] else []
  {
    assert |keys| >= 2 ==> keys[0] != keys[1] && keys[0] in keys && keys[1] in keys;
    assert |keys| >= 1 ==> keys[0] in keys;
    if |keys| == 1 {
      assert keys == [keys[0]];
    }
  }

  /** For every query that asks for the empty name, or for the empty kind and no name, there is a state in which it misses a record. */
  lemma {:induction false} EmptyIsMissed(query: Query) returns (record: Record)
    requires query.buildMatch.None? && query.ownerMatch.None? && query.bindings == map[] && query.kinds != []
    requires !AsksIndexed(query, map[])
    ensures var templates := LoneTemplates(record);
            && Known(templates, LONE_STATE.occurrences)
            && AllBindings(templates, LONE_STATE, query.bindings) == Ok(map[])
            && IsRecord(templates, LONE_STATE.occurrences, RecordKey(0, 0))
            && Accepted(templates, LONE_STATE, query, map[], RecordKey(0, 0)) == Ok(true)
            && TargetKeys(templates, LONE_STATE, query) == Ok([])
            && !LikeFullScan(templates, LONE_STATE, query, map[], TargetKeys(templates, LONE_STATE, query))
  {
    record := Record([], if query.name.Some? then query.kinds[0] else "", "", "", "");
    LoneQuery(record, query);
    FullScanIff(LoneTemplates(record), LONE_STATE, query);
    hide Accepted, TargetKeys, AllBindings, LikeFullScan;
    assert !NothingUnlisted(LoneTemplates(record), LONE_STATE, query, map[]);
  }
}
