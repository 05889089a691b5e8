/** The interned tables of a template package (template_package_v2.rs), and the template rebuilt from them (occurrence_store.rs). */
module Interning {
  import opened Wrappers
  import opened EdgeOrder

  // ---------- name lists as sets ----------

  function InsertName(name: string, sorted: seq<string>): seq<string> {
    if sorted == [] || TextLess(name, sorted[0]) then [name] + sorted
    else if name == sorted[0] then sorted
    else [sorted[0]] + InsertName(name, sorted[1..])
  }

  /** The names without repetition, in alphabetical order. */
  function SortedUnique(names: seq<string>): seq<string> {
    if names == [] then [] else InsertName(names[0], SortedUnique(names[1..]))
  }

  ghost predicate Increasing(names: seq<string>) {
    forall i, j :: 0 <= i < j < |names| ==> TextLess(names[i], names[j])
  }

  lemma {:induction false} InsertIncreasing(name: string, sorted: seq<string>)
    requires Increasing(sorted)
    ensures Increasing(InsertName(name, sorted))
    ensures forall n :: n in InsertName(name, sorted) <==> n == name || n in sorted
  {
    LexStrictOrder(CharLess, TextLess);
    hide TextLess;
    if sorted != [] && !TextLess(name, sorted[0]) && name != sorted[0] {
      var rest := InsertName(name, sorted[1..]);
      InsertIncreasing(name, sorted[1..]);
      assert sorted == [sorted[0]] + sorted[1..];
      forall k | 0 <= k < |rest| ensures TextLess(sorted[0], rest[k]) {
        assert rest[k] in rest;
        if rest[k] != name {
          var j :| 0 <= j < |sorted[1..]| && sorted[1..][j] == rest[k];
          assert sorted[j + 1] == rest[k];
        }
      }
    }
  }

  lemma {:induction false} SortedUniqueFacts(names: seq<string>)
    ensures Increasing(SortedUnique(names))
    ensures forall n :: n in SortedUnique(names) <==> n in names
  {
    hide TextLess;
    if names != [] {
      SortedUniqueFacts(names[1..]);
      InsertIncreasing(names[0], SortedUnique(names[1..]));
    }
  }

  lemma {:induction false} IncreasingIsUnique(a: seq<string>, b: seq<string>)
    requires Increasing(a) && Increasing(b) && forall n :: n in a <==> n in b
    ensures a == b
  {
    LexStrictOrder(CharLess, TextLess);
    hide TextLess;
    assert b != [] ==> b[0] in b;
    if a != [] {
      assert a[0] in a;
      var i :| 0 <= i < |b| && b[i] == a[0];
      assert b[0] in b;
      var j :| 0 <= j < |a| && a[j] == b[0];
      assert i == 0 || j == 0;
      assert a[0] == b[0];
      forall n ensures n in a[1..] <==> n in b[1..] {
        SameRest(a, n);
        SameRest(b, n);
      }
      IncreasingIsUnique(a[1..], b[1..]);
      assert a == [a[0]] + a[1..] && b == [b[0]] + b[1..];
    }
  }

  lemma {:induction false} SameRest(a: seq<string>, n: string)
    requires a != [] && Increasing(a)
    ensures n in a[1..] <==> n in a && n != a[0]
  {
    LexStrictOrder(CharLess, TextLess);
    hide TextLess;
    if n in a && n != a[0] {
      var k :| 0 <= k < |a| && a[k] == n;
      assert a[1..][k - 1] == n;
    }
  }

  /** Two name lists have the same canonical form exactly when they hold the same names. */
  lemma {:induction false} SameNames(a: seq<string>, b: seq<string>)
    ensures SortedUnique(a) == SortedUnique(b) <==> forall n :: n in a <==> n in b
  {
    SortedUniqueFacts(a);
    SortedUniqueFacts(b);
    hide SortedUnique, Increasing;
    if forall n :: n in a <==> n in b {
      IncreasingIsUnique(SortedUnique(a), SortedUnique(b));
    }
  }

  // ---------- tables ----------

  /** A table and its index are inverse to each other, so no value is in the table twice. */
  ghost predicate Inverse<T(!new)>(table: seq<T>, index: map<T, nat>) {
    && (forall i :: 0 <= i < |table| ==> table[i] in index && index[table[i]] == i)
    && (forall v :: v in index ==> index[v] < |table| && table[index[v]] == v)
  }

  lemma {:induction false} InverseEmpty<T(!new)>()
    ensures Inverse<T>([], map[])
  {
  }

  lemma {:induction false} InversePush<T(!new)>(table: seq<T>, index: map<T, nat>, value: T)
    requires Inverse(table, index) && value !in index
    ensures Inverse(table + [value], index[value := |table|])
  {
  }

  datatype LocatorRow = LocatorRow(
    locatorId: nat, astPathId: nat, roleKeyId: nat, parentLocatorId: Option<nat>, authoredSummaryId: nat, anchorId: nat)

  datatype RecordRow = RecordRow(
    recordId: nat, surfaceKeyId: nat, locatorId: nat, resourceNameId: Option<nat>, inventoryKindId: nat, ownerPathId: nat, summaryId: nat)

  /** What extraction says about one record. */
  datatype Extracted = Extracted(
    astPath: string, roleKey: string, authoredSummary: string, anchor: string, surfaceKey: string, resourceName: string,
    inventoryKind: string, codeOwner: seq<string>, semanticSummary: string)

  datatype NativeLocator = NativeLocator(
    astPath: string, authoredSummary: string, anchor: string, parentLocatorId: Option<nat>, roleKey: string)

  datatype NativeRecord = NativeRecord(
    codeOwner: seq<string>, inventoryKind: string, locatorId: nat, resourceName: string, semanticSummary: string, surfaceKey: string)

  datatype NativeTemplate = NativeTemplate(
    templateKey: string, sourceSummary: string, locators: seq<NativeLocator>, records: seq<NativeRecord>)

  // ---------- reading rows through the tables ----------

  predicate LocatorFits(strings: seq<string>, astPaths: seq<string>, row: LocatorRow) {
    row.astPathId < |astPaths| && row.roleKeyId < |strings| && row.authoredSummaryId < |strings| && row.anchorId < |strings|
  }

  predicate LocatorsFit(strings: seq<string>, astPaths: seq<string>, rows: seq<LocatorRow>) {
    forall k :: 0 <= k < |rows| ==> LocatorFits(strings, astPaths, rows[k])
  }

  predicate RecordFits(strings: seq<string>, paths: seq<seq<string>>, row: RecordRow) {
    && row.surfaceKeyId < |strings| && row.inventoryKindId < |strings| && row.ownerPathId < |paths| && row.summaryId < |strings|
    && (row.resourceNameId.Some? ==> row.resourceNameId.value < |strings|)
  }

  predicate RecordsFit(strings: seq<string>, paths: seq<seq<string>>, rows: seq<RecordRow>) {
    forall k :: 0 <= k < |rows| ==> RecordFits(strings, paths, rows[k])
  }

  function ReadLocator(strings: seq<string>, astPaths: seq<string>, row: LocatorRow): NativeLocator
    requires LocatorFits(strings, astPaths, row)
  {
    NativeLocator(astPaths[row.astPathId], strings[row.authoredSummaryId], strings[row.anchorId], row.parentLocatorId, strings[row.roleKeyId])
  }

  function ReadRecord(strings: seq<string>, paths: seq<seq<string>>, row: RecordRow): NativeRecord
    requires RecordFits(strings, paths, row)
  {
    NativeRecord(paths[row.ownerPathId], strings[row.inventoryKindId], row.locatorId,
                 if row.resourceNameId.Some? then strings[row.resourceNameId.value] else "", strings[row.summaryId],
                 strings[row.surfaceKeyId])
  }

  function ReadLocators(strings: seq<string>, astPaths: seq<string>, rows: seq<LocatorRow>): seq<NativeLocator>
    requires LocatorsFit(strings, astPaths, rows)
  {
    seq(|rows|, k requires 0 <= k < |rows| => ReadLocator(strings, astPaths, rows[k]))
  }

  function ReadRecords(strings: seq<string>, paths: seq<seq<string>>, rows: seq<RecordRow>): seq<NativeRecord>
    requires RecordsFit(strings, paths, rows)
  {
    seq(|rows|, k requires 0 <= k < |rows| => ReadRecord(strings, paths, rows[k]))
  }

  /** Identifiers are stable: rows read the same after the tables have grown. */
  lemma {:induction false} LocatorsStable(
      strings: seq<string>, astPaths: seq<string>, rows: seq<LocatorRow>, strings': seq<string>, astPaths': seq<string>)
    requires LocatorsFit(strings, astPaths, rows) && strings <= strings' && astPaths <= astPaths'
    ensures LocatorsFit(strings', astPaths', rows)
    ensures ReadLocators(strings', astPaths', rows) == ReadLocators(strings, astPaths, rows)
  {
  }

  lemma {:induction false} RecordsStable(
      strings: seq<string>, paths: seq<seq<string>>, rows: seq<RecordRow>, strings': seq<string>, paths': seq<seq<string>>)
    requires RecordsFit(strings, paths, rows) && strings <= strings' && paths <= paths'
    ensures RecordsFit(strings', paths', rows)
    ensures ReadRecords(strings', paths', rows) == ReadRecords(strings, paths, rows)
  {
  }

  lemma {:induction false} OneMoreLocator(strings: seq<string>, astPaths: seq<string>, rows: seq<LocatorRow>, row: LocatorRow)
    requires LocatorsFit(strings, astPaths, rows) && LocatorFits(strings, astPaths, row)
    ensures LocatorsFit(strings, astPaths, rows + [row])
    ensures ReadLocators(strings, astPaths, rows + [row]) == ReadLocators(strings, astPaths, rows) + [ReadLocator(strings, astPaths, row)]
  {
  }

  lemma {:induction false} OneMoreRecord(strings: seq<string>, paths: seq<seq<string>>, rows: seq<RecordRow>, row: RecordRow)
    requires RecordsFit(strings, paths, rows) && RecordFits(strings, paths, row)
    ensures RecordsFit(strings, paths, rows + [row])
    ensures ReadRecords(strings, paths, rows + [row]) == ReadRecords(strings, paths, rows) + [ReadRecord(strings, paths, row)]
  {
  }

  lemma {:induction false} NoRowsFit(strings: seq<string>, astPaths: seq<string>, paths: seq<seq<string>>)
    ensures LocatorsFit(strings, astPaths, []) && RecordsFit(strings, paths, [])
  {
  }

  /** A table after one more value. */
  function Interned<T(==)>(table: seq<T>, value: T): seq<T> {
    if value in table then table else table + [value]
  }

  /** The strings that every package starts with. */
  function Header(surfaceBundleSignature: string, templateKey: string, sourceSummary: string): seq<string> {
    Interned(Interned(Interned([], surfaceBundleSignature), templateKey), sourceSummary)
  }

  // ---------- the builder ----------

  class PackageBuilder {
    var strings: seq<string>
    var stringIndex: map<string, nat>
    var paths: seq<seq<string>>
    var pathIndex: map<seq<string>, nat>
    var astPaths: seq<string>
    var astPathIndex: map<string, nat>
    var bindingSets: seq<seq<nat>>
    var bindingSetIndex: map<seq<string>, nat>
    var locators: seq<LocatorRow>
    var records: seq<RecordRow>
    /** The canonical name list of each binding set. */
    ghost var bindingNames: seq<seq<string>>

    ghost predicate Named(ids: seq<nat>, names: seq<string>)
      reads this`strings
    {
      |ids| == |names| && forall k :: 0 <= k < |ids| ==> ids[k] < |strings| && strings[ids[k]] == names[k]
    }

    ghost predicate Tables()
      reads this`strings, this`stringIndex, this`paths, this`pathIndex, this`astPaths, this`astPathIndex
      reads this`bindingSets, this`bindingSetIndex, this`bindingNames
    {
      && Inverse(strings, stringIndex) && Inverse(paths, pathIndex) && Inverse(astPaths, astPathIndex)
      && Inverse(bindingNames, bindingSetIndex)
      && |bindingSets| == |bindingNames|
      && (forall k :: 0 <= k < |bindingSets| ==> Named(bindingSets[k], bindingNames[k]))
    }

    ghost predicate Valid()
      reads this
    {
      Tables() && LocatorsFit(strings, astPaths, locators) && RecordsFit(strings, paths, records)
    }

    constructor (surfaceBundleSignature: string, templateKey: string, sourceSummary: string)
      ensures Valid() && locators == [] && records == [] && paths == [] && astPaths == [] && bindingSets == []
      ensures strings == Header(surfaceBundleSignature, templateKey, sourceSummary)
    {
      strings, paths, astPaths, bindingSets, bindingNames := [], [], [], [], [];
      stringIndex, pathIndex, astPathIndex, bindingSetIndex := map[], map[], map[], map[];
      locators, records := [], [];
      new;
      hide Inverse, LocatorsFit, RecordsFit;
      InverseEmpty<string>();
      InverseEmpty<seq<string>>();
      NoRowsFit(strings, astPaths, paths);
      var _ := InternString(surfaceBundleSignature);
      var _ := InternString(templateKey);
      var _ := InternString(sourceSummary);
    }

    method InternString(value: string) returns (id: nat)
      requires Valid()
      modifies this`strings, this`stringIndex
      ensures Valid() && id < |strings| && strings[id] == value
      ensures strings == Interned(old(strings), value)
    {
      if value in stringIndex {
        return stringIndex[value];
      }
      InversePush(strings, stringIndex, value);
      id := |strings|;
      strings := strings + [value];
      stringIndex := stringIndex[value := id];
    }

    /** An empty name has no identifier. */
    method InternOptional(value: string) returns (id: Option<nat>)
      requires Valid()
      modifies this`strings, this`stringIndex
      ensures Valid() && old(strings) <= strings
      ensures if value == "" then id.None? else id.Some? && id.value < |strings| && strings[id.value] == value
    {
      hide Tables, LocatorsFit, RecordsFit;
      if value == "" {
        return None;
      }
      var found := InternString(value);
      id := Some(found);
    }

    method InternPath(parts: seq<string>) returns (id: nat)
      requires Valid()
      modifies this`strings, this`stringIndex, this`paths, this`pathIndex
      ensures Valid() && id < |paths| && paths[id] == parts
      ensures paths == if parts in old(paths) then old(paths) else old(paths) + [parts]
      ensures old(strings) <= strings
    {
      if parts in pathIndex {
        return pathIndex[parts];
      }
      for k := 0 to |parts|
        invariant Valid() && old(strings) <= strings && paths == old(paths) && pathIndex == old(pathIndex)
      {
        var _ := InternString(parts[k]);
      }
      InversePush(paths, pathIndex, parts);
      id := |paths|;
      paths := paths + [parts];
      pathIndex := pathIndex[parts := id];
    }

    method InternAstPath(astPath: string) returns (id: nat)
      requires Valid()
      modifies this`astPaths, this`astPathIndex
      ensures Valid() && id < |astPaths| && astPaths[id] == astPath
      ensures astPaths == if astPath in old(astPaths) then old(astPaths) else old(astPaths) + [astPath]
    {
      if astPath in astPathIndex {
        return astPathIndex[astPath];
      }
      InversePush(astPaths, astPathIndex, astPath);
      id := |astPaths|;
      astPaths := astPaths + [astPath];
      astPathIndex := astPathIndex[astPath := id];
    }

    method InternNames(names: seq<string>) returns (ids: seq<nat>)
      requires Valid()
      modifies this`strings, this`stringIndex
      ensures Valid() && old(strings) <= strings && Named(ids, names)
    {
      ids := [];
      for k := 0 to |names|
        invariant Valid() && old(strings) <= strings && Named(ids, names[..k])
      {
        var id := InternString(names[k]);
        ids := ids + [id];
      }
      assert names[..|names|] == names;
    }

    method InternBindingSet(names: seq<string>) returns (id: nat)
      requires Valid()
      modifies this`strings, this`stringIndex, this`bindingSets, this`bindingSetIndex, this`bindingNames
      ensures Valid() && id < |bindingSets| && bindingNames[id] == SortedUnique(names) && Named(bindingSets[id], SortedUnique(names))
      ensures old(strings) <= strings && old(bindingSets) <= bindingSets && old(bindingNames) <= bindingNames
    {
      hide SortedUnique, Named, LocatorsFit, RecordsFit;
      var canonical := SortedUnique(names);
      if canonical in bindingSetIndex {
        return bindingSetIndex[canonical];
      }
      var nameIds := InternNames(canonical);
      InversePush(bindingNames, bindingSetIndex, canonical);
      id := |bindingSets|;
      bindingSets, bindingNames := bindingSets + [nameIds], bindingNames + [canonical];
      bindingSetIndex := bindingSetIndex[canonical := id];
    }

    /** Two name lists share an identifier exactly when they hold the same names. */
    lemma {:induction false} SharedBindingSet(a: seq<string>, i: nat, b: seq<string>, j: nat)
      requires Valid() && i < |bindingNames| && j < |bindingNames|
      requires bindingNames[i] == SortedUnique(a) && bindingNames[j] == SortedUnique(b)
      ensures i == j <==> forall n :: n in a <==> n in b
    {
      SameNames(a, b);
      hide SortedUnique;
    }

    // ---------- rows ----------

    ghost function Locators(): seq<NativeLocator>
      requires Valid()
      reads this
    {
      ReadLocators(strings, astPaths, locators)
    }

    ghost function Records(): seq<NativeRecord>
      requires Valid()
      reads this
    {
      ReadRecords(strings, paths, records)
    }

    method AddLocator(locatorId: nat, e: Extracted)
      requires Valid()
      modifies this`strings, this`stringIndex, this`astPaths, this`astPathIndex, this`locators
      ensures Valid() && old(strings) <= strings
      ensures Locators() == old(Locators()) + [LocatorFor(e)]
      ensures Records() == old(Records())
    {
      hide Inverse, Named, Tables, ReadLocators, ReadRecords, LocatorsFit, RecordsFit;
      var astPathId := InternAstPath(e.astPath);
      var roleKeyId := InternString(e.roleKey);
      var authoredSummaryId := InternString(e.authoredSummary);
      var anchorId := InternString(e.anchor);
      var row := LocatorRow(locatorId, astPathId, roleKeyId, None, authoredSummaryId, anchorId);
      LocatorsStable(old(strings), old(astPaths), old(locators), strings, astPaths);
      RecordsStable(old(strings), paths, records, strings, paths);
      OneMoreLocator(strings, astPaths, locators, row);
      locators := locators + [row];
    }

    method AddRecord(recordId: nat, locatorId: nat, e: Extracted)
      requires Valid()
      modifies this`strings, this`stringIndex, this`paths, this`pathIndex, this`records
      ensures Valid() && old(strings) <= strings
      ensures Records() == old(Records()) + [RecordFor(e, locatorId)]
      ensures Locators() == old(Locators())
    {
      hide Inverse, Named, Tables, ReadLocators, ReadRecords, LocatorsFit, RecordsFit;
      var surfaceKeyId := InternString(e.surfaceKey);
      var resourceNameId := InternOptional(e.resourceName);
      var inventoryKindId := InternString(e.inventoryKind);
      var ownerPathId := InternPath(e.codeOwner);
      var summaryId := InternString(e.semanticSummary);
      var row := RecordRow(recordId, surfaceKeyId, locatorId, resourceNameId, inventoryKindId, ownerPathId, summaryId);
      RecordsStable(old(strings), old(paths), old(records), strings, paths);
      LocatorsStable(old(strings), astPaths, locators, strings, astPaths);
      OneMoreRecord(strings, paths, records, row);
      records := records + [row];
    }
  }

  function LocatorFor(e: Extracted): NativeLocator {
    NativeLocator(e.astPath, e.authoredSummary, e.anchor, None, e.roleKey)
  }

  function RecordFor(e: Extracted, locatorId: nat): NativeRecord {
    NativeRecord(e.codeOwner, e.inventoryKind, locatorId, e.resourceName, e.semanticSummary, e.surfaceKey)
  }

  // ---------- from records to a package and back ----------

  function LocatorsFor(extracted: seq<Extracted>): seq<NativeLocator> {
    seq(|extracted|, k requires 0 <= k < |extracted| => LocatorFor(extracted[k]))
  }

  /** Record `k` points at locator `k`. */
  function RecordsFor(extracted: seq<Extracted>): seq<NativeRecord> {
    seq(|extracted|, k requires 0 <= k < |extracted| => RecordFor(extracted[k], k))
  }

  method BuildPackage(surfaceBundleSignature: string, templateKey: string, sourceSummary: string, extracted: seq<Extracted>)
    returns (package: PackageBuilder)
    ensures fresh(package) && package.Valid()
    ensures Header(surfaceBundleSignature, templateKey, sourceSummary) <= package.strings
    ensures package.Locators() == LocatorsFor(extracted) && package.Records() == RecordsFor(extracted)
  {
    package := new PackageBuilder(surfaceBundleSignature, templateKey, sourceSummary);
    for k := 0 to |extracted|
      invariant fresh(package) && package.Valid()
      invariant Header(surfaceBundleSignature, templateKey, sourceSummary) <= package.strings
      invariant package.Locators() == LocatorsFor(extracted[..k]) && package.Records() == RecordsFor(extracted[..k])
    {
      package.AddLocator(k, extracted[k]);
      package.AddRecord(k, k, extracted[k]);
      OneMore(extracted, k);
    }
    assert extracted[..|extracted|] == extracted;
  }

  lemma {:induction false} OneMore(extracted: seq<Extracted>, k: nat)
    requires k < |extracted|
    ensures LocatorsFor(extracted[..k + 1]) == LocatorsFor(extracted[..k]) + [LocatorFor(extracted[k])]
    ensures RecordsFor(extracted[..k + 1]) == RecordsFor(extracted[..k]) + [RecordFor(extracted[k], k)]
  {
  }

  /** A template reads its key and summary at fixed places of the string table, and panics on a table too short for them. */
  method FromPackage(package: PackageBuilder) returns (t: Option<NativeTemplate>)
    requires package.Valid()
    ensures t.None? <==> |package.strings| < 3
    ensures t.Some? ==> t.value == NativeTemplate(package.strings[1], package.strings[2], package.Locators(), package.Records())
  {
    if |package.strings| < 3 {
      return None;
    }
    var locators: seq<NativeLocator> := [];
    for k := 0 to |package.locators|
      invariant locators == package.Locators()[..k]
    {
      locators := locators + [ReadLocator(package.strings, package.astPaths, package.locators[k])];
    }
    var records: seq<NativeRecord> := [];
    for k := 0 to |package.records|
      invariant records == package.Records()[..k]
    {
      records := records + [ReadRecord(package.strings, package.paths, package.records[k])];
    }
    t := Some(NativeTemplate(package.strings[1], package.strings[2], locators, records));
  }

  /**
   A template built from extracted records and read back has exactly their records and locators. Its key and its summary
   are read back exactly when the three header strings differ.
   */
  method RoundTrip(surfaceBundleSignature: string, templateKey: string, sourceSummary: string, extracted: seq<Extracted>)
    returns (t: Option<NativeTemplate>)
    ensures t.Some? ==> t.value.locators == LocatorsFor(extracted) && t.value.records == RecordsFor(extracted)
    ensures t.Some? && t.value.templateKey == templateKey && t.value.sourceSummary == sourceSummary <==>
            Distinct3(surfaceBundleSignature, templateKey, sourceSummary)
  {
    var package := BuildPackage(surfaceBundleSignature, templateKey, sourceSummary, extracted);
    HeaderRightIff(package.strings, surfaceBundleSignature, templateKey, sourceSummary);
    t := FromPackage(package);
  }

  ghost predicate NoneTwice(strings: seq<string>) {
    forall i, j :: 0 <= i < j < |strings| ==> strings[i] != strings[j]
  }

  /** The fixed places hold the key and the summary exactly when the three header strings differ. */
  lemma {:induction false} HeaderRightIff(strings: seq<string>, surfaceBundleSignature: string, templateKey: string, sourceSummary: string)
    requires Header(surfaceBundleSignature, templateKey, sourceSummary) <= strings && NoneTwice(strings)
    ensures |strings| >= 3 && strings[1] == templateKey && strings[2] == sourceSummary <==>
            Distinct3(surfaceBundleSignature, templateKey, sourceSummary)
  {
    var header := Header(surfaceBundleSignature, templateKey, sourceSummary);
    assert header[0] == surfaceBundleSignature && header[0] == strings[0];
    if Distinct3(surfaceBundleSignature, templateKey, sourceSummary) {
      assert header == [surfaceBundleSignature, templateKey, sourceSummary];
      assert header[1] == strings[1] && header[2] == strings[2];
    }
  }

  /** A key and a summary as they are made always differ, so only the signature of the surface bundle could spoil the header. */
  lemma {:induction false} HeaderSpoiledIff(surfaceBundleSignature: string, digest: string, counts: string)
    ensures var templateKey, sourceSummary := "template:" + digest, "compile line=" + counts;
            Distinct3(surfaceBundleSignature, templateKey, sourceSummary) <==>
            surfaceBundleSignature != templateKey && surfaceBundleSignature != sourceSummary
  {
    assert ("template:" + digest)[0] == 't' && ("compile line=" + counts)[0] == 'c';
  }

  predicate Distinct3(a: string, b: string, c: string) {
    a != b && a != c && b != c
  }
}
