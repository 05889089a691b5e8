/** The errors that applying the edges of an occurrence can report (materialize_ir.rs). */
module EdgeErrors {
  import opened Wrappers
  import opened Ast
  import opened AstPaths
  import opened Navigation
  import opened Splice
  import opened Templates
  import opened EdgeApplication
  import opened SpliceTheorem

  // ---------- paths and payloads ----------

  lemma {:induction false} DigitsError(text: string, acc: nat)
    ensures ParseDigits(text, acc).Err? ==> ParseDigits(text, acc).error == BadPath
  {
    if text != "" && '0' <= text[0] <= '9' {
      DigitsError(text[1..], 10 * acc + (text[0] - '0') as nat);
    }
  }

  lemma {:induction false} SegmentsError(texts: seq<string>)
    ensures ParseSegments(texts).Err? ==> ParseSegments(texts).error == BadPath
  {
    if texts != [] {
      SegmentsError(texts[1..]);
      SegmentError(texts[0]);
    }
  }

  lemma {:induction false} SegmentError(text: string)
    ensures ParseSegment(text).Err? ==> ParseSegment(text).error == BadPath
  {
    forall digits: string ensures ParseDigits(digits, 0).Err? ==> ParseDigits(digits, 0).error == BadPath {
      DigitsError(digits, 0);
    }
  }

  lemma {:induction false} PathError(path: string)
    ensures ParseAstPath(path).Err? ==> ParseAstPath(path).error == BadPath
  {
    SegmentsError(Split(path));
  }

  lemma {:induction false} ReplaceError(s: Stmt, segments: seq<Segment>, replacement: seq<Stmt>)
    ensures ReplaceStatements(s, segments, replacement).Err? ==> ReplaceStatements(s, segments, replacement).error == BadPath
    decreases |segments|
  {
    if segments != [] && NestedSuite(s, segments).Some? {
      var (slot, path) := NestedSuite(s, segments).value;
      var suite := Suite(s, slot).value;
      if path[0].index.Some? && path[0].index.value < |suite| {
        ReplaceError(suite[path[0].index.value], path[1..], replacement);
      }
    }
  }

  lemma {:induction false} CloneError(s: Stmt, segments: seq<Segment>)
    ensures CloneStmt(s, segments).Err? ==> CloneStmt(s, segments).error == BadPath
  {
    CloneIsStmtAt(s, segments);
  }

  lemma {:induction false} LocatorError(records: seq<Record>, surfaceKey: string)
    ensures UniqueLocator(records, surfaceKey).Err? ==> UniqueLocator(records, surfaceKey).error == BadPayload
  {
    if records != [] {
      LocatorError(records[1..], surfaceKey);
    }
  }

  predicate Malformation(e: Error) {
    e == BadPath || e == BadPayload
  }

  lemma {:induction false} ClauseError(edge: EdgeInput)
    ensures ClauseOf(edge).Err? ==> Malformation(ClauseOf(edge).error)
  {
    LocatorError(edge.sourceRecords, "astichi.surface.elif.production");
    var path := UniqueLocator(edge.sourceRecords, "astichi.surface.elif.production");
    if path.Ok? {
      CloneAtError(edge.source, path.value);
    }
  }

  lemma {:induction false} ClausesError(edges: seq<EdgeInput>)
    ensures ClausesOf(edges).Err? ==> Malformation(ClausesOf(edges).error)
  {
    hide ClauseOf;
    if edges != [] {
      ClausesError(edges[1..]);
      ClauseError(edges[0]);
    }
  }

  lemma {:induction false} ReplaceAtError(m: Module, path: string, replacement: seq<Stmt>)
    ensures ReplaceStatementsAtPath(m, path, replacement).Err? ==> ReplaceStatementsAtPath(m, path, replacement).error == BadPath
  {
    PathError(path);
    if ParseAstPath(path).Ok? {
      ReplaceError(m, ParseAstPath(path).value, replacement);
    }
  }

  lemma {:induction false} CloneAtError(m: Module, path: string)
    ensures CloneStmtAtPath(m, path).Err? ==> CloneStmtAtPath(m, path).error == BadPath
  {
    PathError(path);
    if ParseAstPath(path).Ok? {
      CloneError(m, ParseAstPath(path).value);
    }
  }

  // ---------- groups ----------

  ghost predicate Allows<T>(allowed: Error -> bool, r: Result<T>) {
    r.Err? ==> allowed(r.error)
  }

  ghost predicate OtherErrors(other: OtherStep, allowed: Error -> bool) {
    forall m, path, g :: Allows(allowed, other(m, path, g))
  }

  /** A group that the materializer can apply: to a known record, with an operation it handles, one edge to an expression. */
  predicate Fit(records: seq<Record>, g: Group) {
    && g.target.record < |records|
    && !g.operation.OtherOperation?
    && (g.operation == ReplaceExpression ==> |g.edges| == 1)
  }

  predicate UnfitError(e: Error) {
    e == StaleHandle || e == ExpectedOneEdge || e == CannotApply
  }

  lemma {:induction false} GroupError(m: Module, records: seq<Record>, g: Group, other: OtherStep, allowed: Error -> bool)
    requires OtherErrors(other, allowed) && (forall e :: Malformation(e) ==> allowed(e))
    requires Fit(records, g) || (forall e :: UnfitError(e) ==> allowed(e))
    ensures Allows(allowed, ApplyGroup(m, records, g, other))
  {
    hide ReplaceStatementsAtPath, CloneStmtAtPath, ClausesOf, Chain, BodiesOf, LastSlash;
    if g.target.record < |records| {
      var path := records[g.target.record].astPath;
      var statementPath, markerPath := StatementPathForLocator(path), IfStatementPathForElifLocator(path);
      assert Allows(allowed, other(m, path, g));
      ClausesError(g.edges);
      if statementPath.Ok? {
        ReplaceAtError(m, statementPath.value, BodiesOf(g.edges));
      }
      if markerPath.Ok? {
        CloneAtError(m, markerPath.value);
        var marker := CloneStmtAtPath(m, markerPath.value);
        if marker.Ok? && ClausesOf(g.edges).Ok? {
          ReplaceAtError(m, markerPath.value, Chain(ClausesOf(g.edges).value, marker.value.orelse));
        }
      }
    }
  }

  lemma {:induction false} KeyError(records: seq<Record>, g: Group)
    ensures KeyGroup(records, g).Err? ==> KeyGroup(records, g).error == if g.target.record < |records| then BadPath else StaleHandle
  {
    var path := GroupPath(records, g);
    if path.Ok? && path.value.Some? {
      PathError(path.value.value);
    }
  }

  lemma {:induction false} KeysError(records: seq<Record>, groups: seq<Group>, allowed: Error -> bool)
    requires allowed(BadPath)
    requires (forall g :: g in groups ==> Fit(records, g)) || allowed(StaleHandle)
    ensures Allows(allowed, KeyGroups(records, groups))
    ensures KeyGroups(records, groups).Ok? ==> forall k :: k in KeyGroups(records, groups).value ==> k.group in groups
  {
    hide KeyGroup;
    if groups != [] {
      assert groups[0] in groups;
      KeyError(records, groups[0]);
      KeyedIsGroup(records, groups[0]);
      KeysError(records, groups[1..], allowed);
    }
  }

  lemma {:induction false} KeyedIsGroup(records: seq<Record>, g: Group)
    ensures KeyGroup(records, g).Ok? ==> KeyGroup(records, g).value.group == g
  {
  }

  lemma {:induction false} GroupsError(m: Module, records: seq<Record>, groups: seq<KeyedGroup>, other: OtherStep, allowed: Error -> bool)
    requires OtherErrors(other, allowed) && (forall e :: Malformation(e) ==> allowed(e))
    requires (forall k :: k in groups ==> Fit(records, k.group)) || (forall e :: UnfitError(e) ==> allowed(e))
    ensures Allows(allowed, ApplyAll(m, records, groups, other))
    decreases |groups|
  {
    hide ApplyGroup, Fit;
    if groups != [] {
      assert groups[0] in groups;
      GroupError(m, records, groups[0].group, other, allowed);
      var first := ApplyGroup(m, records, groups[0].group, other);
      if first.Ok? {
        GroupsError(first.value, records, groups[1..], other, allowed);
      }
    }
  }

  /** Beyond malformed paths and payloads and the errors of the other steps, only an unfit group can fail. */
  lemma {:induction false} EdgesError(m: Module, records: seq<Record>, edges: seq<EdgeInput>, other: OtherStep, allowed: Error -> bool)
    requires OtherErrors(other, allowed) && (forall e :: Malformation(e) ==> allowed(e))
    requires (forall g :: g in GroupsOf(edges) ==> Fit(records, g)) || (forall e :: UnfitError(e) ==> allowed(e))
    ensures Allows(allowed, ApplyEdges(m, records, edges, other))
  {
    var groups := GroupsOf(edges);
    assert allowed(BadPath) by { assert Malformation(BadPath); }
    if exists g :: g in groups && !Fit(records, g) {
      assert UnfitError(StaleHandle);
    }
    hide KeyGroups, ApplyAll, Fit, GroupsOf, SortGroups;
    KeysError(records, groups, allowed);
    var keyed := KeyGroups(records, groups);
    if keyed.Ok? {
      SortGroupsSorted(keyed.value);
      forall k | k in SortGroups(keyed.value) ensures k in keyed.value {
        assert k in multiset(SortGroups(keyed.value));
      }
      GroupsError(m, records, SortGroups(keyed.value), other, allowed);
    }
  }
}
