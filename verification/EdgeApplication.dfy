/**
 Applying the edges of one occurrence to its module (materialize_ir.rs): the edges are grouped by target, the groups
 sorted, and the groups applied one after another to the module as it then stands.
 */
module EdgeApplication {
  import opened Wrappers
  import opened Ast
  import opened AstPaths
  import opened Navigation
  import opened Splice
  import opened EdgeOrder
  import opened Templates

  /** An edge whose source has been materialized. */
  datatype EdgeInput = EdgeInput(target: RecordKey, operation: Operation, source: Module, sourceRecords: seq<Record>)

  datatype Group = Group(target: RecordKey, operation: Operation, edges: seq<EdgeInput>)

  /** The steps for expression, parameter and call-argument groups, which this module takes as given. */
  type OtherStep = (Module, string, Group) -> Result<Module>

  // ---------- replacing statements along a parsed path ----------

  function ReplaceStatements(s: Stmt, segments: seq<Segment>, replacement: seq<Stmt>): Result<Stmt>
    decreases |segments|
  {
    if segments == [] then Err(BadPath)
    else match NestedSuite(s, segments)
      case None => Err(BadPath)
      case Some((slot, path)) =>
        var suite := Suite(s, slot).value;
        if path[0].index.None? || path[0].index.value >= |suite| then Err(BadPath)
        else
          var i := path[0].index.value;
          if |path| == 1 then Ok(WithSuite(s, slot, suite[..i] + replacement + suite[i + 1..]))
          else
            var child :- ReplaceStatements(suite[i], path[1..], replacement);
            Ok(WithSuite(s, slot, suite[i := child]))
  }

  function ReplaceStatementsAtPath(m: Module, path: string, replacement: seq<Stmt>): Result<Module> {
    var segments :- ParseAstPath(path);
    ReplaceStatements(m, segments, replacement)
  }

  lemma {:induction false} ReplaceIsReplaceAt(s: Stmt, segments: seq<Segment>, replacement: seq<Stmt>)
    ensures ReplaceStatements(s, segments, replacement) ==
            if ToAddress(segments).None? then Err(BadPath) else ReplaceAt(s, ToAddress(segments).value, replacement)
    decreases |segments|
  {
    if segments != [] {
      NestedIsFirstStep(s, segments);
      hide NestedSuite, FirstStep, Suite, WithSuite;
      if FirstStep(segments).Some? {
        var (step, used) := FirstStep(segments).value;
        var rest := segments[used..];
        if Suite(s, step.slot).Some? && step.index < |Suite(s, step.slot).value| {
          ReplaceIsReplaceAt(Suite(s, step.slot).value[step.index], rest, replacement);
          if ToAddress(rest).Some? {
            assert ([step] + ToAddress(rest).value)[1..] == ToAddress(rest).value;
          }
        }
      }
    }
  }

  // ---------- applying one group ----------

  predicate IsMarkerOnly(s: Stmt) {
    s.head.ExprStmt? && s.head.value.Call? && CallName(s.head.value.func) in
    {Some("astichi_keep"), Some("astichi_import"), Some("astichi_pass"), Some("astichi_export")}
  }

  function WithoutMarkers(body: seq<Stmt>): seq<Stmt> {
    if body == [] then []
    else if IsMarkerOnly(body[0]) then WithoutMarkers(body[1..])
    else [body[0]] + WithoutMarkers(body[1..])
  }

  /** The branch of an `astichi_elif` payload function: its only statement, an `if` without `else`. */
  function ClauseOf(edge: EdgeInput): Result<Clause> {
    var path :- UniqueLocator(edge.sourceRecords, "astichi.surface.elif.production");
    var payload :- CloneStmtAtPath(edge.source, path);
    if !(payload.head.FunctionDef? && !payload.head.isAsync && payload.head.name == "astichi_elif") then Err(BadPayload)
    else
      var branches := WithoutMarkers(payload.body);
      if |branches| == 1 && branches[0].head.If? && branches[0].orelse == []
      then Ok(Clause(branches[0].head.test, branches[0].body)) else Err(BadPayload)
  }

  /** The branches of a group; they are read from the last edge to the first. */
  function ClausesOf(edges: seq<EdgeInput>): Result<seq<Clause>> {
    if edges == [] then Ok([])
    else
      var rest :- ClausesOf(edges[1..]);
      var first :- ClauseOf(edges[0]);
      Ok([first] + rest)
  }

  function BodiesOf(edges: seq<EdgeInput>): seq<Stmt> {
    if edges == [] then [] else edges[0].source.body + BodiesOf(edges[1..])
  }

  function ApplyGroup(m: Module, records: seq<Record>, g: Group, other: OtherStep): Result<Module> {
    if g.target.record >= |records| then Err(StaleHandle)
    else
      var path := records[g.target.record].astPath;
      match g.operation
      case SpliceBodyAtMarker =>
        var statementPath :- StatementPathForLocator(path);
        ReplaceStatementsAtPath(m, statementPath, BodiesOf(g.edges))
      case AppendClause =>
        var markerPath :- IfStatementPathForElifLocator(path);
        var marker :- CloneStmtAtPath(m, markerPath);
        if !marker.head.If? then Err(BadPath)
        else
          var clauses :- ClausesOf(g.edges);
          ReplaceStatementsAtPath(m, markerPath, Chain(clauses, marker.orelse))
      case ReplaceExpression =>
        if |g.edges| == 1 then other(m, path, g) else Err(ExpectedOneEdge)
      case SpliceParameters => other(m, path, g)
      case SpliceCallArguments => other(m, path, g)
      case OtherOperation(_) => Err(CannotApply)
  }

  // ---------- grouping and sorting ----------

  predicate GroupKeyLess(t: RecordKey, op: Operation, t': RecordKey, op': Operation) {
    || t.occurrence < t'.occurrence
    || (t.occurrence == t'.occurrence && t.record < t'.record)
    || (t == t' && TextLess(OperationKey(op), OperationKey(op')))
  }

  function IndexOfGroup(groups: seq<Group>, t: RecordKey, op: Operation): (i: nat)
    ensures i <= |groups|
    ensures i < |groups| ==> groups[i].target == t && groups[i].operation == op
    ensures forall j :: 0 <= j < i ==> groups[j].target != t || groups[j].operation != op
  {
    if groups == [] || (groups[0].target == t && groups[0].operation == op) then 0
    else 1 + IndexOfGroup(groups[1..], t, op)
  }

  function InsertGroup(groups: seq<Group>, g: Group): seq<Group> {
    if groups == [] || GroupKeyLess(g.target, g.operation, groups[0].target, groups[0].operation) then [g] + groups
    else [groups[0]] + InsertGroup(groups[1..], g)
  }

  /** Pushes an edge into an ordered map from targets and operations to edges. */
  function AddEdge(groups: seq<Group>, e: EdgeInput): seq<Group> {
    var i := IndexOfGroup(groups, e.target, e.operation);
    if i < |groups| then groups[i := groups[i].(edges := groups[i].edges + [e])]
    else InsertGroup(groups, Group(e.target, e.operation, [e]))
  }

  function GroupsOf(edges: seq<EdgeInput>): seq<Group> {
    if edges == [] then [] else AddEdge(GroupsOf(edges[..|edges| - 1]), edges[|edges| - 1])
  }

  datatype KeyedGroup = KeyedGroup(key: Option<PathKey>, group: Group)

  /** The path of the statement that a group replaces, for the operations that replace statements. */
  function GroupPath(records: seq<Record>, g: Group): Result<Option<string>> {
    if g.target.record >= |records| then Err(StaleHandle)
    else
      var path := records[g.target.record].astPath;
      match g.operation
      case SpliceBodyAtMarker => var p :- StatementPathForLocator(path); Ok(Some(p))
      case AppendClause => var p :- IfStatementPathForElifLocator(path); Ok(Some(p))
      case _ => Ok(None)
  }

  function KeyGroup(records: seq<Record>, g: Group): Result<KeyedGroup> {
    var path :- GroupPath(records, g);
    if path.None? then Ok(KeyedGroup(None, g))
    else
      var segments :- ParseAstPath(path.value);
      Ok(KeyedGroup(Some(KeyOf(segments)), g))
  }

  function KeyGroups(records: seq<Record>, groups: seq<Group>): Result<seq<KeyedGroup>> {
    if groups == [] then Ok([])
    else
      var first :- KeyGroup(records, groups[0]);
      var rest :- KeyGroups(records, groups[1..]);
      Ok([first] + rest)
  }

  /** Statement groups first, from the last key to the first; then the others by target and operation. */
  predicate Before(a: KeyedGroup, b: KeyedGroup) {
    if a.key.Some? then b.key.None? || KeyLess(b.key.value, a.key.value)
    else b.key.None? && GroupKeyLess(a.group.target, a.group.operation, b.group.target, b.group.operation)
  }

  function InsertKeyed(g: KeyedGroup, sorted: seq<KeyedGroup>): seq<KeyedGroup> {
    if sorted == [] || !Before(sorted[0], g) then [g] + sorted else [sorted[0]] + InsertKeyed(g, sorted[1..])
  }

  /** A stable sort. */
  function SortGroups(groups: seq<KeyedGroup>): seq<KeyedGroup> {
    if groups == [] then [] else InsertKeyed(groups[0], SortGroups(groups[1..]))
  }

  function ApplyAll(m: Module, records: seq<Record>, groups: seq<KeyedGroup>, other: OtherStep): Result<Module>
    decreases |groups|
  {
    if groups == [] then Ok(m)
    else
      var m' :- ApplyGroup(m, records, groups[0].group, other);
      ApplyAll(m', records, groups[1..], other)
  }

  /** What applying the edges of one occurrence makes of its module. */
  function ApplyEdges(m: Module, records: seq<Record>, edges: seq<EdgeInput>, other: OtherStep): Result<Module> {
    var keyed :- KeyGroups(records, GroupsOf(edges));
    ApplyAll(m, records, SortGroups(keyed), other)
  }

  // ---------- the loops of the source ----------

  lemma {:induction false} ClausesFail(edges: seq<EdgeInput>, i: nat)
    requires i <= |edges| && ClausesOf(edges[i..]).Err?
    ensures ClausesOf(edges) == ClausesOf(edges[i..])
    decreases i
  {
    if i == 0 {
      assert edges[0..] == edges;
    } else {
      assert edges[i - 1..][1..] == edges[i..];
      ClausesFail(edges, i - 1);
    }
  }

  /** Builds an `elif` chain from its last branch to its first. */
  method BuildChain(edges: seq<EdgeInput>, orelse: seq<Stmt>) returns (r: Result<seq<Stmt>>)
    ensures ClausesOf(edges).Ok? ==> r == Ok(Chain(ClausesOf(edges).value, orelse))
    ensures ClausesOf(edges).Err? ==> r == Err(ClausesOf(edges).error)
  {
    var chain := orelse;
    var i := |edges|;
    while i > 0
      invariant 0 <= i <= |edges|
      invariant ClausesOf(edges[i..]).Ok? && chain == Chain(ClausesOf(edges[i..]).value, orelse)
    {
      i := i - 1;
      assert edges[i..][1..] == edges[i + 1..];
      var clause := ClauseOf(edges[i]);
      if clause.Err? {
        ClausesFail(edges, i);
        return Err(clause.error);
      }
      ghost var before := ClausesOf(edges[i + 1..]).value;
      assert ([clause.value] + before)[1..] == before;
      chain := [Stmt(If(clause.value.test), clause.value.body, chain, [], [])];
    }
    assert edges[0..] == edges;
    r := Ok(chain);
  }

  lemma {:induction false} ApplyAllAppend(m: Module, records: seq<Record>, a: seq<KeyedGroup>, b: seq<KeyedGroup>, other: OtherStep)
    ensures ApplyAll(m, records, a + b, other) ==
            var first := ApplyAll(m, records, a, other);
            if first.Err? then first else ApplyAll(first.value, records, b, other)
    decreases |a|
  {
    if a == [] {
      assert a + b == b;
    } else {
      assert (a + b)[1..] == a[1..] + b;
      var first := ApplyGroup(m, records, a[0].group, other);
      if first.Ok? {
        ApplyAllAppend(first.value, records, a[1..], b, other);
      }
    }
  }

  /** Applies the edges of one occurrence, one group at a time, to the tree as it then stands. */
  method ApplyMaterializedEdges(m: Module, records: seq<Record>, edges: seq<EdgeInput>, other: OtherStep)
    returns (r: Result<Module>)
    ensures r == ApplyEdges(m, records, edges, other)
  {
    var grouped: seq<Group> := [];
    for i := 0 to |edges|
      invariant grouped == GroupsOf(edges[..i])
    {
      assert edges[..i + 1][..i] == edges[..i];
      grouped := AddEdge(grouped, edges[i]);
    }
    assert edges[..|edges|] == edges;
    var keyed := KeyGroups(records, grouped);
    if keyed.Err? {
      return Err(keyed.error);
    }
    var ordered := SortGroups(keyed.value);
    var tree := m;
    assert ordered[..0] == [];
    for i := 0 to |ordered|
      invariant ApplyAll(m, records, ordered[..i], other) == Ok(tree)
    {
      ApplyAllAppend(m, records, ordered[..i], [ordered[i]], other);
      ApplyAllAppend(m, records, ordered[..i + 1], ordered[i + 1..], other);
      assert ordered[..i + 1] == ordered[..i] + [ordered[i]] && ordered[..i + 1] + ordered[i + 1..] == ordered;
      var step := ApplyGroup(tree, records, ordered[i].group, other);
      assert ApplyAll(tree, records, [ordered[i]], other) == step by {
        assert [ordered[i]][1..] == [];
      }
      if step.Err? {
        return Err(step.error);
      }
      tree := step.value;
    }
    assert ordered[..|ordered|] == ordered;
    r := Ok(tree);
  }
}
