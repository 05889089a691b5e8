/** Applying sorted groups of statement edges one by one is one simultaneous substitution. */
module SpliceTheorem {
  import opened Wrappers
  import opened Ast
  import opened AstPaths
  import opened Navigation
  import opened Splice
  import opened EdgeOrder
  import opened Templates
  import opened EdgeApplication
  import opened EdgeTargets

  // ---------- grouping loses and mixes nothing ----------

  function EdgesOf(edges: seq<EdgeInput>, t: RecordKey, op: Operation): seq<EdgeInput> {
    if edges == [] then []
    else EdgesOf(edges[..|edges| - 1], t, op)
         + if edges[|edges| - 1].target == t && edges[|edges| - 1].operation == op then [edges[|edges| - 1]] else []
  }

  ghost predicate Unique(groups: seq<Group>) {
    forall i, j :: 0 <= i < j < |groups| ==> groups[i].target != groups[j].target || groups[i].operation != groups[j].operation
  }

  ghost predicate Partition(groups: seq<Group>, edges: seq<EdgeInput>) {
    && Unique(groups)
    && (forall g :: g in groups ==> g.edges == EdgesOf(edges, g.target, g.operation) && g.edges != [])
    && (forall e :: e in edges ==> exists g :: g in groups && g.target == e.target && g.operation == e.operation)
  }

  lemma {:induction false} InsertGroupAt(groups: seq<Group>, g: Group) returns (k: nat)
    ensures k <= |groups| && InsertGroup(groups, g) == groups[..k] + [g] + groups[k..]
  {
    if groups == [] || GroupKeyLess(g.target, g.operation, groups[0].target, groups[0].operation) {
      k := 0;
    } else {
      var j := InsertGroupAt(groups[1..], g);
      k := j + 1;
      assert groups == [groups[0]] + groups[1..];
    }
  }

  lemma {:induction false} EdgesOfNone(edges: seq<EdgeInput>, t: RecordKey, op: Operation)
    requires forall e :: e in edges ==> e.target != t || e.operation != op
    ensures EdgesOf(edges, t, op) == []
  {
    if edges != [] {
      EdgesOfNone(edges[..|edges| - 1], t, op);
    }
  }

  lemma {:induction false} EdgesOfLast(rest: seq<EdgeInput>, e: EdgeInput, t: RecordKey, op: Operation)
    ensures EdgesOf(rest + [e], t, op) == EdgesOf(rest, t, op) + if e.target == t && e.operation == op then [e] else []
  {
    assert (rest + [e])[..|rest|] == rest;
  }

  lemma {:induction false} PushKeepsPartition(groups: seq<Group>, rest: seq<EdgeInput>, e: EdgeInput, i: nat)
    requires Partition(groups, rest)
    requires i < |groups| && groups[i].target == e.target && groups[i].operation == e.operation
    ensures Partition(groups[i := groups[i].(edges := groups[i].edges + [e])], rest + [e])
  {
    hide EdgesOf;
    var after := groups[i := groups[i].(edges := groups[i].edges + [e])];
    forall g | g in after ensures g.edges == EdgesOf(rest + [e], g.target, g.operation) && g.edges != [] {
      EdgesOfLast(rest, e, g.target, g.operation);
      var j :| 0 <= j < |after| && after[j] == g;
      assert groups[j] in groups;
    }
    forall f | f in rest + [e] ensures exists g :: g in after && g.target == f.target && g.operation == f.operation {
      assert after[i] in after;
      if f in rest {
        var g :| g in groups && g.target == f.target && g.operation == f.operation;
        var j :| 0 <= j < |groups| && groups[j] == g;
        assert after[j] in after;
      }
    }
  }

  lemma {:induction false} InsertKeepsUnique(groups: seq<Group>, k: nat, added: Group)
    requires Unique(groups) && k <= |groups|
    requires forall g :: g in groups ==> g.target != added.target || g.operation != added.operation
    ensures Unique(groups[..k] + [added] + groups[k..])
    ensures forall g :: g in groups[..k] + [added] + groups[k..] <==> g == added || g in groups
  {
    var after := groups[..k] + [added] + groups[k..];
    forall i, j | 0 <= i < j < |after| ensures after[i].target != after[j].target || after[i].operation != after[j].operation {
      var gi := if i < k then groups[i] else if i == k then added else groups[i - 1];
      var gj := if j < k then groups[j] else if j == k then added else groups[j - 1];
      assert after[i] == gi && after[j] == gj;
    }
    forall g ensures g in after <==> g == added || g in groups {
      assert g in groups <==> g in groups[..k] || g in groups[k..] by {
        assert groups == groups[..k] + groups[k..];
      }
    }
  }

  lemma {:induction false} InsertKeepsPartition(groups: seq<Group>, rest: seq<EdgeInput>, e: EdgeInput)
    requires Partition(groups, rest)
    requires forall g :: g in groups ==> g.target != e.target || g.operation != e.operation
    ensures Partition(InsertGroup(groups, Group(e.target, e.operation, [e])), rest + [e])
  {
    var added := Group(e.target, e.operation, [e]);
    var after := InsertGroup(groups, added);
    var k := InsertGroupAt(groups, added);
    InsertKeepsUnique(groups, k, added);
    forall f | f in rest ensures f.target != e.target || f.operation != e.operation {
      var g :| g in groups && g.target == f.target && g.operation == f.operation;
    }
    EdgesOfNone(rest, e.target, e.operation);
    hide EdgesOf, InsertGroup, Unique;
    forall g | g in after ensures g.edges == EdgesOf(rest + [e], g.target, g.operation) && g.edges != [] {
      EdgesOfLast(rest, e, g.target, g.operation);
    }
  }

  lemma {:induction false} GroupsPartition(edges: seq<EdgeInput>)
    ensures Partition(GroupsOf(edges), edges)
  {
    if edges != [] {
      var n := |edges| - 1;
      var e, rest := edges[n], edges[..n];
      var before := GroupsOf(rest);
      GroupsPartition(rest);
      var i := IndexOfGroup(before, e.target, e.operation);
      if i < |before| {
        PushKeepsPartition(before, rest, e, i);
      } else {
        InsertKeepsPartition(before, rest, e);
      }
      assert edges == rest + [e];
    }
  }

  // ---------- keys and order ----------

  ghost predicate Keyed(groups: seq<KeyedGroup>, records: seq<Record>) {
    forall g :: g in groups ==> KeyGroup(records, g.group) == Ok(g)
  }

  lemma {:induction false} KeyGroupsExact(records: seq<Record>, groups: seq<Group>)
    requires forall g :: g in groups ==> KeyGroup(records, g).Ok?
    ensures KeyGroups(records, groups).Ok?
    ensures var keyed := KeyGroups(records, groups).value;
            && |keyed| == |groups|
            && (forall i :: 0 <= i < |groups| ==> keyed[i].group == groups[i])
            && Keyed(keyed, records)
  {
    if groups != [] {
      assert KeyGroup(records, groups[0]).Ok?;
      KeyGroupsExact(records, groups[1..]);
      hide KeyGroup;
      var keyed, rest := KeyGroups(records, groups).value, KeyGroups(records, groups[1..]).value;
      assert keyed == [KeyGroup(records, groups[0]).value] + rest;
      KeepsGroup(records, groups[0]);
    }
  }

  lemma {:induction false} KeepsGroup(records: seq<Record>, g: Group)
    requires KeyGroup(records, g).Ok?
    ensures KeyGroup(records, g).value.group == g
  {
  }

  ghost predicate Sorted(groups: seq<KeyedGroup>) {
    forall i, j :: 0 <= i < j < |groups| ==> !Before(groups[j], groups[i])
  }

  lemma {:induction false} BeforeOrder(x: KeyedGroup, y: KeyedGroup, z: KeyedGroup)
    ensures Before(x, y) ==> !Before(y, x)
    ensures !Before(x, y) && !Before(y, z) ==> !Before(x, z)
  {
    KeyLessStrict();
    LexStrictOrder(CharLess, TextLess);
    hide KeyLess, TextLess;
    if x.key.Some? && y.key.Some? && z.key.Some? && !Before(x, y) && !Before(y, z) {
      NotLessTransitive(KeyLess, z.key.value, y.key.value, x.key.value);
    }
    if !Before(x, y) && !Before(y, z) {
      var tx, ty, tz := OperationKey(x.group.operation), OperationKey(y.group.operation), OperationKey(z.group.operation);
      if !TextLess(tx, ty) && !TextLess(ty, tz) {
        NotLessTransitive(TextLess, tx, ty, tz);
      }
    }
  }

  lemma {:induction false} InsertKeyedAt(g: KeyedGroup, sorted: seq<KeyedGroup>) returns (k: nat)
    ensures k <= |sorted| && InsertKeyed(g, sorted) == sorted[..k] + [g] + sorted[k..]
    ensures forall i :: 0 <= i < k ==> Before(sorted[i], g)
    ensures k < |sorted| ==> !Before(sorted[k], g)
  {
    hide Before;
    if sorted == [] || !Before(sorted[0], g) {
      k := 0;
    } else {
      var j := InsertKeyedAt(g, sorted[1..]);
      k := j + 1;
      assert sorted == [sorted[0]] + sorted[1..];
    }
  }

  lemma {:induction false} SortGroupsSorted(groups: seq<KeyedGroup>)
    ensures Sorted(SortGroups(groups))
    ensures multiset(SortGroups(groups)) == multiset(groups)
  {
    hide Before, InsertKeyed;
    if groups != [] {
      var g, rest := groups[0], SortGroups(groups[1..]);
      SortGroupsSorted(groups[1..]);
      var k := InsertKeyedAt(g, rest);
      InsertKeepsSorted(g, rest, k);
      InsertedCount(g, rest, k);
      assert groups == [g] + groups[1..];
    }
  }

  lemma {:induction false} InsertedCount(g: KeyedGroup, rest: seq<KeyedGroup>, k: nat)
    requires k <= |rest|
    ensures multiset(rest[..k] + [g] + rest[k..]) == multiset{g} + multiset(rest)
  {
    assert rest == rest[..k] + rest[k..];
  }

  lemma {:induction false} InsertKeepsSorted(g: KeyedGroup, sorted: seq<KeyedGroup>, k: nat)
    requires Sorted(sorted) && k <= |sorted|
    requires forall i :: 0 <= i < k ==> Before(sorted[i], g)
    requires k < |sorted| ==> !Before(sorted[k], g)
    ensures Sorted(sorted[..k] + [g] + sorted[k..])
  {
    var after := sorted[..k] + [g] + sorted[k..];
    forall i, j | 0 <= i < j < |after| ensures !Before(after[j], after[i]) {
      if j == k {
        BeforeOrder(sorted[i], g, g);
      } else if i == k && j > k + 1 {
        BeforeOrder(sorted[j - 1], sorted[k], g);
      }
      hide Before;
      var gi := if i < k then sorted[i] else if i == k then g else sorted[i - 1];
      var gj := if j < k then sorted[j] else if j == k then g else sorted[j - 1];
      assert after[i] == gi && after[j] == gj;
    }
  }

  // ---------- one group is one splice ----------

  /** The path that a statement group replaces, and the key it is sorted by. */
  lemma {:induction false} GroupAddress(records: seq<Record>, g: Group, at: Address) returns (path: string)
    requires SplicesStatements(g.operation) && AddressOf(records, g.target, g.operation) == Ok(at)
    ensures GroupPath(records, g) == Ok(Some(path)) && ParseAstPath(path) == Ok(Segments(at))
    ensures ToAddress(Segments(at)) == Some(at)
    ensures KeyGroup(records, g) == Ok(KeyedGroup(Some(KeyOf(Segments(at))), g))
  {
    hide ParseAstPath, LastSlash, EndsWith, ToAddress, Segments, KeyOf;
    path := GroupPath(records, g).value.value;
    SegmentsOfAddress(ParseAstPath(path).value);
  }

  lemma {:induction false} BlockGroupApplied(m: Module, records: seq<Record>, g: Group, at: Address, other: OtherStep)
    requires g.operation == SpliceBodyAtMarker && AddressOf(records, g.target, g.operation) == Ok(at)
    ensures ApplyGroup(m, records, g, other) == ApplyOne(m, at, Block(BodiesOf(g.edges)))
  {
    var path := GroupAddress(records, g, at);
    hide ParseAstPath, LastSlash, EndsWith, ToAddress, Segments, KeyOf, AddressOf, ReplaceAt, BodiesOf, ReplaceStatements;
    ReplaceIsReplaceAt(m, Segments(at), BodiesOf(g.edges));
  }

  lemma {:induction false} ElifGroupApplied(m: Module, records: seq<Record>, g: Group, at: Address, other: OtherStep)
    requires g.operation == AppendClause && AddressOf(records, g.target, g.operation) == Ok(at) && at != []
    ensures ClausesOf(g.edges).Ok? ==>
              ApplyGroup(m, records, g, other) == ApplyOne(m, at, Clauses(ClausesOf(g.edges).value))
    ensures ClausesOf(g.edges).Err? ==> ApplyGroup(m, records, g, other).Err?
  {
    var path := GroupAddress(records, g, at);
    assert Segments(at) != [] by {
      if Segments(at) == [] {
        NoAddress();
      }
    }
    hide ParseAstPath, LastSlash, EndsWith, ToAddress, Segments, KeyOf, AddressOf, StmtAt, ReplaceAt, ClausesOf, CloneStmt,
         ReplaceStatements, Chain;
    CloneIsStmtAt(m, Segments(at));
    if StmtAt(m, at).Some? && ClausesOf(g.edges).Ok? {
      ReplaceIsReplaceAt(m, Segments(at), Chain(ClausesOf(g.edges).value, StmtAt(m, at).value.orelse));
    }
  }

  lemma {:induction false} NoAddress()
    ensures ToAddress([]) == Some([])
  {
  }

  // ---------- the run ----------

  lemma {:induction false} NothingToSubstitute(s: Stmt)
    ensures SubstInside(s, map[]) == s
    decreases s, 1
  {
    SuiteUnchanged(s.body, InBody);
    SuiteUnchanged(s.orelse, InOrelse);
    SuiteUnchanged(s.finalbody, InFinalbody);
    forall k | 0 <= k < |s.branches| ensures SubstSuite(s.branches[k].body, BranchSlot(s.head, k), map[]) == s.branches[k].body {
      SuiteUnchanged(s.branches[k].body, BranchSlot(s.head, k));
    }
    assert SubstInside(s, map[]).branches == s.branches;
  }

  lemma {:induction false} SuiteUnchanged(suite: seq<Stmt>, slot: Slot)
    ensures SubstSuite(suite, slot, map[]) == suite
    decreases suite, 0
  {
    var parts := Parts(suite, slot, map[]);
    forall j | 0 <= j < |suite| ensures parts[j] == [suite[j]] {
      var under := Under(map[], Step(slot, j));
      forall q: Address ensures q !in under {
        UnderMember(map[], Step(slot, j), q);
      }
      assert under == map[];
      NothingToSubstitute(suite[j]);
      assert parts[j] == SubstStmt(suite[j], under) == [SubstInside(suite[j], under)];
    }
    FlattenOne(parts, suite);
  }

  lemma {:induction false} FlattenOne(parts: seq<seq<Stmt>>, suite: seq<Stmt>)
    requires |parts| == |suite| && forall j :: 0 <= j < |parts| ==> parts[j] == [suite[j]]
    ensures Flatten(parts) == suite
  {
    if parts != [] {
      FlattenOne(parts[1..], suite[1..]);
    }
  }

  /** A statement group whose target is a statement of the module and whose payloads are well formed. */
  ghost predicate Ready(m: Module, records: seq<Record>, g: KeyedGroup) {
    && SplicesStatements(g.group.operation)
    && g.group.edges != [] && g.group.edges[0].operation == g.group.operation
    && (g.group.operation == AppendClause ==> ClausesOf(g.group.edges).Ok?)
    && AddressOf(records, g.group.target, g.group.operation).Ok?
    && ValidTarget(m, AddressOf(records, g.group.target, g.group.operation).value, SpliceOf(g.group.edges))
    && g.key == Some(KeyOf(Segments(AddressOf(records, g.group.target, g.group.operation).value)))
  }

  ghost predicate AllReady(m: Module, records: seq<Record>, groups: seq<KeyedGroup>) {
    && (forall i :: 0 <= i < |groups| ==> Ready(m, records, groups[i]))
    && (forall i, j :: 0 <= i < j < |groups| ==>
          AddressOf(records, groups[i].group.target, groups[i].group.operation)
          != AddressOf(records, groups[j].group.target, groups[j].group.operation))
  }

  function GroupAt(records: seq<Record>, g: KeyedGroup): Result<Address> {
    AddressOf(records, g.group.target, g.group.operation)
  }

  /** `t` holds what each group puts at its address, and nothing else. */
  ghost predicate TargetsOfGroups(t: Targets, records: seq<Record>, groups: seq<KeyedGroup>) {
    && (forall at :: at in t ==> exists i :: 0 <= i < |groups| && GroupAt(records, groups[i]) == Ok(at))
    && (forall i :: 0 <= i < |groups| && GroupAt(records, groups[i]).Ok? ==>
          GroupAt(records, groups[i]).value in t
          && t[GroupAt(records, groups[i]).value] == SpliceOf(groups[i].group.edges))
  }

  lemma {:induction false} OneMoreTarget(t: Targets, records: seq<Record>, groups: seq<KeyedGroup>, g: KeyedGroup, at: Address)
    requires TargetsOfGroups(t, records, groups) && GroupAt(records, g) == Ok(at)
    requires forall i :: 0 <= i < |groups| ==> GroupAt(records, groups[i]) != Ok(at)
    ensures TargetsOfGroups(t[at := SpliceOf(g.group.edges)], records, groups + [g])
  {
    hide GroupAt, SpliceOf;
    var after := t[at := SpliceOf(g.group.edges)];
    assert (groups + [g])[|groups|] == g;
    forall q | q in after ensures exists i :: 0 <= i < |groups + [g]| && GroupAt(records, (groups + [g])[i]) == Ok(q) {
      if q != at {
        var i :| 0 <= i < |groups| && GroupAt(records, groups[i]) == Ok(q);
        assert (groups + [g])[i] == groups[i];
      }
    }
  }

  lemma {:induction false} ReadyGroupApplied(tree: Module, m: Module, records: seq<Record>, g: KeyedGroup, other: OtherStep)
    requires Ready(m, records, g)
    ensures GroupAt(records, g).Ok?
    ensures ApplyGroup(tree, records, g.group, other) == ApplyOne(tree, GroupAt(records, g).value, SpliceOf(g.group.edges))
  {
    hide ApplyGroup, ApplyOne, AddressOf, KeyOf, Segments, StmtAt;
    var at := GroupAt(records, g).value;
    if g.group.operation == SpliceBodyAtMarker {
      BlockGroupApplied(tree, records, g.group, at, other);
    } else {
      ElifGroupApplied(tree, records, g.group, at, other);
    }
  }

  /** The targets of the groups before the last one do not move its target. */
  lemma {:induction false} EarlierGroupsDoNotShift(m: Module, records: seq<Record>, groups: seq<KeyedGroup>, t: Targets, at: Address, q: Address)
    requires groups != [] && AllReady(m, records, groups) && Sorted(groups)
    requires TargetsOfGroups(t, records, groups[..|groups| - 1])
    requires GroupAt(records, groups[|groups| - 1]) == Ok(at) && q in t
    ensures !Shifts(q, at)
  {
    hide AddressOf, KeyOf, Segments, Shifts, KeyLess, ValidTarget, SpliceOf;
    var n := |groups| - 1;
    var i :| 0 <= i < |groups[..n]| && GroupAt(records, groups[..n][i]) == Ok(q);
    assert !Before(groups[n], groups[i]);
    if Shifts(q, at) {
      ShiftingTargetIsLater(q, at);
    }
  }

  lemma {:induction false} AllReadyLast(m: Module, records: seq<Record>, groups: seq<KeyedGroup>)
    requires groups != [] && AllReady(m, records, groups) && Sorted(groups)
    ensures var n := |groups| - 1;
            && AllReady(m, records, groups[..n]) && Sorted(groups[..n]) && Ready(m, records, groups[n])
            && GroupAt(records, groups[n]).Ok?
            && ValidTarget(m, GroupAt(records, groups[n]).value, SpliceOf(groups[n].group.edges))
            && forall i :: 0 <= i < n ==> GroupAt(records, groups[..n][i]) != GroupAt(records, groups[n])
  {
    hide AddressOf, Before, ValidTarget, SpliceOf, KeyOf, Segments;
  }

  /** Sorted statement groups, applied one by one, make the simultaneous substitution of their targets. */
  lemma {:induction false} RunRefinesSubstitution(m: Module, records: seq<Record>, groups: seq<KeyedGroup>, other: OtherStep)
    returns (t: Targets)
    requires AllReady(m, records, groups) && Sorted(groups)
    ensures TargetsOfGroups(t, records, groups)
    ensures ApplyAll(m, records, groups, other) == Ok(SubstInside(m, t))
    decreases |groups|
  {
    hide ApplyGroup, SubstInside, AllReady, Sorted, TargetsOfGroups, GroupAt, Shifts, SpliceOf, Ready, ValidTarget, ApplyOne;
    if groups == [] {
      NothingToSubstitute(m);
      NoTargets(records);
      t := map[];
    } else {
      AllReadyLast(m, records, groups);
      var n := |groups| - 1;
      var g, before := groups[n], groups[..n];
      var at := GroupAt(records, g).value;
      var t' := RunRefinesSubstitution(m, records, before, other);
      forall q | q in t' ensures !Shifts(q, at) {
        EarlierGroupsDoNotShift(m, records, groups, t', at, q);
      }
      ApplyOneRefines(m, t', at, SpliceOf(g.group.edges));
      ReadyGroupApplied(SubstInside(m, t'), m, records, g, other);
      ApplyAllAppend(m, records, before, [g], other);
      ApplyAllOne(SubstInside(m, t'), records, g, other);
      OneMoreTarget(t', records, before, g, at);
      assert groups == before + [g];
      t := t'[at := SpliceOf(g.group.edges)];
    }
  }

  lemma {:induction false} NoTargets(records: seq<Record>)
    ensures TargetsOfGroups(map[], records, [])
  {
  }

  lemma {:induction false} ApplyAllOne(m: Module, records: seq<Record>, g: KeyedGroup, other: OtherStep)
    ensures ApplyAll(m, records, [g], other) == ApplyGroup(m, records, g.group, other)
  {
    hide ApplyGroup;
    assert [g][1..] == [];
  }

  // ---------- from edges to groups ----------

  lemma {:induction false} EdgesOfMembers(edges: seq<EdgeInput>, t: RecordKey, op: Operation)
    ensures forall e :: e in EdgesOf(edges, t, op) <==> e in edges && e.target == t && e.operation == op
  {
    if edges != [] {
      EdgesOfMembers(edges[..|edges| - 1], t, op);
      assert edges == edges[..|edges| - 1] + [edges[|edges| - 1]];
    }
  }

  /** The edges to one address are the edges of one target and operation. */
  lemma {:induction false} EdgesAtOneTarget(records: seq<Record>, edges: seq<EdgeInput>, at: Address, t: RecordKey, op: Operation)
    requires forall e :: e in edges ==> (Replaces(records, e, at) <==> e.target == t && e.operation == op)
    ensures EdgesAt(records, edges, at) == EdgesOf(edges, t, op)
  {
    if edges != [] {
      hide Replaces;
      assert edges == edges[..|edges| - 1] + [edges[|edges| - 1]];
      EdgesAtOneTarget(records, edges[..|edges| - 1], at, t, op);
    }
  }

  lemma {:induction false} ClausesOkIff(edges: seq<EdgeInput>)
    ensures ClausesOf(edges).Ok? <==> forall e :: e in edges ==> ClauseOf(e).Ok?
  {
    if edges != [] {
      hide ClauseOf;
      ClausesOkIff(edges[1..]);
      assert edges == [edges[0]] + edges[1..];
    }
  }

  /** What the run needs of a group, from what holds of its edges. */
  lemma {:induction false} GroupFacts(m: Module, records: seq<Record>, edges: seq<EdgeInput>, g: Group)
    requires Spliceable(m, records, edges) && g in GroupsOf(edges)
    ensures g.edges != [] && g.edges == EdgesOf(edges, g.target, g.operation)
    ensures g.edges[0] in edges && g.edges[0].target == g.target && g.edges[0].operation == g.operation
    ensures KeyGroup(records, g).Ok?
    ensures KeyGroup(records, g).value.group == g
    ensures KeyGroup(records, g).value.key.Some? <==> SplicesStatements(g.operation)
  {
    GroupsPartition(edges);
    EdgesOfMembers(edges, g.target, g.operation);
    assert g.edges[0] in g.edges;
    assert ValidEdge(m, records, g.edges[0]);
    KeyGroupForm(records, g);
  }

  lemma {:induction false} KeyGroupForm(records: seq<Record>, g: Group)
    requires g.target.record < |records|
    requires SplicesStatements(g.operation) ==> AddressOf(records, g.target, g.operation).Ok?
    ensures KeyGroup(records, g).Ok? && KeyGroup(records, g).value.group == g
    ensures KeyGroup(records, g).value.key.Some? <==> SplicesStatements(g.operation)
  {
    if SplicesStatements(g.operation) {
      var path := GroupAddress(records, g, AddressOf(records, g.target, g.operation).value);
    }
  }

  /** The sorted groups of a list of edges. */
  function OrderedGroups(records: seq<Record>, edges: seq<EdgeInput>): Result<seq<KeyedGroup>> {
    var keyed :- KeyGroups(records, GroupsOf(edges));
    Ok(SortGroups(keyed))
  }

  ghost predicate NoneTwice(keyed: seq<KeyedGroup>) {
    forall i, j :: 0 <= i < j < |keyed| ==> keyed[i].group != keyed[j].group
  }

  ghost predicate DrawnFrom(keyed: seq<KeyedGroup>, groups: seq<Group>) {
    forall k :: k in keyed ==> k.group in groups
  }

  ghost predicate Covers(keyed: seq<KeyedGroup>, groups: seq<Group>, all: bool) {
    forall g :: g in groups && (all || SplicesStatements(g.operation)) ==> exists k :: k in keyed && k.group == g
  }

  ghost predicate StatementsFirst(groups: seq<KeyedGroup>, k: nat) {
    && k <= |groups|
    && (forall i :: 0 <= i < k ==> SplicesStatements(groups[i].group.operation))
    && (forall i :: k <= i < |groups| ==> !SplicesStatements(groups[i].group.operation))
  }

  lemma {:induction false} OrderedGroupsFacts(m: Module, records: seq<Record>, edges: seq<EdgeInput>) returns (ordered: seq<KeyedGroup>)
    requires Spliceable(m, records, edges)
    ensures OrderedGroups(records, edges) == Ok(ordered) && Sorted(ordered) && Keyed(ordered, records)
    ensures DrawnFrom(ordered, GroupsOf(edges)) && Covers(ordered, GroupsOf(edges), true)
    ensures NoneTwice(ordered)
  {
    var groups := GroupsOf(edges);
    forall g | g in groups ensures KeyGroup(records, g).Ok? {
      GroupFacts(m, records, edges, g);
    }
    KeyGroupsExact(records, groups);
    GroupsPartition(edges);
    hide KeyGroup, GroupsOf, Before, KeyGroups;
    var keyed := KeyGroups(records, groups).value;
    ordered := SortGroups(keyed);
    SortGroupsSorted(keyed);
    SameElements(ordered, keyed);
    forall g | g in groups ensures exists k :: k in ordered && k.group == g {
      var i :| 0 <= i < |groups| && groups[i] == g;
      assert keyed[i] in keyed;
    }
  }

  lemma {:induction false} SameElements(ordered: seq<KeyedGroup>, keyed: seq<KeyedGroup>)
    requires multiset(ordered) == multiset(keyed)
    requires NoneTwice(keyed)
    ensures forall g :: g in ordered <==> g in keyed
    ensures NoneTwice(ordered)
  {
    forall g ensures g in ordered <==> g in keyed {
      assert g in ordered <==> g in multiset(ordered);
      assert g in keyed <==> g in multiset(keyed);
    }
    forall i, j | 0 <= i < j < |ordered| ensures ordered[i].group != ordered[j].group {
      if ordered[i].group == ordered[j].group {
        var a, b := ordered[i], ordered[j];
        assert a in ordered && b in ordered;
        assert a == b;
        Twice(ordered, i, j);
        Once(keyed, a);
      }
    }
  }

  lemma {:induction false} Twice(s: seq<KeyedGroup>, i: nat, j: nat)
    requires i < j < |s| && s[i] == s[j]
    ensures multiset(s)[s[i]] >= 2
  {
    assert s == s[..j] + [s[j]] + s[j + 1..];
    assert s[i] in s[..j];
  }

  lemma {:induction false} Once(s: seq<KeyedGroup>, g: KeyedGroup)
    requires forall i, j :: 0 <= i < j < |s| ==> s[i].group != s[j].group
    ensures multiset(s)[g] <= 1
  {
    if s != [] {
      assert s == [s[0]] + s[1..];
      Once(s[1..], g);
      if s[0] == g {
        assert g !in s[1..];
      }
    }
  }

  lemma {:induction false} LeadingStatements(groups: seq<KeyedGroup>) returns (k: nat)
    requires Sorted(groups)
    requires forall i :: 0 <= i < |groups| ==> (groups[i].key.Some? <==> SplicesStatements(groups[i].group.operation))
    ensures StatementsFirst(groups, k)
  {
    if groups == [] || groups[0].key.None? {
      k := 0;
      forall i | 0 < i < |groups| ensures groups[i].key.None? {
        assert !Before(groups[i], groups[0]);
      }
    } else {
      hide Before;
      var rest := LeadingStatements(groups[1..]);
      k := rest + 1;
      assert forall i :: 0 < i < |groups| ==> groups[i] == groups[1..][i - 1];
    }
  }

  /** The edges that replace an address are exactly those of the group that replaces it. */
  lemma {:induction false} GroupOfAddress(m: Module, records: seq<Record>, edges: seq<EdgeInput>, g: Group)
    requires Spliceable(m, records, edges) && g in GroupsOf(edges) && SplicesStatements(g.operation)
    ensures AddressOf(records, g.target, g.operation).Ok?
    ensures EdgesAt(records, edges, AddressOf(records, g.target, g.operation).value) == g.edges
  {
    GroupFacts(m, records, edges, g);
    var first := g.edges[0];
    assert ValidEdge(m, records, first);
    var at := AddressOf(records, g.target, g.operation).value;
    forall e | e in edges ensures Replaces(records, e, at) <==> e.target == g.target && e.operation == g.operation {
      assert EdgeAddress(records, first) == Ok(at);
    }
    EdgesAtOneTarget(records, edges, at, g.target, g.operation);
  }

  lemma {:induction false} GroupReady(m: Module, records: seq<Record>, edges: seq<EdgeInput>, k: KeyedGroup)
    requires Spliceable(m, records, edges) && PayloadsOk(edges)
    requires k.group in GroupsOf(edges) && KeyGroup(records, k.group) == Ok(k) && SplicesStatements(k.group.operation)
    ensures Ready(m, records, k)
  {
    var g := k.group;
    GroupFacts(m, records, edges, g);
    assert ValidEdge(m, records, g.edges[0]);
    hide KeyOf, Segments, AddressOf, StmtAt, ClauseOf, ClausesOf, GroupsOf, KeyGroup;
    var at := AddressOf(records, g.target, g.operation).value;
    var path := GroupAddress(records, g, at);
    ClausesOkIff(g.edges);
    EdgesOfMembers(edges, g.target, g.operation);
  }

  lemma {:induction false} DistinctGroups(m: Module, records: seq<Record>, edges: seq<EdgeInput>, g: Group, h: Group)
    requires Spliceable(m, records, edges) && g in GroupsOf(edges) && h in GroupsOf(edges) && g != h
    requires SplicesStatements(g.operation) && SplicesStatements(h.operation)
    ensures AddressOf(records, g.target, g.operation) != AddressOf(records, h.target, h.operation)
  {
    GroupFacts(m, records, edges, g);
    GroupFacts(m, records, edges, h);
    hide AddressOf;
    assert EdgeAddress(records, g.edges[0]) == AddressOf(records, g.target, g.operation);
    assert EdgeAddress(records, h.edges[0]) == AddressOf(records, h.target, h.operation);
  }

  lemma {:induction false} GroupTargetIsTarget(m: Module, records: seq<Record>, edges: seq<EdgeInput>, k: KeyedGroup)
    requires Spliceable(m, records, edges) && Ready(m, records, k) && k.group in GroupsOf(edges)
    ensures GroupAt(records, k).Ok?
    ensures var at := GroupAt(records, k).value;
            at in TargetsOf(records, edges) && TargetsOf(records, edges)[at] == SpliceOf(k.group.edges)
  {
    hide AddressOf, SpliceOf, EdgesAt, GroupsOf, TargetsOf;
    var at := GroupAt(records, k).value;
    GroupFacts(m, records, edges, k.group);
    GroupOfAddress(m, records, edges, k.group);
    TargetsOfMember(records, edges, at);
    assert EdgeAddress(records, k.group.edges[0]) == Ok(at);
  }

  lemma {:induction false} TargetsAreGroupTargets(m: Module, records: seq<Record>, edges: seq<EdgeInput>, groups: seq<KeyedGroup>, t: Targets)
    requires Spliceable(m, records, edges) && AllReady(m, records, groups) && TargetsOfGroups(t, records, groups)
    requires DrawnFrom(groups, GroupsOf(edges)) && Covers(groups, GroupsOf(edges), false)
    ensures t == TargetsOf(records, edges)
  {
    GroupsPartition(edges);
    hide AddressOf, SpliceOf, EdgesAt, GroupsOf, TargetsOf, Ready, Spliceable, EdgesOf;
    var r := TargetsOf(records, edges);
    forall at | at in t ensures at in r && t[at] == r[at] {
      var i :| 0 <= i < |groups| && GroupAt(records, groups[i]) == Ok(at);
      assert groups[i] in groups && Ready(m, records, groups[i]);
      GroupTargetIsTarget(m, records, edges, groups[i]);
    }
    forall at | at in r ensures at in t {
      TargetsOfMember(records, edges, at);
      var e :| e in edges && SplicesStatements(e.operation) && EdgeAddress(records, e) == Ok(at);
      var g :| g in GroupsOf(edges) && g.target == e.target && g.operation == e.operation;
      var k :| k in groups && k.group == g;
      var i :| 0 <= i < |groups| && groups[i] == k;
    }
  }

  /** All groups that splice statements come before all that do not. */
  ghost predicate StatementsThenOthers(statements: seq<KeyedGroup>, others: seq<KeyedGroup>) {
    && (forall g :: g in statements ==> SplicesStatements(g.group.operation))
    && (forall g :: g in others ==> !SplicesStatements(g.group.operation))
  }

  lemma {:induction false} OrderedSplit(m: Module, records: seq<Record>, edges: seq<EdgeInput>)
    returns (statements: seq<KeyedGroup>, others: seq<KeyedGroup>)
    requires Spliceable(m, records, edges) && PayloadsOk(edges)
    ensures OrderedGroups(records, edges) == Ok(statements + others) && StatementsThenOthers(statements, others)
    ensures AllReady(m, records, statements) && Sorted(statements)
    ensures DrawnFrom(statements, GroupsOf(edges)) && Covers(statements, GroupsOf(edges), false)
  {
    hide Spliceable, PayloadsOk, OrderedGroups, Sorted, Keyed, DrawnFrom, Covers, NoneTwice, StatementsFirst, AllReady;
    hide StatementsThenOthers, GroupsOf;
    var ordered := OrderedGroupsFacts(m, records, edges);
    var k := SplitPoint(m, records, edges, ordered);
    StatementGroupsReady(m, records, edges, ordered, k);
    statements, others := ordered[..k], ordered[k..];
    assert ordered == statements + others;
    SplitParts(ordered, k);
  }

  lemma {:induction false} SplitPoint(m: Module, records: seq<Record>, edges: seq<EdgeInput>, ordered: seq<KeyedGroup>) returns (k: nat)
    requires Spliceable(m, records, edges) && Sorted(ordered) && Keyed(ordered, records)
    requires DrawnFrom(ordered, GroupsOf(edges))
    ensures k <= |ordered| && StatementsFirst(ordered, k)
  {
    hide GroupsOf, Spliceable, Before;
    forall i | 0 <= i < |ordered| ensures ordered[i].key.Some? <==> SplicesStatements(ordered[i].group.operation) {
      assert ordered[i] in ordered;
      GroupFacts(m, records, edges, ordered[i].group);
    }
    k := LeadingStatements(ordered);
  }

  lemma {:induction false} SplitParts(ordered: seq<KeyedGroup>, k: nat)
    requires k <= |ordered| && StatementsFirst(ordered, k)
    ensures StatementsThenOthers(ordered[..k], ordered[k..])
  {
  }

  /**
   The main result. The statement groups of an occurrence, applied in place and in sorted order, make the one
   substitution that reads all its targets off the original module; the remaining groups start from its result.
   */
  lemma {:induction false} EdgesRefineSubstitution(m: Module, records: seq<Record>, edges: seq<EdgeInput>, other: OtherStep)
    returns (statements: seq<KeyedGroup>, others: seq<KeyedGroup>)
    requires Spliceable(m, records, edges) && PayloadsOk(edges)
    ensures OrderedGroups(records, edges) == Ok(statements + others) && StatementsThenOthers(statements, others)
    ensures ApplyEdges(m, records, edges, other) ==
            ApplyAll(SubstInside(m, TargetsOf(records, edges)), records, others, other)
    ensures PayloadsPlaced(records, edges, TargetsOf(records, edges))
  {
    AllPayloadsPlaced(m, records, edges);
    statements, others := OrderedSplit(m, records, edges);
    hide *;
    var t := RunRefinesSubstitution(m, records, statements, other);
    TargetsAreGroupTargets(m, records, edges, statements, t);
    ApplyIsOrdered(m, records, edges, other);
    ApplyAllAppend(m, records, statements, others, other);
  }

  lemma {:induction false} ApplyIsOrdered(m: Module, records: seq<Record>, edges: seq<EdgeInput>, other: OtherStep)
    ensures OrderedGroups(records, edges).Ok? ==>
              ApplyEdges(m, records, edges, other) == ApplyAll(m, records, OrderedGroups(records, edges).value, other)
    ensures OrderedGroups(records, edges).Err? ==> ApplyEdges(m, records, edges, other).Err?
  {
    hide ApplyAll, SortGroups, KeyGroups, GroupsOf;
  }

  lemma {:induction false} StatementGroupsReady(m: Module, records: seq<Record>, edges: seq<EdgeInput>, ordered: seq<KeyedGroup>, k: nat)
    requires Spliceable(m, records, edges) && PayloadsOk(edges)
    requires Sorted(ordered) && Keyed(ordered, records) && StatementsFirst(ordered, k)
    requires DrawnFrom(ordered, GroupsOf(edges)) && Covers(ordered, GroupsOf(edges), true)
    requires NoneTwice(ordered)
    ensures AllReady(m, records, ordered[..k]) && Sorted(ordered[..k])
    ensures DrawnFrom(ordered[..k], GroupsOf(edges)) && Covers(ordered[..k], GroupsOf(edges), false)
  {
    hide Before, GroupsOf, KeyGroup, AddressOf;
    var groups := ordered[..k];
    forall i | 0 <= i < |groups| ensures Ready(m, records, groups[i]) {
      assert ordered[i] in ordered;
      GroupReady(m, records, edges, groups[i]);
    }
    forall i, j | 0 <= i < j < |groups|
      ensures AddressOf(records, groups[i].group.target, groups[i].group.operation)
              != AddressOf(records, groups[j].group.target, groups[j].group.operation)
    {
      assert ordered[i] in ordered && ordered[j] in ordered;
      DistinctGroups(m, records, edges, groups[i].group, groups[j].group);
    }
    forall g | g in GroupsOf(edges) && SplicesStatements(g.operation) ensures exists k' :: k' in groups && k'.group == g {
      var k' :| k' in ordered && k'.group == g;
      var i :| 0 <= i < |ordered| && ordered[i] == k';
      assert groups[i] == k';
    }
  }
}
