/**
 What the statement edges of an occurrence ask for (materialize_ir.rs), read off the original tree: which statement is
 replaced, and by which statements of which payload, in which place.
 */
module EdgeTargets {
  import opened Wrappers
  import opened Ast
  import opened LocatorRoundTrip
  import opened Splice
  import opened Templates
  import opened EdgeApplication
  import ElifChain

  // ---------- targets read off the edges ----------

  /** The address of the statement that a target record names for an operation. */
  function AddressOf(records: seq<Record>, target: RecordKey, op: Operation): Result<Address> {
    if target.record >= |records| then Err(StaleHandle)
    else TargetAddress(if op == AppendClause then "hole.elif" else "hole.block", records[target.record].astPath)
  }

  function EdgeAddress(records: seq<Record>, e: EdgeInput): Result<Address> {
    AddressOf(records, e.target, e.operation)
  }

  predicate Replaces(records: seq<Record>, e: EdgeInput, at: Address) {
    SplicesStatements(e.operation) && EdgeAddress(records, e) == Ok(at)
  }

  /** The edges that replace the statement at an address, in the order given. */
  function EdgesAt(records: seq<Record>, edges: seq<EdgeInput>, at: Address): seq<EdgeInput> {
    if edges == [] then []
    else EdgesAt(records, edges[..|edges| - 1], at)
         + if Replaces(records, edges[|edges| - 1], at) then [edges[|edges| - 1]] else []
  }

  /** What those edges put there: all their bodies one after another, or one branch each. */
  function SpliceOf(edges: seq<EdgeInput>): Splice {
    if edges != [] && edges[0].operation == AppendClause then
      Clauses(if ClausesOf(edges).Ok? then ClausesOf(edges).value else [])
    else Block(BodiesOf(edges))
  }

  ghost function TargetsOf(records: seq<Record>, edges: seq<EdgeInput>): Targets {
    map at | at in (set e | e in edges && SplicesStatements(e.operation) && EdgeAddress(records, e).Ok? :: EdgeAddress(records, e).value)
      :: SpliceOf(EdgesAt(records, edges, at))
  }

  ghost predicate ValidEdge(m: Module, records: seq<Record>, e: EdgeInput) {
    && e.target.record < |records|
    && (SplicesStatements(e.operation) ==>
          && EdgeAddress(records, e).Ok?
          && EdgeAddress(records, e).value != []
          && StmtAt(m, EdgeAddress(records, e).value).Some?
          && (e.operation == AppendClause ==> StmtAt(m, EdgeAddress(records, e).value).value.head.If?))
  }

  /** Each statement edge replaces a statement of the module, and edges to different targets different ones. */
  ghost predicate Spliceable(m: Module, records: seq<Record>, edges: seq<EdgeInput>) {
    && (forall e :: e in edges ==> ValidEdge(m, records, e))
    && (forall e, f :: e in edges && f in edges && SplicesStatements(e.operation) && SplicesStatements(f.operation)
                       && EdgeAddress(records, e) == EdgeAddress(records, f) ==>
          e.target == f.target && e.operation == f.operation)
  }

  ghost predicate SomeEdgeReplaces(records: seq<Record>, edges: seq<EdgeInput>, at: Address) {
    exists e :: e in edges && SplicesStatements(e.operation) && EdgeAddress(records, e) == Ok(at)
  }

  lemma {:induction false} TargetsOfMember(records: seq<Record>, edges: seq<EdgeInput>, at: Address)
    ensures at in TargetsOf(records, edges) <==> SomeEdgeReplaces(records, edges, at)
    ensures at in TargetsOf(records, edges) ==> TargetsOf(records, edges)[at] == SpliceOf(EdgesAt(records, edges, at))
  {
    hide EdgesAt, AddressOf, SpliceOf;
  }

  ghost predicate PayloadsOk(edges: seq<EdgeInput>) {
    forall e :: e in edges && e.operation == AppendClause ==> ClauseOf(e).Ok?
  }

  // ---------- the place of every payload ----------

  /** How many statements the first `k` edges bring to an address. */
  function StatementsBefore(records: seq<Record>, edges: seq<EdgeInput>, at: Address, k: nat): nat
    requires k <= |edges|
  {
    if k == 0 then 0
    else StatementsBefore(records, edges, at, k - 1) + if Replaces(records, edges[k - 1], at) then |edges[k - 1].source.body| else 0
  }

  /** How many of the first `k` edges go to an address. */
  function EdgesBefore(records: seq<Record>, edges: seq<EdgeInput>, at: Address, k: nat): nat
    requires k <= |edges|
  {
    if k == 0 then 0
    else EdgesBefore(records, edges, at, k - 1) + if Replaces(records, edges[k - 1], at) then 1 else 0
  }

  lemma {:induction false} EdgesAtPrefix(records: seq<Record>, edges: seq<EdgeInput>, at: Address, k: nat, n: nat)
    requires k <= n <= |edges|
    ensures EdgesAt(records, edges[..k], at) <= EdgesAt(records, edges[..n], at)
  {
    if k < n {
      EdgesAtPrefix(records, edges, at, k, n - 1);
      assert edges[..n][..n - 1] == edges[..n - 1];
    }
  }

  lemma {:induction false} EdgesAtCount(records: seq<Record>, edges: seq<EdgeInput>, at: Address, k: nat)
    requires k <= |edges|
    ensures |EdgesAt(records, edges[..k], at)| == EdgesBefore(records, edges, at, k)
    ensures |BodiesOf(EdgesAt(records, edges[..k], at))| == StatementsBefore(records, edges, at, k)
  {
    hide Replaces;
    if k > 0 {
      EdgesAtCount(records, edges, at, k - 1);
      assert edges[..k][..k - 1] == edges[..k - 1];
      assert edges[..k][k - 1] == edges[k - 1];
      BodiesOne(EdgesAt(records, edges[..k - 1], at), edges[k - 1]);
    }
  }

  lemma {:induction false} BodiesAppend(a: seq<EdgeInput>, b: seq<EdgeInput>)
    ensures BodiesOf(a + b) == BodiesOf(a) + BodiesOf(b)
  {
    if a == [] {
      assert a + b == b;
    } else {
      assert (a + b)[1..] == a[1..] + b;
      BodiesAppend(a[1..], b);
    }
  }

  lemma {:induction false} BodiesOne(a: seq<EdgeInput>, e: EdgeInput)
    ensures BodiesOf(a + [e]) == BodiesOf(a) + e.source.body && a + [] == a
  {
    BodiesAppend(a, [e]);
    assert [e][1..] == [];
  }

  /** Edge `k` is the one at its place among the edges to its address, and its body stands behind those of the edges before. */
  lemma {:induction false} EdgePlaced(records: seq<Record>, edges: seq<EdgeInput>, at: Address, k: nat)
    requires k < |edges| && Replaces(records, edges[k], at)
    ensures var es := EdgesAt(records, edges, at);
            && |es| == EdgesBefore(records, edges, at, |edges|)
            && EdgesBefore(records, edges, at, k) < |es| && es[EdgesBefore(records, edges, at, k)] == edges[k]
    ensures var bodies, from, body := BodiesOf(EdgesAt(records, edges, at)), StatementsBefore(records, edges, at, k), edges[k].source.body;
            && |bodies| == StatementsBefore(records, edges, at, |edges|)
            && from + |body| <= |bodies| && bodies[from..from + |body|] == body
  {
    var before, es := EdgesAt(records, edges[..k], at), EdgesAt(records, edges, at);
    assert edges[..|edges|] == edges && edges[..k + 1][..k] == edges[..k];
    EdgesAtCount(records, edges, at, k);
    EdgesAtCount(records, edges, at, |edges|);
    EdgesAtPrefix(records, edges, at, k + 1, |edges|);
    assert EdgesAt(records, edges[..k + 1], at) == before + [edges[k]];
    var rest := es[|before| + 1..];
    assert es == (before + [edges[k]]) + rest;
    BodiesAppend(before + [edges[k]], rest);
    BodiesOne(before, edges[k]);
  }

  /** The payload of edge `k` in the splice at its address: its statements, or its branch, at the place its position gives. */
  ghost predicate Placed(records: seq<Record>, edges: seq<EdgeInput>, t: Targets, k: nat)
    requires k < |edges| && EdgeAddress(records, edges[k]).Ok?
  {
    var at := EdgeAddress(records, edges[k]).value;
    && at in t
    && if edges[k].operation == AppendClause then
         && t[at].Clauses? && |t[at].clauses| == EdgesBefore(records, edges, at, |edges|)
         && EdgesBefore(records, edges, at, k) < |t[at].clauses|
         && ClauseOf(edges[k]) == Ok(t[at].clauses[EdgesBefore(records, edges, at, k)])
       else
         && t[at].Block? && |t[at].stmts| == StatementsBefore(records, edges, at, |edges|)
         && StatementsBefore(records, edges, at, k) + |edges[k].source.body| <= |t[at].stmts|
         && forall j :: 0 <= j < |edges[k].source.body| ==>
              t[at].stmts[StatementsBefore(records, edges, at, k) + j] == edges[k].source.body[j]
  }

  /** Every payload is in its place, and there is nothing else at any target. */
  ghost predicate PayloadsPlaced(records: seq<Record>, edges: seq<EdgeInput>, t: Targets) {
    && (forall k :: 0 <= k < |edges| && SplicesStatements(edges[k].operation) && EdgeAddress(records, edges[k]).Ok? ==>
          Placed(records, edges, t, k))
    && (forall at :: at in t ==> exists k :: 0 <= k < |edges| && Replaces(records, edges[k], at))
  }

  lemma {:induction false} PayloadPlaced(m: Module, records: seq<Record>, edges: seq<EdgeInput>, k: nat)
    requires Spliceable(m, records, edges) && PayloadsOk(edges)
    requires k < |edges| && SplicesStatements(edges[k].operation) && EdgeAddress(records, edges[k]).Ok?
    ensures Placed(records, edges, TargetsOf(records, edges), k)
  {
    hide *;
    var at := EdgeAddress(records, edges[k]).value;
    assert Replaces(records, edges[k], at) && SomeEdgeReplaces(records, edges, at) by { ReplacesIts(records, edges, k); }
    TargetsOfMember(records, edges, at);
    SameOperation(m, records, edges, at, k);
    if edges[k].operation == AppendClause {
      ClausePlaced(records, edges, TargetsOf(records, edges), at, k);
    } else {
      BlockPlaced(records, edges, TargetsOf(records, edges), at, k);
    }
  }

  lemma {:induction false} ReplacesIts(records: seq<Record>, edges: seq<EdgeInput>, k: nat)
    requires k < |edges| && SplicesStatements(edges[k].operation) && EdgeAddress(records, edges[k]).Ok?
    ensures Replaces(records, edges[k], EdgeAddress(records, edges[k]).value)
    ensures SomeEdgeReplaces(records, edges, EdgeAddress(records, edges[k]).value)
  {
    assert edges[k] in edges;
  }

  lemma {:induction false} ClausePlaced(records: seq<Record>, edges: seq<EdgeInput>, t: Targets, at: Address, k: nat)
    requires k < |edges| && Replaces(records, edges[k], at) && edges[k].operation == AppendClause
    requires at in t && t[at] == SpliceOf(EdgesAt(records, edges, at))
    requires forall e :: e in EdgesAt(records, edges, at) ==> e.operation == AppendClause && ClauseOf(e).Ok?
    ensures Placed(records, edges, t, k)
  {
    hide ClauseOf, EdgesAt, StatementsBefore, EdgesBefore, BodiesOf, AddressOf;
    var es := EdgesAt(records, edges, at);
    EdgePlaced(records, edges, at, k);
    assert es[0] in es;
    AllClausesOk(es);
    ElifChain.ClausesInEdgeOrder(es, EdgesBefore(records, edges, at, k));
  }

  lemma {:induction false} BlockPlaced(records: seq<Record>, edges: seq<EdgeInput>, t: Targets, at: Address, k: nat)
    requires k < |edges| && Replaces(records, edges[k], at) && edges[k].operation != AppendClause
    requires at in t && t[at] == SpliceOf(EdgesAt(records, edges, at))
    requires forall e :: e in EdgesAt(records, edges, at) ==> e.operation != AppendClause
    ensures Placed(records, edges, t, k)
  {
    hide ClauseOf, EdgesAt, StatementsBefore, EdgesBefore, BodiesOf, AddressOf;
    var es := EdgesAt(records, edges, at);
    EdgePlaced(records, edges, at, k);
    assert es[0] in es;
    var from, body := StatementsBefore(records, edges, at, k), edges[k].source.body;
    forall j | 0 <= j < |body| ensures BodiesOf(es)[from + j] == body[j] {
      assert BodiesOf(es)[from..from + |body|][j] == body[j];
    }
  }

  /** The edges to one address all have the operation of any of them. */
  lemma {:induction false} SameOperation(m: Module, records: seq<Record>, edges: seq<EdgeInput>, at: Address, k: nat)
    requires Spliceable(m, records, edges) && PayloadsOk(edges) && k < |edges| && Replaces(records, edges[k], at)
    ensures var es := EdgesAt(records, edges, at);
            && (forall e :: e in es ==> e.operation == edges[k].operation)
            && (edges[k].operation == AppendClause ==> forall e :: e in es ==> ClauseOf(e).Ok?)
  {
    hide ClauseOf, AddressOf, ValidEdge;
    EdgesAtMembers(records, edges, at);
    hide EdgesAt;
    var es := EdgesAt(records, edges, at);
    assert edges[k] in edges;
    forall e | e in es ensures e.operation == edges[k].operation {
      assert e in edges && Replaces(records, e, at);
    }
  }

  lemma {:induction false} EdgesAtMembers(records: seq<Record>, edges: seq<EdgeInput>, at: Address)
    ensures forall e :: e in EdgesAt(records, edges, at) ==> e in edges && Replaces(records, e, at)
  {
    if edges != [] {
      hide Replaces;
      EdgesAtMembers(records, edges[..|edges| - 1], at);
    }
  }

  lemma {:induction false} AllClausesOk(edges: seq<EdgeInput>)
    requires forall e :: e in edges ==> ClauseOf(e).Ok?
    ensures ClausesOf(edges).Ok?
  {
    if edges != [] {
      hide ClauseOf;
      assert edges[0] in edges;
      AllClausesOk(edges[1..]);
    }
  }

  lemma {:induction false} AllPayloadsPlaced(m: Module, records: seq<Record>, edges: seq<EdgeInput>)
    requires Spliceable(m, records, edges) && PayloadsOk(edges)
    ensures PayloadsPlaced(records, edges, TargetsOf(records, edges))
  {
    hide Placed, TargetsOf, PayloadsOk, Spliceable, EdgeAddress, AddressOf;
    var t := TargetsOf(records, edges);
    forall k | 0 <= k < |edges| && SplicesStatements(edges[k].operation) && EdgeAddress(records, edges[k]).Ok?
      ensures Placed(records, edges, t, k)
    {
      PayloadPlaced(m, records, edges, k);
    }
    forall at | at in t ensures exists k :: 0 <= k < |edges| && Replaces(records, edges[k], at) {
      TargetsOfMember(records, edges, at);
      var e :| e in edges && SplicesStatements(e.operation) && EdgeAddress(records, e) == Ok(at);
      var k :| 0 <= k < |edges| && edges[k] == e;
      assert Replaces(records, edges[k], at);
    }
  }
}
