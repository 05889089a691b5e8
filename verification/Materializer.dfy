/**
 The memoised depth-first search over the occurrence graph (materialize_ir.rs) and the plain recursion it computes.
 */
module Materializer {
  import opened Wrappers
  import opened Ast
  import opened Templates
  import opened EdgeApplication
  import opened Assembly

  /**
   What the search takes as given: the steps for expression, parameter and call-argument groups, and the overlays
   and marker lowering that finish an occurrence after its edges.
   */
  datatype Steps = Steps(other: OtherStep, finish: (nat, Module) -> Result<Module>)

  // ---------- the edges into an occurrence ----------

  predicate EdgeBefore(edges: seq<Edge>, a: nat, b: nat)
    requires a < |edges| && b < |edges|
  {
    edges[a].order < edges[b].order || (edges[a].order == edges[b].order && a < b)
  }

  predicate Below(indices: seq<nat>, n: nat) {
    forall j :: 0 <= j < |indices| ==> indices[j] < n
  }

  function InsertEdge(edges: seq<Edge>, a: nat, sorted: seq<nat>): (r: seq<nat>)
    requires a < |edges| && Below(sorted, |edges|)
    ensures Below(r, |edges|) && multiset(r) == multiset(sorted) + multiset{a}
  {
    if sorted == [] || EdgeBefore(edges, a, sorted[0]) then [a] + sorted
    else
      assert sorted == [sorted[0]] + sorted[1..];
      [sorted[0]] + InsertEdge(edges, a, sorted[1..])
  }

  /** The edges whose target record is in an occurrence, among the first `n`, by order and then by index. */
  function EdgesInto(edges: seq<Edge>, i: nat, n: nat): (r: seq<nat>)
    requires n <= |edges|
    ensures Below(r, |edges|)
  {
    if n == 0 then []
    else
      var rest := EdgesInto(edges, i, n - 1);
      if edges[n - 1].target.occurrence == i then InsertEdge(edges, n - 1, rest) else rest
  }

  /** Each of those edges is there once, and no other. */
  lemma {:induction false} EdgesIntoMembers(edges: seq<Edge>, i: nat, n: nat, a: nat)
    requires n <= |edges|
    ensures multiset(EdgesInto(edges, i, n))[a] == if a < n && edges[a].target.occurrence == i then 1 else 0
  {
    if n > 0 {
      EdgesIntoMembers(edges, i, n - 1, a);
    }
  }

  ghost predicate Ordered(edges: seq<Edge>, indices: seq<nat>) {
    && Below(indices, |edges|)
    && forall j, k :: 0 <= j < k < |indices| ==> EdgeBefore(edges, indices[j], indices[k])
  }

  lemma {:induction false} InsertKeepsOrder(edges: seq<Edge>, a: nat, sorted: seq<nat>)
    requires a < |edges| && Ordered(edges, sorted) && a !in sorted
    ensures Ordered(edges, InsertEdge(edges, a, sorted))
  {
    if sorted != [] && !EdgeBefore(edges, a, sorted[0]) {
      var rest := InsertEdge(edges, a, sorted[1..]);
      InsertKeepsOrder(edges, a, sorted[1..]);
      forall k | 0 <= k < |rest| ensures EdgeBefore(edges, sorted[0], rest[k]) {
        assert rest[k] in multiset(rest);
        if rest[k] != a {
          assert rest[k] in sorted[1..];
          var j :| 0 <= j < |sorted[1..]| && sorted[1..][j] == rest[k];
          assert sorted[j + 1] == rest[k];
        } else {
          assert sorted[0] in sorted;
        }
      }
    }
  }

  /** The sorted edges are strictly ordered by order and index. */
  lemma {:induction false} EdgesIntoOrdered(edges: seq<Edge>, i: nat, n: nat)
    requires n <= |edges|
    ensures Ordered(edges, EdgesInto(edges, i, n))
  {
    if n > 0 {
      EdgesIntoOrdered(edges, i, n - 1);
      var rest := EdgesInto(edges, i, n - 1);
      if edges[n - 1].target.occurrence == i {
        EdgesIntoMembers(edges, i, n - 1, n - 1);
        assert n - 1 !in multiset(rest);
        InsertKeepsOrder(edges, n - 1, rest);
      }
    }
  }

  function Incoming(state: State, i: nat): (r: seq<nat>)
    ensures Below(r, |state.edges|)
  {
    EdgesInto(state.edges, i, |state.edges|)
  }

  /** The sources of the edges into an occurrence. */
  predicate Feeds(state: State, source: nat, target: nat) {
    exists a :: 0 <= a < |state.edges| && state.edges[a].target.occurrence == target && state.edges[a].source == source
  }

  lemma {:induction false} IncomingFeeds(state: State, i: nat, k: nat)
    requires k < |Incoming(state, i)|
    ensures state.edges[Incoming(state, i)[k]].target.occurrence == i
    ensures Feeds(state, state.edges[Incoming(state, i)[k]].source, i)
  {
    var r := Incoming(state, i);
    assert r[k] in multiset(r);
    EdgesIntoMembers(state.edges, i, |state.edges|, r[k]);
  }

  lemma {:induction false} FeedsIncoming(state: State, source: nat, i: nat) returns (k: nat)
    requires Feeds(state, source, i)
    ensures k < |Incoming(state, i)| && state.edges[Incoming(state, i)[k]].source == source
  {
    var r := Incoming(state, i);
    var a: nat :| a < |state.edges| && state.edges[a].target.occurrence == i && state.edges[a].source == source;
    EdgesIntoMembers(state.edges, i, |state.edges|, a);
    assert a in multiset(r) && a in r;
    k :| k < |r| && r[k] == a;
  }

  // ---------- the plain recursion ----------

  function TemplateOf(templates: seq<Template>, state: State, i: nat): Result<Template> {
    if i >= |state.occurrences| then Err(StaleHandle)
    else if !state.occurrences[i].live then Err(DeadOccurrence)
    else if state.occurrences[i].templateIndex >= |templates| then Err(StaleHandle)
    else Ok(templates[state.occurrences[i].templateIndex])
  }

  function RecordsOfOccurrence(templates: seq<Template>, state: State, i: nat): Result<seq<Record>> {
    if i >= |state.occurrences| || state.occurrences[i].templateIndex >= |templates| then Err(StaleHandle)
    else Ok(templates[state.occurrences[i].templateIndex].records)
  }

  /** An edge with the module its source occurrence became. */
  function InputOf(templates: seq<Template>, state: State, a: nat, source: Module): EdgeInput
    requires a < |state.edges|
  {
    var e := state.edges[a];
    var records := RecordsOfOccurrence(templates, state, e.source);
    EdgeInput(e.target, e.operation, source, if records.Ok? then records.value else [])
  }

  function UpTo(n: nat): (r: set<nat>)
    ensures forall k: nat :: k in r <==> k < n
  {
    if n == 0 then {} else UpTo(n - 1) + {n - 1}
  }

  function Unvisited(state: State, visiting: set<nat>): set<nat> {
    UpTo(|state.occurrences|) - visiting
  }

  /** What the materializer computes, without its cache: `visiting` holds the occurrences above `i`. */
  function Build(templates: seq<Template>, state: State, steps: Steps, i: nat, visiting: set<nat>): Result<Module>
    decreases |Unvisited(state, visiting)|, 1, 0
  {
    if i in visiting then Err(CycleDetected)
    else
      var template :- TemplateOf(templates, state, i);
      assert i in Unvisited(state, visiting);
      assert Unvisited(state, visiting + {i}) == Unvisited(state, visiting) - {i};
      var inputs :- BuildEdges(templates, state, steps, Incoming(state, i), visiting + {i});
      var spliced :- ApplyEdges(template.tree, template.records, inputs, steps.other);
      steps.finish(i, spliced)
  }

  function BuildEdges(templates: seq<Template>, state: State, steps: Steps, edges: seq<nat>, visiting: set<nat>): Result<seq<EdgeInput>>
    requires Below(edges, |state.edges|)
    decreases |Unvisited(state, visiting)|, 2, |edges|
  {
    if edges == [] then Ok([])
    else
      var source :- Build(templates, state, steps, state.edges[edges[0]].source, visiting);
      var rest :- BuildEdges(templates, state, steps, edges[1..], visiting);
      Ok([InputOf(templates, state, edges[0], source)] + rest)
  }

  // ---------- how the result depends on the occurrences above ----------

  /** Fewer occurrences above can only remove cycle errors. */
  lemma {:induction false} BuildShrinks(templates: seq<Template>, state: State, steps: Steps, i: nat, v: set<nat>, w: set<nat>)
    requires w <= v && Build(templates, state, steps, i, v).Ok?
    ensures Build(templates, state, steps, i, w) == Build(templates, state, steps, i, v)
    decreases |Unvisited(state, v)|, 1, 0
  {
    assert i in Unvisited(state, v);
    assert Unvisited(state, v + {i}) == Unvisited(state, v) - {i};
    EdgesShrink(templates, state, steps, Incoming(state, i), v + {i}, w + {i});
  }

  lemma {:induction false} EdgesShrink(templates: seq<Template>, state: State, steps: Steps, edges: seq<nat>, v: set<nat>, w: set<nat>)
    requires Below(edges, |state.edges|)
    requires w <= v && BuildEdges(templates, state, steps, edges, v).Ok?
    ensures BuildEdges(templates, state, steps, edges, w) == BuildEdges(templates, state, steps, edges, v)
    decreases |Unvisited(state, v)|, 2, |edges|
  {
    if edges != [] {
      BuildShrinks(templates, state, steps, state.edges[edges[0]].source, v, w);
      EdgesShrink(templates, state, steps, edges[1..], v, w);
    }
  }

  /** A set of occurrences with every occurrence that feeds them. */
  ghost predicate Closed(state: State, done: set<nat>) {
    forall source: nat, target: nat :: target in done && Feeds(state, source, target) ==> source in done
  }

  /** The sources of the first `n` edges are done. */
  ghost predicate SourcesIn(state: State, edges: seq<nat>, n: nat, done: set<nat>) {
    Below(edges, |state.edges|) && n <= |edges| && forall j :: 0 <= j < n ==> state.edges[edges[j]].source in done
  }

  lemma {:induction false} OneMoreSource(state: State, edges: seq<nat>, n: nat, done: set<nat>, more: set<nat>)
    requires SourcesIn(state, edges, n, done) && n < |edges| && done <= more && state.edges[edges[n]].source in more
    ensures SourcesIn(state, edges, n + 1, more)
  {
  }

  /** One more occurrence above does not matter to those it does not feed. */
  lemma {:induction false} BuildGrows(templates: seq<Template>, state: State, steps: Steps, done: set<nat>, i: nat, k: nat, v: set<nat>)
    requires Closed(state, done) && i !in done && k in done && Build(templates, state, steps, k, v).Ok?
    ensures Build(templates, state, steps, k, v + {i}) == Build(templates, state, steps, k, v)
    decreases |Unvisited(state, v)|, 1, 0
  {
    assert k in Unvisited(state, v);
    assert Unvisited(state, v + {k}) == Unvisited(state, v) - {k};
    forall j | 0 <= j < |Incoming(state, k)| ensures state.edges[Incoming(state, k)[j]].source in done {
      IncomingFeeds(state, k, j);
    }
    EdgesGrow(templates, state, steps, done, i, Incoming(state, k), v + {k});
    assert v + {k} + {i} == v + {i} + {k};
  }

  lemma {:induction false} EdgesGrow(templates: seq<Template>, state: State, steps: Steps, done: set<nat>, i: nat, edges: seq<nat>, v: set<nat>)
    requires Below(edges, |state.edges|)
    requires SourcesIn(state, edges, |edges|, done)
    requires Closed(state, done) && i !in done && BuildEdges(templates, state, steps, edges, v).Ok?
    ensures BuildEdges(templates, state, steps, edges, v + {i}) == BuildEdges(templates, state, steps, edges, v)
    decreases |Unvisited(state, v)|, 2, |edges|
  {
    if edges != [] {
      BuildGrows(templates, state, steps, done, i, state.edges[edges[0]].source, v);
      EdgesGrow(templates, state, steps, done, i, edges[1..], v);
    }
  }

  // ---------- the memoised search ----------

  /** Every cached module is what the plain recursion makes of its occurrence, here and now. */
  ghost predicate Cached(templates: seq<Template>, state: State, steps: Steps, cache: map<nat, Module>, visiting: set<nat>) {
    && Closed(state, cache.Keys)
    && forall k :: k in cache ==> Build(templates, state, steps, k, visiting) == Ok(cache[k])
  }

  class Search {
    var cache: map<nat, Module>
    var visiting: set<nat>

    constructor ()
      ensures cache == map[] && visiting == {}
    {
      cache, visiting := map[], {};
    }

    /** Materializes one occurrence. After an error the search is over, so its state no longer matters. */
    method Materialize(templates: seq<Template>, state: State, steps: Steps, i: nat) returns (r: Result<Module>)
      requires Cached(templates, state, steps, cache, visiting)
      modifies this
      ensures r == Build(templates, state, steps, i, old(visiting))
      ensures r.Ok? ==> visiting == old(visiting) && i in cache && old(cache.Keys) <= cache.Keys
      ensures r.Ok? ==> Cached(templates, state, steps, cache, visiting)
      decreases |Unvisited(state, visiting)|
    {
      if i in cache {
        return Ok(cache[i]);
      }
      if i in visiting {
        return Err(CycleDetected);
      }
      ghost var above := visiting;
      EnterOccurrence(templates, state, steps, cache, visiting, i);
      visiting := visiting + {i};
      var template := TemplateOf(templates, state, i);
      if template.Err? {
        return Err(template.error);
      }
      assert i in Unvisited(state, above);
      assert Unvisited(state, visiting) == Unvisited(state, above) - {i};
      var edges := Incoming(state, i);
      var inputs: seq<EdgeInput> := [];
      var n := 0;
      while n < |edges|
        invariant n <= |edges|
        invariant visiting == above + {i}
        invariant Cached(templates, state, steps, cache, visiting) && old(cache.Keys) <= cache.Keys
        invariant SourcesIn(state, edges, n, cache.Keys)
        invariant BuildEdges(templates, state, steps, edges[..n], visiting) == Ok(inputs)
      {
        ghost var before := cache.Keys;
        var source := Materialize(templates, state, steps, state.edges[edges[n]].source);
        BuildEdgesStep(templates, state, steps, edges, n, above + {i});
        if source.Err? {
          return Err(source.error);
        }
        OneMoreSource(state, edges, n, before, cache.Keys);
        inputs := inputs + [InputOf(templates, state, edges[n], source.value)];
        n := n + 1;
      }
      assert edges[..n] == edges;
      var spliced := ApplyMaterializedEdges(template.value.tree, template.value.records, inputs, steps.other);
      if spliced.Err? {
        return Err(spliced.error);
      }
      r := steps.finish(i, spliced.value);
      if r.Ok? {
        LeaveOccurrence(templates, state, steps, cache, above, i, r.value);
        visiting := visiting - {i};
        cache := cache[i := r.value];
        assert visiting == above;
      }
    }
  }

  lemma {:induction false} BuildEdgesStep(templates: seq<Template>, state: State, steps: Steps, edges: seq<nat>, n: nat, v: set<nat>)
    requires Below(edges, |state.edges|)
    requires n < |edges| && BuildEdges(templates, state, steps, edges[..n], v).Ok?
    ensures var source := Build(templates, state, steps, state.edges[edges[n]].source, v);
            var before := BuildEdges(templates, state, steps, edges[..n], v).value;
            if source.Err? then BuildEdges(templates, state, steps, edges, v) == Err(source.error)
            else BuildEdges(templates, state, steps, edges[..n + 1], v) ==
                 Ok(before + [InputOf(templates, state, edges[n], source.value)])
    decreases n
  {
    hide Build, InputOf;
    var source := Build(templates, state, steps, state.edges[edges[n]].source, v);
    if n == 0 {
      assert edges[..1][1..] == [];
      assert BuildEdges(templates, state, steps, edges[..1][1..], v) == Ok([]);
      if source.Ok? {
        var one := InputOf(templates, state, edges[0], source.value);
        assert [one] + [] == [one] && [] + [one] == [one];
      }
    } else {
      assert edges[..n][1..] == edges[1..][..n - 1] && edges[..n + 1][1..] == edges[1..][..n];
      BuildEdgesStep(templates, state, steps, edges[1..], n - 1, v);
      var first := Build(templates, state, steps, state.edges[edges[0]].source, v);
      var rest := BuildEdges(templates, state, steps, edges[1..][..n - 1], v);
      assert first.Ok? && rest.Ok?;
      if source.Ok? {
        var one := InputOf(templates, state, edges[0], first.value);
        var last := InputOf(templates, state, edges[n], source.value);
        assert [one] + (rest.value + [last]) == ([one] + rest.value) + [last];
      }
    }
  }

  lemma {:induction false} EnterOccurrence(templates: seq<Template>, state: State, steps: Steps, cache: map<nat, Module>, visiting: set<nat>, i: nat)
    requires Cached(templates, state, steps, cache, visiting) && i !in cache
    ensures Cached(templates, state, steps, cache, visiting + {i})
  {
    forall k | k in cache ensures Build(templates, state, steps, k, visiting + {i}) == Ok(cache[k]) {
      BuildGrows(templates, state, steps, cache.Keys, i, k, visiting);
    }
  }

  lemma {:induction false} LeaveOccurrence(
      templates: seq<Template>, state: State, steps: Steps, cache: map<nat, Module>, above: set<nat>, i: nat, m: Module)
    requires Cached(templates, state, steps, cache, above + {i})
    requires SourcesIn(state, Incoming(state, i), |Incoming(state, i)|, cache.Keys)
    requires Build(templates, state, steps, i, above) == Ok(m)
    ensures Cached(templates, state, steps, cache[i := m], above)
  {
    hide Build;
    forall k | k in cache ensures Build(templates, state, steps, k, above) == Ok(cache[k]) {
      BuildShrinks(templates, state, steps, k, above + {i}, above);
    }
    forall source: nat, target: nat | target in cache[i := m] && Feeds(state, source, target) ensures source in cache[i := m] {
      if target == i {
        var j := FeedsIncoming(state, source, i);
      }
    }
  }
}
