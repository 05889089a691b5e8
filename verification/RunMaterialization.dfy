/** Materializing a state in which only batch requests made edges: what can no longer go wrong (occurrence_store.rs, materialize_ir.rs). */
module RunMaterialization {
  import opened Wrappers
  import opened Splice
  import opened Templates
  import opened EdgeApplication
  import opened EdgeTargets
  import opened SpliceTheorem
  import opened SpliceOutcomes
  import opened EdgeErrors
  import opened Assembly
  import opened AssemblyIndexes
  import opened Materializer
  import opened MaterializerTheorems
  import opened Batch
  import opened Runs

  /** The state after a run whose edges come only from batch requests. */
  ghost predicate ByRequest(templates: seq<Template>, state: State) {
    Invariant(templates, state, 1)
  }

  // ---------- the graph ----------

  lemma {:induction false} FeedsAreNewer(templates: seq<Template>, state: State, source: nat, target: nat)
    requires ByRequest(templates, state) && Feeds(state, source, target)
    ensures target < source < |state.occurrences|
  {
    var a: nat :| a < |state.edges| && state.edges[a].target.occurrence == target && state.edges[a].source == source;
    assert state.edges[a] in state.edges;
    assert MadeByRequest(templates, state, state.edges[a]);
  }

  /** Along a walk the occurrences only get newer. */
  lemma {:induction false} WalksAscend(templates: seq<Template>, state: State, p: seq<nat>, j: nat, k: nat)
    requires ByRequest(templates, state) && Walk(state, p) && j < k < |p|
    ensures p[j] < p[k]
  {
    assert Feeds(state, p[k - 1 + 1], p[k - 1]);
    FeedsAreNewer(templates, state, p[k], p[k - 1]);
    if j < k - 1 {
      WalksAscend(templates, state, p, j, k - 1);
    }
  }

  lemma {:induction false} NoCycles(templates: seq<Template>, state: State, root: nat)
    requires ByRequest(templates, state)
    ensures !CycleReachable(state, root)
  {
    forall p | Walk(state, p) ensures !Returns(p) {
      if Returns(p) {
        var n := |p| - 1;
        var j :| 0 <= j < n && p[..n][j] == p[n];
        WalksAscend(templates, state, p, j, n);
      }
    }
  }

  /** Each occurrence is put in at most one place. */
  lemma {:induction false} OneIncomingEdge(templates: seq<Template>, state: State, a: nat, b: nat)
    requires ByRequest(templates, state) && a < |state.edges| && b < |state.edges|
    requires state.edges[a].source == state.edges[b].source
    ensures a == b
  {
  }

  lemma {:induction false} EveryOccurrenceKnown(templates: seq<Template>, state: State, i: nat)
    requires ByRequest(templates, state) && i < |state.occurrences|
    ensures TemplateOf(templates, state, i) == Ok(templates[state.occurrences[i].templateIndex])
  {
  }

  // ---------- the groups ----------

  lemma {:induction false} RunEdgesFit(templates: seq<Template>, state: State, i: nat)
    requires ByRequest(templates, state) && i < |state.occurrences|
    ensures EdgesFit(templates[state.occurrences[i].templateIndex], state, i)
  {
    forall a | 0 <= a < |state.edges| && state.edges[a].target.occurrence == i
      ensures MadeByRequest(templates, state, state.edges[a])
    {
      assert state.edges[a] in state.edges;
    }
  }

  /** The edges of one expression hole among the inputs of an occurrence: at most one. */
  lemma {:induction false} OneExpressionEdge(templates: seq<Template>, state: State, i: nat, inputs: seq<EdgeInput>, n: nat, t: RecordKey)
    requires ByRequest(templates, state) && InputsFit(templates, state, i, inputs) && n <= |inputs|
    ensures |EdgesOf(inputs[..n], t, ReplaceExpression)| <= 1
    ensures EdgesOf(inputs[..n], t, ReplaceExpression) != [] ==>
              exists k :: 0 <= k < n && inputs[k].target == t && inputs[k].operation == ReplaceExpression
  {
    hide InputOf, RecordsOfOccurrence;
    if n > 0 {
      assert inputs[..n][..n - 1] == inputs[..n - 1];
      OneExpressionEdge(templates, state, i, inputs, n - 1, t);
      if inputs[n - 1].target == t && inputs[n - 1].operation == ReplaceExpression {
        if EdgesOf(inputs[..n - 1], t, ReplaceExpression) != [] {
          var k :| 0 <= k < n - 1 && inputs[k].target == t && inputs[k].operation == ReplaceExpression;
          InputsOfOneHole(templates, state, i, inputs, k, n - 1);
          assert false;
        }
      }
    }
  }

  lemma {:induction false} EdgesOfOneHole(templates: seq<Template>, state: State, a: nat, b: nat)
    requires ByRequest(templates, state) && a < |state.edges| && b < |state.edges|
    requires a != b && state.edges[a].target == state.edges[b].target
    ensures state.edges[a].operation != ReplaceExpression
  {
    assert state.edges[a] in state.edges && state.edges[b] in state.edges;
    assert MadeByRequest(templates, state, state.edges[a]) && MadeByRequest(templates, state, state.edges[b]);
  }

  lemma {:induction false} InputsOfOneHole(templates: seq<Template>, state: State, i: nat, inputs: seq<EdgeInput>, k: nat, l: nat)
    requires ByRequest(templates, state) && InputsFit(templates, state, i, inputs)
    requires k < l < |inputs| && inputs[k].target == inputs[l].target
    ensures inputs[k].operation != ReplaceExpression
  {
    var edges := Incoming(state, i);
    EdgesIntoOrdered(state.edges, i, |state.edges|);
    assert EdgeBefore(state.edges, edges[k], edges[l]);
    assert inputs[k] == InputOf(templates, state, edges[k], inputs[k].source);
    assert inputs[l] == InputOf(templates, state, edges[l], inputs[l].source);
    hide Invariant;
    EdgesOfOneHole(templates, state, edges[k], edges[l]);
  }

  lemma {:induction false} RequestedOperation(templates: seq<Template>, state: State, a: nat)
    requires ByRequest(templates, state) && a < |state.edges|
    ensures var e := state.edges[a];
            && e.target.occurrence < |state.occurrences|
            && state.occurrences[e.target.occurrence].templateIndex < |templates|
            && e.target.record < |templates[state.occurrences[e.target.occurrence].templateIndex].records|
            && !e.operation.OtherOperation?
  {
    hide OperationForKind, Filled, Overlaid;
    var target := state.edges[a].target;
    assert state.edges[a] in state.edges;
    assert MadeByRequest(templates, state, state.edges[a]);
    HoleOperation(RecordOf(templates, state.occurrences, target).inventoryKind);
  }

  lemma {:induction false} InputOperation(templates: seq<Template>, state: State, i: nat, inputs: seq<EdgeInput>, k: nat)
    requires ByRequest(templates, state) && InputsFit(templates, state, i, inputs) && i < |state.occurrences| && k < |inputs|
    ensures state.occurrences[i].templateIndex < |templates|
    ensures inputs[k].target.record < |templates[state.occurrences[i].templateIndex].records|
    ensures !inputs[k].operation.OtherOperation?
  {
    hide Invariant, RecordsOfOccurrence;
    IncomingFeeds(state, i, k);
    RequestedOperation(templates, state, Incoming(state, i)[k]);
  }

  /** Every group of every occurrence is one the materializer can apply. */
  lemma {:induction false} RunGroupsFit(templates: seq<Template>, state: State, i: nat, inputs: seq<EdgeInput>, g: Group)
    requires ByRequest(templates, state) && i < |state.occurrences| && InputsFit(templates, state, i, inputs)
    requires g in GroupsOf(inputs)
    ensures Fit(templates[state.occurrences[i].templateIndex].records, g)
  {
    hide Invariant, InputsFit, GroupsOf;
    GroupsPartition(inputs);
    EdgesOfMembers(inputs, g.target, g.operation);
    var e := g.edges[0];
    assert e in g.edges;
    var k :| 0 <= k < |inputs| && inputs[k] == e;
    InputOperation(templates, state, i, inputs, k);
    if g.operation == ReplaceExpression {
      assert inputs[..|inputs|] == inputs;
      OneExpressionEdge(templates, state, i, inputs, |inputs|, g.target);
    }
  }

  lemma {:induction false} HoleOperation(kind: string)
    requires kind in LOWER_HOLE_KINDS
    ensures !OperationForKind(kind).OtherOperation?
  {
    var hole := "hole.";
    assert kind[..5] == hole;
    assert hole <= kind;
  }

  // ---------- the errors that never fire ----------

  /** Not one of the errors that would mean that the graph itself is wrong. */
  predicate Harmless(e: Error) {
    e != CycleDetected && e != DeadOccurrence && e != ExpectedOneEdge && e != CannotApply && e != StaleHandle
  }

  /**
   In a run whose edges come only from batch requests, the materializer never reports a cycle, a dead occurrence, a
   second edge on an expression, an operation it cannot apply, or an unknown handle.
   */
  lemma {:induction false} GraphErrorsNeverFire(templates: seq<Template>, state: State, steps: Steps, i: nat, v: set<nat>)
    requires ByRequest(templates, state) && StepErrors(steps, Harmless)
    requires i < |state.occurrences| && forall k :: k in v ==> k < i
    ensures Allows(Harmless, Build(templates, state, steps, i, v))
    decreases |state.occurrences| - i
  {
    EveryOccurrenceKnown(templates, state, i);
    var template := templates[state.occurrences[i].templateIndex];
    var edges := Incoming(state, i);
    var inputs := BuildEdges(templates, state, steps, edges, v + {i});
    if inputs.Err? {
      var j := EdgesFailure(templates, state, steps, edges, v + {i});
      var source := state.edges[edges[j]].source;
      IncomingFeeds(state, i, j);
      FeedsAreNewer(templates, state, source, i);
      GraphErrorsNeverFire(templates, state, steps, source, v + {i});
    } else {
      BuildEdgesElements(templates, state, steps, edges, v + {i});
      assert InputsFit(templates, state, i, inputs.value);
      hide InputsFit;
      forall g | g in GroupsOf(inputs.value) ensures Fit(template.records, g) {
        RunGroupsFit(templates, state, i, inputs.value, g);
      }
      EdgesError(template.tree, template.records, inputs.value, steps.other, Harmless);
      var spliced := ApplyEdges(template.tree, template.records, inputs.value, steps.other);
      if spliced.Ok? {
        assert Allows(Harmless, steps.finish(i, spliced.value));
      }
    }
  }

  // ---------- from requests to the module ----------

  /**
   End to end: after a run whose edges come only from batch requests, over extracted templates, an occurrence that
   materializes is its template with the modules of its sources put in place of its holes, all at once.
   */
  lemma {:induction false} RequestedModule(templates: seq<Template>, satisfies: Satisfies, actions: seq<Action>, steps: Steps, i: nat)
    returns (inputs: seq<EdgeInput>, statements: seq<KeyedGroup>, others: seq<KeyedGroup>)
    requires forall action :: action in actions ==> !action.AddEdge?
    requires forall t :: t in templates ==> Extracted(t)
    requires var state := Run(templates, satisfies, actions);
             i < |state.occurrences| && Build(templates, state, steps, i, {}).Ok?
    ensures var state := Run(templates, satisfies, actions);
            var template := templates[state.occurrences[i].templateIndex];
            var tree := ApplyAll(SubstInside(template.tree, TargetsOf(template.records, inputs)), template.records, others, steps.other);
            && InputsFit(templates, state, i, inputs)
            && (forall k :: 0 <= k < |inputs| ==> Carries(templates, state, Incoming(state, i)[k], inputs[k]))
            && (forall k :: 0 <= k < |inputs| ==>
                  Build(templates, state, steps, state.edges[Incoming(state, i)[k]].source, {}) == Ok(inputs[k].source))
            && StatementsThenOthers(statements, others)
            && tree.Ok? && Build(templates, state, steps, i, {}) == steps.finish(i, tree.value)
  {
    var state := Run(templates, satisfies, actions);
    RunInvariant(templates, satisfies, actions, 1);
    RunEdgesFit(templates, state, i);
    EveryOccurrenceKnown(templates, state, i);
    hide Build, Run, Extracted, EdgesFit, Carries;
    var template;
    template, inputs, statements, others := MaterializedModule(templates, state, steps, i);
  }
}
