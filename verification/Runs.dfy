/** What holds in every state that the operations of the assembly state can reach (occurrence_store.rs). */
module Runs {
  import opened Wrappers
  import opened Templates
  import opened Assembly
  import opened AssemblyIndexes
  import opened Candidates
  import opened Batch

  // ---------- runs ----------

  /** The operations that change a state. */
  datatype Action =
    | AddOccurrence(template: nat, buildPath: seq<string>, parent: Option<nat>)
    | AddEdge(target: RecordKey, source: nat, operation: Operation, order: int)
    | AddOverlay(target: RecordKey, kind: string, sourceLabel: string)
    | MarkSatisfied(record: RecordKey)
    | Requests(requests: seq<Request>)

  const EMPTY := State([], [], [], {}, {})

  /** The state after one operation; an operation with a handle that is not known changes nothing. */
  function Act(templates: seq<Template>, satisfies: Satisfies, state: State, action: Action): State
    requires Known(templates, state.occurrences)
  {
    match action
    case AddOccurrence(template, buildPath, parent) =>
      if template < |templates| && (parent.Some? ==> parent.value < |state.occurrences|)
      then state.(occurrences := state.occurrences + [Occurrence(template, buildPath, parent, true)]) else state
    case AddEdge(target, source, operation, order) =>
      if IsRecord(templates, state.occurrences, target) && source < |state.occurrences|
      then state.(edges := state.edges + [Edge(target, source, operation, order)]) else state
    case AddOverlay(target, kind, sourceLabel) =>
      if IsRecord(templates, state.occurrences, target)
      then state.(overlays := state.overlays + [Overlay(kind, sourceLabel, target)]) else state
    case MarkSatisfied(record) =>
      if IsRecord(templates, state.occurrences, record) then state.(satisfied := state.satisfied + {record}) else state
    case Requests(requests) => BatchOutcome(templates, satisfies, state, requests).state
  }

  lemma {:induction false} ActKeepsKnown(templates: seq<Template>, satisfies: Satisfies, state: State, action: Action)
    requires Known(templates, state.occurrences)
    ensures Known(templates, Act(templates, satisfies, state, action).occurrences)
  {
    if action.Requests? {
      FoldAppend(templates, satisfies, state, action.requests, []);
    }
  }

  function Run(templates: seq<Template>, satisfies: Satisfies, actions: seq<Action>): (r: State)
    ensures Known(templates, r.occurrences)
  {
    if actions == [] then EMPTY
    else
      var before := Run(templates, satisfies, actions[..|actions| - 1]);
      ActKeepsKnown(templates, satisfies, before, actions[|actions| - 1]);
      Act(templates, satisfies, before, actions[|actions| - 1])
  }

  // ---------- what every operation keeps ----------

  /** Every occurrence is live, nothing is dead, and only records are satisfied. */
  ghost predicate Sane(templates: seq<Template>, state: State) {
    && Known(templates, state.occurrences)
    && (forall i :: 0 <= i < |state.occurrences| ==> state.occurrences[i].live)
    && state.dead == {}
    && (forall key :: key in state.satisfied ==> IsRecord(templates, state.occurrences, key))
  }

  /** The source of an edge is an instance at the place of its target. */
  predicate InstanceOf(source: Occurrence, target: Occurrence, i: nat) {
    && source.parent == Some(i)
    && source.buildPath != [] && source.buildPath[..|source.buildPath| - 1] == target.buildPath
  }

  /** What a batch request makes: an edge from a new occurrence to a hole, with the operation for the kind of the hole. */
  ghost predicate MadeByRequest(templates: seq<Template>, state: State, e: Edge) {
    && IsRecord(templates, state.occurrences, e.target)
    && RecordOf(templates, state.occurrences, e.target).inventoryKind in LOWER_HOLE_KINDS
    && e.operation == OperationForKind(RecordOf(templates, state.occurrences, e.target).inventoryKind)
    && (e.operation == ReplaceExpression ==> e.target in state.satisfied)
    && e.target.occurrence < e.source < |state.occurrences|
    && InstanceOf(state.occurrences[e.source], state.occurrences[e.target.occurrence], e.target.occurrence)
  }

  /** The edges of a run in which only batch requests make edges. */
  ghost predicate EdgesByRequest(templates: seq<Template>, state: State) {
    && (forall e :: e in state.edges ==> MadeByRequest(templates, state, e))
    && (forall a, b :: 0 <= a < b < |state.edges| ==> state.edges[a].source < state.edges[b].source)
    && (forall a, b :: 0 <= a < b < |state.edges| && state.edges[a].target == state.edges[b].target ==>
          state.edges[a].operation != ReplaceExpression)
  }

  ghost predicate Filled(state: State, key: RecordKey) {
    exists e :: e in state.edges && e.target == key && e.operation == ReplaceExpression
  }

  ghost predicate Overlaid(state: State, key: RecordKey) {
    exists o :: o in state.overlays && o.target == key
  }

  /** Satisfied means: the one source of an expression hole, or the one overlay of a demand. */
  ghost predicate SatisfiedByRequest(templates: seq<Template>, state: State) {
    && (forall key :: key in state.satisfied <==> Filled(state, key) || Overlaid(state, key))
    && (forall a, b :: 0 <= a < b < |state.overlays| ==> state.overlays[a].target != state.overlays[b].target)
    && (forall o :: o in state.overlays ==>
          && IsRecord(templates, state.occurrences, o.target)
          && RecordOf(templates, state.occurrences, o.target).inventoryKind in ["external.bind", "identifier.demand"])
  }

  // ---------- one request ----------

  /** A request goes to a visible record of a kind it asks for. */
  lemma {:induction false} ResolvedTarget(templates: seq<Template>, satisfies: Satisfies, state: State, request: Request)
    requires Known(templates, state.occurrences) && Resolve(templates, satisfies, state, request).Ok?
    ensures var target := Resolve(templates, satisfies, state, request).value;
            && IsRecord(templates, state.occurrences, target)
            && Visible(state, target)
            && RecordOf(templates, state.occurrences, target).inventoryKind in KindsFor(request.resource)
  {
    var query := QueryFor(request);
    var target := Resolve(templates, satisfies, state, request).value;
    var keys := TargetKeys(templates, state, query).value;
    assert target in keys;
    var bindings := AllBindings(templates, state, query.bindings).value;
    QueryIsScan(templates, state, query);
    assert Scanned(templates, state, query, bindings, target);
    assert Accepted(templates, state, query, bindings, target) == Ok(true);
  }

  lemma {:induction false} KindFacts(kind: string)
    ensures kind in LOWER_HOLE_KINDS ==> (SingleAdditiveHole(kind) <==> OperationForKind(kind) == ReplaceExpression)
    ensures kind in LOWER_HOLE_KINDS ==> OperationForKind(kind) != OtherOperation("astichi.operation.append_body")
    ensures kind in LOWER_HOLE_KINDS ==> kind !in ["external.bind", "identifier.demand"]
    ensures OperationForKind(kind) == SpliceBodyAtMarker <==> kind == "hole.block"
    ensures OperationForKind(kind) == AppendClause <==> kind == "hole.elif"
    ensures OperationForKind(kind) == SpliceParameters <==> kind == "hole.params"
    ensures kind in ["hole.positional_variadic", "hole.named_variadic"] ==> OperationForKind(kind) == SpliceCallArguments
  {
    assert "hole.block"[5] == 'b' && "hole.elif"[6] == 'l' && "hole.expr"[6] == 'x' && "hole.params"[6] == 'a';
    assert "hole.positional_variadic"[6] == 'o' && "hole.named_variadic"[5] == 'n';
    var hole := "hole.";
    if kind in LOWER_HOLE_KINDS {
      assert kind[..5] == hole;
      assert hole <= kind;
      assert kind[0] == 'h' && "external.bind"[0] == 'e' && "identifier.demand"[0] == 'i';
    }
  }

  // ---------- invariants of runs ----------

  /** The invariants, for three kinds of run: any; edges by request alone; edges, overlays and satisfied records by request alone. */
  ghost predicate Invariant(templates: seq<Template>, state: State, level: nat) {
    && Sane(templates, state)
    && (level >= 1 ==> EdgesByRequest(templates, state) && EdgesInOrder(state))
    && (level >= 2 ==> SatisfiedByRequest(templates, state))
  }

  predicate Allowed(action: Action, level: nat) {
    && (level >= 1 ==> !action.AddEdge?)
    && (level >= 2 ==> action.AddOccurrence? || action.Requests?)
  }

  /** Sources come from occurrences there already are, so the next one is larger. */
  ghost predicate EdgesInOrder(state: State) {
    forall e :: e in state.edges ==> e.source < |state.occurrences|
  }

  /** More occurrences, satisfied records and overlays do not matter to the edges there are. */
  lemma {:induction false} EdgesKept(templates: seq<Template>, before: State, after: State)
    requires EdgesByRequest(templates, before) && EdgesInOrder(before)
    requires before.occurrences <= after.occurrences && before.edges == after.edges && before.satisfied <= after.satisfied
    ensures EdgesByRequest(templates, after) && EdgesInOrder(after)
  {
    forall e | e in after.edges ensures MadeByRequest(templates, after, e) {
      assert MadeByRequest(templates, before, e);
    }
  }

  lemma {:induction false} EdgeAdded(templates: seq<Template>, before: State, after: State, e: Edge)
    requires EdgesByRequest(templates, before) && EdgesInOrder(before)
    requires after.edges == before.edges + [e] && MadeByRequest(templates, after, e)
    requires before.occurrences <= after.occurrences && before.satisfied <= after.satisfied && e.source == |before.occurrences|
    requires e.target !in before.satisfied
    ensures EdgesByRequest(templates, after) && EdgesInOrder(after)
  {
    forall f | f in after.edges ensures MadeByRequest(templates, after, f) {
      if f != e {
        assert f in before.edges && MadeByRequest(templates, before, f);
      }
    }
    forall a, b | 0 <= a < b < |after.edges|
      ensures after.edges[a].source < after.edges[b].source
      ensures after.edges[a].target == after.edges[b].target ==> after.edges[a].operation != ReplaceExpression
    {
      if b == |before.edges| {
        assert before.edges[a] in before.edges && MadeByRequest(templates, before, before.edges[a]);
      }
    }
  }

  lemma {:induction false} StepInvariant(templates: seq<Template>, satisfies: Satisfies, state: State, request: Request, level: nat)
    requires Invariant(templates, state, level) && Step(templates, satisfies, state, request).Ok?
    ensures Invariant(templates, Step(templates, satisfies, state, request).value, level)
  {
    var target := Resolve(templates, satisfies, state, request).value;
    var after := Step(templates, satisfies, state, request).value;
    ResolvedTarget(templates, satisfies, state, request);
    var kind := RecordOf(templates, state.occurrences, target).inventoryKind;
    KindFacts(kind);
    if request.resource.Composable? {
      ComposableInvariant(templates, state, request, target, level);
    } else {
      OverlayInvariant(templates, state, after, target, level);
    }
  }

  lemma {:induction false} ComposableInvariant(templates: seq<Template>, state: State, request: Request, target: RecordKey, level: nat)
    requires Invariant(templates, state, level) && request.resource.Composable?
    requires IsRecord(templates, state.occurrences, target) && Visible(state, target)
    requires RecordOf(templates, state.occurrences, target).inventoryKind in LOWER_HOLE_KINDS
    requires ApplyTo(templates, state, request, target).Ok?
    ensures Invariant(templates, ApplyTo(templates, state, request, target).value, level)
  {
    var kind := RecordOf(templates, state.occurrences, target).inventoryKind;
    var after := ApplyTo(templates, state, request, target).value;
    var e := after.edges[|state.edges|];
    KindFacts(kind);
    hide SingleAdditiveHole, OperationForKind;
    if level >= 1 {
      assert MadeByRequest(templates, after, e);
      EdgeAdded(templates, state, after, e);
    }
    if level >= 2 {
      forall key ensures key in after.satisfied <==> Filled(after, key) || Overlaid(after, key) {
        assert key in state.satisfied <==> Filled(state, key) || Overlaid(state, key);
        assert Overlaid(state, key) <==> Overlaid(after, key);
        assert Filled(after, key) <==> Filled(state, key) || (key == target && e.operation == ReplaceExpression);
      }
    }
  }

  lemma {:induction false} OverlayInvariant(templates: seq<Template>, state: State, after: State, target: RecordKey, level: nat)
    requires Invariant(templates, state, level)
    requires IsRecord(templates, state.occurrences, target) && Visible(state, target)
    requires RecordOf(templates, state.occurrences, target).inventoryKind in ["external.bind", "identifier.demand"]
    requires |after.overlays| == |state.overlays| + 1 && after.overlays[|state.overlays|].target == target
    requires after == state.(overlays := state.overlays + [after.overlays[|state.overlays|]], satisfied := state.satisfied + {target})
    ensures Invariant(templates, after, level)
  {
    if level >= 1 {
      EdgesKept(templates, state, after);
    }
    if level >= 2 {
      var overlay := after.overlays[|state.overlays|];
      forall key ensures key in after.satisfied <==> Filled(after, key) || Overlaid(after, key) {
        assert key in state.satisfied <==> Filled(state, key) || Overlaid(state, key);
        assert Filled(after, key) <==> Filled(state, key);
        assert Overlaid(after, key) <==> Overlaid(state, key) || key == target;
      }
      forall a, b | 0 <= a < b < |after.overlays| ensures after.overlays[a].target != after.overlays[b].target {
        if b == |state.overlays| {
          assert state.overlays[a] in state.overlays;
          assert Overlaid(state, state.overlays[a].target);
        }
      }
    }
  }

  lemma {:induction false} FoldInvariant(templates: seq<Template>, satisfies: Satisfies, state: State, requests: seq<Request>, level: nat)
    requires Invariant(templates, state, level)
    ensures Invariant(templates, Fold(templates, satisfies, state, requests).state, level)
    decreases |requests|
  {
    hide Step, Invariant;
    assert Known(templates, state.occurrences) by { InvariantIsSane(templates, state, level); }
    if requests != [] {
      var step := Step(templates, satisfies, state, requests[0]);
      if step.Ok? {
        StepKeepsKnown(templates, satisfies, state, requests[0]);
        StepInvariant(templates, satisfies, state, requests[0], level);
        FoldInvariant(templates, satisfies, step.value, requests[1..], level);
      }
    }
  }

  lemma {:induction false} InvariantIsSane(templates: seq<Template>, state: State, level: nat)
    requires Invariant(templates, state, level)
    ensures Sane(templates, state)
  {
  }

  lemma {:induction false} ActInvariant(templates: seq<Template>, satisfies: Satisfies, state: State, action: Action, level: nat)
    requires Invariant(templates, state, level) && Allowed(action, level)
    ensures Invariant(templates, Act(templates, satisfies, state, action), level)
  {
    var after := Act(templates, satisfies, state, action);
    if action.Requests? {
      FoldInvariant(templates, satisfies, state, action.requests, level);
    } else {
      if level >= 1 {
        EdgesKept(templates, state, after);
      }
      if level >= 2 {
        OccurrencesDoNotSatisfy(templates, state, after);
      }
    }
  }

  lemma {:induction false} OccurrencesDoNotSatisfy(templates: seq<Template>, before: State, after: State)
    requires SatisfiedByRequest(templates, before) && before.occurrences <= after.occurrences
    requires after == before.(occurrences := after.occurrences)
    ensures SatisfiedByRequest(templates, after)
  {
    forall key ensures (Filled(after, key) <==> Filled(before, key)) && (Overlaid(after, key) <==> Overlaid(before, key)) {
    }
  }

  // ---------- where the edges and overlays of a run come from ----------

  /** The requests of a run, in order. */
  function AllRequests(actions: seq<Action>): seq<Request> {
    if actions == [] then []
    else
      var last := actions[|actions| - 1];
      AllRequests(actions[..|actions| - 1]) + if last.Requests? then last.requests else []
  }

  /** The edge has the order that the request asked for, and its source is the instance that it asked for. */
  predicate EdgeFrom(state: State, e: Edge, request: Request) {
    && request.resource.Composable? && e.order == request.resource.order
    && e.source < |state.occurrences| && e.target.occurrence < |state.occurrences|
    && var source, target := state.occurrences[e.source], state.occurrences[e.target.occurrence];
       && source.templateIndex == request.resource.template && source.live && source.parent == Some(e.target.occurrence)
       && |source.buildPath| == |target.buildPath| + 1 && target.buildPath <= source.buildPath
       && source.buildPath[|target.buildPath|] == request.resource.instanceName
  }

  predicate Requested(state: State, e: Edge, requests: seq<Request>) {
    exists r :: 0 <= r < |requests| && EdgeFrom(state, e, requests[r])
  }

  ghost predicate EdgesFrom(state: State, requests: seq<Request>) {
    forall a :: 0 <= a < |state.edges| ==> Requested(state, state.edges[a], requests)
  }

  lemma {:induction false} EdgesStillFrom(before: State, after: State, requests: seq<Request>, more: seq<Request>)
    requires EdgesFrom(before, requests)
    requires before.occurrences <= after.occurrences && after.edges == before.edges
    ensures EdgesFrom(after, requests + more)
  {
    var all := requests + more;
    forall a | 0 <= a < |after.edges| ensures Requested(after, after.edges[a], all) {
      assert Requested(before, before.edges[a], requests);
      var r :| 0 <= r < |requests| && EdgeFrom(before, before.edges[a], requests[r]);
      assert all[r] == requests[r];
      assert EdgeFrom(after, after.edges[a], all[r]);
    }
  }

  lemma {:induction false} StepEdgesFrom(
      templates: seq<Template>, satisfies: Satisfies, state: State, request: Request, requests: seq<Request>)
    requires Known(templates, state.occurrences) && Step(templates, satisfies, state, request).Ok? && EdgesFrom(state, requests)
    ensures EdgesFrom(Step(templates, satisfies, state, request).value, requests + [request])
  {
    var target := Resolve(templates, satisfies, state, request).value;
    var after := Step(templates, satisfies, state, request).value;
    RequestGranted(templates, state, request, target);
    hide Resolve, ApplyTo, Step;
    if request.resource.Composable? {
      var now := after.(edges := state.edges);
      EdgesStillFrom(state, now, requests, [request]);
      var all := requests + [request];
      forall a | 0 <= a < |after.edges| ensures Requested(after, after.edges[a], all) {
        if a < |state.edges| {
          assert Requested(now, now.edges[a], all);
          var r :| 0 <= r < |all| && EdgeFrom(now, now.edges[a], all[r]);
          assert EdgeFrom(after, after.edges[a], all[r]);
        } else {
          assert EdgeFrom(after, after.edges[a], all[|requests|]);
        }
      }
    } else {
      EdgesStillFrom(state, after, requests, [request]);
    }
  }

  lemma {:induction false} FoldEdgesFrom(
      templates: seq<Template>, satisfies: Satisfies, state: State, done: seq<Request>, requests: seq<Request>)
    requires Known(templates, state.occurrences) && EdgesFrom(state, done)
    ensures EdgesFrom(Fold(templates, satisfies, state, requests).state, done + requests)
    decreases |requests|
  {
    hide Step, EdgesFrom;
    if requests == [] || Step(templates, satisfies, state, requests[0]).Err? {
      EdgesStillFrom(state, state, done, requests);
    } else {
      var after := Step(templates, satisfies, state, requests[0]).value;
      StepKeepsKnown(templates, satisfies, state, requests[0]);
      StepEdgesFrom(templates, satisfies, state, requests[0], done);
      FoldEdgesFrom(templates, satisfies, after, done + [requests[0]], requests[1..]);
      assert (done + [requests[0]]) + requests[1..] == done + requests;
    }
  }

  /** Every edge of a run in which only batch requests make edges is what some request of the run asked for. */
  lemma {:induction false} RunEdgesRequested(templates: seq<Template>, satisfies: Satisfies, actions: seq<Action>)
    requires forall action :: action in actions ==> !action.AddEdge?
    ensures EdgesFrom(Run(templates, satisfies, actions), AllRequests(actions))
  {
    hide EdgesFrom;
    if actions == [] {
      NoEdgesFrom();
    } else {
      var n := |actions| - 1;
      RunEdgesRequested(templates, satisfies, actions[..n]);
      assert actions[n] in actions;
      var before := Run(templates, satisfies, actions[..n]);
      if actions[n].Requests? {
        FoldEdgesFrom(templates, satisfies, before, AllRequests(actions[..n]), actions[n].requests);
        if !WellFormed(templates, actions[n].requests) {
          EdgesStillFrom(before, before, AllRequests(actions[..n]), actions[n].requests);
        }
      } else {
        EdgesStillFrom(before, Act(templates, satisfies, before, actions[n]), AllRequests(actions[..n]), []);
      }
    }
  }

  lemma {:induction false} NoEdgesFrom()
    ensures EdgesFrom(EMPTY, [])
  {
  }

  // ---------- the invariants of every run ----------

  /** Every reachable state has the invariants of its kind of run. */
  lemma {:induction false} RunInvariant(templates: seq<Template>, satisfies: Satisfies, actions: seq<Action>, level: nat)
    requires forall action :: action in actions ==> Allowed(action, level)
    ensures Invariant(templates, Run(templates, satisfies, actions), level)
  {
    hide Act;
    if actions == [] {
      assert EMPTY.edges == [];
    } else {
      var n := |actions| - 1;
      RunInvariant(templates, satisfies, actions[..n], level);
      assert actions[n] in actions;
      ActInvariant(templates, satisfies, Run(templates, satisfies, actions[..n]), actions[n], level);
    }
  }
}
