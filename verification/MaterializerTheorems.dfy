/** What the materializer computes: when it fails on a cycle, and the module it makes otherwise. */
module MaterializerTheorems {
  import opened Wrappers
  import opened Ast
  import opened Splice
  import opened Templates
  import opened EdgeApplication
  import opened EdgeTargets
  import opened SpliceTheorem
  import opened SpliceOutcomes
  import opened EdgeErrors
  import opened Assembly
  import opened Materializer

  // ---------- walks over the occurrence graph ----------

  /** A walk from an occurrence to one that feeds it, and so on. */
  ghost predicate Walk(state: State, p: seq<nat>) {
    p != [] && forall j :: 0 <= j < |p| - 1 ==> Feeds(state, p[j + 1], p[j])
  }

  /** The walk comes back to an occurrence it has passed. */
  predicate Returns(p: seq<nat>) {
    p != [] && p[|p| - 1] in p[..|p| - 1]
  }

  ghost predicate CycleReachable(state: State, root: nat) {
    exists p :: Walk(state, p) && p[0] == root && Returns(p)
  }

  lemma {:induction false} BuildEdgesElements(templates: seq<Template>, state: State, steps: Steps, edges: seq<nat>, v: set<nat>)
    requires Below(edges, |state.edges|) && BuildEdges(templates, state, steps, edges, v).Ok?
    ensures var inputs := BuildEdges(templates, state, steps, edges, v).value;
            && |inputs| == |edges|
            && forall j :: 0 <= j < |edges| ==>
                 var source := Build(templates, state, steps, state.edges[edges[j]].source, v);
                 source.Ok? && inputs[j] == InputOf(templates, state, edges[j], source.value)
    decreases |edges|
  {
    hide Build, InputOf;
    if edges != [] {
      BuildEdgesElements(templates, state, steps, edges[1..], v);
      var rest := BuildEdges(templates, state, steps, edges[1..], v).value;
      forall j | 0 < j < |edges|
        ensures var source := Build(templates, state, steps, state.edges[edges[j]].source, v);
                source.Ok? && rest[j - 1] == InputOf(templates, state, edges[j], source.value)
      {
        assert edges[1..][j - 1] == edges[j];
      }
    }
  }

  /** Success needs the success of everything below. */
  lemma {:induction false} SourceSucceeds(templates: seq<Template>, state: State, steps: Steps, i: nat, source: nat, v: set<nat>)
    requires Build(templates, state, steps, i, v).Ok? && Feeds(state, source, i)
    ensures i !in v && Build(templates, state, steps, source, v + {i}).Ok?
  {
    var k := FeedsIncoming(state, source, i);
    BuildEdgesElements(templates, state, steps, Incoming(state, i), v + {i});
  }

  /** A walk from an occurrence that succeeds meets no occurrence twice, and none of those above. */
  lemma {:induction false} SuccessMeansNoReturn(templates: seq<Template>, state: State, steps: Steps, p: seq<nat>, v: set<nat>)
    requires Walk(state, p) && Build(templates, state, steps, p[0], v).Ok?
    ensures p[|p| - 1] !in v && !Returns(p)
    decreases |p|
  {
    hide Build;
    if |p| == 1 {
      assert p[0] !in v by { NotAbove(templates, state, steps, p[0], v); }
    } else {
      SourceSucceeds(templates, state, steps, p[0], p[1], v);
      assert Walk(state, p[1..]) by {
        forall j | 0 <= j < |p[1..]| - 1 ensures Feeds(state, p[1..][j + 1], p[1..][j]) {
          assert Feeds(state, p[j + 2], p[j + 1]);
        }
      }
      SuccessMeansNoReturn(templates, state, steps, p[1..], v + {p[0]});
      assert p[..|p| - 1] == [p[0]] + p[1..][..|p| - 2];
    }
  }

  lemma {:induction false} NotAbove(templates: seq<Template>, state: State, steps: Steps, i: nat, v: set<nat>)
    requires Build(templates, state, steps, i, v).Ok?
    ensures i !in v
  {
  }

  // ---------- where cycle errors come from ----------

  /** The errors that the steps taken as given may report. */
  ghost predicate StepErrors(steps: Steps, allowed: Error -> bool) {
    OtherErrors(steps.other, allowed) && forall i, m :: Allows(allowed, steps.finish(i, m))
  }

  /** The steps taken as given never report a cycle. */
  ghost predicate NoCycleErrors(steps: Steps) {
    StepErrors(steps, e => e != CycleDetected)
  }

  lemma {:induction false} EdgesFailure(templates: seq<Template>, state: State, steps: Steps, edges: seq<nat>, v: set<nat>) returns (j: nat)
    requires Below(edges, |state.edges|) && BuildEdges(templates, state, steps, edges, v).Err?
    ensures j < |edges|
    ensures Build(templates, state, steps, state.edges[edges[j]].source, v) == Err(BuildEdges(templates, state, steps, edges, v).error)
    decreases |edges|
  {
    hide Build, InputOf;
    if Build(templates, state, steps, state.edges[edges[0]].source, v).Err? {
      j := 0;
    } else {
      var k := EdgesFailure(templates, state, steps, edges[1..], v);
      j := k + 1;
    }
  }

  /** A cycle error leaves a walk that comes back, to itself or to an occurrence above. */
  lemma {:induction false} CycleErrorHasWalk(templates: seq<Template>, state: State, steps: Steps, i: nat, v: set<nat>) returns (p: seq<nat>)
    requires NoCycleErrors(steps) && Build(templates, state, steps, i, v) == Err(CycleDetected)
    ensures Walk(state, p) && p[0] == i && (p[|p| - 1] in v || Returns(p))
    decreases |Unvisited(state, v)|
  {
    p := [i];
    if i !in v {
      var template := TemplateOf(templates, state, i);
      assert i in Unvisited(state, v);
      assert Unvisited(state, v + {i}) == Unvisited(state, v) - {i};
      var inputs := BuildEdges(templates, state, steps, Incoming(state, i), v + {i});
      if inputs.Ok? {
        EdgesError(template.value.tree, template.value.records, inputs.value, steps.other, e => e != CycleDetected);
        assert false;
      }
      var j := EdgesFailure(templates, state, steps, Incoming(state, i), v + {i});
      IncomingFeeds(state, i, j);
      hide Build, BuildEdges;
      var q := CycleErrorHasWalk(templates, state, steps, state.edges[Incoming(state, i)[j]].source, v + {i});
      p := [i] + q;
      ExtendedWalk(state, i, q, v);
    }
  }

  lemma {:induction false} ExtendedWalk(state: State, i: nat, q: seq<nat>, v: set<nat>)
    requires Walk(state, q) && Feeds(state, q[0], i) && (q[|q| - 1] in v + {i} || Returns(q))
    ensures var p := [i] + q; Walk(state, p) && (p[|p| - 1] in v || Returns(p))
  {
    var p := [i] + q;
    forall j | 0 <= j < |p| - 1 ensures Feeds(state, p[j + 1], p[j]) {
      if j > 0 {
        assert Feeds(state, q[j], q[j - 1]);
      }
    }
    assert p[..|p| - 1] == [i] + q[..|q| - 1];
  }

  // ---------- the cycle error, exactly ----------

  /** Inputs for the edges into an occurrence, whatever their sources became. */
  ghost predicate InputsFit(templates: seq<Template>, state: State, i: nat, inputs: seq<EdgeInput>) {
    && |inputs| == |Incoming(state, i)|
    && forall k :: 0 <= k < |inputs| ==> inputs[k] == InputOf(templates, state, Incoming(state, i)[k], inputs[k].source)
  }

  function Assemble(template: Template, steps: Steps, i: nat, inputs: seq<EdgeInput>): Result<Module> {
    var spliced :- ApplyEdges(template.tree, template.records, inputs, steps.other);
    steps.finish(i, spliced)
  }

  /** Every occurrence is live and known, and every step other than the search succeeds on the modules the search builds. */
  ghost predicate OtherwiseFine(templates: seq<Template>, state: State, steps: Steps) {
    && (forall i :: 0 <= i < |state.occurrences| ==> TemplateOf(templates, state, i).Ok?)
    && (forall a :: 0 <= a < |state.edges| ==> state.edges[a].source < |state.occurrences|)
    && (forall i, v :: 0 <= i < |state.occurrences| && BuildEdges(templates, state, steps, Incoming(state, i), v).Ok? ==>
          Assemble(TemplateOf(templates, state, i).value, steps, i, BuildEdges(templates, state, steps, Incoming(state, i), v).value).Ok?)
  }

  /** A reachable cycle always fails; a cycle error always comes from a reachable cycle. */
  lemma {:induction false} CycleErrors(templates: seq<Template>, state: State, steps: Steps, root: nat)
    ensures CycleReachable(state, root) ==> Build(templates, state, steps, root, {}).Err?
    ensures NoCycleErrors(steps) && Build(templates, state, steps, root, {}) == Err(CycleDetected) ==> CycleReachable(state, root)
  {
    hide Build;
    if CycleReachable(state, root) && Build(templates, state, steps, root, {}).Ok? {
      var p :| Walk(state, p) && p[0] == root && Returns(p);
      SuccessMeansNoReturn(templates, state, steps, p, {});
    }
    if NoCycleErrors(steps) && Build(templates, state, steps, root, {}) == Err(CycleDetected) {
      var p := CycleErrorHasWalk(templates, state, steps, root, {});
    }
  }

  lemma {:induction false} OnlyCyclesFail(templates: seq<Template>, state: State, steps: Steps, i: nat, v: set<nat>)
    requires OtherwiseFine(templates, state, steps) && i < |state.occurrences|
    ensures Build(templates, state, steps, i, v).Ok? || Build(templates, state, steps, i, v) == Err(CycleDetected)
    decreases |Unvisited(state, v)|, 1, 0
  {
    if i !in v {
      assert i in Unvisited(state, v);
      assert Unvisited(state, v + {i}) == Unvisited(state, v) - {i};
      var edges := Incoming(state, i);
      var inputs := BuildEdges(templates, state, steps, edges, v + {i});
      if inputs.Err? {
        var j := EdgesFailure(templates, state, steps, edges, v + {i});
        OnlyCyclesFail(templates, state, steps, state.edges[edges[j]].source, v + {i});
      } else {
        assert Assemble(TemplateOf(templates, state, i).value, steps, i, inputs.value).Ok?;
      }
    }
  }

  /** When nothing else can fail, the search fails exactly when a cycle is reachable, and then with the cycle error. */
  lemma {:induction false} CycleErrorIff(templates: seq<Template>, state: State, steps: Steps, root: nat)
    requires OtherwiseFine(templates, state, steps) && NoCycleErrors(steps) && root < |state.occurrences|
    ensures Build(templates, state, steps, root, {}) == Err(CycleDetected) <==> CycleReachable(state, root)
    ensures Build(templates, state, steps, root, {}).Ok? <==> !CycleReachable(state, root)
  {
    OnlyCyclesFail(templates, state, steps, root, {});
    CycleErrors(templates, state, steps, root);
  }

  // ---------- what an occurrence becomes ----------

  /** The edges into an occurrence are to records of its template, each with the operation for the kind of its record. */
  ghost predicate EdgesFit(template: Template, state: State, i: nat) {
    forall a :: 0 <= a < |state.edges| && state.edges[a].target.occurrence == i ==>
      && state.edges[a].target.record < |template.records|
      && state.edges[a].operation == OperationForKind(template.records[state.edges[a].target.record].inventoryKind)
  }

  /** An input has the target and the operation of its edge, and the records of the template that its source is an instance of. */
  predicate Carries(templates: seq<Template>, state: State, a: nat, input: EdgeInput) {
    && a < |state.edges|
    && var e := state.edges[a];
       && input.target == e.target && input.operation == e.operation
       && e.source < |state.occurrences| && state.occurrences[e.source].templateIndex < |templates|
       && input.sourceRecords == templates[state.occurrences[e.source].templateIndex].records
  }

  lemma {:induction false} BuiltInputsCarry(templates: seq<Template>, state: State, steps: Steps, i: nat, inputs: seq<EdgeInput>)
    requires InputsFit(templates, state, i, inputs)
    requires forall k :: 0 <= k < |inputs| ==> Build(templates, state, steps, state.edges[Incoming(state, i)[k]].source, {}).Ok?
    ensures forall k :: 0 <= k < |inputs| ==> Carries(templates, state, Incoming(state, i)[k], inputs[k])
  {
    forall k | 0 <= k < |inputs| ensures Carries(templates, state, Incoming(state, i)[k], inputs[k]) {
      var a := Incoming(state, i)[k];
      assert inputs[k] == InputOf(templates, state, a, inputs[k].source);
      assert Build(templates, state, steps, state.edges[a].source, {}).Ok?;
    }
  }

  /** A materialized occurrence is its own template with its materialized sources put in, whatever is above it. */
  lemma {:induction false} BuildUnfolds(templates: seq<Template>, state: State, steps: Steps, i: nat) returns (template: Template, inputs: seq<EdgeInput>)
    requires Build(templates, state, steps, i, {}).Ok?
    ensures TemplateOf(templates, state, i) == Ok(template) && InputsFit(templates, state, i, inputs)
    ensures forall k :: 0 <= k < |inputs| ==> Carries(templates, state, Incoming(state, i)[k], inputs[k])
    ensures forall k :: 0 <= k < |inputs| ==>
              Build(templates, state, steps, state.edges[Incoming(state, i)[k]].source, {}) == Ok(inputs[k].source)
    ensures Build(templates, state, steps, i, {}) == Assemble(template, steps, i, inputs)
  {
    var edges := Incoming(state, i);
    template := TemplateOf(templates, state, i).value;
    assert {} + {i} == {i};
    inputs := BuildEdges(templates, state, steps, edges, {i}).value;
    assert Build(templates, state, steps, i, {}) == Assemble(template, steps, i, inputs);
    EdgesShrink(templates, state, steps, edges, {i}, {});
    BuildEdgesElements(templates, state, steps, edges, {});
    BuiltInputsCarry(templates, state, steps, i, inputs);
  }

  lemma {:induction false} InputsFitRecords(templates: seq<Template>, state: State, template: Template, i: nat, inputs: seq<EdgeInput>)
    requires InputsFit(templates, state, i, inputs) && EdgesFit(template, state, i)
    ensures EdgesFitRecords(template.records, inputs, i)
  {
    forall e | e in inputs
      ensures e.target.occurrence == i && e.target.record < |template.records|
      ensures e.operation == OperationForKind(template.records[e.target.record].inventoryKind)
    {
      var k :| 0 <= k < |inputs| && inputs[k] == e;
      IncomingFeeds(state, i, k);
    }
  }

  /**
   The module of an occurrence, in one equation: all its statement splices at once, each payload being the module its
   source became on its own; then the remaining groups; then the overlays and the lowering.
   */
  lemma {:induction false} MaterializedModule(templates: seq<Template>, state: State, steps: Steps, i: nat)
    returns (template: Template, inputs: seq<EdgeInput>, statements: seq<KeyedGroup>, others: seq<KeyedGroup>)
    requires Build(templates, state, steps, i, {}).Ok?
    requires forall t :: TemplateOf(templates, state, i) == Ok(t) ==> Extracted(t) && EdgesFit(t, state, i)
    ensures TemplateOf(templates, state, i) == Ok(template) && InputsFit(templates, state, i, inputs)
    ensures forall k :: 0 <= k < |inputs| ==> Carries(templates, state, Incoming(state, i)[k], inputs[k])
    ensures forall k :: 0 <= k < |inputs| ==>
              Build(templates, state, steps, state.edges[Incoming(state, i)[k]].source, {}) == Ok(inputs[k].source)
    ensures StatementsThenOthers(statements, others)
    ensures var tree := ApplyAll(SubstInside(template.tree, TargetsOf(template.records, inputs)), template.records, others, steps.other);
            tree.Ok? && Build(templates, state, steps, i, {}) == steps.finish(i, tree.value)
    ensures (forall e :: e in inputs ==> SplicesStatements(e.operation)) ==>
              Build(templates, state, steps, i, {}) ==
              steps.finish(i, SubstInside(template.tree, TargetsOf(template.records, inputs)))
  {
    template, inputs := BuildUnfolds(templates, state, steps, i);
    InputsFitRecords(templates, state, template, i, inputs);
    ExtractedTemplatesAreSpliceable(template, inputs, i);
    hide Build, ApplyEdges, SubstInside, TargetsOf, Extracted, Spliceable, PayloadsOk, Incoming, EdgesFit, ApplyAll;
    if !PayloadsOk(inputs) {
      MalformedPayloadFails(template.tree, template.records, inputs, steps.other);
    }
    statements, others := EdgesRefineSubstitution(template.tree, template.records, inputs, steps.other);
    if forall e :: e in inputs ==> SplicesStatements(e.operation) {
      StatementEdgesOutcome(template.tree, template.records, inputs, steps.other);
    }
  }
}
