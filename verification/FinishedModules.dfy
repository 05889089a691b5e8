/** What the marker lowering makes of every materialized module (materialize_ir.rs). */
module FinishedModules {
  import opened Wrappers
  import opened Ast
  import opened Templates
  import opened Assembly
  import EdgeApplication
  import opened Materializer
  import opened MaterializerTheorems
  import opened Lowering

  /** Overlays are applied first; then the statement markers of the module are lowered. */
  ghost function Finished(overlaid: Result<Module>): Result<Module> {
    var m :- overlaid;
    var body :- LowerSuite(m.body);
    Ok(m.(body := body))
  }

  ghost predicate FinishByLowering(steps: Steps, overlays: (nat, Module) -> Result<Module>) {
    forall i, m :: steps.finish(i, m) == Finished(overlays(i, m))
  }

  /** Whatever the overlays do, a materialized module has no marker left at any depth, and so has every source that went into it. */
  lemma {:induction false} MaterializedIsClean(
      templates: seq<Template>, state: State, steps: Steps, overlays: (nat, Module) -> Result<Module>, i: nat)
    requires FinishByLowering(steps, overlays) && Build(templates, state, steps, i, {}).Ok?
    ensures CleanSuite(Build(templates, state, steps, i, {}).value.body)
    ensures forall k :: 0 <= k < |Incoming(state, i)| ==>
              var source := Build(templates, state, steps, state.edges[Incoming(state, i)[k]].source, {});
              source.Ok? && CleanSuite(source.value.body)
  {
    var template, inputs := BuildUnfolds(templates, state, steps, i);
    hide Build, LowerSuite, CleanSuite;
    FinishedIsClean(steps, overlays, template, i, inputs);
    forall k | 0 <= k < |Incoming(state, i)|
      ensures var source := Build(templates, state, steps, state.edges[Incoming(state, i)[k]].source, {});
              source.Ok? && CleanSuite(source.value.body)
    {
      var source := state.edges[Incoming(state, i)[k]].source;
      var template', inputs' := BuildUnfolds(templates, state, steps, source);
      FinishedIsClean(steps, overlays, template', source, inputs');
    }
  }

  lemma {:induction false} FinishedIsClean(
      steps: Steps, overlays: (nat, Module) -> Result<Module>, template: Template, i: nat, inputs: seq<EdgeApplication.EdgeInput>)
    requires FinishByLowering(steps, overlays) && Assemble(template, steps, i, inputs).Ok?
    ensures CleanSuite(Assemble(template, steps, i, inputs).value.body)
  {
    hide LowerSuite, CleanSuite;
    var spliced := EdgeApplication.ApplyEdges(template.tree, template.records, inputs, steps.other).value;
    assert steps.finish(i, spliced) == Finished(overlays(i, spliced));
    LoweredIsClean(overlays(i, spliced).value.body);
  }
}
