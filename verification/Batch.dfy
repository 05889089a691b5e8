/** Batch requests (occurrence_store.rs): each request is resolved to one record and then applied, in turn. */
module Batch {
  import opened Wrappers
  import opened Templates
  import opened Assembly
  import opened AssemblyIndexes
  import opened AssemblyState
  import opened Candidates

  datatype Resource =
    | Composable(template: nat, instanceName: string, order: int)
    | External(token: nat)
    | Identifier(identifier: string)

  datatype Request = Request(
    name: Option<string>, buildMatch: Option<seq<string>>, ownerMatch: Option<seq<string>>, allowEquivalent: bool, resource: Resource)

  /** Whether a production record can fill a target record; the surface registry decides that. */
  type Satisfies = (Record, Record) -> bool

  // ---------- resolving ----------

  const LOWER_HOLE_KINDS: seq<string> :=
    ["hole.block", "hole.expr", "hole.params", "hole.elif", "hole.positional_variadic", "hole.named_variadic"]

  function KindsFor(resource: Resource): seq<string> {
    match resource
    case Composable(_, _, _) => LOWER_HOLE_KINDS
    case External(_) => ["external.bind"]
    case Identifier(_) => ["identifier.demand"]
  }

  function QueryFor(request: Request): Query {
    Query(request.name, request.buildMatch, request.ownerMatch, KindsFor(request.resource), map[])
  }

  predicate CanFill(satisfies: Satisfies, productions: seq<Record>, target: Record) {
    exists p :: p in productions && StartsWith(p.inventoryKind, "production.") && satisfies(target, p)
  }

  /** The targets that some production record of the source template can fill, in order. */
  function Fillable(templates: seq<Template>, state: State, satisfies: Satisfies, productions: seq<Record>, keys: seq<RecordKey>): (r: seq<RecordKey>)
    ensures forall key :: key in r <==>
                          key in keys && IsRecord(templates, state.occurrences, key)
                          && CanFill(satisfies, productions, RecordOf(templates, state.occurrences, key))
  {
    if keys == [] then []
    else
      var rest := Fillable(templates, state, satisfies, productions, keys[1..]);
      if IsRecord(templates, state.occurrences, keys[0])
         && CanFill(satisfies, productions, RecordOf(templates, state.occurrences, keys[0]))
      then [keys[0]] + rest else rest
  }

  function CandidateKeys(templates: seq<Template>, satisfies: Satisfies, state: State, request: Request): Result<seq<RecordKey>>
    requires Known(templates, state.occurrences)
  {
    if request.resource.Composable? && request.resource.template >= |templates| then Err(StaleHandle)
    else
      var keys :- TargetKeys(templates, state, QueryFor(request));
      Ok(if request.resource.Composable?
         then Fillable(templates, state, satisfies, templates[request.resource.template].records, keys) else keys)
  }

  /** Demand sites that mean the same resource at the same place. */
  predicate Equivalent(templates: seq<Template>, state: State, a: RecordKey, b: RecordKey) {
    && IsRecord(templates, state.occurrences, a) && IsRecord(templates, state.occurrences, b)
    && state.occurrences[a.occurrence].buildPath == state.occurrences[b.occurrence].buildPath
    && var bindings := AllBindings(templates, state, map[]);
       var first, second := RecordOf(templates, state.occurrences, a), RecordOf(templates, state.occurrences, b);
       && bindings.Ok?
       && first.inventoryKind == second.inventoryKind
       && var names, names' := BindingsAt(bindings.value, a.occurrence), BindingsAt(bindings.value, b.occurrence);
          && ResolvedName(first.resourceName, names) == ResolvedName(second.resourceName, names')
          && ResolvedOwner(first.codeOwner, names) == ResolvedOwner(second.codeOwner, names')
  }

  function Select(templates: seq<Template>, state: State, candidates: seq<RecordKey>, allowEquivalent: bool): Result<RecordKey> {
    if |candidates| == 1 then Ok(candidates[0])
    else if allowEquivalent && candidates != []
            && forall c :: c in candidates[1..] ==> Equivalent(templates, state, candidates[0], c)
    then Ok(candidates[0])
    else Err(NoUniqueCandidate)
  }

  function Resolve(templates: seq<Template>, satisfies: Satisfies, state: State, request: Request): Result<RecordKey>
    requires Known(templates, state.occurrences)
  {
    var candidates :- CandidateKeys(templates, satisfies, state, request);
    Select(templates, state, candidates, request.allowEquivalent)
  }

  // ---------- what a request resolves to ----------

  /** Filling is a matter between a target and one production of the source. */
  lemma {:induction false} CanFillIff(satisfies: Satisfies, productions: seq<Record>, target: Record)
    ensures CanFill(satisfies, productions, target) <==>
            exists k :: 0 <= k < |productions| && "production." <= productions[k].inventoryKind && satisfies(target, productions[k])
  {
    if p :| p in productions && StartsWith(p.inventoryKind, "production.") && satisfies(target, p) {
      var k :| 0 <= k < |productions| && productions[k] == p;
    }
  }

  /** A record that the filter accepts, and that some production of the source can fill when a source is asked for. */
  ghost predicate IsCandidate(templates: seq<Template>, satisfies: Satisfies, state: State, request: Request, key: RecordKey)
    requires Known(templates, state.occurrences) && AllBindings(templates, state, map[]).Ok?
  {
    && Scanned(templates, state, QueryFor(request), AllBindings(templates, state, map[]).value, key)
    && Accepted(templates, state, QueryFor(request), AllBindings(templates, state, map[]).value, key) == Ok(true)
    && (request.resource.Composable? ==>
          request.resource.template < |templates|
          && CanFill(satisfies, templates[request.resource.template].records, RecordOf(templates, state.occurrences, key)))
  }

  lemma {:induction false} FillableInOrder(
      templates: seq<Template>, state: State, satisfies: Satisfies, productions: seq<Record>, keys: seq<RecordKey>,
      query: Query, bindings: Bindings)
    requires InOrder(templates, state.occurrences, query, bindings, keys)
    ensures InOrder(templates, state.occurrences, query, bindings, Fillable(templates, state, satisfies, productions, keys))
  {
    hide Earlier, CanFill, IsRecord;
    if keys != [] {
      FillableInOrder(templates, state, satisfies, productions, keys[1..], query, bindings);
      var rest, all := Fillable(templates, state, satisfies, productions, keys[1..]), Fillable(templates, state, satisfies, productions, keys);
      forall j | 0 <= j < |rest| ensures Earlier(templates, state.occurrences, query, bindings, keys[0], rest[j]) {
        assert rest[j] in rest && rest[j] in keys[1..];
        var k :| 0 <= k < |keys[1..]| && keys[1..][k] == rest[j];
        assert keys[k + 1] == rest[j];
      }
    }
  }

  lemma {:induction false} CandidatesExact(templates: seq<Template>, satisfies: Satisfies, state: State, request: Request)
    requires Known(templates, state.occurrences) && CandidateKeys(templates, satisfies, state, request).Ok?
    ensures AllBindings(templates, state, map[]).Ok?
    ensures var keys := CandidateKeys(templates, satisfies, state, request).value;
            && InOrder(templates, state.occurrences, QueryFor(request), AllBindings(templates, state, map[]).value, keys)
            && forall key :: key in keys <==> IsCandidate(templates, satisfies, state, request, key)
  {
    var query := QueryFor(request);
    var found := TargetKeys(templates, state, query);
    assert AllBindings(templates, state, map[]).Ok? && found.Ok?;
    QueryIsScan(templates, state, query);
    TargetsInOrder(templates, state, query);
    hide TargetKeys, AllBindings, Accepted, Listed, InOrder, Earlier, CanFill, QueryFor;
    if request.resource.Composable? {
      var productions := templates[request.resource.template].records;
      FillableInOrder(templates, state, satisfies, productions, found.value, query, AllBindings(templates, state, map[]).value);
    }
  }

  /**
   A request resolves to a candidate that is the only one, or, where equivalent demands are allowed, the first of
   candidates that all mean the same.
   */
  lemma {:induction false} ResolveIff(templates: seq<Template>, satisfies: Satisfies, state: State, request: Request, target: RecordKey)
    requires Known(templates, state.occurrences) && CandidateKeys(templates, satisfies, state, request).Ok?
    ensures AllBindings(templates, state, map[]).Ok?
    ensures Resolve(templates, satisfies, state, request) == Ok(target) <==>
            && IsCandidate(templates, satisfies, state, request, target)
            && forall other :: IsCandidate(templates, satisfies, state, request, other) && other != target ==>
                 && request.allowEquivalent && Equivalent(templates, state, target, other)
                 && Earlier(templates, state.occurrences, QueryFor(request), AllBindings(templates, state, map[]).value, target, other)
  {
    CandidatesExact(templates, satisfies, state, request);
    hide CandidateKeys, IsCandidate, Equivalent, Earlier, AllBindings;
    SelectIff(templates, state, QueryFor(request), AllBindings(templates, state, map[]).value,
              CandidateKeys(templates, satisfies, state, request).value, request.allowEquivalent, target);
  }

  lemma {:induction false} SelectIff(
      templates: seq<Template>, state: State, query: Query, bindings: Bindings, keys: seq<RecordKey>, allowEquivalent: bool, target: RecordKey)
    requires InOrder(templates, state.occurrences, query, bindings, keys)
    ensures Select(templates, state, keys, allowEquivalent) == Ok(target) <==>
            && target in keys
            && forall other :: other in keys && other != target ==>
                 && allowEquivalent && Equivalent(templates, state, target, other)
                 && Earlier(templates, state.occurrences, query, bindings, target, other)
  {
    hide Equivalent, Earlier;
    if |keys| == 1 {
      assert keys == [keys[0]];
    } else if keys != [] {
      var first := keys[0];
      forall other | other in keys && other != first
        ensures other in keys[1..] && Earlier(templates, state.occurrences, query, bindings, first, other)
        ensures !Earlier(templates, state.occurrences, query, bindings, other, first)
      {
        var j :| 0 <= j < |keys| && keys[j] == other;
        assert keys[1..][j - 1] == other;
        NotEarlierBack(templates, state.occurrences, query, bindings, first, other);
      }
      forall c | c in keys[1..] ensures c in keys && c != first {
        var j :| 0 <= j < |keys[1..]| && keys[1..][j] == c;
        NotEarlierBack(templates, state.occurrences, query, bindings, first, keys[j + 1]);
      }
      assert keys[1] in keys[1..] && first in keys;
    }
  }

  // ---------- applying ----------

  /** Holes that take one source; the others gather any number. */
  predicate SingleAdditiveHole(kind: string) {
    StartsWith(kind, "hole.")
    && kind !in ["hole.block", "hole.params", "hole.positional_variadic", "hole.named_variadic", "hole.elif"]
  }

  function ResolvedResourceName(templates: seq<Template>, state: State, key: RecordKey): Result<string>
    requires IsRecord(templates, state.occurrences, key)
  {
    var bindings :- AllBindings(templates, state, map[]);
    Ok(ResolvedName(RecordOf(templates, state.occurrences, key).resourceName, BindingsAt(bindings, key.occurrence)))
  }

  function ApplyTo(templates: seq<Template>, state: State, request: Request, target: RecordKey): Result<State> {
    if !IsRecord(templates, state.occurrences, target) then Err(StaleHandle)
    else
      var record := RecordOf(templates, state.occurrences, target);
      match request.resource
      case Composable(template, instanceName, order) =>
        if template >= |templates| then Err(StaleHandle)
        else
          var path := state.occurrences[target.occurrence].buildPath + [instanceName];
          var edge := Edge(target, |state.occurrences|, OperationForKind(record.inventoryKind), order);
          Ok(state.(occurrences := state.occurrences + [Occurrence(template, path, Some(target.occurrence), true)],
                    edges := state.edges + [edge],
                    satisfied := if SingleAdditiveHole(record.inventoryKind) then state.satisfied + {target} else state.satisfied))
      case External(_) =>
        var name :- ResolvedResourceName(templates, state, target);
        Ok(state.(overlays := state.overlays + [Overlay("external", name, target)], satisfied := state.satisfied + {target}))
      case Identifier(identifier) =>
        Ok(state.(overlays := state.overlays + [Overlay("identifier", identifier, target)], satisfied := state.satisfied + {target}))
  }

  /** The one row before which everything is as it was. */
  predicate OneMore<T(==)>(before: seq<T>, after: seq<T>, row: T) {
    |after| == |before| + 1 && before <= after && after[|before|] == row
  }

  /** A request for a source: one new instance of its template below the target, and one edge from it to the target. */
  predicate SourceAdded(before: State, after: State, target: RecordKey, template: nat, instanceName: string, order: int) {
    && target.occurrence < |before.occurrences|
    && |after.occurrences| == |before.occurrences| + 1 && before.occurrences <= after.occurrences
    && |after.edges| == |before.edges| + 1 && before.edges <= after.edges
    && after.overlays == before.overlays && after.dead == before.dead
    && var path, source, edge :=
         before.occurrences[target.occurrence].buildPath, after.occurrences[|before.occurrences|], after.edges[|before.edges|];
       && source.templateIndex == template && source.live && source.parent == Some(target.occurrence)
       && |source.buildPath| == |path| + 1 && path <= source.buildPath && source.buildPath[|path|] == instanceName
       && edge.target == target && edge.source == |before.occurrences| && edge.order == order
  }

  predicate OverlayAdded(before: State, after: State, target: RecordKey, kind: string, sourceLabel: string) {
    && OneMore(before.overlays, after.overlays, Overlay(kind, sourceLabel, target))
    && after.occurrences == before.occurrences && after.edges == before.edges && after.dead == before.dead
    && after.satisfied == before.satisfied + {target}
  }

  /** What a request that is granted does to the state, and nothing else. */
  lemma {:induction false} RequestGranted(templates: seq<Template>, state: State, request: Request, target: RecordKey)
    requires ApplyTo(templates, state, request, target).Ok?
    ensures IsRecord(templates, state.occurrences, target)
    ensures var after, resource := ApplyTo(templates, state, request, target).value, request.resource;
            && (resource.Composable? ==> SourceAdded(state, after, target, resource.template, resource.instanceName, resource.order))
            && (resource.External? ==>
                  AllBindings(templates, state, map[]).Ok?
                  && var names := BindingsAt(AllBindings(templates, state, map[]).value, target.occurrence);
                     var name := RecordOf(templates, state.occurrences, target).resourceName;
                     OverlayAdded(state, after, target, "external", if name in names then names[name] else name))
            && (resource.Identifier? ==> OverlayAdded(state, after, target, "identifier", resource.identifier))
  {
    hide SingleAdditiveHole, OperationForKind, AllBindings, BindingsAt;
  }

  /** One request: the state after it, or why it was refused. */
  function Step(templates: seq<Template>, satisfies: Satisfies, state: State, request: Request): Result<State>
    requires Known(templates, state.occurrences)
  {
    var target :- Resolve(templates, satisfies, state, request);
    ApplyTo(templates, state, request, target)
  }

  lemma {:induction false} StepKeepsKnown(templates: seq<Template>, satisfies: Satisfies, state: State, request: Request)
    requires Known(templates, state.occurrences) && Step(templates, satisfies, state, request).Ok?
    ensures Known(templates, Step(templates, satisfies, state, request).value.occurrences)
  {
    hide Resolve, IsRecord, ResolvedResourceName, SingleAdditiveHole, OperationForKind;
  }

  datatype Outcome = Outcome(state: State, error: Option<Error>)

  /** Requests one after another; the first refusal ends the batch where it stands. */
  function Fold(templates: seq<Template>, satisfies: Satisfies, state: State, requests: seq<Request>): Outcome
    requires Known(templates, state.occurrences)
    decreases |requests|
  {
    if requests == [] then Outcome(state, None)
    else
      var step := Step(templates, satisfies, state, requests[0]);
      if step.Err? then Outcome(state, Some(step.error))
      else
        StepKeepsKnown(templates, satisfies, state, requests[0]);
        Fold(templates, satisfies, step.value, requests[1..])
  }

  /** All requests are read before the first is applied. */
  predicate WellFormed(templates: seq<Template>, requests: seq<Request>) {
    forall r :: r in requests && r.resource.Composable? ==> r.resource.template < |templates|
  }

  function BatchOutcome(templates: seq<Template>, satisfies: Satisfies, state: State, requests: seq<Request>): Outcome
    requires Known(templates, state.occurrences)
  {
    if WellFormed(templates, requests) then Fold(templates, satisfies, state, requests) else Outcome(state, Some(StaleHandle))
  }

  // ---------- the operations on the state object ----------

  method ResolveBatchRequest(templates: seq<Template>, satisfies: Satisfies, state: NativeAssemblyState, request: Request) returns (r: Result<RecordKey>)
    requires state.Valid(templates)
    ensures r == Resolve(templates, satisfies, state.Value(), request)
  {
    if request.resource.Composable? && request.resource.template >= |templates| {
      return Err(StaleHandle);
    }
    var found := QueryTargetRecordKeys(templates, state, QueryFor(request));
    if found.Err? {
      return Err(found.error);
    }
    var candidates := found.value;
    if request.resource.Composable? {
      candidates := Fillable(templates, state.Value(), satisfies, templates[request.resource.template].records, candidates);
    }
    r := Select(templates, state.Value(), candidates, request.allowEquivalent);
  }

  method ApplyResolvedBatchRequest(templates: seq<Template>, state: NativeAssemblyState, request: Request, target: RecordKey) returns (r: Result<()>)
    requires state.Valid(templates)
    modifies state
    ensures state.Valid(templates)
    ensures var after := ApplyTo(templates, old(state.Value()), request, target);
            if after.Ok? then r == Ok(()) && state.Value() == after.value
            else r == Err(after.error) && state.Value() == old(state.Value())
  {
    hide state.Indexes;
    if !IsRecord(templates, state.occurrences, target) {
      return Err(StaleHandle);
    }
    var record := RecordOf(templates, state.occurrences, target);
    match request.resource
    case Composable(template, instanceName, order) =>
      if template >= |templates| {
        return Err(StaleHandle);
      }
      var path := state.occurrences[target.occurrence].buildPath + [instanceName];
      var source := state.AppendOccurrence(templates, template, path, Some(target.occurrence));
      var _ := state.AppendEdge(target, source, OperationForKind(record.inventoryKind), order);
      if SingleAdditiveHole(record.inventoryKind) {
        state.MarkSatisfied(target);
      }
      return Ok(());
    case External(_) =>
      var name := ResolvedResourceName(templates, state.Value(), target);
      if name.Err? {
        return Err(name.error);
      }
      var _ := state.AppendOverlay("external", name.value, target);
      state.MarkSatisfied(target);
      return Ok(());
    case Identifier(identifier) =>
      var _ := state.AppendOverlay("identifier", identifier, target);
      state.MarkSatisfied(target);
      return Ok(());
  }

  lemma {:induction false} FoldStep(templates: seq<Template>, satisfies: Satisfies, state: State, requests: seq<Request>, k: nat)
    requires Known(templates, state.occurrences) && k < |requests|
    requires Fold(templates, satisfies, state, requests[..k]).error.None?
    ensures var before := Fold(templates, satisfies, state, requests[..k]).state;
            && Known(templates, before.occurrences)
            && var step := Step(templates, satisfies, before, requests[k]);
               if step.Err? then Fold(templates, satisfies, state, requests) == Outcome(before, Some(step.error))
               else Fold(templates, satisfies, state, requests[..k + 1]) == Outcome(step.value, None)
    decreases k
  {
    hide Step;
    if k == 0 {
      assert requests[..1][1..] == [];
    } else {
      assert requests[..k][1..] == requests[1..][..k - 1] && requests[..k + 1][1..] == requests[1..][..k];
      var first := Step(templates, satisfies, state, requests[0]).value;
      StepKeepsKnown(templates, satisfies, state, requests[0]);
      FoldStep(templates, satisfies, first, requests[1..], k - 1);
    }
  }

  /** A batch, applied to the state in place. */
  method ApplyRequestBatch(templates: seq<Template>, satisfies: Satisfies, state: NativeAssemblyState, requests: seq<Request>)
    returns (error: Option<Error>)
    requires state.Valid(templates)
    modifies state
    ensures state.Valid(templates)
    ensures Outcome(state.Value(), error) == BatchOutcome(templates, satisfies, old(state.Value()), requests)
  {
    if !WellFormed(templates, requests) {
      return Some(StaleHandle);
    }
    ghost var start := state.Value();
    for k := 0 to |requests|
      invariant state.Valid(templates)
      invariant Fold(templates, satisfies, start, requests[..k]) == Outcome(state.Value(), None)
    {
      FoldStep(templates, satisfies, start, requests, k);
      var target := ResolveBatchRequest(templates, satisfies, state, requests[k]);
      if target.Err? {
        return Some(target.error);
      }
      var done := ApplyResolvedBatchRequest(templates, state, requests[k], target.value);
      if done.Err? {
        return Some(done.error);
      }
    }
    assert requests[..|requests|] == requests;
    error := None;
  }

  // ---------- a batch is a fold ----------

  /** Two batches one after the other do what the one batch does, up to the first refusal. */
  lemma {:induction false} FoldAppend(templates: seq<Template>, satisfies: Satisfies, state: State, a: seq<Request>, b: seq<Request>)
    requires Known(templates, state.occurrences)
    ensures var first := Fold(templates, satisfies, state, a);
            && Known(templates, first.state.occurrences)
            && Fold(templates, satisfies, state, a + b) ==
               if first.error.Some? then first else Fold(templates, satisfies, first.state, b)
    decreases |a|
  {
    hide Step;
    if a == [] {
      assert a + b == b;
    } else {
      assert (a + b)[1..] == a[1..] + b;
      var step := Step(templates, satisfies, state, a[0]);
      if step.Ok? {
        StepKeepsKnown(templates, satisfies, state, a[0]);
        FoldAppend(templates, satisfies, step.value, a[1..], b);
      }
    }
  }

  /** A refused batch leaves the state after the requests before the refused one. */
  lemma {:induction false} RefusedAt(templates: seq<Template>, satisfies: Satisfies, state: State, requests: seq<Request>) returns (k: nat)
    requires Known(templates, state.occurrences) && Fold(templates, satisfies, state, requests).error.Some?
    ensures k < |requests|
    ensures var before := Fold(templates, satisfies, state, requests[..k]);
            && before == Outcome(Fold(templates, satisfies, state, requests).state, None)
            && Known(templates, before.state.occurrences)
            && Step(templates, satisfies, before.state, requests[k]) == Err(Fold(templates, satisfies, state, requests).error.value)
    decreases |requests|
  {
    hide Step;
    var step := Step(templates, satisfies, state, requests[0]);
    if step.Err? {
      k := 0;
    } else {
      StepKeepsKnown(templates, satisfies, state, requests[0]);
      var j := RefusedAt(templates, satisfies, step.value, requests[1..]);
      k := j + 1;
      assert requests[..k][1..] == requests[1..][..j];
    }
  }

  /** A batch that fails while it is read changes nothing; one that fails later leaves the state of the requests before. */
  lemma {:induction false} BatchRefused(templates: seq<Template>, satisfies: Satisfies, state: State, requests: seq<Request>) returns (k: nat)
    requires Known(templates, state.occurrences) && BatchOutcome(templates, satisfies, state, requests).error.Some?
    ensures var r := BatchOutcome(templates, satisfies, state, requests);
            if !WellFormed(templates, requests) then r == Outcome(state, Some(StaleHandle))
            else
              && k < |requests|
              && BatchOutcome(templates, satisfies, state, requests[..k]) == Outcome(r.state, None)
              && Known(templates, r.state.occurrences)
              && Step(templates, satisfies, r.state, requests[k]) == Err(r.error.value)
  {
    hide Step, Fold;
    k := 0;
    if WellFormed(templates, requests) {
      k := RefusedAt(templates, satisfies, state, requests);
      assert forall r :: r in requests[..k] ==> r in requests;
    }
  }

  /** Two batches, of which the second is not tried when the first fails. */
  function SplitOutcome(templates: seq<Template>, satisfies: Satisfies, state: State, a: seq<Request>, b: seq<Request>): Outcome
    requires Known(templates, state.occurrences)
  {
    var first := BatchOutcome(templates, satisfies, state, a);
    FoldAppend(templates, satisfies, state, a, b);
    if first.error.Some? then first else BatchOutcome(templates, satisfies, first.state, b)
  }

  /**
   Splitting a batch in two ends in the same state with the same error, unless the second half alone cannot be read:
   then the first half is refused with it, which shows whenever the first half would do something.
   */
  lemma {:induction false} BatchSplitIff(templates: seq<Template>, satisfies: Satisfies, state: State, a: seq<Request>, b: seq<Request>)
    requires Known(templates, state.occurrences)
    ensures BatchOutcome(templates, satisfies, state, a + b) == SplitOutcome(templates, satisfies, state, a, b) <==>
            || WellFormed(templates, b) || !WellFormed(templates, a)
            || (Fold(templates, satisfies, state, a).state == state
                && Fold(templates, satisfies, state, a).error in [None, Some(StaleHandle)])
  {
    FoldAppend(templates, satisfies, state, a, b);
    hide Fold;
    assert WellFormed(templates, a + b) <==> WellFormed(templates, a) && WellFormed(templates, b);
  }

  /** A demand that is filled, and a source of an unknown template: together they do nothing, one after the other the first is done. */
  lemma {:induction false} SplitCanDiffer(satisfies: Satisfies, token: nat, order: int)
    ensures var record := Record([], "external.bind", "", "x", "");
            var templates, state := LoneTemplates(record), LONE_STATE;
            var a := [Request(Some("x"), None, None, false, External(token))];
            var b := [Request(None, None, None, false, Composable(1, "", order))];
            && Known(templates, state.occurrences)
            && BatchOutcome(templates, satisfies, state, a + b) == Outcome(state, Some(StaleHandle))
            && SplitOutcome(templates, satisfies, state, a, b).state ==
               state.(overlays := [Overlay("external", "x", RecordKey(0, 0))], satisfied := {RecordKey(0, 0)})
  {
    var record := Record([], "external.bind", "", "x", "");
    var templates, state := LoneTemplates(record), LONE_STATE;
    var a := [Request(Some("x"), None, None, false, External(token))];
    var b := [Request(None, None, None, false, Composable(1, "", order))];
    LoneBind(record, satisfies, a[0], token);
    assert b[0] in b && b[0] in a + b;
    assert !WellFormed(templates, a + b) && !WellFormed(templates, b) && WellFormed(templates, a);
    hide Step, LoneTemplates, WellFormed;
    FoldOne(templates, satisfies, state, a[0]);
  }

  lemma {:induction false} FoldOne(templates: seq<Template>, satisfies: Satisfies, state: State, request: Request)
    requires Known(templates, state.occurrences) && Step(templates, satisfies, state, request).Ok?
    ensures Fold(templates, satisfies, state, [request]) == Outcome(Step(templates, satisfies, state, request).value, None)
  {
    hide Step;
    StepKeepsKnown(templates, satisfies, state, request);
    assert [request][1..] == [];
  }

  lemma {:induction false} LoneBind(record: Record, satisfies: Satisfies, request: Request, token: nat)
    requires record.inventoryKind == "external.bind" && record.resourceName != ""
    requires request == Request(Some(record.resourceName), None, None, false, External(token))
    ensures var overlay := Overlay("external", record.resourceName, RecordKey(0, 0));
            && Known(LoneTemplates(record), LONE_STATE.occurrences)
            && Step(LoneTemplates(record), satisfies, LONE_STATE, request) ==
               Ok(LONE_STATE.(overlays := [overlay], satisfied := {RecordKey(0, 0)}))
  {
    var templates, key := LoneTemplates(record), RecordKey(0, 0);
    LoneQuery(record, QueryFor(request));
    hide TargetKeys, AllBindings, Accepted;
    assert Resolve(templates, satisfies, LONE_STATE, request) == Ok(key);
    hide Resolve;
    assert ResolvedResourceName(templates, LONE_STATE, key) == Ok(record.resourceName);
    hide ResolvedResourceName;
    var overlay := Overlay("external", record.resourceName, key);
    assert LONE_STATE.overlays + [overlay] == [overlay] && LONE_STATE.satisfied + {key} == {key};
  }

  /** Nothing is ever taken back: rows are only added, and satisfied records stay satisfied. */
  ghost predicate Extends(before: State, after: State) {
    && before.occurrences <= after.occurrences
    && before.edges <= after.edges
    && before.overlays <= after.overlays
    && before.satisfied <= after.satisfied
    && before.dead == after.dead
  }

  lemma {:induction false} FoldExtends(templates: seq<Template>, satisfies: Satisfies, state: State, requests: seq<Request>)
    requires Known(templates, state.occurrences)
    ensures Extends(state, Fold(templates, satisfies, state, requests).state)
    decreases |requests|
  {
    if requests != [] {
      var step := Step(templates, satisfies, state, requests[0]);
      if step.Ok? {
        StepKeepsKnown(templates, satisfies, state, requests[0]);
        StepExtends(templates, satisfies, state, requests[0]);
        hide Step;
        FoldExtends(templates, satisfies, step.value, requests[1..]);
      }
    }
  }

  lemma {:induction false} StepExtends(templates: seq<Template>, satisfies: Satisfies, state: State, request: Request)
    requires Known(templates, state.occurrences) && Step(templates, satisfies, state, request).Ok?
    ensures Extends(state, Step(templates, satisfies, state, request).value)
  {
    hide Resolve, IsRecord, ResolvedResourceName, SingleAdditiveHole, OperationForKind;
  }
}
