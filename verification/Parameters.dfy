/** Splicing parameters into a signature (materialize_ir.rs): by name and by path. */
module Parameters {
  import opened Wrappers
  import opened Ast
  import opened AstPaths

  const HOLE_SUFFIX := "__astichi_param_hole__"

  const NO_ARGUMENTS := Arguments([], [], None, [], None)

  predicate IsHole(arg: Arg, name: string) {
    arg.name == name + HOLE_SUFFIX
  }

  // ---------- gathering the payloads of the edges ----------

  /** One of two variadic parameters; there may not be both. */
  function Either(first: Option<Arg>, second: Option<Arg>): Result<Option<Arg>> {
    if second.None? then Ok(first) else if first.Some? then Err(DuplicateVariadic) else Ok(second)
  }

  function AppendPayload(target: Arguments, payload: Arguments): Result<Arguments> {
    var vararg :- Either(target.vararg, payload.vararg);
    var kwarg :- Either(target.kwarg, payload.kwarg);
    Ok(Arguments(target.posonlyargs + payload.posonlyargs, target.args + payload.args, vararg,
                 target.kwonlyargs + payload.kwonlyargs, kwarg))
  }

  function Gathered(payloads: seq<Arguments>): Result<Arguments> {
    if payloads == [] then Ok(NO_ARGUMENTS)
    else
      var before :- Gathered(payloads[..|payloads| - 1]);
      AppendPayload(before, payloads[|payloads| - 1])
  }

  lemma {:induction false} GatheredFails(payloads: seq<Arguments>, k: nat)
    requires k <= |payloads| && Gathered(payloads[..k]).Err?
    ensures Gathered(payloads) == Gathered(payloads[..k])
    decreases |payloads| - k
  {
    if k == |payloads| {
      assert payloads[..k] == payloads;
    } else {
      assert payloads[..k + 1][..k] == payloads[..k];
      GatheredFails(payloads, k + 1);
    }
  }

  method GatherPayloads(payloads: seq<Arguments>) returns (r: Result<Arguments>)
    ensures r == Gathered(payloads)
  {
    var gathered := NO_ARGUMENTS;
    for k := 0 to |payloads|
      invariant Gathered(payloads[..k]) == Ok(gathered)
    {
      assert payloads[..k + 1][..k] == payloads[..k];
      var next := AppendPayload(gathered, payloads[k]);
      if next.Err? {
        GatheredFails(payloads, k + 1);
        return next;
      }
      gathered := next.value;
    }
    assert payloads[..|payloads|] == payloads;
    r := Ok(gathered);
  }

  function Chained(parts: seq<seq<Arg>>): seq<Arg> {
    if parts == [] then [] else Chained(parts[..|parts| - 1]) + parts[|parts| - 1]
  }

  function Posonly(payloads: seq<Arguments>): seq<seq<Arg>> {
    seq(|payloads|, k requires 0 <= k < |payloads| => payloads[k].posonlyargs)
  }

  function Normal(payloads: seq<Arguments>): seq<seq<Arg>> {
    seq(|payloads|, k requires 0 <= k < |payloads| => payloads[k].args)
  }

  function Kwonly(payloads: seq<Arguments>): seq<seq<Arg>> {
    seq(|payloads|, k requires 0 <= k < |payloads| => payloads[k].kwonlyargs)
  }

  predicate AtMostOneVararg(payloads: seq<Arguments>) {
    forall i, j :: 0 <= i < j < |payloads| ==> payloads[i].vararg.None? || payloads[j].vararg.None?
  }

  predicate AtMostOneKwarg(payloads: seq<Arguments>) {
    forall i, j :: 0 <= i < j < |payloads| ==> payloads[i].kwarg.None? || payloads[j].kwarg.None?
  }

  /** The one variadic parameter among the payloads, if there is one. */
  ghost predicate TheVararg(payloads: seq<Arguments>, v: Option<Arg>) {
    if v.None? then forall k :: 0 <= k < |payloads| ==> payloads[k].vararg.None?
    else exists k :: 0 <= k < |payloads| && payloads[k].vararg == v
  }

  ghost predicate TheKwarg(payloads: seq<Arguments>, v: Option<Arg>) {
    if v.None? then forall k :: 0 <= k < |payloads| ==> payloads[k].kwarg.None?
    else exists k :: 0 <= k < |payloads| && payloads[k].kwarg == v
  }

  /**
   Payloads are gathered in the order of the edges, each kind of parameter by itself; that succeeds exactly when at
   most one payload has a variadic parameter of each kind.
   */
  lemma {:induction false} GatheredInOrder(payloads: seq<Arguments>)
    ensures Gathered(payloads).Ok? <==> AtMostOneVararg(payloads) && AtMostOneKwarg(payloads)
    ensures Gathered(payloads).Ok? ==>
              var all := Gathered(payloads).value;
              && all.posonlyargs == Chained(Posonly(payloads)) && all.args == Chained(Normal(payloads))
              && all.kwonlyargs == Chained(Kwonly(payloads))
              && TheVararg(payloads, all.vararg) && TheKwarg(payloads, all.kwarg)
  {
    if payloads != [] {
      var n := |payloads| - 1;
      var before := payloads[..n];
      GatheredInOrder(before);
      assert Posonly(payloads)[..n] == Posonly(before) && Normal(payloads)[..n] == Normal(before) && Kwonly(payloads)[..n] == Kwonly(before);
      assert forall i :: 0 <= i < n ==> before[i] == payloads[i];
      hide Chained, Posonly, Normal, Kwonly;
      VariadicsOneMore(payloads, before);
    }
  }

  lemma {:induction false} VariadicsOneMore(payloads: seq<Arguments>, before: seq<Arguments>)
    requires payloads != [] && before == payloads[..|payloads| - 1]
    ensures var last := payloads[|payloads| - 1];
            && (AtMostOneVararg(payloads) <==> AtMostOneVararg(before) && (last.vararg.None? || TheVararg(before, None)))
            && (AtMostOneKwarg(payloads) <==> AtMostOneKwarg(before) && (last.kwarg.None? || TheKwarg(before, None)))
            && (forall v :: last.vararg.None? && TheVararg(before, v) ==> TheVararg(payloads, v))
            && (forall v :: last.kwarg.None? && TheKwarg(before, v) ==> TheKwarg(payloads, v))
            && (last.vararg.Some? ==> TheVararg(payloads, last.vararg))
            && (last.kwarg.Some? ==> TheKwarg(payloads, last.kwarg))
  {
    var n := |payloads| - 1;
    assert forall i :: 0 <= i < n ==> before[i] == payloads[i];
  }

  // ---------- the two splices ----------

  /** Puts positional payload parameters in the place of one parameter. */
  function Put(params: seq<Arg>, i: nat, payload: Arguments): seq<Arg>
    requires i < |params|
  {
    params[..i] + (payload.posonlyargs + payload.args) + params[i + 1..]
  }

  /** Adds what is not positional at the end. */
  function AppendTrailing(target: Arguments, payload: Arguments): Result<Arguments> {
    var vararg :- Either(target.vararg, payload.vararg);
    var kwarg :- Either(target.kwarg, payload.kwarg);
    Ok(target.(vararg := vararg, kwonlyargs := target.kwonlyargs + payload.kwonlyargs, kwarg := kwarg))
  }

  function Position(params: seq<Arg>, name: string): (i: nat)
    ensures i <= |params|
    ensures i < |params| ==> IsHole(params[i], name)
    ensures forall j :: 0 <= j < i ==> !IsHole(params[j], name)
  {
    if params == [] || IsHole(params[0], name) then 0 else 1 + Position(params[1..], name)
  }

  /** The splice that looks for the hole by its name. */
  function SpliceByName(target: Arguments, name: string, payload: Arguments): Result<Arguments> {
    var i := Position(target.posonlyargs, name);
    if i < |target.posonlyargs| then AppendTrailing(target.(posonlyargs := Put(target.posonlyargs, i, payload)), payload)
    else
      var j := Position(target.args, name);
      if j < |target.args| then AppendTrailing(target.(args := Put(target.args, j, payload)), payload)
      else
        var k := Position(target.kwonlyargs, name);
        if k < |target.kwonlyargs| then
          var kwonlyargs := target.kwonlyargs[..k] + payload.kwonlyargs + target.kwonlyargs[k + 1..];
          AppendTrailing(target.(kwonlyargs := kwonlyargs), payload.(kwonlyargs := []))
        else Err(BadPath)
  }

  /** The splice that goes to the hole by its path, `args/posonlyargs[i]` or `args/args[i]`. */
  function SpliceByPath(target: Arguments, segments: seq<Segment>, payload: Arguments): Result<Arguments> {
    if |segments| != 2 || segments[0].field != Other("args") || segments[1].index.None? then Err(BadPath)
    else
      var i := segments[1].index.value;
      if segments[1].field == Other("posonlyargs") then
        if i < |target.posonlyargs| then AppendTrailing(target.(posonlyargs := Put(target.posonlyargs, i, payload)), payload)
        else Err(BadPath)
      else if segments[1].field == Other("args") then
        if i < |target.args| then AppendTrailing(target.(args := Put(target.args, i, payload)), payload) else Err(BadPath)
      else Err(BadPath)
  }

  /** Where a hole is. */
  datatype Where = AtPosonly(i: nat) | AtNormal(i: nat)

  function PathOf(at: Where): seq<Segment> {
    match at
    case AtPosonly(i) => [Segment(Other("args"), None), Segment(Other("posonlyargs"), Some(i))]
    case AtNormal(i) => [Segment(Other("args"), None), Segment(Other("args"), Some(i))]
  }

  predicate HoleAt(target: Arguments, name: string, at: Where) {
    match at
    case AtPosonly(i) => i < |target.posonlyargs| && IsHole(target.posonlyargs[i], name)
    case AtNormal(i) => i < |target.args| && IsHole(target.args[i], name)
  }

  /** The only hole of that name among the positional parameters. */
  ghost predicate OnlyHoleAt(target: Arguments, name: string, at: Where) {
    HoleAt(target, name, at) && forall other :: HoleAt(target, name, other) ==> other == at
  }

  /** For a positional hole with its own name both splices give the same signature, or the same error. */
  lemma {:induction false} SplicesAgree(target: Arguments, name: string, payload: Arguments, at: Where)
    requires OnlyHoleAt(target, name, at)
    ensures SpliceByName(target, name, payload) == SpliceByPath(target, PathOf(at), payload)
  {
    var i, j := Position(target.posonlyargs, name), Position(target.args, name);
    assert i < |target.posonlyargs| ==> HoleAt(target, name, AtPosonly(i));
    assert j < |target.args| ==> HoleAt(target, name, AtNormal(j));
    match at
    case AtPosonly(k) => assert i <= k;
    case AtNormal(k) => assert j <= k;
  }

  // ---------- what a splice keeps ----------

  function Optional(arg: Option<Arg>): seq<Arg> {
    match arg case None => [] case Some(a) => [a]
  }

  /** Every parameter of a signature. */
  function AllParams(a: Arguments): seq<Arg> {
    a.posonlyargs + a.args + Optional(a.vararg) + a.kwonlyargs + Optional(a.kwarg)
  }

  /** How often a parameter is there. */
  function Count(params: seq<Arg>, a: Arg): nat {
    multiset(params)[a]
  }

  function One(present: bool): nat {
    if present then 1 else 0
  }

  lemma {:induction false} CountAppend(p: seq<Arg>, q: seq<Arg>, a: Arg)
    ensures Count(p + q, a) == Count(p, a) + Count(q, a)
  {
  }

  lemma {:induction false} CountAll(s: Arguments, a: Arg)
    ensures Count(AllParams(s), a) ==
            Count(s.posonlyargs, a) + Count(s.args, a) + Count(Optional(s.vararg), a) + Count(s.kwonlyargs, a) + Count(Optional(s.kwarg), a)
  {
    hide Count;
    var first := s.posonlyargs + s.args;
    var second := first + Optional(s.vararg);
    CountAppend(s.posonlyargs, s.args, a);
    CountAppend(first, Optional(s.vararg), a);
    CountAppend(second, s.kwonlyargs, a);
    CountAppend(second + s.kwonlyargs, Optional(s.kwarg), a);
  }

  lemma {:induction false} CountEither(p: Option<Arg>, q: Option<Arg>, a: Arg)
    requires Either(p, q).Ok?
    ensures Count(Optional(Either(p, q).value), a) == Count(Optional(p), a) + Count(Optional(q), a)
  {
  }

  lemma {:induction false} CountReplaced(params: seq<Arg>, i: nat, middle: seq<Arg>, a: Arg)
    requires i < |params|
    ensures Count(params[..i] + middle + params[i + 1..], a) + One(params[i] == a) == Count(params, a) + Count(middle, a)
  {
    assert params == params[..i] + [params[i]] + params[i + 1..];
    CountAppend(params[..i] + [params[i]], params[i + 1..], a);
    CountAppend(params[..i], [params[i]], a);
    CountAppend(params[..i] + middle, params[i + 1..], a);
    CountAppend(params[..i], middle, a);
    assert Count([params[i]], a) == One(params[i] == a);
  }

  function HoleArg(target: Arguments, at: Where): Arg
    requires at.i < if at.AtPosonly? then |target.posonlyargs| else |target.args|
  {
    match at case AtPosonly(i) => target.posonlyargs[i] case AtNormal(i) => target.args[i]
  }

  /** What adding the trailing parameters does to the count of a parameter. */
  lemma {:induction false} CountTrailing(target: Arguments, payload: Arguments, a: Arg)
    requires AppendTrailing(target, payload).Ok?
    ensures Count(AllParams(AppendTrailing(target, payload).value), a) ==
            Count(AllParams(target), a) + Count(Optional(payload.vararg), a) + Count(payload.kwonlyargs, a) + Count(Optional(payload.kwarg), a)
  {
    hide Count, AllParams;
    CountAll(target, a);
    CountAll(AppendTrailing(target, payload).value, a);
    CountEither(target.vararg, payload.vararg, a);
    CountEither(target.kwarg, payload.kwarg, a);
    CountAppend(target.kwonlyargs, payload.kwonlyargs, a);
  }

  /** The signature with the positional part of a payload in the place of the hole. */
  function PutAt(target: Arguments, at: Where, payload: Arguments): Arguments
    requires at.i < if at.AtPosonly? then |target.posonlyargs| else |target.args|
  {
    match at
    case AtPosonly(i) => target.(posonlyargs := Put(target.posonlyargs, i, payload))
    case AtNormal(i) => target.(args := Put(target.args, i, payload))
  }

  lemma {:induction false} CountPutAt(target: Arguments, name: string, at: Where, payload: Arguments, a: Arg)
    requires HoleAt(target, name, at)
    ensures Count(AllParams(PutAt(target, at, payload)), a) + One(HoleArg(target, at) == a) ==
            Count(AllParams(target), a) + Count(payload.posonlyargs, a) + Count(payload.args, a)
  {
    hide Count, AllParams, IsHole;
    CountAll(target, a);
    CountAll(PutAt(target, at, payload), a);
    CountAppend(payload.posonlyargs, payload.args, a);
    match at
    case AtPosonly(i) => CountReplaced(target.posonlyargs, i, payload.posonlyargs + payload.args, a);
    case AtNormal(i) => CountReplaced(target.args, i, payload.posonlyargs + payload.args, a);
  }

  /** A splice loses nothing but the hole, and adds each parameter of the payload once. */
  lemma {:induction false} SplicedParams(target: Arguments, name: string, payload: Arguments, at: Where, a: Arg)
    requires HoleAt(target, name, at) && SpliceByPath(target, PathOf(at), payload).Ok?
    ensures Count(AllParams(SpliceByPath(target, PathOf(at), payload).value), a) + One(HoleArg(target, at) == a) ==
            Count(AllParams(target), a) + Count(AllParams(payload), a)
  {
    hide Count, AllParams, IsHole;
    var put := PutAt(target, at, payload);
    assert SpliceByPath(target, PathOf(at), payload) == AppendTrailing(put, payload);
    CountPutAt(target, name, at, payload, a);
    CountTrailing(put, payload, a);
    CountAll(payload, a);
  }

  /**
   A splice succeeds exactly when there is at most one `*` and one `**` parameter in all. The parameters around the
   hole keep their places around the payload.
   */
  lemma {:induction false} SplicedSignature(target: Arguments, name: string, payload: Arguments, at: Where)
    requires HoleAt(target, name, at)
    ensures var r := SpliceByPath(target, PathOf(at), payload);
            && (r.Ok? <==> (target.vararg.None? || payload.vararg.None?) && (target.kwarg.None? || payload.kwarg.None?))
            && (r.Err? ==> r.error == DuplicateVariadic)
            && (r.Ok? ==> r.value.kwonlyargs == target.kwonlyargs + payload.kwonlyargs)
            && (r.Ok? && at.AtPosonly? ==>
                  r.value.posonlyargs == target.posonlyargs[..at.i] + (payload.posonlyargs + payload.args) + target.posonlyargs[at.i + 1..]
                  && r.value.args == target.args)
            && (r.Ok? && at.AtNormal? ==>
                  r.value.args == target.args[..at.i] + (payload.posonlyargs + payload.args) + target.args[at.i + 1..]
                  && r.value.posonlyargs == target.posonlyargs)
  {
    var put := PutAt(target, at, payload);
    assert SpliceByPath(target, PathOf(at), payload) == AppendTrailing(put, payload);
  }

  /** A hole among the keyword-only parameters, found by name, loses the positional parameters of its payload. */
  lemma {:induction false} KeywordHoleDropsPositional(target: Arguments, name: string, payload: Arguments, k: nat, a: Arg)
    requires k == Position(target.kwonlyargs, name) < |target.kwonlyargs|
    requires Position(target.posonlyargs, name) == |target.posonlyargs| && Position(target.args, name) == |target.args|
    requires SpliceByName(target, name, payload).Ok?
    ensures var r := SpliceByName(target, name, payload).value;
            Count(AllParams(r), a) + One(target.kwonlyargs[k] == a) + Count(payload.posonlyargs, a) + Count(payload.args, a) ==
            Count(AllParams(target), a) + Count(AllParams(payload), a)
  {
    hide Count, AllParams, IsHole;
    var kwonlyargs := target.kwonlyargs[..k] + payload.kwonlyargs + target.kwonlyargs[k + 1..];
    var put, rest := target.(kwonlyargs := kwonlyargs), payload.(kwonlyargs := []);
    assert SpliceByName(target, name, payload) == AppendTrailing(put, rest);
    CountReplaced(target.kwonlyargs, k, payload.kwonlyargs, a);
    CountAll(target, a);
    CountAll(put, a);
    CountTrailing(put, rest, a);
    CountAll(payload, a);
    assert Count([], a) == 0 by { CountNothing(a); }
  }

  lemma {:induction false} CountNothing(a: Arg)
    ensures Count([], a) == 0
  {
  }
}
