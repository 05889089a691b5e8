/** Substituting an external literal preserves meaning. */
module ExternalTheorem {
  import opened Wrappers
  import opened Ast
  import opened ExternalSubst
  import opened ExternalMeaning

  // ---------- the fragment ----------

  /** Targets made of stored names. */
  predicate Pattern(target: Expr) {
    match target
    case Name(_, Store) => true
    case Tuple(elts) => forall k :: 0 <= k < |elts| ==> Pattern(elts[k])
    case List(elts) => forall k :: 0 <= k < |elts| ==> Pattern(elts[k])
    case _ => false
  }

  /** Expressions whose comprehension targets are patterns, without `astichi_ref(external=x)`, which only later steps give a meaning. */
  predicate Plain(e: Expr, x: string)
    decreases e
  {
    && !IsRefCall(e, x)
    && match e
       case Name(_, _) => true
       case Constant(_) => true
       case Call(func, args, keywords) =>
         Plain(func, x) && PlainAll(args, x) && forall k :: 0 <= k < |keywords| ==> PlainKeyword(keywords[k], x)
       case Attribute(target, _) => Plain(target, x)
       case BinOp(left, right) => Plain(left, x) && Plain(right, x)
       case IfExp(test, body, orelse) => Plain(test, x) && Plain(body, x) && Plain(orelse, x)
       case Lambda(params, body) => (forall k :: 0 <= k < |params| ==> PlainParam(params[k], x)) && Plain(body, x)
       case ListComp(elt, generators) => (forall k :: 0 <= k < |generators| ==> PlainGenerator(generators[k], x)) && Plain(elt, x)
       case Tuple(elts) => PlainAll(elts, x)
       case List(elts) => PlainAll(elts, x)
  }

  predicate PlainAll(es: seq<Expr>, x: string)
    decreases es
  {
    forall k :: 0 <= k < |es| ==> Plain(es[k], x)
  }

  predicate PlainKeyword(keyword: Keyword, x: string)
    decreases keyword
  {
    match keyword
    case Keyword(_, e) => Plain(e, x)
  }

  predicate PlainParam(param: Param, x: string)
    decreases param
  {
    match param
    case Param(_, None) => true
    case Param(_, Some(e)) => Plain(e, x)
  }

  predicate PlainGenerator(g: Comprehension, x: string)
    decreases g
  {
    match g
    case Comprehension(target, iter, ifs) => Pattern(target) && Plain(iter, x) && PlainAll(ifs, x)
  }

  // ---------- the same value, up to the substitution ----------

  /** The name and the literal that takes its place. */
  datatype Swap = Swap(x: string, r: Expr)

  predicate Proper(w: Swap) {
    Closed(w.r) && w.x != "astichi_bind_external"
  }

  function ValueOf(r: Expr): Value
    requires Closed(r)
  {
    match r
    case Constant(l) => Lit(l)
    case Tuple(elts) => Items(ValuesOf(elts), false)
    case List(elts) => Items(ValuesOf(elts), true)
  }

  function ValuesOf(es: seq<Expr>): seq<Value>
    requires forall k :: 0 <= k < |es| ==> Closed(es[k])
  {
    seq(|es|, k requires 0 <= k < |es| => ValueOf(es[k]))
  }

  /** Equal data; functions whose bodies and environments correspond. */
  ghost predicate SameValue(w: Swap, v: Value, v': Value)
    requires Proper(w)
    decreases v
  {
    match v
    case Lit(_) => v == v'
    case Items(items, mutable) =>
      v'.Items? && v'.mutable == mutable && |v'.items| == |items|
      && forall k :: 0 <= k < |items| ==> SameValue(w, items[k], v'.items[k])
    case Closure(params, body, env) =>
      v'.Closure? && |v'.params| == |params|
      && (forall k :: 0 <= k < |params| ==> SameParam(w, params[k], v'.params[k]))
      && (|| (Plain(body, w.x) && v'.body == Sub(body, w.x, w.r, HasParam(params, w.x)) && SameEnv(w, env, v'.env, false))
          || (v'.body == body && SameEnv(w, env, v'.env, true)))
  }

  ghost predicate SameParam(w: Swap, p: ParamValue, p': ParamValue)
    requires Proper(w)
    decreases p
  {
    match p
    case ParamValue(name, None) => p' == p
    case ParamValue(name, Some(v)) => p'.name == name && p'.default.Some? && SameValue(w, v, p'.default.value)
  }

  ghost predicate SameBinding(w: Swap, b: Binding, b': Binding)
    requires Proper(w)
    decreases b
  {
    match b
    case Binding(name, v) => b'.name == name && SameValue(w, v, b'.value)
  }

  /** Names mean the same, except that a name which is not shadowed is bound to the literal on the left only. */
  ghost predicate SameEnv(w: Swap, env: Env, env': Env, shadowed: bool)
    requires Proper(w)
    decreases env
  {
    && (forall n :: shadowed || n != w.x ==>
          && (Find(env, n) >= 0 <==> Find(env', n) >= 0)
          && (Find(env, n) >= 0 ==> SameBinding(w, env[Find(env, n)], env'[Find(env', n)])))
    && (!shadowed ==> Lookup(env, w.x) == Some(ValueOf(w.r)))
  }

  ghost predicate Same(w: Swap, v: Option<Value>, v': Option<Value>)
    requires Proper(w)
  {
    match v
    case None => v'.None?
    case Some(value) => v'.Some? && SameValue(w, value, v'.value)
  }

  ghost predicate SameValues(w: Swap, vs: seq<Value>, vs': seq<Value>)
    requires Proper(w)
  {
    |vs'| == |vs| && forall k :: 0 <= k < |vs| ==> SameValue(w, vs[k], vs'[k])
  }

  ghost predicate SameAll(w: Swap, vs: Option<seq<Value>>, vs': Option<seq<Value>>)
    requires Proper(w)
  {
    match vs
    case None => vs'.None?
    case Some(values) => vs'.Some? && SameValues(w, values, vs'.value)
  }

  ghost predicate SameBindings(w: Swap, bs: Env, bs': Env)
    requires Proper(w)
  {
    |bs'| == |bs| && forall k :: 0 <= k < |bs| ==> SameBinding(w, bs[k], bs'[k])
  }

  // ---------- environments ----------

  predicate BindsName(bs: Env, x: string) {
    exists k :: 0 <= k < |bs| && bs[k].name == x
  }

  lemma {:induction false} FindNone(env: Env, x: string)
    ensures Find(env, x) >= 0 <==> BindsName(env, x)
  {
  }

  lemma {:induction false} FindAppend(env: Env, bs: Env, x: string)
    ensures Find(env + bs, x) == if Find(bs, x) >= 0 then |env| + Find(bs, x) else Find(env, x)
  {
    if bs == [] {
      assert env + bs == env;
    } else {
      FindAppend(env, bs[..|bs| - 1], x);
      assert (env + bs)[..|env + bs| - 1] == env + bs[..|bs| - 1];
    }
  }

  lemma {:induction false} FindSame(w: Swap, bs: Env, bs': Env, x: string)
    requires Proper(w) && SameBindings(w, bs, bs')
    ensures Find(bs', x) == Find(bs, x)
  {
    var i, j := Find(bs, x), Find(bs', x);
    assert forall k :: 0 <= k < |bs| ==> SameBinding(w, bs[k], bs'[k]);
    hide SameValue, Find;
    assert forall k :: 0 <= k < |bs| ==> bs[k].name == bs'[k].name;
  }

  /** Corresponding bindings, added to corresponding environments. */
  lemma {:induction false} SameExtended(w: Swap, env: Env, env': Env, shadowed: bool, bs: Env, bs': Env)
    requires Proper(w) && SameEnv(w, env, env', shadowed) && SameBindings(w, bs, bs')
    ensures SameEnv(w, env + bs, env' + bs', shadowed || BindsName(bs, w.x))
  {
    var shadowed' := shadowed || BindsName(bs, w.x);
    FindNone(bs, w.x);
    FindAppend(env, bs, w.x);
    hide SameValue, Find, ValueOf;
    forall n | shadowed' || n != w.x
      ensures Find(env + bs, n) >= 0 <==> Find(env' + bs', n) >= 0
      ensures Find(env + bs, n) >= 0 ==> SameBinding(w, (env + bs)[Find(env + bs, n)], (env' + bs')[Find(env' + bs', n)])
    {
      FindAppend(env, bs, n);
      FindAppend(env', bs', n);
      FindSame(w, bs, bs', n);
      if Find(bs, n) >= 0 {
        assert SameBinding(w, bs[Find(bs, n)], bs'[Find(bs, n)]);
      }
    }
  }

  // ---------- literals ----------

  lemma {:induction false} ClosedEvaluates(literals: Literals, r: Expr, env: Env, fuel: nat)
    requires Closed(r)
    ensures Eval(literals, r, env, fuel) == Some(ValueOf(r))
    decreases r
  {
    match r
    case Constant(_) =>
    case Tuple(elts) => AllClosedEvaluate(literals, elts, env, fuel);
    case List(elts) => AllClosedEvaluate(literals, elts, env, fuel);
  }

  lemma {:induction false} AllClosedEvaluate(literals: Literals, es: seq<Expr>, env: Env, fuel: nat)
    requires forall k :: 0 <= k < |es| ==> Closed(es[k])
    ensures EvalAll(literals, es, env, fuel) == Some(ValuesOf(es))
    decreases es
  {
    if es != [] {
      ClosedEvaluates(literals, es[0], env, fuel);
      AllClosedEvaluate(literals, es[1..], env, fuel);
      assert ValuesOf(es) == [ValueOf(es[0])] + ValuesOf(es[1..]);
    }
  }

  lemma {:induction false} LiteralSame(w: Swap, r: Expr)
    requires Proper(w) && Closed(r)
    ensures SameValue(w, ValueOf(r), ValueOf(r))
    decreases r
  {
    if r.Tuple? || r.List? {
      forall k | 0 <= k < |r.elts| ensures SameValue(w, ValueOf(r.elts[k]), ValueOf(r.elts[k])) {
        LiteralSame(w, r.elts[k]);
      }
    }
  }

  /** Every value corresponds to itself. */
  lemma {:induction false} SameItself(w: Swap, v: Value)
    requires Proper(w)
    ensures SameValue(w, v, v)
    decreases v
  {
    match v
    case Lit(_) =>
    case Items(items, _) =>
      forall k | 0 <= k < |items| ensures SameValue(w, items[k], items[k]) {
        SameItself(w, items[k]);
      }
    case Closure(params, _, env) =>
      forall k | 0 <= k < |params| ensures SameParam(w, params[k], params[k]) {
        ParamSameItself(w, params[k]);
      }
      EnvSameItself(w, env);
  }

  lemma {:induction false} ParamSameItself(w: Swap, p: ParamValue)
    requires Proper(w)
    ensures SameParam(w, p, p)
    decreases p
  {
    match p
    case ParamValue(_, None) =>
    case ParamValue(_, Some(v)) => SameItself(w, v);
  }

  lemma {:induction false} BindingSameItself(w: Swap, b: Binding)
    requires Proper(w)
    ensures SameBinding(w, b, b)
    decreases b
  {
    match b
    case Binding(_, v) => SameItself(w, v);
  }

  lemma {:induction false} EnvSameItself(w: Swap, env: Env)
    requires Proper(w)
    ensures SameEnv(w, env, env, true)
    decreases env
  {
    forall n | Find(env, n) >= 0 ensures SameBinding(w, env[Find(env, n)], env[Find(env, n)]) {
      BindingSameItself(w, env[Find(env, n)]);
    }
  }

  // ---------- binding targets and parameters ----------

  lemma {:induction false} PatternUnchanged(target: Expr, x: string, r: Expr, shadowed: bool)
    requires Pattern(target)
    ensures Sub(target, x, r, shadowed) == target
    decreases target
  {
    if target.Tuple? || target.List? {
      forall k | 0 <= k < |target.elts| ensures Sub(target.elts[k], x, r, shadowed) == target.elts[k] {
        PatternUnchanged(target.elts[k], x, r, shadowed);
      }
      assert SubAll(target.elts, x, r, shadowed) == target.elts;
    }
  }

  lemma {:induction false} BindsAppend(a: Env, b: Env, x: string)
    ensures BindsName(a + b, x) <==> BindsName(a, x) || BindsName(b, x)
  {
    if k :| 0 <= k < |b| && b[k].name == x {
      assert (a + b)[|a| + k].name == x;
    }
    if k :| 0 <= k < |a| && a[k].name == x {
      assert (a + b)[k].name == x;
    }
  }

  ghost predicate SameBound(w: Swap, bs: Option<Env>, bs': Option<Env>)
    requires Proper(w)
  {
    match bs
    case None => bs'.None?
    case Some(bindings) => bs'.Some? && SameBindings(w, bindings, bs'.value)
  }

  /** Corresponding values are bound alike, and a target binds the names it shadows. */
  lemma {:induction false} SameBind(w: Swap, target: Expr, v: Value, v': Value)
    requires Proper(w) && SameValue(w, v, v')
    ensures SameBound(w, Bind(target, v), Bind(target, v'))
    ensures Bind(target, v).Some? ==> (BindsName(Bind(target, v).value, w.x) <==> TargetBinds(target, w.x))
    decreases target
  {
    match target
    case Name(id, _) =>
      var b := Binding(id, v);
      assert [b][0] == b;
    case Call(_, _, _) =>
    case Constant(_) =>
    case Attribute(_, _) =>
    case BinOp(_, _) =>
    case IfExp(_, _, _) =>
    case Lambda(_, _) =>
    case ListComp(_, _) =>
    case Tuple(elts) =>
      if v.Items? && |v.items| == |elts| {
        SameBindAll(w, elts, v.items, v'.items);
      }
    case List(elts) =>
      if v.Items? && |v.items| == |elts| {
        SameBindAll(w, elts, v.items, v'.items);
      }
  }

  lemma {:induction false} SameBindAll(w: Swap, targets: seq<Expr>, vs: seq<Value>, vs': seq<Value>)
    requires Proper(w) && |targets| == |vs| && SameValues(w, vs, vs')
    ensures SameBound(w, BindAll(targets, vs), BindAll(targets, vs'))
    ensures BindAll(targets, vs).Some? ==>
              (BindsName(BindAll(targets, vs).value, w.x) <==> exists k :: 0 <= k < |targets| && TargetBinds(targets[k], w.x))
    decreases targets
  {
    if targets != [] {
      SameBind(w, targets[0], vs[0], vs'[0]);
      SameBindAll(w, targets[1..], vs[1..], vs'[1..]);
      var first, rest := Bind(targets[0], vs[0]), BindAll(targets[1..], vs[1..]);
      if first.Some? && rest.Some? {
        BindsAppend(first.value, rest.value, w.x);
        FirstOrRest(targets, w.x);
      }
    }
  }

  lemma {:induction false} FirstOrRest(targets: seq<Expr>, x: string)
    requires targets != []
    ensures (exists k :: 0 <= k < |targets| && TargetBinds(targets[k], x)) <==>
            TargetBinds(targets[0], x) || exists k :: 0 <= k < |targets[1..]| && TargetBinds(targets[1..][k], x)
  {
    hide TargetBinds;
    if k :| 0 <= k < |targets| && TargetBinds(targets[k], x) {
      if k > 0 {
        assert TargetBinds(targets[1..][k - 1], x);
      }
    }
  }

  ghost predicate SameParams(w: Swap, ps: seq<ParamValue>, ps': seq<ParamValue>)
    requires Proper(w)
  {
    |ps'| == |ps| && forall k :: 0 <= k < |ps| ==> SameParam(w, ps[k], ps'[k])
  }

  lemma {:induction false} SameLookup(w: Swap, bs: Env, bs': Env, x: string)
    requires Proper(w) && SameBindings(w, bs, bs')
    ensures Same(w, Lookup(bs, x), Lookup(bs', x))
  {
    FindSame(w, bs, bs', x);
    if Find(bs, x) >= 0 {
      assert SameBinding(w, bs[Find(bs, x)], bs'[Find(bs, x)]);
    }
  }

  lemma {:induction false} SameArgument(
      w: Swap, p: ParamValue, p': ParamValue, k: nat, vs: seq<Value>, vs': seq<Value>, ks: Env, ks': Env)
    requires Proper(w) && SameParam(w, p, p') && SameValues(w, vs, vs') && SameBindings(w, ks, ks')
    ensures p'.name == p.name && Same(w, Argument(p, k, vs, ks), Argument(p', k, vs', ks'))
  {
    SameLookup(w, ks, ks', p.name);
    hide SameValue, SameBindings, Lookup;
  }

  lemma {:induction false} SameBindParams(
      w: Swap, ps: seq<ParamValue>, ps': seq<ParamValue>, k: nat, vs: seq<Value>, vs': seq<Value>, ks: Env, ks': Env)
    requires Proper(w) && SameParams(w, ps, ps') && SameValues(w, vs, vs') && SameBindings(w, ks, ks') && k <= |ps|
    ensures SameBound(w, BindParams(ps, k, vs, ks), BindParams(ps', k, vs', ks'))
    ensures BindParams(ps, k, vs, ks).Some? ==>
              (BindsName(BindParams(ps, k, vs, ks).value, w.x) <==> exists j :: k <= j < |ps| && ps[j].name == w.x)
    decreases |ps| - k
  {
    if k < |ps| {
      SameArgument(w, ps[k], ps'[k], k, vs, vs', ks, ks');
      SameBindParams(w, ps, ps', k + 1, vs, vs', ks, ks');
      hide SameValue, Argument;
      var v, rest := Argument(ps[k], k, vs, ks), BindParams(ps, k + 1, vs, ks);
      if v.Some? && rest.Some? {
        BindsFirst(Binding(ps[k].name, v.value), rest.value, w.x);
      }
    }
  }

  lemma {:induction false} BindsFirst(b: Binding, rest: Env, x: string)
    ensures BindsName([b] + rest, x) <==> b.name == x || BindsName(rest, x)
  {
    BindsAppend([b], rest, x);
    assert [b][0] == b;
  }

  /** Corresponding functions, called with corresponding arguments, run corresponding bodies in corresponding environments. */
  lemma {:induction false} SameEntered(w: Swap, f: Value, f': Value, vs: seq<Value>, vs': seq<Value>, ks: Env, ks': Env) returns (shadowed: bool)
    requires Proper(w) && SameValue(w, f, f') && SameValues(w, vs, vs') && SameBindings(w, ks, ks')
    ensures Entered(f, vs, ks).None? <==> Entered(f', vs', ks').None?
    ensures Entered(f, vs, ks).Some? ==>
              && (shadowed || Plain(f.body, w.x))
              && f'.Closure? && f'.body == Sub(f.body, w.x, w.r, shadowed)
              && SameEnv(w, Entered(f, vs, ks).value, Entered(f', vs', ks').value, shadowed)
  {
    shadowed := true;
    if f.Closure? {
      assert SameParams(w, f.params, f'.params);
      forall k | 0 <= k < |f.params| ensures f'.params[k].name == f.params[k].name {
        assert SameParam(w, f.params[k], f'.params[k]);
      }
      forall k | 0 <= k < |ks| ensures ks'[k].name == ks[k].name && (HasParam(f.params, ks[k].name) <==> HasParam(f'.params, ks[k].name)) {
        assert SameBinding(w, ks[k], ks'[k]);
      }
      SameBindParams(w, f.params, f'.params, 0, vs, vs', ks, ks');
      var outer := !(Plain(f.body, w.x) && f'.body == Sub(f.body, w.x, w.r, HasParam(f.params, w.x)) && SameEnv(w, f.env, f'.env, false));
      shadowed := outer || HasParam(f.params, w.x);
      if BindCall(f.params, vs, ks).Some? {
        SameExtended(w, f.env, f'.env, outer, BindCall(f.params, vs, ks).value, BindCall(f'.params, vs', ks').value);
        if outer {
          ShadowedUnchanged(f.body, w.x, w.r);
        }
      }
    }
  }

  // ---------- the theorem ----------

  /** The part of an environment's relation that each step of the induction needs. */
  ghost predicate Ready(w: Swap, env: Env, env': Env, shadowed: bool) {
    Proper(w) && SameEnv(w, env, env', shadowed)
  }

  /** Substitution under a shadow flag, evaluated in corresponding environments, gives corresponding values. */
  lemma {:induction false} Preserved(w: Swap, literals: Literals, e: Expr, env: Env, env': Env, shadowed: bool, fuel: nat)
    requires Ready(w, env, env', shadowed) && (shadowed || Plain(e, w.x))
    ensures Same(w, Eval(literals, e, env, fuel), Eval(literals, Sub(e, w.x, w.r, shadowed), env', fuel))
    decreases fuel, e
  {
    if !shadowed && IsUse(e, w.x) {
      ClosedEvaluates(literals, w.r, env', fuel);
      LiteralSame(w, w.r);
    } else {
      hide SameValue, SameEnv;
      match e
      case Name(id, ctx) => if ctx == Load { PreservedName(w, env, env', shadowed, id); }
      case Constant(_) => LiteralIsSame(w, e.value);
      case Call(_, _, _) => PreservedCall(w, literals, e, env, env', shadowed, fuel);
      case Attribute(target, _) =>
        Preserved(w, literals, target, env, env', shadowed, fuel);
        LiteralsSame(w, Eval(literals, target, env, fuel), Eval(literals, Sub(target, w.x, w.r, shadowed), env', fuel));
        AnyLiteralIsSame(w);
      case BinOp(left, right) =>
        Preserved(w, literals, left, env, env', shadowed, fuel);
        Preserved(w, literals, right, env, env', shadowed, fuel);
        LiteralsSame(w, Eval(literals, left, env, fuel), Eval(literals, Sub(left, w.x, w.r, shadowed), env', fuel));
        LiteralsSame(w, Eval(literals, right, env, fuel), Eval(literals, Sub(right, w.x, w.r, shadowed), env', fuel));
        AnyLiteralIsSame(w);
      case IfExp(test, body, orelse) =>
        Preserved(w, literals, test, env, env', shadowed, fuel);
        Preserved(w, literals, body, env, env', shadowed, fuel);
        Preserved(w, literals, orelse, env, env', shadowed, fuel);
        TruthSame(w, literals, Eval(literals, test, env, fuel), Eval(literals, Sub(test, w.x, w.r, shadowed), env', fuel));
      case Lambda(_, _) => PreservedLambda(w, literals, e, env, env', shadowed, fuel);
      case ListComp(_, _) => PreservedListComp(w, literals, e, env, env', shadowed, fuel);
      case Tuple(elts) =>
        PreservedAll(w, literals, elts, env, env', shadowed, fuel);
        ItemsSame(w, EvalAll(literals, elts, env, fuel), EvalAll(literals, SubAll(elts, w.x, w.r, shadowed), env', fuel));
      case List(elts) =>
        PreservedAll(w, literals, elts, env, env', shadowed, fuel);
        ItemsSame(w, EvalAll(literals, elts, env, fuel), EvalAll(literals, SubAll(elts, w.x, w.r, shadowed), env', fuel));
    }
  }

  lemma {:induction false} PreservedName(w: Swap, env: Env, env': Env, shadowed: bool, id: string)
    requires Ready(w, env, env', shadowed) && (shadowed || id != w.x)
    ensures Same(w, Lookup(env, id), Lookup(env', id))
  {
    hide SameValue;
    if Find(env, id) >= 0 {
      assert SameBinding(w, env[Find(env, id)], env'[Find(env', id)]);
    }
  }

  lemma {:induction false} LiteralIsSame(w: Swap, l: Literal)
    requires Proper(w)
    ensures SameValue(w, Lit(l), Lit(l))
  {
  }

  lemma {:induction false} AnyLiteralIsSame(w: Swap)
    requires Proper(w)
    ensures forall l :: SameValue(w, Lit(l), Lit(l))
  {
  }

  lemma {:induction false} LiteralsSame(w: Swap, v: Option<Value>, v': Option<Value>)
    requires Proper(w) && Same(w, v, v')
    ensures v.Some? && v.value.Lit? ==> v' == v
    ensures v.Some? && !v.value.Lit? ==> v'.Some? && !v'.value.Lit?
  {
  }

  lemma {:induction false} TruthSame(w: Swap, literals: Literals, v: Option<Value>, v': Option<Value>)
    requires Proper(w) && Same(w, v, v')
    ensures v.Some? ==> v'.Some? && Truth(literals, v.value) == Truth(literals, v'.value)
  {
  }

  lemma {:induction false} ItemsSame(w: Swap, vs: Option<seq<Value>>, vs': Option<seq<Value>>)
    requires Proper(w) && SameAll(w, vs, vs')
    ensures vs.Some? ==> vs'.Some?
                         && SameValue(w, Items(vs.value, false), Items(vs'.value, false))
                         && SameValue(w, Items(vs.value, true), Items(vs'.value, true))
  {
  }

  lemma {:induction false} PreservedAll(w: Swap, literals: Literals, es: seq<Expr>, env: Env, env': Env, shadowed: bool, fuel: nat)
    requires Ready(w, env, env', shadowed) && (shadowed || PlainAll(es, w.x))
    ensures SameAll(w, EvalAll(literals, es, env, fuel), EvalAll(literals, SubAll(es, w.x, w.r, shadowed), env', fuel))
    decreases fuel, es
  {
    hide SameValue, SameEnv, Eval, Sub, Plain;
    if es != [] {
      var after := SubAll(es, w.x, w.r, shadowed);
      assert after[0] == Sub(es[0], w.x, w.r, shadowed) && after[1..] == SubAll(es[1..], w.x, w.r, shadowed);
      hide SubAll;
      Preserved(w, literals, es[0], env, env', shadowed, fuel);
      PreservedAll(w, literals, es[1..], env, env', shadowed, fuel);
    }
  }

  ghost predicate SameParamsOption(w: Swap, ps: Option<seq<ParamValue>>, ps': Option<seq<ParamValue>>)
    requires Proper(w)
  {
    match ps
    case None => ps'.None?
    case Some(params) => ps'.Some? && SameParams(w, params, ps'.value)
  }

  lemma {:induction false} PreservedKeyword(w: Swap, literals: Literals, keyword: Keyword, env: Env, env': Env, shadowed: bool, fuel: nat)
    requires Ready(w, env, env', shadowed) && (shadowed || PlainKeyword(keyword, w.x))
    ensures var b := EvalKeyword(literals, keyword, env, fuel);
            var b' := EvalKeyword(literals, SubKeyword(keyword, w.x, w.r, shadowed), env', fuel);
            if b.None? then b'.None? else b'.Some? && SameBinding(w, b.value, b'.value)
    decreases fuel, keyword
  {
    match keyword
    case Keyword(_, e) =>
      Preserved(w, literals, e, env, env', shadowed, fuel);
      hide SameValue, Eval, Ready, Sub;
  }

  lemma {:induction false} PreservedKeywords(
      w: Swap, literals: Literals, keywords: seq<Keyword>, env: Env, env': Env, shadowed: bool, fuel: nat)
    requires Ready(w, env, env', shadowed) && (shadowed || forall k :: 0 <= k < |keywords| ==> PlainKeyword(keywords[k], w.x))
    ensures SameBound(w, EvalKeywords(literals, keywords, env, fuel),
                      EvalKeywords(literals, SubKeywords(keywords, w.x, w.r, shadowed), env', fuel))
    decreases fuel, keywords
  {
    hide SameValue, SameBinding, SameEnv, EvalKeyword, SubKeyword, PlainKeyword;
    if keywords != [] {
      var after := SubKeywords(keywords, w.x, w.r, shadowed);
      assert after[0] == SubKeyword(keywords[0], w.x, w.r, shadowed) && after[1..] == SubKeywords(keywords[1..], w.x, w.r, shadowed);
      hide SubKeywords;
      PreservedKeyword(w, literals, keywords[0], env, env', shadowed, fuel);
      PreservedKeywords(w, literals, keywords[1..], env, env', shadowed, fuel);
    }
  }

  lemma {:induction false} PreservedParam(w: Swap, literals: Literals, param: Param, env: Env, env': Env, shadowed: bool, fuel: nat)
    requires Ready(w, env, env', shadowed) && (shadowed || PlainParam(param, w.x))
    ensures var p := EvalParam(literals, param, env, fuel);
            var p' := EvalParam(literals, Param(param.name, SubDefault(param.default, w.x, w.r, shadowed)), env', fuel);
            if p.None? then p'.None? else p.value.name == param.name && p'.Some? && SameParam(w, p.value, p'.value)
    decreases fuel, param
  {
    match param
    case Param(_, None) =>
    case Param(_, Some(e)) =>
      Preserved(w, literals, e, env, env', shadowed, fuel);
      hide SameValue, Eval, Ready, Sub;
  }

  lemma {:induction false} PreservedParams(w: Swap, literals: Literals, params: seq<Param>, env: Env, env': Env, shadowed: bool, fuel: nat)
    requires Ready(w, env, env', shadowed) && (shadowed || forall k :: 0 <= k < |params| ==> PlainParam(params[k], w.x))
    ensures var ps := EvalParams(literals, params, env, fuel);
            && SameParamsOption(w, ps, EvalParams(literals, SubParams(params, w.x, w.r, shadowed), env', fuel))
            && (ps.Some? ==> |ps.value| == |params| && forall k :: 0 <= k < |params| ==> ps.value[k].name == params[k].name)
    decreases fuel, params
  {
    hide SameValue, SameParam, SameEnv, EvalParam, SubDefault, PlainParam;
    if params != [] {
      var after := SubParams(params, w.x, w.r, shadowed);
      assert after[0] == Param(params[0].name, SubDefault(params[0].default, w.x, w.r, shadowed));
      assert after[1..] == SubParams(params[1..], w.x, w.r, shadowed);
      hide SubParams;
      PreservedParam(w, literals, params[0], env, env', shadowed, fuel);
      PreservedParams(w, literals, params[1..], env, env', shadowed, fuel);
      hide SameParams;
      var p, rest := EvalParam(literals, params[0], env, fuel), EvalParams(literals, params[1..], env, fuel);
      if p.Some? && rest.Some? {
        SameParamsFirst(w, p.value, EvalParam(literals, after[0], env', fuel).value, rest.value, EvalParams(literals, after[1..], env', fuel).value);
      }
    }
  }

  lemma {:induction false} SameParamsFirst(w: Swap, p: ParamValue, p': ParamValue, rest: seq<ParamValue>, rest': seq<ParamValue>)
    requires Proper(w) && SameParam(w, p, p') && SameParams(w, rest, rest')
    ensures SameParams(w, [p] + rest, [p'] + rest')
  {
    hide SameParam;
  }

  lemma {:induction false} PreservedLambda(w: Swap, literals: Literals, e: Expr, env: Env, env': Env, shadowed: bool, fuel: nat)
    requires Ready(w, env, env', shadowed) && (shadowed || Plain(e, w.x)) && e.Lambda?
    ensures Same(w, Eval(literals, e, env, fuel), Eval(literals, Sub(e, w.x, w.r, shadowed), env', fuel))
    decreases fuel, e, 0
  {
    PreservedParams(w, literals, e.params, env, env', shadowed, fuel);
    var ps := EvalParams(literals, e.params, env, fuel);
    if ps.Some? {
      assert HasParam(ps.value, w.x) <==> BindsParam(e.params, w.x);
      if shadowed {
        ShadowedUnchanged(e.body, w.x, w.r);
      }
    }
  }

  // ---------- calls ----------

  predicate IsAnyMarker(func: Expr, args: seq<Expr>, keywords: seq<Keyword>) {
    CallName(func) == Some("astichi_bind_external") && |args| == 1 && keywords == [] && args[0].Name? && args[0].ctx == Load
  }

  /** A marker for another name stays that marker, and no call becomes one. */
  lemma {:induction false} MarkerKept(w: Swap, e: Expr, shadowed: bool)
    requires Proper(w) && e.Call? && (shadowed || (!IsUse(e, w.x) && !IsRefCall(e, w.x)))
    ensures var func', args' := Sub(e.func, w.x, w.r, shadowed), SubAll(e.args, w.x, w.r, shadowed);
            var keywords' := SubKeywords(e.keywords, w.x, w.r, shadowed);
            && Sub(e, w.x, w.r, shadowed) == Call(func', args', keywords')
            && (IsAnyMarker(func', args', keywords') <==> IsAnyMarker(e.func, e.args, e.keywords))
            && (IsAnyMarker(e.func, e.args, e.keywords) ==> args'[0] == e.args[0] && (shadowed || e.args[0].id != w.x))
  {
    NameKept(w, e.func, shadowed);
    if |e.args| == 1 {
      NameKept(w, e.args[0], shadowed);
    }
  }

  lemma {:induction false} NameKept(w: Swap, e: Expr, shadowed: bool)
    requires Proper(w)
    ensures var e' := Sub(e, w.x, w.r, shadowed);
            && (CallName(e') == Some("astichi_bind_external") <==> CallName(e) == Some("astichi_bind_external"))
            && (e'.Name? ==> e' == e)
            && (e.Name? && (shadowed || !IsLoad(e, w.x)) ==> e' == e)
  {
  }

  /** Corresponding functions return corresponding values. The call expression bounds the induction. */
  lemma {:induction false} PreservedEntry(
      w: Swap, literals: Literals, e: Expr, f: Value, f': Value, vs: seq<Value>, vs': seq<Value>, ks: Env, ks': Env, fuel: nat)
    requires Proper(w) && SameValue(w, f, f') && SameValues(w, vs, vs') && SameBindings(w, ks, ks')
    ensures var inner, inner' := Entered(f, vs, ks), Entered(f', vs', ks');
            && (inner.None? <==> inner'.None?)
            && (inner.Some? && fuel > 0 ==>
                  Same(w, Eval(literals, f.body, inner.value, fuel - 1), Eval(literals, f'.body, inner'.value, fuel - 1)))
    decreases fuel, e, 0
  {
    hide SameValue, SameValues, SameBindings, Entered, Eval, Plain, Sub, SameEnv, Same;
    var shadowed := SameEntered(w, f, f', vs, vs', ks, ks');
    if fuel > 0 && Entered(f, vs, ks).Some? {
      Preserved(w, literals, f.body, Entered(f, vs, ks).value, Entered(f', vs', ks').value, shadowed, fuel - 1);
    }
  }

  lemma {:induction false} CallForm(literals: Literals, func: Expr, args: seq<Expr>, keywords: seq<Keyword>, env: Env, fuel: nat)
    ensures var f, vs, ks := Eval(literals, func, env, fuel), EvalAll(literals, args, env, fuel), EvalKeywords(literals, keywords, env, fuel);
            Eval(literals, Call(func, args, keywords), env, fuel) ==
            if IsAnyMarker(func, args, keywords) then Lookup(env, args[0].id)
            else if f.None? || vs.None? || ks.None? then None
            else if Entered(f.value, vs.value, ks.value).None? || fuel == 0 then None
            else Eval(literals, f.value.body, Entered(f.value, vs.value, ks.value).value, fuel - 1)
  {
    hide Lookup, Entered, EvalAll, EvalKeywords;
  }

  lemma {:induction false} PreservedCall(w: Swap, literals: Literals, e: Expr, env: Env, env': Env, shadowed: bool, fuel: nat)
    requires Ready(w, env, env', shadowed) && e.Call? && (shadowed || (!IsRefCall(e, w.x) && !IsUse(e, w.x)))
    requires shadowed || (Plain(e.func, w.x) && PlainAll(e.args, w.x) && forall k :: 0 <= k < |e.keywords| ==> PlainKeyword(e.keywords[k], w.x))
    ensures Same(w, Eval(literals, e, env, fuel), Eval(literals, Sub(e, w.x, w.r, shadowed), env', fuel))
    decreases fuel, e, 1
  {
    hide SameValue, SameBinding, SameEnv, Sub, SubAll, SubKeywords, Plain, PlainAll, PlainKeyword, Eval, EvalAll, EvalKeywords, Entered;
    hide IsRefCall, IsUse, IsAnyMarker, Lookup;
    var func', args', keywords' := Sub(e.func, w.x, w.r, shadowed), SubAll(e.args, w.x, w.r, shadowed), SubKeywords(e.keywords, w.x, w.r, shadowed);
    MarkerKept(w, e, shadowed);
    CallForm(literals, e.func, e.args, e.keywords, env, fuel);
    CallForm(literals, func', args', keywords', env', fuel);
    assert e == Call(e.func, e.args, e.keywords);
    if IsAnyMarker(e.func, e.args, e.keywords) {
      MarkerArgument(e.func, e.args, e.keywords);
      PreservedName(w, env, env', shadowed, e.args[0].id);
    } else {
      Preserved(w, literals, e.func, env, env', shadowed, fuel);
      PreservedAll(w, literals, e.args, env, env', shadowed, fuel);
      PreservedKeywords(w, literals, e.keywords, env, env', shadowed, fuel);
      var f, f' := Eval(literals, e.func, env, fuel), Eval(literals, func', env', fuel);
      var vs, vs' := EvalAll(literals, e.args, env, fuel), EvalAll(literals, args', env', fuel);
      var ks, ks' := EvalKeywords(literals, e.keywords, env, fuel), EvalKeywords(literals, keywords', env', fuel);
      if f.Some? && vs.Some? && ks.Some? {
        PreservedEntry(w, literals, e, f.value, f'.value, vs.value, vs'.value, ks.value, ks'.value, fuel);
      }
    }
  }

  lemma {:induction false} MarkerArgument(func: Expr, args: seq<Expr>, keywords: seq<Keyword>)
    requires IsAnyMarker(func, args, keywords)
    ensures |args| == 1 && args[0].Name?
  {
  }

  // ---------- comprehensions ----------

  /** A comprehension and what the substitution makes of it. */
  ghost predicate Comprehensions(w: Swap, e: Expr, e': Expr, shadowed: bool) {
    && e.ListComp? && (shadowed || Plain(e, w.x))
    && e' == ListComp(Sub(e.elt, w.x, w.r, shadowed || BoundBefore(e.generators, |e.generators|, w.x)),
                      SubGenerators(e.generators, w.x, w.r, shadowed))
  }

  lemma {:induction false} PreservedListComp(w: Swap, literals: Literals, e: Expr, env: Env, env': Env, shadowed: bool, fuel: nat)
    requires Ready(w, env, env', shadowed) && (shadowed || Plain(e, w.x)) && e.ListComp?
    ensures Same(w, Eval(literals, e, env, fuel), Eval(literals, Sub(e, w.x, w.r, shadowed), env', fuel))
    decreases fuel, e, |e.generators| + 1
  {
    var e' := Sub(e, w.x, w.r, shadowed);
    ListCompForms(e.elt, e.generators, w.x, w.r, shadowed);
    assert e == ListComp(e.elt, e.generators);
    assert !BoundBefore(e.generators, 0, w.x);
    PreservedGenerators(w, literals, e, e', 0, env, env', shadowed, fuel);
    ItemsSame(w, EvalGenerators(literals, e, 0, env, fuel), EvalGenerators(literals, e', 0, env', fuel));
  }

  /** The shadow flag once the targets of the first `k` generators are bound. */
  function ShadowAt(e: Expr, k: nat, x: string, shadowed: bool): bool
    requires e.ListComp? && k <= |e.generators|
  {
    shadowed || BoundBefore(e.generators, k, x)
  }

  lemma {:induction false} GeneratorParts(w: Swap, e: Expr, e': Expr, k: nat, shadowed: bool)
    requires Proper(w) && Comprehensions(w, e, e', shadowed) && k < |e.generators|
    ensures |e'.generators| == |e.generators|
    ensures var g, g' := e.generators[k], e'.generators[k];
            && (ShadowAt(e, k, w.x, shadowed) || Plain(g.iter, w.x))
            && (ShadowAt(e, k + 1, w.x, shadowed) || PlainAll(g.ifs, w.x))
            && g'.target == g.target
            && g'.iter == Sub(g.iter, w.x, w.r, ShadowAt(e, k, w.x, shadowed))
            && g'.ifs == SubAll(g.ifs, w.x, w.r, ShadowAt(e, k + 1, w.x, shadowed))
    ensures ShadowAt(e, k + 1, w.x, shadowed) == (ShadowAt(e, k, w.x, shadowed) || TargetBinds(e.generators[k].target, w.x))
  {
    GeneratorAt(e.generators, k, w.x, w.r, shadowed);
    BoundStep(e.generators, k, w.x);
    var g := e.generators[k];
    if shadowed {
      ShadowedUnchanged(g.target, w.x, w.r);
    } else {
      assert PlainGenerator(g, w.x);
      PatternUnchanged(g.target, w.x, w.r, ShadowAt(e, k, w.x, shadowed));
    }
  }

  lemma {:induction false} EltPlain(w: Swap, e: Expr, e': Expr, shadowed: bool)
    requires Comprehensions(w, e, e', shadowed)
    ensures shadowed || Plain(e.elt, w.x)
  {
  }

  lemma {:induction false} IterableSame(w: Swap, v: Option<Value>, v': Option<Value>)
    requires Proper(w) && Same(w, v, v')
    ensures v.Some? ==> v'.Some? && (v.value.Items? <==> v'.value.Items?)
    ensures v.Some? && v.value.Items? ==> SameValues(w, v.value.items, v'.value.items)
  {
  }

  lemma {:induction false} PreservedGenerators(
      w: Swap, literals: Literals, e: Expr, e': Expr, k: nat, env: Env, env': Env, shadowed: bool, fuel: nat)
    requires Proper(w) && Comprehensions(w, e, e', shadowed) && k <= |e.generators| == |e'.generators|
    requires Ready(w, env, env', ShadowAt(e, k, w.x, shadowed))
    ensures SameAll(w, EvalGenerators(literals, e, k, env, fuel), EvalGenerators(literals, e', k, env', fuel))
    decreases fuel, e, |e.generators| - k, 1, 0
  {
    hide SameValue, SameEnv, Eval, Sub, SubAll, SubGenerators, Plain, PlainAll, BoundBefore, EvalItems;
    var shadow := ShadowAt(e, k, w.x, shadowed);
    if k == |e.generators| {
      EltPlain(w, e, e', shadowed);
      Preserved(w, literals, e.elt, env, env', shadow, fuel);
    } else {
      GeneratorParts(w, e, e', k, shadowed);
      var g, g' := e.generators[k], e'.generators[k];
      Preserved(w, literals, g.iter, env, env', shadow, fuel);
      var v, v' := Eval(literals, g.iter, env, fuel), Eval(literals, g'.iter, env', fuel);
      IterableSame(w, v, v');
      if v.Some? && v.value.Items? {
        PreservedItems(w, literals, e, e', k, v.value.items, v'.value.items, env, env', shadowed, fuel);
      }
    }
  }

  lemma {:induction false} PreservedItems(
      w: Swap, literals: Literals, e: Expr, e': Expr, k: nat, items: seq<Value>, items': seq<Value>, env: Env, env': Env, shadowed: bool, fuel: nat)
    requires Proper(w) && Comprehensions(w, e, e', shadowed) && k < |e.generators| == |e'.generators|
    requires Ready(w, env, env', ShadowAt(e, k, w.x, shadowed)) && SameValues(w, items, items')
    ensures SameAll(w, EvalItems(literals, e, k, items, env, fuel), EvalItems(literals, e', k, items', env', fuel))
    decreases fuel, e, |e.generators| - k, 0, |items|
  {
    hide SameValue, EvalItem, SameEnv, Sub, SubGenerators, Plain, BoundBefore;
    if items != [] {
      assert SameValue(w, items[0], items'[0]);
      PreservedItem(w, literals, e, e', k, items[0], items'[0], env, env', shadowed, fuel);
      PreservedItems(w, literals, e, e', k, items[1..], items'[1..], env, env', shadowed, fuel);
    }
  }

  /** One more generator bound, in corresponding environments. */
  lemma {:induction false} ItemBound(w: Swap, target: Expr, item: Value, item': Value, env: Env, env': Env, shadow: bool)
    requires Ready(w, env, env', shadow) && SameValue(w, item, item')
    ensures var bs, bs' := Bind(target, item), Bind(target, item');
            && (bs.None? <==> bs'.None?)
            && (bs.Some? ==> Ready(w, env + bs.value, env' + bs'.value, shadow || TargetBinds(target, w.x)))
  {
    SameBind(w, target, item, item');
    var bs, bs' := Bind(target, item), Bind(target, item');
    hide SameValue, SameEnv, SameBindings, Bind, TargetBinds, BindsName;
    if bs.Some? {
      SameExtended(w, env, env', shadow, bs.value, bs'.value);
    }
  }

  lemma {:induction false} ItemForm(literals: Literals, e: Expr, k: nat, item: Value, env: Env, bs: Env, fuel: nat)
    requires e.ListComp? && k < |e.generators| && Bind(e.generators[k].target, item) == Some(bs)
    ensures var kept := EvalConditions(literals, e.generators[k].ifs, env + bs, fuel);
            EvalItem(literals, e, k, item, env, fuel) ==
            if kept == Some(true) then EvalGenerators(literals, e, k + 1, env + bs, fuel)
            else if kept == Some(false) then Some([]) else None
  {
    hide Bind, EvalConditions, EvalGenerators;
  }

  lemma {:induction false} NothingSame(w: Swap)
    requires Proper(w)
    ensures SameAll(w, None, None) && SameAll(w, Some([]), Some([]))
  {
  }

  lemma {:induction false} UnboundForm(literals: Literals, e: Expr, k: nat, item: Value, env: Env, fuel: nat)
    requires e.ListComp? && k < |e.generators| && Bind(e.generators[k].target, item).None?
    ensures EvalItem(literals, e, k, item, env, fuel).None?
  {
    hide Bind, EvalConditions, EvalGenerators;
  }

  lemma {:induction false} PreservedItem(
      w: Swap, literals: Literals, e: Expr, e': Expr, k: nat, item: Value, item': Value, env: Env, env': Env, shadowed: bool, fuel: nat)
    requires Proper(w) && e.ListComp? && e'.ListComp? && Comprehensions(w, e, e', shadowed) && k < |e.generators| == |e'.generators|
    requires Ready(w, env, env', ShadowAt(e, k, w.x, shadowed)) && SameValue(w, item, item')
    ensures SameAll(w, EvalItem(literals, e, k, item, env, fuel), EvalItem(literals, e', k, item', env', fuel))
    decreases fuel, e, |e.generators| - k, 0, 0
  {
    hide SameValue, Ready, Comprehensions, ShadowAt, Bind, TargetBinds, Sub, SubAll, Plain, PlainAll;
    hide Eval, EvalConditions, EvalGenerators, EvalItem, SameAll, Proper, SameEnv;
    GeneratorParts(w, e, e', k, shadowed);
    var g, g' := e.generators[k], e'.generators[k];
    NothingSame(w);
    ItemBound(w, g.target, item, item', env, env', ShadowAt(e, k, w.x, shadowed));
    var bs, bs' := Bind(g.target, item), Bind(g.target, item');
    if bs.None? {
      UnboundForm(literals, e, k, item, env, fuel);
      UnboundForm(literals, e', k, item', env', fuel);
    } else {
      var inner, inner' := env + bs.value, env' + bs'.value;
      ItemForm(literals, e, k, item, env, bs.value, fuel);
      ItemForm(literals, e', k, item', env', bs'.value, fuel);
      PreservedConditions(w, literals, g.ifs, inner, inner', ShadowAt(e, k + 1, w.x, shadowed), fuel);
      PreservedGenerators(w, literals, e, e', k + 1, inner, inner', shadowed, fuel);
    }
  }

  lemma {:induction false} PreservedConditions(w: Swap, literals: Literals, ifs: seq<Expr>, env: Env, env': Env, shadowed: bool, fuel: nat)
    requires Ready(w, env, env', shadowed) && (shadowed || PlainAll(ifs, w.x))
    ensures EvalConditions(literals, SubAll(ifs, w.x, w.r, shadowed), env', fuel) == EvalConditions(literals, ifs, env, fuel)
    decreases fuel, ifs
  {
    hide SameValue, SameEnv, Eval, Sub, Plain, Truth;
    if ifs != [] {
      var after := SubAll(ifs, w.x, w.r, shadowed);
      assert after[0] == Sub(ifs[0], w.x, w.r, shadowed) && after[1..] == SubAll(ifs[1..], w.x, w.r, shadowed);
      hide SubAll;
      Preserved(w, literals, ifs[0], env, env', shadowed, fuel);
      TruthSame(w, literals, Eval(literals, ifs[0], env, fuel), Eval(literals, after[0], env', fuel));
      PreservedConditions(w, literals, ifs[1..], env, env', shadowed, fuel);
    }
  }

  // ---------- the result ----------

  /** Data without functions in it. */
  predicate FirstOrder(v: Value) {
    match v
    case Lit(_) => true
    case Items(items, _) => forall k :: 0 <= k < |items| ==> FirstOrder(items[k])
    case Closure(_, _, _) => false
  }

  lemma {:induction false} SameData(w: Swap, v: Value, v': Value)
    requires Proper(w) && SameValue(w, v, v') && FirstOrder(v)
    ensures v' == v
    decreases v
  {
    if v.Items? {
      forall k | 0 <= k < |v.items| ensures v'.items[k] == v.items[k] {
        SameData(w, v.items[k], v'.items[k]);
      }
      assert v'.items == v.items;
    }
  }

  lemma {:induction false} BoundOnTheLeft(w: Swap, env: Env)
    requires Proper(w)
    ensures SameEnv(w, env + [Binding(w.x, ValueOf(w.r))], env, false)
  {
    var b := Binding(w.x, ValueOf(w.r));
    EnvSameItself(w, env);
    hide SameValue, ValueOf;
    forall n ensures Find(env + [b], n) == if n == w.x then |env| else Find(env, n) {
      FindAppend(env, [b], n);
      assert [b][..0] == [];
      assert Find([b], n) == if n == w.x then 0 else Find([b][..0], n);
    }
  }

  /**
   Evaluating the result where the name need not be bound corresponds to evaluating the original where the name is
   bound to the literal: both fail, or both give the same value; equal values when no function is in them.
   */
  lemma {:induction false} SubstitutionPreservesMeaning(x: string, r: Expr, literals: Literals, e: Expr, env: Env, fuel: nat)
    requires Closed(r) && x != "astichi_bind_external" && Plain(e, x)
    ensures var before := Eval(literals, e, env + [Binding(x, ValueOf(r))], fuel);
            var after := Eval(literals, Sub(e, x, r, false), env, fuel);
            && Same(Swap(x, r), before, after)
            && (before.Some? && FirstOrder(before.value) ==> after == before)
  {
    var w := Swap(x, r);
    BoundOnTheLeft(w, env);
    Preserved(w, literals, e, env + [Binding(x, ValueOf(r))], env, false, fuel);
    var before := Eval(literals, e, env + [Binding(x, ValueOf(r))], fuel);
    if before.Some? && FirstOrder(before.value) {
      SameData(w, before.value, Eval(literals, Sub(e, x, r, false), env, fuel).value);
    }
  }
}
