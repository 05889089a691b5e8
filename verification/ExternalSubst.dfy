/**
 Putting an external literal in the place of a name (materialize_ir.rs), on expressions: what is replaced, how often,
 and what a second pass would still find.
 */
module ExternalSubst {
  import opened Wrappers
  import opened Ast

  // ---------- what is replaced ----------

  predicate IsLoad(e: Expr, x: string) {
    e.Name? && e.id == x && e.ctx == Load
  }

  /** The marker `astichi_bind_external(x)` stands for the name itself. */
  predicate IsBindMarker(e: Expr, x: string) {
    && e.Call? && CallName(e.func) == Some("astichi_bind_external")
    && |e.args| == 1 && e.keywords == [] && IsLoad(e.args[0], x)
  }

  predicate IsUse(e: Expr, x: string) {
    IsBindMarker(e, x) || IsLoad(e, x)
  }

  /** The position of the first keyword `external`, or the number of keywords. */
  function ExternalKeyword(keywords: seq<Keyword>): (k: nat)
    ensures k <= |keywords|
    ensures k < |keywords| ==> keywords[k].arg == Some("external")
  {
    if keywords == [] || keywords[0].arg == Some("external") then 0 else 1 + ExternalKeyword(keywords[1..])
  }

  /** A call `astichi_ref(external=x)`; the literal becomes a positional argument. */
  predicate IsRefCall(e: Expr, x: string) {
    && e.Call? && CallName(e.func) == Some("astichi_ref")
    && var k := ExternalKeyword(e.keywords);
       k < |e.keywords| && IsUse(e.keywords[k].value, x)
  }

  function WithoutKeyword(keywords: seq<Keyword>, k: nat): seq<Keyword>
    requires k < |keywords|
  {
    keywords[..k] + keywords[k + 1..]
  }

  predicate BindsParam(params: seq<Param>, x: string) {
    exists k :: 0 <= k < |params| && params[k].name == x
  }

  predicate TargetBinds(target: Expr, x: string) {
    match target
    case Name(id, ctx) => id == x && (ctx == Store || ctx == Del)
    case Tuple(elts) => exists k :: 0 <= k < |elts| && TargetBinds(elts[k], x)
    case List(elts) => exists k :: 0 <= k < |elts| && TargetBinds(elts[k], x)
    case _ => false
  }

  /** One of the first `k` generators binds the name. */
  predicate BoundBefore(generators: seq<Comprehension>, k: nat, x: string)
    requires k <= |generators|
  {
    exists j :: 0 <= j < k && TargetBinds(generators[j].target, x)
  }

  // ---------- the substitution ----------

  function Sub(e: Expr, x: string, r: Expr, shadowed: bool): Expr
    decreases e
  {
    if !shadowed && IsRefCall(e, x) then
      Call(e.func, e.args + [r], WithoutKeyword(e.keywords, ExternalKeyword(e.keywords)))
    else if !shadowed && IsUse(e, x) then r
    else match e
      case Name(_, _) => e
      case Constant(_) => e
      case Call(func, args, keywords) =>
        Call(Sub(func, x, r, shadowed), SubAll(args, x, r, shadowed), SubKeywords(keywords, x, r, shadowed))
      case Attribute(target, attr) => Attribute(Sub(target, x, r, shadowed), attr)
      case BinOp(left, right) => BinOp(Sub(left, x, r, shadowed), Sub(right, x, r, shadowed))
      case IfExp(test, body, orelse) => IfExp(Sub(test, x, r, shadowed), Sub(body, x, r, shadowed), Sub(orelse, x, r, shadowed))
      case Lambda(params, body) =>
        Lambda(SubParams(params, x, r, shadowed), Sub(body, x, r, shadowed || BindsParam(params, x)))
      case ListComp(elt, generators) =>
        ListComp(Sub(elt, x, r, shadowed || BoundBefore(generators, |generators|, x)), SubGenerators(generators, x, r, shadowed))
      case Tuple(elts) => Tuple(SubAll(elts, x, r, shadowed))
      case List(elts) => List(SubAll(elts, x, r, shadowed))
  }

  function SubAll(es: seq<Expr>, x: string, r: Expr, shadowed: bool): seq<Expr>
    decreases es
  {
    seq(|es|, k requires 0 <= k < |es| => Sub(es[k], x, r, shadowed))
  }

  function SubKeywords(keywords: seq<Keyword>, x: string, r: Expr, shadowed: bool): seq<Keyword>
    decreases keywords
  {
    seq(|keywords|, k requires 0 <= k < |keywords| => SubKeyword(keywords[k], x, r, shadowed))
  }

  function SubKeyword(keyword: Keyword, x: string, r: Expr, shadowed: bool): Keyword
    decreases keyword
  {
    match keyword
    case Keyword(arg, e) => Keyword(arg, Sub(e, x, r, shadowed))
  }

  function SubParams(params: seq<Param>, x: string, r: Expr, shadowed: bool): seq<Param>
    decreases params
  {
    seq(|params|, k requires 0 <= k < |params| => Param(params[k].name, SubDefault(params[k].default, x, r, shadowed)))
  }

  function SubDefault(default: Option<Expr>, x: string, r: Expr, shadowed: bool): Option<Expr>
    decreases default
  {
    match default
    case None => None
    case Some(e) => Some(Sub(e, x, r, shadowed))
  }

  /** A target shadows the name in the conditions of its own generator and in everything after. */
  function SubGenerators(generators: seq<Comprehension>, x: string, r: Expr, shadowed: bool): seq<Comprehension>
    decreases generators
  {
    seq(|generators|, k requires 0 <= k < |generators| =>
      SubGenerator(generators[k], x, r, shadowed || BoundBefore(generators, k, x), shadowed || BoundBefore(generators, k + 1, x)))
  }

  function SubGenerator(g: Comprehension, x: string, r: Expr, before: bool, after: bool): Comprehension
    decreases g
  {
    Comprehension(Sub(g.target, x, r, before), Sub(g.iter, x, r, before), SubAll(g.ifs, x, r, after))
  }

  lemma {:induction false} GeneratorAt(generators: seq<Comprehension>, k: nat, x: string, r: Expr, shadowed: bool)
    requires k < |generators|
    ensures |SubGenerators(generators, x, r, shadowed)| == |generators|
    ensures SubGenerators(generators, x, r, shadowed)[k] ==
            SubGenerator(generators[k], x, r, shadowed || BoundBefore(generators, k, x), shadowed || BoundBefore(generators, k + 1, x))
  {
    hide SubGenerator, BoundBefore;
  }

  // ---------- how many replacements a pass makes ----------

  function Uses(e: Expr, x: string, shadowed: bool): nat
    decreases e
  {
    if !shadowed && (IsRefCall(e, x) || IsUse(e, x)) then 1
    else match e
      case Name(_, _) => 0
      case Constant(_) => 0
      case Call(func, args, keywords) => Uses(func, x, shadowed) + UsesAll(args, x, shadowed) + UsesKeywords(keywords, x, shadowed)
      case Attribute(target, _) => Uses(target, x, shadowed)
      case BinOp(left, right) => Uses(left, x, shadowed) + Uses(right, x, shadowed)
      case IfExp(test, body, orelse) => Uses(test, x, shadowed) + Uses(body, x, shadowed) + Uses(orelse, x, shadowed)
      case Lambda(params, body) => UsesParams(params, x, shadowed) + Uses(body, x, shadowed || BindsParam(params, x))
      case ListComp(elt, generators) =>
        UsesGenerators(generators, |generators|, x, shadowed) + Uses(elt, x, shadowed || BoundBefore(generators, |generators|, x))
      case Tuple(elts) => UsesAll(elts, x, shadowed)
      case List(elts) => UsesAll(elts, x, shadowed)
  }

  function UsesAll(es: seq<Expr>, x: string, shadowed: bool): nat
    decreases es
  {
    if es == [] then 0 else UsesAll(es[..|es| - 1], x, shadowed) + Uses(es[|es| - 1], x, shadowed)
  }

  function UsesKeywords(keywords: seq<Keyword>, x: string, shadowed: bool): nat
    decreases keywords
  {
    if keywords == [] then 0
    else UsesKeywords(keywords[..|keywords| - 1], x, shadowed) + UsesKeyword(keywords[|keywords| - 1], x, shadowed)
  }

  function UsesKeyword(keyword: Keyword, x: string, shadowed: bool): nat
    decreases keyword
  {
    match keyword
    case Keyword(_, e) => Uses(e, x, shadowed)
  }

  function UsesParams(params: seq<Param>, x: string, shadowed: bool): nat
    decreases params
  {
    if params == [] then 0
    else
      UsesParams(params[..|params| - 1], x, shadowed)
      + match params[|params| - 1].default case None => 0 case Some(e) => Uses(e, x, shadowed)
  }

  /** The replacements in the first `k` generators. */
  function UsesGenerators(generators: seq<Comprehension>, k: nat, x: string, shadowed: bool): nat
    requires k <= |generators|
    decreases generators, k
  {
    if k == 0 then 0
    else
      var g := generators[k - 1];
      UsesGenerators(generators, k - 1, x, shadowed)
      + Uses(g.iter, x, shadowed || BoundBefore(generators, k - 1, x))
      + Uses(g.target, x, shadowed || BoundBefore(generators, k - 1, x))
      + UsesAll(g.ifs, x, shadowed || BoundBefore(generators, k, x))
  }

  // ---------- the replacement ----------

  /** External literals hold no names. */
  predicate Closed(r: Expr) {
    match r
    case Constant(_) => true
    case Tuple(elts) => forall k :: 0 <= k < |elts| ==> Closed(elts[k])
    case List(elts) => forall k :: 0 <= k < |elts| ==> Closed(elts[k])
    case _ => false
  }

  lemma {:induction false} ClosedHasNothing(r: Expr, x: string, shadowed: bool)
    requires Closed(r)
    ensures Uses(r, x, shadowed) == 0 && !TargetBinds(r, x)
  {
    if r.Tuple? || r.List? {
      forall k | 0 <= k < |r.elts| ensures Uses(r.elts[k], x, shadowed) == 0 && !TargetBinds(r.elts[k], x) {
        ClosedHasNothing(r.elts[k], x, shadowed);
      }
      NoUsesInAll(r.elts, x, shadowed);
    }
  }

  lemma {:induction false} NoUsesInAll(es: seq<Expr>, x: string, shadowed: bool)
    ensures UsesAll(es, x, shadowed) == 0 <==> forall k :: 0 <= k < |es| ==> Uses(es[k], x, shadowed) == 0
  {
    hide Uses;
    if es != [] {
      NoUsesInAll(es[..|es| - 1], x, shadowed);
    }
  }

  lemma {:induction false} NoUsesInKeywords(keywords: seq<Keyword>, x: string, shadowed: bool)
    ensures UsesKeywords(keywords, x, shadowed) == 0 <==> forall k :: 0 <= k < |keywords| ==> UsesKeyword(keywords[k], x, shadowed) == 0
  {
    hide UsesKeyword;
    if keywords != [] {
      NoUsesInKeywords(keywords[..|keywords| - 1], x, shadowed);
    }
  }

  function UsesDefault(default: Option<Expr>, x: string, shadowed: bool): nat {
    match default case None => 0 case Some(e) => Uses(e, x, shadowed)
  }

  lemma {:induction false} NoUsesInParams(params: seq<Param>, x: string, shadowed: bool)
    ensures UsesParams(params, x, shadowed) == 0 <==> forall k :: 0 <= k < |params| ==> UsesDefault(params[k].default, x, shadowed) == 0
  {
    hide Uses;
    if params != [] {
      NoUsesInParams(params[..|params| - 1], x, shadowed);
    }
  }

  predicate UnusedIn(generators: seq<Comprehension>, k: nat, x: string, shadowed: bool)
    requires k < |generators|
  {
    && Uses(generators[k].iter, x, shadowed || BoundBefore(generators, k, x)) == 0
    && Uses(generators[k].target, x, shadowed || BoundBefore(generators, k, x)) == 0
    && UsesAll(generators[k].ifs, x, shadowed || BoundBefore(generators, k + 1, x)) == 0
  }

  lemma {:induction false} NoUsesInGenerators(generators: seq<Comprehension>, n: nat, x: string, shadowed: bool)
    requires n <= |generators|
    ensures UsesGenerators(generators, n, x, shadowed) == 0 <==> forall k :: 0 <= k < n ==> UnusedIn(generators, k, x, shadowed)
  {
    hide Uses, UsesAll, BoundBefore;
    if n > 0 {
      NoUsesInGenerators(generators, n - 1, x, shadowed);
      assert n - 1 + 1 == n;
      assert UsesGenerators(generators, n, x, shadowed) == 0 <==>
             UsesGenerators(generators, n - 1, x, shadowed) == 0 && UnusedIn(generators, n - 1, x, shadowed);
    }
  }

  // ---------- under a shadow nothing happens ----------

  lemma {:induction false} ShadowedUnchanged(e: Expr, x: string, r: Expr)
    ensures Sub(e, x, r, true) == e && Uses(e, x, true) == 0
    decreases e
  {
    match e
    case Name(_, _) =>
    case Constant(_) =>
    case Call(func, args, keywords) =>
      ShadowedUnchanged(func, x, r);
      ShadowedAll(args, x, r);
      ShadowedKeywords(keywords, x, r);
    case Attribute(target, _) => ShadowedUnchanged(target, x, r);
    case BinOp(left, right) =>
      ShadowedUnchanged(left, x, r);
      ShadowedUnchanged(right, x, r);
    case IfExp(test, body, orelse) =>
      ShadowedUnchanged(test, x, r);
      ShadowedUnchanged(body, x, r);
      ShadowedUnchanged(orelse, x, r);
    case Lambda(params, body) =>
      ShadowedParams(params, x, r);
      ShadowedUnchanged(body, x, r);
    case ListComp(elt, generators) =>
      ShadowedUnchanged(elt, x, r);
      ShadowedGenerators(generators, x, r);
    case Tuple(elts) => ShadowedAll(elts, x, r);
    case List(elts) => ShadowedAll(elts, x, r);
  }

  lemma {:induction false} ShadowedAll(es: seq<Expr>, x: string, r: Expr)
    ensures SubAll(es, x, r, true) == es && UsesAll(es, x, true) == 0
    decreases es
  {
    forall k | 0 <= k < |es| ensures Sub(es[k], x, r, true) == es[k] && Uses(es[k], x, true) == 0 {
      ShadowedUnchanged(es[k], x, r);
    }
    NoUsesInAll(es, x, true);
  }

  lemma {:induction false} ShadowedKeywords(keywords: seq<Keyword>, x: string, r: Expr)
    ensures SubKeywords(keywords, x, r, true) == keywords && UsesKeywords(keywords, x, true) == 0
    decreases keywords
  {
    forall k | 0 <= k < |keywords|
      ensures SubKeyword(keywords[k], x, r, true) == keywords[k] && UsesKeyword(keywords[k], x, true) == 0
    {
      ShadowedKeyword(keywords[k], x, r);
    }
    NoUsesInKeywords(keywords, x, true);
  }

  lemma {:induction false} ShadowedKeyword(keyword: Keyword, x: string, r: Expr)
    ensures SubKeyword(keyword, x, r, true) == keyword && UsesKeyword(keyword, x, true) == 0
    decreases keyword
  {
    match keyword
    case Keyword(_, e) => ShadowedUnchanged(e, x, r);
  }

  lemma {:induction false} ShadowedParams(params: seq<Param>, x: string, r: Expr)
    ensures SubParams(params, x, r, true) == params && UsesParams(params, x, true) == 0
    decreases params
  {
    forall k | 0 <= k < |params|
      ensures SubDefault(params[k].default, x, r, true) == params[k].default && UsesDefault(params[k].default, x, true) == 0
    {
      ShadowedDefault(params[k].default, x, r);
    }
    NoUsesInParams(params, x, true);
  }

  lemma {:induction false} ShadowedDefault(default: Option<Expr>, x: string, r: Expr)
    ensures SubDefault(default, x, r, true) == default && UsesDefault(default, x, true) == 0
    decreases default
  {
    match default
    case None =>
    case Some(e) => ShadowedUnchanged(e, x, r);
  }

  lemma {:induction false} ShadowedGenerators(generators: seq<Comprehension>, x: string, r: Expr)
    ensures SubGenerators(generators, x, r, true) == generators && UsesGenerators(generators, |generators|, x, true) == 0
    decreases generators
  {
    var after := SubGenerators(generators, x, r, true);
    forall k | 0 <= k < |generators| ensures after[k] == generators[k] && UnusedIn(generators, k, x, true) {
      var g := generators[k];
      GeneratorAt(generators, k, x, r, true);
      ShadowedUnchanged(g.target, x, r);
      ShadowedUnchanged(g.iter, x, r);
      ShadowedAll(g.ifs, x, r);
    }
    NoUsesInGenerators(generators, |generators|, x, true);
  }

  // ---------- the second pass ----------

  /** A replaced target binds what it bound. */
  lemma {:induction false} BindingKept(target: Expr, x: string, r: Expr, shadowed: bool)
    requires Closed(r)
    ensures TargetBinds(Sub(target, x, r, shadowed), x) == TargetBinds(target, x)
    decreases target
  {
    ClosedHasNothing(r, x, shadowed);
    if target.Tuple? || target.List? {
      var after := Sub(target, x, r, shadowed);
      assert after == if target.Tuple? then Tuple(SubAll(target.elts, x, r, shadowed)) else List(SubAll(target.elts, x, r, shadowed));
      forall k | 0 <= k < |target.elts|
        ensures after.elts[k] == Sub(target.elts[k], x, r, shadowed)
        ensures TargetBinds(after.elts[k], x) == TargetBinds(target.elts[k], x)
      {
        BindingKept(target.elts[k], x, r, shadowed);
      }
      if k :| 0 <= k < |target.elts| && TargetBinds(target.elts[k], x) {
        assert TargetBinds(after.elts[k], x);
      }
    }
  }

  lemma {:induction false} BoundBeforeKept(generators: seq<Comprehension>, k: nat, x: string, r: Expr, shadowed: bool)
    requires Closed(r) && k <= |generators|
    ensures BoundBefore(SubGenerators(generators, x, r, shadowed), k, x) == BoundBefore(generators, k, x)
  {
    var after := SubGenerators(generators, x, r, shadowed);
    hide TargetBinds, Sub, SubAll;
    forall j | 0 <= j < k ensures TargetBinds(after[j].target, x) == TargetBinds(generators[j].target, x) {
      GeneratorAt(generators, j, x, r, shadowed);
      BindingKept(generators[j].target, x, r, shadowed || BoundBefore(generators, j, x));
    }
  }

  /** No `astichi_ref(external=x)` call holds the name anywhere else; those places are passed over with the call. */
  predicate Settled(e: Expr, x: string, shadowed: bool)
    decreases e
  {
    if !shadowed && IsRefCall(e, x) then
      Uses(Call(e.func, e.args, WithoutKeyword(e.keywords, ExternalKeyword(e.keywords))), x, false) == 0
    else if !shadowed && IsUse(e, x) then true
    else match e
      case Name(_, _) => true
      case Constant(_) => true
      case Call(func, args, keywords) =>
        Settled(func, x, shadowed) && SettledAll(args, x, shadowed)
        && forall k :: 0 <= k < |keywords| ==> SettledKeyword(keywords[k], x, shadowed)
      case Attribute(target, _) => Settled(target, x, shadowed)
      case BinOp(left, right) => Settled(left, x, shadowed) && Settled(right, x, shadowed)
      case IfExp(test, body, orelse) => Settled(test, x, shadowed) && Settled(body, x, shadowed) && Settled(orelse, x, shadowed)
      case Lambda(params, body) =>
        (forall k :: 0 <= k < |params| ==> SettledDefault(params[k].default, x, shadowed))
        && Settled(body, x, shadowed || BindsParam(params, x))
      case ListComp(elt, generators) =>
        SettledGenerators(generators, x, shadowed)
        && Settled(elt, x, shadowed || BoundBefore(generators, |generators|, x))
      case Tuple(elts) => SettledAll(elts, x, shadowed)
      case List(elts) => SettledAll(elts, x, shadowed)
  }

  predicate SettledAll(es: seq<Expr>, x: string, shadowed: bool)
    decreases es
  {
    forall k :: 0 <= k < |es| ==> Settled(es[k], x, shadowed)
  }

  predicate SettledKeyword(keyword: Keyword, x: string, shadowed: bool)
    decreases keyword
  {
    match keyword
    case Keyword(_, e) => Settled(e, x, shadowed)
  }

  predicate SettledDefault(default: Option<Expr>, x: string, shadowed: bool)
    decreases default
  {
    match default
    case None => true
    case Some(e) => Settled(e, x, shadowed)
  }

  predicate SettledGenerators(generators: seq<Comprehension>, x: string, shadowed: bool)
    decreases generators, 1
  {
    forall k :: 0 <= k < |generators| ==> SettledIn(generators, k, x, shadowed)
  }

  predicate SettledIn(generators: seq<Comprehension>, k: nat, x: string, shadowed: bool)
    requires k < |generators|
    decreases generators, 0
  {
    && Settled(generators[k].iter, x, shadowed || BoundBefore(generators, k, x))
    && Settled(generators[k].target, x, shadowed || BoundBefore(generators, k, x))
    && SettledAll(generators[k].ifs, x, shadowed || BoundBefore(generators, k + 1, x))
  }

  /** A second pass finds nothing exactly when no reference call was holding the name anywhere else. */
  lemma {:induction false} SecondPass(e: Expr, x: string, r: Expr, shadowed: bool)
    requires Closed(r)
    ensures Uses(Sub(e, x, r, shadowed), x, shadowed) == 0 <==> Settled(e, x, shadowed)
    decreases e
  {
    hide SubAll, SubKeywords, SubParams, SubGenerators, UsesAll, UsesKeywords, UsesParams, UsesGenerators;
    hide SettledAll, SettledGenerators, BoundBefore, BindsParam, ExternalKeyword;
    ClosedHasNothing(r, x, shadowed);
    if !shadowed && IsRefCall(e, x) {
      SecondPassRefCall(e, x, r);
    } else if shadowed || !IsUse(e, x) {
      match e
      case Name(_, _) =>
      case Constant(_) =>
      case Call(_, _, _) => SecondPassCall(e, x, r, shadowed);
      case Attribute(target, _) => SecondPass(target, x, r, shadowed);
      case BinOp(left, right) =>
        SecondPass(left, x, r, shadowed);
        SecondPass(right, x, r, shadowed);
      case IfExp(test, body, orelse) =>
        SecondPass(test, x, r, shadowed);
        SecondPass(body, x, r, shadowed);
        SecondPass(orelse, x, r, shadowed);
      case Lambda(params, body) => SecondPassLambda(e, x, r, shadowed);
      case ListComp(elt, generators) => SecondPassListComp(e, x, r, shadowed);
      case Tuple(elts) => SecondPassAll(elts, x, r, shadowed);
      case List(elts) => SecondPassAll(elts, x, r, shadowed);
    }
  }

  lemma {:induction false} SecondPassAll(es: seq<Expr>, x: string, r: Expr, shadowed: bool)
    requires Closed(r)
    ensures UsesAll(SubAll(es, x, r, shadowed), x, shadowed) == 0 <==> SettledAll(es, x, shadowed)
    decreases es
  {
    var after := SubAll(es, x, r, shadowed);
    forall k | 0 <= k < |es| ensures Uses(after[k], x, shadowed) == 0 <==> Settled(es[k], x, shadowed) {
      SecondPass(es[k], x, r, shadowed);
    }
    NoUsesInAll(after, x, shadowed);
  }

  lemma {:induction false} SecondPassRefCall(e: Expr, x: string, r: Expr)
    requires Closed(r) && IsRefCall(e, x)
    ensures Uses(Sub(e, x, r, false), x, false) == 0 <==> Settled(e, x, false)
  {
    var keywords := WithoutKeyword(e.keywords, ExternalKeyword(e.keywords));
    assert (e.args + [r])[..|e.args|] == e.args;
    ClosedHasNothing(r, x, false);
    assert UsesAll(e.args + [r], x, false) == UsesAll(e.args, x, false);
    var before, after := Call(e.func, e.args, keywords), Call(e.func, e.args + [r], keywords);
    assert IsRefCall(before, x) <==> IsRefCall(after, x);
    assert !IsUse(before, x) && !IsUse(after, x);
  }

  lemma {:induction false} SecondPassKeyword(keyword: Keyword, x: string, r: Expr, shadowed: bool)
    requires Closed(r)
    ensures UsesKeyword(SubKeyword(keyword, x, r, shadowed), x, shadowed) == 0 <==> SettledKeyword(keyword, x, shadowed)
    decreases keyword
  {
    match keyword
    case Keyword(_, e) => SecondPass(e, x, r, shadowed);
  }

  lemma {:induction false} SecondPassKeywords(keywords: seq<Keyword>, x: string, r: Expr, shadowed: bool)
    requires Closed(r)
    ensures UsesKeywords(SubKeywords(keywords, x, r, shadowed), x, shadowed) == 0 <==>
            forall k :: 0 <= k < |keywords| ==> SettledKeyword(keywords[k], x, shadowed)
    decreases keywords
  {
    var after := SubKeywords(keywords, x, r, shadowed);
    forall k | 0 <= k < |keywords| ensures UsesKeyword(after[k], x, shadowed) == 0 <==> SettledKeyword(keywords[k], x, shadowed) {
      SecondPassKeyword(keywords[k], x, r, shadowed);
    }
    NoUsesInKeywords(after, x, shadowed);
  }

  lemma {:induction false} SecondPassDefault(default: Option<Expr>, x: string, r: Expr, shadowed: bool)
    requires Closed(r)
    ensures UsesDefault(SubDefault(default, x, r, shadowed), x, shadowed) == 0 <==> SettledDefault(default, x, shadowed)
    decreases default
  {
    match default
    case None =>
    case Some(e) => SecondPass(e, x, r, shadowed);
  }

  lemma {:induction false} SecondPassParams(params: seq<Param>, x: string, r: Expr, shadowed: bool)
    requires Closed(r)
    ensures UsesParams(SubParams(params, x, r, shadowed), x, shadowed) == 0 <==>
            forall k :: 0 <= k < |params| ==> SettledDefault(params[k].default, x, shadowed)
    decreases params
  {
    var after := SubParams(params, x, r, shadowed);
    forall k | 0 <= k < |params|
      ensures UsesDefault(after[k].default, x, shadowed) == 0 <==> SettledDefault(params[k].default, x, shadowed)
    {
      SecondPassDefault(params[k].default, x, r, shadowed);
    }
    NoUsesInParams(after, x, shadowed);
  }

  lemma {:induction false} ParamsKept(params: seq<Param>, x: string, r: Expr, shadowed: bool)
    ensures BindsParam(SubParams(params, x, r, shadowed), x) == BindsParam(params, x)
  {
    var after := SubParams(params, x, r, shadowed);
    assert forall k :: 0 <= k < |params| ==> after[k].name == params[k].name;
  }

  lemma {:induction false} LambdaForms(params: seq<Param>, body: Expr, x: string, r: Expr, shadowed: bool)
    ensures var e, inner := Lambda(params, body), shadowed || BindsParam(params, x);
            && Sub(e, x, r, shadowed) == Lambda(SubParams(params, x, r, shadowed), Sub(body, x, r, inner))
            && Uses(e, x, shadowed) == UsesParams(params, x, shadowed) + Uses(body, x, inner)
            && (Settled(e, x, shadowed) <==>
                (forall k :: 0 <= k < |params| ==> SettledDefault(params[k].default, x, shadowed)) && Settled(body, x, inner))
  {
    hide BindsParam, SubParams, UsesParams, SettledDefault;
  }

  lemma {:induction false} SecondPassLambda(e: Expr, x: string, r: Expr, shadowed: bool)
    requires Closed(r) && e.Lambda?
    ensures Uses(Sub(e, x, r, shadowed), x, shadowed) == 0 <==> Settled(e, x, shadowed)
    decreases e, 0
  {
    hide Sub, Uses, Settled, SubParams, UsesParams, SettledDefault, BindsParam;
    var inner := shadowed || BindsParam(e.params, x);
    SecondPassParams(e.params, x, r, shadowed);
    ParamsKept(e.params, x, r, shadowed);
    SecondPass(e.body, x, r, inner);
    LambdaForms(e.params, e.body, x, r, shadowed);
    LambdaForms(SubParams(e.params, x, r, shadowed), Sub(e.body, x, r, inner), x, r, shadowed);
    assert e == Lambda(e.params, e.body);
  }

  /** The substitution leaves no load of the name and no marker in its own place. */
  lemma {:induction false} NoUseLeft(e: Expr, x: string, r: Expr)
    requires Closed(r)
    ensures !IsUse(Sub(e, x, r, false), x)
    ensures !IsRefCall(e, x) ==> !IsRefCall(Sub(e, x, r, false), x)
    decreases e
  {
    if e.Call? && !IsRefCall(e, x) && !IsUse(e, x) {
      var after := Sub(e, x, r, false);
      if |e.args| == 1 {
        NoUseLeft(e.args[0], x, r);
      }
      var k := ExternalKeyword(after.keywords);
      if k < |after.keywords| {
        NoUseLeftKeyword(e.keywords[k], x, r);
      }
    }
  }

  lemma {:induction false} NoUseLeftKeyword(keyword: Keyword, x: string, r: Expr)
    requires Closed(r)
    ensures !IsUse(SubKeyword(keyword, x, r, false).value, x)
    decreases keyword
  {
    match keyword
    case Keyword(_, e) => NoUseLeft(e, x, r);
  }

  lemma {:induction false} SecondPassCall(e: Expr, x: string, r: Expr, shadowed: bool)
    requires Closed(r) && e.Call? && (shadowed || (!IsRefCall(e, x) && !IsUse(e, x)))
    ensures Uses(Sub(e, x, r, shadowed), x, shadowed) == 0 <==> Settled(e, x, shadowed)
    decreases e, 0
  {
    if !shadowed {
      NoUseLeft(e, x, r);
    }
    SecondPass(e.func, x, r, shadowed);
    SecondPassAll(e.args, x, r, shadowed);
    SecondPassKeywords(e.keywords, x, r, shadowed);
  }

  lemma {:induction false} ListCompForms(elt: Expr, generators: seq<Comprehension>, x: string, r: Expr, shadowed: bool)
    ensures var e, inner := ListComp(elt, generators), shadowed || BoundBefore(generators, |generators|, x);
            && Sub(e, x, r, shadowed) == ListComp(Sub(elt, x, r, inner), SubGenerators(generators, x, r, shadowed))
            && Uses(e, x, shadowed) == UsesGenerators(generators, |generators|, x, shadowed) + Uses(elt, x, inner)
            && (Settled(e, x, shadowed) <==> SettledGenerators(generators, x, shadowed) && Settled(elt, x, inner))
  {
    hide BoundBefore, SubGenerators, SettledGenerators, UsesGenerators;
  }

  lemma {:induction false} SecondPassListComp(e: Expr, x: string, r: Expr, shadowed: bool)
    requires Closed(r) && e.ListComp?
    ensures Uses(Sub(e, x, r, shadowed), x, shadowed) == 0 <==> Settled(e, x, shadowed)
    decreases e, 0
  {
    var n := |e.generators|;
    var inner := shadowed || BoundBefore(e.generators, n, x);
    var generators, elt := SubGenerators(e.generators, x, r, shadowed), Sub(e.elt, x, r, inner);
    hide Sub, Uses, Settled, BoundBefore, SettledGenerators, UsesGenerators;
    BoundBeforeKept(e.generators, n, x, r, shadowed);
    SecondPass(e.elt, x, r, inner);
    SecondPassGenerators(e.generators, x, r, shadowed);
    ListCompForms(e.elt, e.generators, x, r, shadowed);
    ListCompForms(elt, generators, x, r, shadowed);
    assert e == ListComp(e.elt, e.generators);
  }

  lemma {:induction false} SecondPassGenerator(generators: seq<Comprehension>, k: nat, x: string, r: Expr, shadowed: bool)
    requires Closed(r) && k < |generators|
    ensures UnusedIn(SubGenerators(generators, x, r, shadowed), k, x, shadowed) <==> SettledIn(generators, k, x, shadowed)
    decreases generators, 0
  {
    hide Sub, SubAll, Uses, UsesAll, Settled, SettledAll, BoundBefore;
    var g := generators[k];
    BoundBeforeKept(generators, k, x, r, shadowed);
    BoundBeforeKept(generators, k + 1, x, r, shadowed);
    SecondPass(g.iter, x, r, shadowed || BoundBefore(generators, k, x));
    SecondPass(g.target, x, r, shadowed || BoundBefore(generators, k, x));
    SecondPassAll(g.ifs, x, r, shadowed || BoundBefore(generators, k + 1, x));
  }

  lemma {:induction false} SecondPassGenerators(generators: seq<Comprehension>, x: string, r: Expr, shadowed: bool)
    requires Closed(r)
    ensures UsesGenerators(SubGenerators(generators, x, r, shadowed), |generators|, x, shadowed) == 0 <==>
            SettledGenerators(generators, x, shadowed)
    decreases generators, 1
  {
    hide Uses, UsesAll, Settled, SettledAll, UsesGenerators, SettledIn, UnusedIn, BoundBefore, Sub, SubAll;
    var after := SubGenerators(generators, x, r, shadowed);
    forall k | 0 <= k < |generators| ensures UnusedIn(after, k, x, shadowed) <==> SettledIn(generators, k, x, shadowed) {
      SecondPassGenerator(generators, k, x, r, shadowed);
    }
    NoUsesInGenerators(after, |generators|, x, shadowed);
    if UsesGenerators(after, |generators|, x, shadowed) == 0 {
      forall k | 0 <= k < |generators| ensures SettledIn(generators, k, x, shadowed) {
        assert UnusedIn(after, k, x, shadowed);
      }
    }
  }

  /** The condition is needed: `astichi_ref(x, external=x)` keeps its first `x`, and a second pass replaces it. */
  lemma {:induction false} SecondPassCanReplace(x: string, r: Expr)
    requires Closed(r)
    ensures var e := Call(Name("astichi_ref", Load), [Name(x, Load)], [Keyword(Some("external"), Name(x, Load))]);
            Uses(Sub(e, x, r, false), x, false) != 0 && !Settled(e, x, false)
  {
    var e := Call(Name("astichi_ref", Load), [Name(x, Load)], [Keyword(Some("external"), Name(x, Load))]);
    assert ExternalKeyword(e.keywords) == 0;
    var rest := WithoutKeyword(e.keywords, 0);
    assert rest == [];
    var left := Call(e.func, e.args, rest);
    assert UsesAll(e.args, x, false) == UsesAll(e.args[..0], x, false) + Uses(e.args[0], x, false);
    assert Uses(left, x, false) >= UsesAll(left.args, x, false);
    SecondPass(e, x, r, false);
  }

  // ---------- the substitution as it runs ----------

  /** Rewrites one expression and counts the replacements. */
  method SubstituteInExpr(e: Expr, x: string, r: Expr, shadowed: bool) returns (result: Expr, count: nat)
    requires Closed(r)
    ensures result == Sub(e, x, r, shadowed) && count == Uses(e, x, shadowed)
    decreases e
  {
    hide SubAll, SubKeywords, SubParams, SubGenerators, UsesAll, UsesKeywords, UsesParams, UsesGenerators, BoundBefore, BindsParam;
    if !shadowed && IsRefCall(e, x) {
      var k := ExternalKeyword(e.keywords);
      return Call(e.func, e.args + [r], WithoutKeyword(e.keywords, k)), 1;
    }
    if !shadowed && IsUse(e, x) {
      return r, 1;
    }
    match e
    case Name(_, _) => return e, 0;
    case Constant(_) => return e, 0;
    case Call(func, args, keywords) =>
      var func', n := SubstituteInExpr(func, x, r, shadowed);
      var args', n' := SubstituteInList(args, x, r, shadowed);
      var keywords', n'' := SubstituteInKeywords(keywords, x, r, shadowed);
      return Call(func', args', keywords'), n + n' + n'';
    case Attribute(target, attr) =>
      var target', n := SubstituteInExpr(target, x, r, shadowed);
      return Attribute(target', attr), n;
    case BinOp(left, right) =>
      var left', n := SubstituteInExpr(left, x, r, shadowed);
      var right', n' := SubstituteInExpr(right, x, r, shadowed);
      return BinOp(left', right'), n + n';
    case IfExp(test, body, orelse) =>
      var test', n := SubstituteInExpr(test, x, r, shadowed);
      var body', n' := SubstituteInExpr(body, x, r, shadowed);
      var orelse', n'' := SubstituteInExpr(orelse, x, r, shadowed);
      return IfExp(test', body', orelse'), n + n' + n'';
    case Lambda(params, body) =>
      var params', n := SubstituteInParams(params, x, r, shadowed);
      ParamsKept(params, x, r, shadowed);
      var body', n' := SubstituteInExpr(body, x, r, shadowed || BindsParam(params', x));
      return Lambda(params', body'), n + n';
    case ListComp(elt, generators) =>
      var generators', n, added := SubstituteInGenerators(generators, x, r, shadowed);
      var elt', n' := SubstituteInExpr(elt, x, r, shadowed || added);
      ListCompForms(elt, generators, x, r, shadowed);
      return ListComp(elt', generators'), n + n';
    case Tuple(elts) =>
      var elts', n := SubstituteInList(elts, x, r, shadowed);
      return Tuple(elts'), n;
    case List(elts) =>
      var elts', n := SubstituteInList(elts, x, r, shadowed);
      return List(elts'), n;
  }

  method SubstituteInList(es: seq<Expr>, x: string, r: Expr, shadowed: bool) returns (result: seq<Expr>, count: nat)
    requires Closed(r)
    ensures result == SubAll(es, x, r, shadowed) && count == UsesAll(es, x, shadowed)
    decreases es
  {
    hide Sub, Uses;
    result, count := [], 0;
    for k := 0 to |es|
      invariant |result| == k && forall j :: 0 <= j < k ==> result[j] == Sub(es[j], x, r, shadowed)
      invariant count == UsesAll(es[..k], x, shadowed)
    {
      assert es[..k + 1][..k] == es[..k];
      var item, n := SubstituteInExpr(es[k], x, r, shadowed);
      result, count := result + [item], count + n;
    }
    assert es[..|es|] == es;
  }

  method SubstituteInKeywords(keywords: seq<Keyword>, x: string, r: Expr, shadowed: bool) returns (result: seq<Keyword>, count: nat)
    requires Closed(r)
    ensures result == SubKeywords(keywords, x, r, shadowed) && count == UsesKeywords(keywords, x, shadowed)
    decreases keywords
  {
    hide Sub, Uses;
    result, count := [], 0;
    for k := 0 to |keywords|
      invariant |result| == k && forall j :: 0 <= j < k ==> result[j] == SubKeyword(keywords[j], x, r, shadowed)
      invariant count == UsesKeywords(keywords[..k], x, shadowed)
    {
      assert keywords[..k + 1][..k] == keywords[..k];
      var keyword, n := SubstituteInKeyword(keywords[k], x, r, shadowed);
      result, count := result + [keyword], count + n;
    }
    assert keywords[..|keywords|] == keywords;
  }

  method SubstituteInKeyword(keyword: Keyword, x: string, r: Expr, shadowed: bool) returns (result: Keyword, count: nat)
    requires Closed(r)
    ensures result == SubKeyword(keyword, x, r, shadowed) && count == UsesKeyword(keyword, x, shadowed)
    decreases keyword
  {
    match keyword
    case Keyword(arg, e) =>
      var value, n := SubstituteInExpr(e, x, r, shadowed);
      return Keyword(arg, value), n;
  }

  method SubstituteInParams(params: seq<Param>, x: string, r: Expr, shadowed: bool) returns (result: seq<Param>, count: nat)
    requires Closed(r)
    ensures result == SubParams(params, x, r, shadowed) && count == UsesParams(params, x, shadowed)
    decreases params
  {
    hide Sub, Uses;
    result, count := [], 0;
    for k := 0 to |params|
      invariant |result| == k
      invariant forall j :: 0 <= j < k ==> result[j] == Param(params[j].name, SubDefault(params[j].default, x, r, shadowed))
      invariant count == UsesParams(params[..k], x, shadowed)
    {
      assert params[..k + 1][..k] == params[..k];
      match params[k].default
      case None => result := result + [params[k]];
      case Some(e) =>
        var default, n := SubstituteInExpr(e, x, r, shadowed);
        result, count := result + [Param(params[k].name, Some(default))], count + n;
    }
    assert params[..|params|] == params;
  }

  lemma {:induction false} BoundStep(generators: seq<Comprehension>, k: nat, x: string)
    requires k < |generators|
    ensures !BoundBefore(generators, 0, x)
    ensures BoundBefore(generators, k + 1, x) == (BoundBefore(generators, k, x) || TargetBinds(generators[k].target, x))
  {
    hide TargetBinds;
  }

  lemma {:induction false} UsesStep(generators: seq<Comprehension>, k: nat, x: string, shadowed: bool)
    requires k < |generators|
    ensures UsesGenerators(generators, k + 1, x, shadowed) ==
            UsesGenerators(generators, k, x, shadowed)
            + Uses(generators[k].iter, x, shadowed || BoundBefore(generators, k, x))
            + Uses(generators[k].target, x, shadowed || BoundBefore(generators, k, x))
            + UsesAll(generators[k].ifs, x, shadowed || BoundBefore(generators, k + 1, x))
  {
    hide Uses, UsesAll, BoundBefore;
    assert k + 1 - 1 == k;
  }

  lemma {:induction false} NoGenerators(generators: seq<Comprehension>, x: string, r: Expr, shadowed: bool)
    ensures |SubGenerators(generators, x, r, shadowed)| == |generators|
    ensures UsesGenerators(generators, 0, x, shadowed) == 0 && !BoundBefore(generators, 0, x)
  {
  }

  /** The generators, with whether one of their targets binds the name. */
  method SubstituteInGenerators(generators: seq<Comprehension>, x: string, r: Expr, shadowed: bool)
    returns (result: seq<Comprehension>, count: nat, added: bool)
    requires Closed(r)
    ensures result == SubGenerators(generators, x, r, shadowed)
    ensures count == UsesGenerators(generators, |generators|, x, shadowed)
    ensures added == BoundBefore(generators, |generators|, x)
    decreases generators
  {
    hide Sub, Uses, SubAll, UsesAll, TargetBinds, SubGenerators, BoundBefore, UsesGenerators, Closed;
    ghost var expected := SubGenerators(generators, x, r, shadowed);
    NoGenerators(generators, x, r, shadowed);
    result, count, added := [], 0, false;
    for k := 0 to |generators|
      invariant result == expected[..k]
      invariant count == UsesGenerators(generators, k, x, shadowed)
      invariant added == BoundBefore(generators, k, x)
    {
      var g := generators[k];
      var iter, n := SubstituteInExpr(g.iter, x, r, shadowed || added);
      var target, n' := SubstituteInExpr(g.target, x, r, shadowed || added);
      BindingKept(g.target, x, r, shadowed || added);
      BoundStep(generators, k, x);
      added := added || TargetBinds(target, x);
      var ifs, n'' := SubstituteInList(g.ifs, x, r, shadowed || added);
      GeneratorAt(generators, k, x, r, shadowed);
      UsesStep(generators, k, x, shadowed);
      assert expected[..k + 1] == expected[..k] + [Comprehension(target, iter, ifs)];
      result, count := result + [Comprehension(target, iter, ifs)], count + (n + n' + n'');
    }
  }
}
