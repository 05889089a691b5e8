/** Where external substitution puts the literal, place by place in the expression (materialize_ir.rs). */
module ExternalPlaces {
  import opened Wrappers
  import opened Ast
  import opened Places
  import opened ExternalSubst

  // ---------- shadows ----------

  /** Whether the expression itself shadows the name on the way in: a lambda in its body, a generator in what follows its target. */
  predicate Shadows(e: Expr, step: Into, x: string) {
    match e
    case Lambda(params, _) => step.IntoLambda? && BindsParam(params, x)
    case ListComp(_, generators) =>
      (match step
       case IntoElt => BoundBefore(generators, |generators|, x)
       case IntoGenTarget(k) => k <= |generators| && BoundBefore(generators, k, x)
       case IntoGenIter(k) => k <= |generators| && BoundBefore(generators, k, x)
       case IntoGenIf(k, _) => k < |generators| && BoundBefore(generators, k + 1, x)
       case _ => false)
    case _ => false
  }

  predicate ShadowedAt(e: Expr, p: seq<Into>, x: string, shadowed: bool)
    decreases |p|
  {
    if p == [] || Child(e, p[0]).None? then shadowed
    else ShadowedAt(Child(e, p[0]).value, p[1..], x, shadowed || Shadows(e, p[0], x))
  }

  predicate IsReplaced(e: Expr, x: string, shadowed: bool) {
    !shadowed && (IsRefCall(e, x) || IsUse(e, x))
  }

  /** Nothing above the place is itself replaced. */
  predicate Open(e: Expr, p: seq<Into>, x: string, shadowed: bool)
    decreases |p|
  {
    p != [] ==>
      && !IsReplaced(e, x, shadowed)
      && (Child(e, p[0]).Some? ==> Open(Child(e, p[0]).value, p[1..], x, shadowed || Shadows(e, p[0], x)))
  }

  // ---------- one step ----------

  /** The same expression but for the expressions in it. */
  predicate SameForm(a: Expr, b: Expr) {
    match a
    case Name(_, _) => b == a
    case Constant(_) => b == a
    case Call(_, args, keywords) =>
      b.Call? && |b.args| == |args| && |b.keywords| == |keywords| && forall k :: 0 <= k < |keywords| ==> b.keywords[k].arg == keywords[k].arg
    case Attribute(_, attr) => b.Attribute? && b.attr == attr
    case BinOp(_, _) => b.BinOp?
    case IfExp(_, _, _) => b.IfExp?
    case Lambda(params, _) =>
      b.Lambda? && |b.params| == |params|
      && forall k :: 0 <= k < |params| ==> b.params[k].name == params[k].name && (b.params[k].default.Some? <==> params[k].default.Some?)
    case ListComp(_, generators) =>
      b.ListComp? && |b.generators| == |generators| && forall k :: 0 <= k < |generators| ==> |b.generators[k].ifs| == |generators[k].ifs|
    case Tuple(elts) => b.Tuple? && |b.elts| == |elts|
    case List(elts) => b.List? && |b.elts| == |elts|
  }

  lemma {:induction false} FormKept(e: Expr, x: string, r: Expr, shadowed: bool)
    requires !IsReplaced(e, x, shadowed)
    ensures SameForm(e, Sub(e, x, r, shadowed))
  {
    hide BoundBefore, BindsParam;
    match e
    case ListComp(_, generators) =>
      forall k | 0 <= k < |generators| ensures |SubGenerators(generators, x, r, shadowed)[k].ifs| == |generators[k].ifs| {
        GeneratorAt(generators, k, x, r, shadowed);
      }
    case Lambda(params, _) => ParamAt(params, x, r, shadowed);
    case Call(_, _, keywords) => KeywordAt(keywords, x, r, shadowed);
    case _ =>
  }

  lemma {:induction false} KeywordAt(keywords: seq<Keyword>, x: string, r: Expr, shadowed: bool)
    ensures var after := SubKeywords(keywords, x, r, shadowed);
            && |after| == |keywords|
            && forall k :: 0 <= k < |keywords| ==>
                 after[k].arg == keywords[k].arg && after[k].value == Sub(keywords[k].value, x, r, shadowed)
  {
    hide Sub;
    var after := SubKeywords(keywords, x, r, shadowed);
    forall k | 0 <= k < |keywords|
      ensures after[k].arg == keywords[k].arg && after[k].value == Sub(keywords[k].value, x, r, shadowed)
    {
      assert after[k] == SubKeyword(keywords[k], x, r, shadowed);
    }
  }

  lemma {:induction false} ParamAt(params: seq<Param>, x: string, r: Expr, shadowed: bool)
    ensures var after := SubParams(params, x, r, shadowed);
            && |after| == |params|
            && forall k :: 0 <= k < |params| ==>
                 && after[k].name == params[k].name
                 && (after[k].default.Some? <==> params[k].default.Some?)
                 && (params[k].default.Some? ==> after[k].default == Some(Sub(params[k].default.value, x, r, shadowed)))
  {
    hide Sub;
  }

  lemma {:induction false} ChildSubstituted(e: Expr, step: Into, x: string, r: Expr, shadowed: bool)
    requires !IsReplaced(e, x, shadowed) && Child(e, step).Some?
    ensures Child(Sub(e, x, r, shadowed), step) == Some(Sub(Child(e, step).value, x, r, shadowed || Shadows(e, step, x)))
  {
    hide IsReplaced, Sub, Child, Shadows;
    if e.ListComp? {
      GeneratedSubstituted(e.elt, e.generators, step, x, r, shadowed);
    } else if e.Lambda? {
      BoundSubstituted(e.params, e.body, step, x, r, shadowed);
    } else {
      UnboundSubstituted(e, step, x, r, shadowed);
    }
  }

  lemma {:induction false} UnboundSubstituted(e: Expr, step: Into, x: string, r: Expr, shadowed: bool)
    requires !IsReplaced(e, x, shadowed) && Child(e, step).Some? && !e.Lambda? && !e.ListComp?
    ensures Child(Sub(e, x, r, shadowed), step) == Some(Sub(Child(e, step).value, x, r, shadowed || Shadows(e, step, x)))
  {
    hide BoundBefore, BindsParam, SubGenerators, SubParams, SubKeyword, IsRefCall, IsUse;
    if e.Call? {
      KeywordAt(e.keywords, x, r, shadowed);
    }
  }

  lemma {:induction false} BoundSubstituted(params: seq<Param>, body: Expr, step: Into, x: string, r: Expr, shadowed: bool)
    requires Child(Lambda(params, body), step).Some?
    ensures var e := Lambda(params, body);
            Child(Sub(e, x, r, shadowed), step) == Some(Sub(Child(e, step).value, x, r, shadowed || Shadows(e, step, x)))
  {
    hide Sub, SubParams, BindsParam;
    ParamAt(params, x, r, shadowed);
    LambdaForms(params, body, x, r, shadowed);
  }

  lemma {:induction false} GeneratedSubstituted(
      elt: Expr, generators: seq<Comprehension>, step: Into, x: string, r: Expr, shadowed: bool)
    requires Child(ListComp(elt, generators), step).Some?
    ensures var e := ListComp(elt, generators);
            Child(Sub(e, x, r, shadowed), step) == Some(Sub(Child(e, step).value, x, r, shadowed || Shadows(e, step, x)))
  {
    hide Sub, SubGenerators, BoundBefore;
    ListCompForms(elt, generators, x, r, shadowed);
    if step.IntoGenTarget? || step.IntoGenIter? || step.IntoGenIf? {
      GeneratorAt(generators, step.k, x, r, shadowed);
    }
  }

  // ---------- every place ----------

  /** What stands at a place of the result is what stood there, substituted under the shadows on the way. */
  lemma {:induction false} SubstitutedAt(e: Expr, p: seq<Into>, x: string, r: Expr, shadowed: bool)
    requires At(e, p).Some? && Open(e, p, x, shadowed)
    ensures At(Sub(e, x, r, shadowed), p) == Some(Sub(At(e, p).value, x, r, ShadowedAt(e, p, x, shadowed)))
    decreases |p|
  {
    hide Sub, Child, Shadows, IsReplaced;
    if p != [] {
      ChildSubstituted(e, p[0], x, r, shadowed);
      SubstitutedAt(Child(e, p[0]).value, p[1..], x, r, shadowed || Shadows(e, p[0], x));
    }
  }

  /** A reference call with the literal as its last argument, and without its first `external` keyword. */
  ghost predicate RefReplaced(before: Expr, after: Expr, r: Expr) {
    && before.Call? && after.Call? && after.func == before.func
    && |after.args| == |before.args| + 1 && after.args[..|before.args|] == before.args && after.args[|before.args|] == r
    && exists k :: 0 <= k < |before.keywords| && IsFirstExternal(before.keywords, k)
                   && after.keywords == before.keywords[..k] + before.keywords[k + 1..]
  }

  predicate IsFirstExternal(keywords: seq<Keyword>, k: nat)
    requires k < |keywords|
  {
    keywords[k].arg == Some("external") && forall j :: 0 <= j < k ==> keywords[j].arg != Some("external")
  }

  lemma {:induction false} FirstExternal(keywords: seq<Keyword>)
    requires ExternalKeyword(keywords) < |keywords|
    ensures IsFirstExternal(keywords, ExternalKeyword(keywords))
  {
    if keywords[0].arg != Some("external") {
      FirstExternal(keywords[1..]);
      var k := ExternalKeyword(keywords[1..]);
      forall j | 0 <= j < k + 1 ensures keywords[j].arg != Some("external") {
        assert j > 0 ==> keywords[1..][j - 1] == keywords[j];
      }
    }
  }

  lemma {:induction false} RefCallReplaced(e: Expr, x: string, r: Expr)
    requires IsRefCall(e, x)
    ensures RefReplaced(e, Sub(e, x, r, false), r)
  {
    FirstExternal(e.keywords);
    var k := ExternalKeyword(e.keywords);
    assert Sub(e, x, r, false).keywords == e.keywords[..k] + e.keywords[k + 1..];
  }

  /**
   What a pass does at each place below no other replacement: a shadowed expression stays, a use becomes the literal, a
   reference call takes it as its last argument, and any other expression keeps its form.
   */
  lemma {:induction false} WhatIsPutWhere(e: Expr, p: seq<Into>, x: string, r: Expr)
    requires At(e, p).Some? && Open(e, p, x, false)
    ensures At(Sub(e, x, r, false), p).Some?
    ensures var before, after, shadowed := At(e, p).value, At(Sub(e, x, r, false), p).value, ShadowedAt(e, p, x, false);
            && (shadowed ==> after == before)
            && (!shadowed && IsUse(before, x) ==> after == r)
            && (!shadowed && IsRefCall(before, x) ==> RefReplaced(before, after, r))
            && (!IsReplaced(before, x, shadowed) ==> SameForm(before, after))
  {
    var before, shadowed := At(e, p).value, ShadowedAt(e, p, x, false);
    SubstitutedAt(e, p, x, r, false);
    if shadowed {
      ShadowedUnchanged(before, x, r);
      FormKept(before, x, r, true);
    } else if IsRefCall(before, x) {
      RefCallReplaced(before, x, r);
    } else if !IsUse(before, x) {
      FormKept(before, x, r, false);
    }
  }
}
