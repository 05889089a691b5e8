/**
 What substituting an external literal means: the result, evaluated where the name is not bound, is the original
 evaluated where it is.

 Evaluation has closures, default values, keyword arguments and comprehensions whose generators scope from left to
 right. It is partial: `None` stands for a run-time error or for more nested calls than `fuel` allows.
 */
module ExternalMeaning {
  import opened Wrappers
  import opened Ast

  // ---------- values ----------

  datatype Value =
    | Lit(literal: Literal)
    | Items(items: seq<Value>, mutable: bool)
    | Closure(params: seq<ParamValue>, body: Expr, env: Env)

  datatype ParamValue = ParamValue(name: string, default: Option<Value>)

  datatype Binding = Binding(name: string, value: Value)

  /** Later bindings hide earlier ones. */
  type Env = seq<Binding>

  /** How literals combine; the results hold whatever this is. */
  datatype Literals = Literals(
    binary: (Literal, Literal) -> Option<Literal>, attribute: (Literal, string) -> Option<Literal>, truth: Literal -> bool)

  /** The position of the binding in force, or none. */
  function Find(env: Env, x: string): (i: int)
    ensures -1 <= i < |env|
    ensures i >= 0 ==> env[i].name == x
    ensures forall j :: i < j < |env| ==> env[j].name != x
  {
    if env == [] then -1
    else if env[|env| - 1].name == x then |env| - 1
    else Find(env[..|env| - 1], x)
  }

  function Lookup(env: Env, x: string): Option<Value> {
    var i := Find(env, x);
    if i < 0 then None else Some(env[i].value)
  }

  function Truth(literals: Literals, v: Value): bool {
    match v
    case Lit(l) => literals.truth(l)
    case Items(items, _) => items != []
    case Closure(_, _, _) => true
  }

  /** The bindings a target makes for a value. */
  function Bind(target: Expr, v: Value): Option<Env>
    decreases target
  {
    match target
    case Name(id, Store) => Some([Binding(id, v)])
    case Tuple(elts) => if v.Items? && |v.items| == |elts| then BindAll(elts, v.items) else None
    case List(elts) => if v.Items? && |v.items| == |elts| then BindAll(elts, v.items) else None
    case _ => None
  }

  function BindAll(targets: seq<Expr>, vs: seq<Value>): Option<Env>
    requires |targets| == |vs|
    decreases targets
  {
    if targets == [] then Some([])
    else
      match (Bind(targets[0], vs[0]), BindAll(targets[1..], vs[1..]))
      case (Some(first), Some(rest)) => Some(first + rest)
      case _ => None
  }

  /** The value of one parameter: a positional argument, a keyword, or the default. */
  function Argument(param: ParamValue, k: nat, args: seq<Value>, keywords: Env): Option<Value> {
    if k < |args| then if Lookup(keywords, param.name).Some? then None else Some(args[k])
    else if Lookup(keywords, param.name).Some? then Lookup(keywords, param.name)
    else param.default
  }

  /** The parameters from `k` on, bound. */
  function BindParams(params: seq<ParamValue>, k: nat, args: seq<Value>, keywords: Env): Option<Env>
    requires k <= |params|
    decreases |params| - k
  {
    if k == |params| then Some([])
    else
      match (Argument(params[k], k, args, keywords), BindParams(params, k + 1, args, keywords))
      case (Some(v), Some(rest)) => Some([Binding(params[k].name, v)] + rest)
      case _ => None
  }

  predicate HasParam(params: seq<ParamValue>, x: string) {
    exists k :: 0 <= k < |params| && params[k].name == x
  }

  function BindCall(params: seq<ParamValue>, args: seq<Value>, keywords: Env): Option<Env> {
    if |args| <= |params| && forall k :: 0 <= k < |keywords| ==> HasParam(params, keywords[k].name)
    then BindParams(params, 0, args, keywords) else None
  }

  /** The environment in which a function body runs. */
  function Entered(f: Value, args: seq<Value>, keywords: Env): Option<Env>
    ensures Entered(f, args, keywords).Some? ==> f.Closure?
  {
    if !f.Closure? then None
    else match BindCall(f.params, args, keywords)
      case None => None
      case Some(bindings) => Some(f.env + bindings)
  }

  // ---------- evaluation ----------

  function Eval(literals: Literals, e: Expr, env: Env, fuel: nat): Option<Value>
    decreases fuel, e
  {
    match e
    case Name(id, ctx) => if ctx == Load then Lookup(env, id) else None
    case Constant(l) => Some(Lit(l))
    case Attribute(target, attr) =>
      (match Eval(literals, target, env, fuel)
       case Some(Lit(l)) => (match literals.attribute(l, attr) case Some(v) => Some(Lit(v)) case None => None)
       case _ => None)
    case BinOp(left, right) =>
      (match (Eval(literals, left, env, fuel), Eval(literals, right, env, fuel))
       case (Some(Lit(l)), Some(Lit(l'))) => (match literals.binary(l, l') case Some(v) => Some(Lit(v)) case None => None)
       case _ => None)
    case IfExp(test, body, orelse) =>
      (match Eval(literals, test, env, fuel)
       case None => None
       case Some(v) => if Truth(literals, v) then Eval(literals, body, env, fuel) else Eval(literals, orelse, env, fuel))
    case Tuple(elts) => (match EvalAll(literals, elts, env, fuel) case Some(vs) => Some(Items(vs, false)) case None => None)
    case List(elts) => (match EvalAll(literals, elts, env, fuel) case Some(vs) => Some(Items(vs, true)) case None => None)
    case Lambda(params, body) =>
      (match EvalParams(literals, params, env, fuel) case Some(ps) => Some(Closure(ps, body, env)) case None => None)
    case ListComp(_, generators) =>
      (match EvalGenerators(literals, e, 0, env, fuel) case Some(vs) => Some(Items(vs, true)) case None => None)
    case Call(func, args, keywords) =>
      if CallName(func) == Some("astichi_bind_external") && |args| == 1 && keywords == [] && args[0].Name? && args[0].ctx == Load then
        Lookup(env, args[0].id)
      else
        match (Eval(literals, func, env, fuel), EvalAll(literals, args, env, fuel), EvalKeywords(literals, keywords, env, fuel))
        case (Some(f), Some(vs), Some(ks)) =>
          (match Entered(f, vs, ks)
           case Some(inner) => if fuel == 0 then None else Eval(literals, f.body, inner, fuel - 1)
           case None => None)
        case _ => None
  }

  function EvalAll(literals: Literals, es: seq<Expr>, env: Env, fuel: nat): Option<seq<Value>>
    decreases fuel, es
  {
    if es == [] then Some([])
    else
      match (Eval(literals, es[0], env, fuel), EvalAll(literals, es[1..], env, fuel))
      case (Some(v), Some(vs)) => Some([v] + vs)
      case _ => None
  }

  function EvalKeywords(literals: Literals, keywords: seq<Keyword>, env: Env, fuel: nat): Option<Env>
    decreases fuel, keywords
  {
    if keywords == [] then Some([])
    else
      match (EvalKeyword(literals, keywords[0], env, fuel), EvalKeywords(literals, keywords[1..], env, fuel))
      case (Some(b), Some(bs)) => Some([b] + bs)
      case _ => None
  }

  function EvalKeyword(literals: Literals, keyword: Keyword, env: Env, fuel: nat): Option<Binding>
    decreases fuel, keyword
  {
    match keyword
    case Keyword(None, _) => None
    case Keyword(Some(arg), e) => (match Eval(literals, e, env, fuel) case Some(v) => Some(Binding(arg, v)) case None => None)
  }

  function EvalParams(literals: Literals, params: seq<Param>, env: Env, fuel: nat): Option<seq<ParamValue>>
    decreases fuel, params
  {
    if params == [] then Some([])
    else
      match (EvalParam(literals, params[0], env, fuel), EvalParams(literals, params[1..], env, fuel))
      case (Some(p), Some(ps)) => Some([p] + ps)
      case _ => None
  }

  function EvalParam(literals: Literals, param: Param, env: Env, fuel: nat): Option<ParamValue>
    decreases fuel, param
  {
    match param
    case Param(name, None) => Some(ParamValue(name, None))
    case Param(name, Some(e)) => (match Eval(literals, e, env, fuel) case Some(v) => Some(ParamValue(name, Some(v))) case None => None)
  }

  /** A comprehension from generator `k` on. */
  function EvalGenerators(literals: Literals, e: Expr, k: nat, env: Env, fuel: nat): Option<seq<Value>>
    requires e.ListComp? && k <= |e.generators|
    decreases fuel, e, |e.generators| - k, 1, 0
  {
    if k == |e.generators| then
      match Eval(literals, e.elt, env, fuel) case Some(v) => Some([v]) case None => None
    else
      match Eval(literals, e.generators[k].iter, env, fuel)
      case Some(Items(items, _)) => EvalItems(literals, e, k, items, env, fuel)
      case _ => None
  }

  function EvalItems(literals: Literals, e: Expr, k: nat, items: seq<Value>, env: Env, fuel: nat): Option<seq<Value>>
    requires e.ListComp? && k < |e.generators|
    decreases fuel, e, |e.generators| - k, 0, |items|
  {
    if items == [] then Some([])
    else
      match (EvalItem(literals, e, k, items[0], env, fuel), EvalItems(literals, e, k, items[1..], env, fuel))
      case (Some(vs), Some(rest)) => Some(vs + rest)
      case _ => None
  }

  function EvalItem(literals: Literals, e: Expr, k: nat, item: Value, env: Env, fuel: nat): Option<seq<Value>>
    requires e.ListComp? && k < |e.generators|
    decreases fuel, e, |e.generators| - k, 0, 0
  {
    match Bind(e.generators[k].target, item)
    case None => None
    case Some(bindings) =>
      match EvalConditions(literals, e.generators[k].ifs, env + bindings, fuel)
      case None => None
      case Some(kept) => if kept then EvalGenerators(literals, e, k + 1, env + bindings, fuel) else Some([])
  }

  function EvalConditions(literals: Literals, ifs: seq<Expr>, env: Env, fuel: nat): Option<bool>
    decreases fuel, ifs
  {
    if ifs == [] then Some(true)
    else
      match Eval(literals, ifs[0], env, fuel)
      case None => None
      case Some(v) => if Truth(literals, v) then EvalConditions(literals, ifs[1..], env, fuel) else Some(false)
  }
}
