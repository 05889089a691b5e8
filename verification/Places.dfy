/** Places in an expression: the way from the expression to one inside it. */
module Places {
  import opened Wrappers
  import opened Ast

  datatype Into =
    | IntoFunc | IntoArg(k: nat) | IntoKeyword(k: nat)
    | IntoTarget | IntoLeft | IntoRight
    | IntoTest | IntoBody | IntoOrelse
    | IntoDefault(k: nat) | IntoLambda
    | IntoElt | IntoGenTarget(k: nat) | IntoGenIter(k: nat) | IntoGenIf(k: nat, j: nat)
    | IntoItem(k: nat)

  function Item(items: seq<Expr>, k: nat): Option<Expr> {
    if k < |items| then Some(items[k]) else None
  }

  function Child(e: Expr, step: Into): Option<Expr> {
    match e
    case Call(func, args, keywords) =>
      (match step
       case IntoFunc => Some(func)
       case IntoArg(k) => Item(args, k)
       case IntoKeyword(k) => if k < |keywords| then Some(keywords[k].value) else None
       case _ => None)
    case Attribute(target, _) => if step.IntoTarget? then Some(target) else None
    case BinOp(left, right) => if step.IntoLeft? then Some(left) else if step.IntoRight? then Some(right) else None
    case IfExp(test, body, orelse) =>
      if step.IntoTest? then Some(test) else if step.IntoBody? then Some(body) else if step.IntoOrelse? then Some(orelse) else None
    case Lambda(params, body) =>
      if step.IntoLambda? then Some(body) else if step.IntoDefault? && step.k < |params| then params[step.k].default else None
    case ListComp(elt, generators) =>
      (match step
       case IntoElt => Some(elt)
       case IntoGenTarget(k) => if k < |generators| then Some(generators[k].target) else None
       case IntoGenIter(k) => if k < |generators| then Some(generators[k].iter) else None
       case IntoGenIf(k, j) => if k < |generators| then Item(generators[k].ifs, j) else None
       case _ => None)
    case Tuple(elts) => if step.IntoItem? then Item(elts, step.k) else None
    case List(elts) => if step.IntoItem? then Item(elts, step.k) else None
    case _ => None
  }

  function At(e: Expr, p: seq<Into>): Option<Expr>
    decreases |p|
  {
    if p == [] then Some(e) else if Child(e, p[0]).None? then None else At(Child(e, p[0]).value, p[1..])
  }
}
