/** The part of the Python syntax tree that the native engine navigates and edits. */
module Ast {
  import opened Wrappers

  datatype Ctx = Load | Store | Del

  datatype Literal = NoneLit | BoolLit(b: bool) | IntLit(i: int) | StrLit(s: string)

  datatype Expr =
    | Name(id: string, ctx: Ctx)
    | Constant(value: Literal)
    | Call(func: Expr, args: seq<Expr>, keywords: seq<Keyword>)
    | Attribute(target: Expr, attr: string)
    | BinOp(left: Expr, right: Expr)
    | IfExp(test: Expr, body: Expr, orelse: Expr)
    | Lambda(params: seq<Param>, body: Expr)
    | ListComp(elt: Expr, generators: seq<Comprehension>)
    | Tuple(elts: seq<Expr>)
    | List(elts: seq<Expr>)

  datatype Keyword = Keyword(arg: Option<string>, value: Expr)

  datatype Param = Param(name: string, default: Option<Expr>)

  datatype Comprehension = Comprehension(target: Expr, iter: Expr, ifs: seq<Expr>)

  datatype Arg = Arg(name: string, default: Option<Expr>)

  datatype Arguments = Arguments(
    posonlyargs: seq<Arg>, args: seq<Arg>, vararg: Option<Arg>, kwonlyargs: seq<Arg>, kwarg: Option<Arg>)

  datatype Alias = Alias(name: string, asname: Option<string>)

  datatype WithItem = WithItem(contextExpr: Expr, optionalVars: Option<Expr>)

  /** What a statement is, without the statements nested in it. */
  datatype Head =
    | ModuleHead
    | FunctionDef(name: string, arguments: Arguments, isAsync: bool)
    | ClassDef(name: string)
    | If(test: Expr)
    | While(test: Expr)
    | For(target: Expr, iter: Expr, isAsync: bool)
    | With(items: seq<WithItem>, isAsync: bool)
    | Try(isStar: bool)
    | Match(subject: Expr)
    | ExprStmt(value: Expr)
    | Assign(targets: seq<Expr>, value: Expr)
    | Delete(targets: seq<Expr>)
    | Return(result: Option<Expr>)
    | Import(names: seq<Alias>)
    | ImportFrom(from: string, names: seq<Alias>)
    | Simple(tag: string)

  /** An except handler or a match case. */
  datatype Branch = Branch(tag: string, body: seq<Stmt>)

  /** A module is the statement with `ModuleHead`; suites that a head does not have are never entered. */
  datatype Stmt = Stmt(head: Head, body: seq<Stmt>, orelse: seq<Stmt>, finalbody: seq<Stmt>, branches: seq<Branch>)

  type Module = Stmt

  /** A suite of a statement. */
  datatype Slot = InBody | InOrelse | InFinalbody | InHandler(k: nat) | InCase(k: nat)

  /** A statement inside a suite; a sequence of steps leads from a statement to one nested in it. */
  datatype Step = Step(slot: Slot, index: nat)

  type Address = seq<Step>

  /** The name under which a marker call is known. */
  function CallName(func: Expr): Option<string> {
    match func
    case Name(id, _) => Some(id)
    case Attribute(_, attr) => Some(attr)
    case _ => None
  }

  predicate HasBody(h: Head) {
    h.ModuleHead? || h.FunctionDef? || h.ClassDef? || h.If? || h.While? || h.For? || h.With? || h.Try?
  }

  predicate HasOrelse(h: Head) {
    h.If? || h.While? || h.For? || h.Try?
  }

  /** The suites a statement path may enter, with the branch suites of `try` and `match`. */
  function Suite(s: Stmt, slot: Slot): Option<seq<Stmt>> {
    match slot
    case InBody => if HasBody(s.head) then Some(s.body) else None
    case InOrelse => if HasOrelse(s.head) then Some(s.orelse) else None
    case InFinalbody => if s.head.Try? then Some(s.finalbody) else None
    case InHandler(k) => if s.head.Try? && k < |s.branches| then Some(s.branches[k].body) else None
    case InCase(k) => if s.head.Match? && k < |s.branches| then Some(s.branches[k].body) else None
  }

  function WithSuite(s: Stmt, slot: Slot, suite: seq<Stmt>): (r: Stmt)
    requires Suite(s, slot).Some?
    ensures r.head == s.head && |r.branches| == |s.branches|
    ensures forall other :: Suite(r, other) == if other == slot then Some(suite) else Suite(s, other)
  {
    match slot
    case InBody => s.(body := suite)
    case InOrelse => s.(orelse := suite)
    case InFinalbody => s.(finalbody := suite)
    case InHandler(k) => s.(branches := s.branches[k := s.branches[k].(body := suite)])
    case InCase(k) => s.(branches := s.branches[k := s.branches[k].(body := suite)])
  }

  /** The statement at an address, if there is one. */
  function StmtAt(s: Stmt, at: Address): Option<Stmt>
    decreases |at|
  {
    if at == [] then Some(s)
    else match Suite(s, at[0].slot)
      case None => None
      case Some(suite) =>
        if at[0].index < |suite| then StmtAt(suite[at[0].index], at[1..]) else None
  }

  lemma {:induction false} StmtAtCompose(s: Stmt, a: Address, b: Address)
    requires StmtAt(s, a).Some?
    ensures StmtAt(s, a + b) == StmtAt(StmtAt(s, a).value, b)
    decreases |a|
  {
    if a == [] {
      assert a + b == b;
    } else {
      var suite := Suite(s, a[0].slot).value;
      StmtAtCompose(suite[a[0].index], a[1..], b);
      assert (a + b)[1..] == a[1..] + b;
    }
  }
}
