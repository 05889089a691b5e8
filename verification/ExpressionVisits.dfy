/**
 The paths that extraction prints for expressions (template_extract.rs), and which of them the materializer can follow
 (materialize_ir.rs).
 */
module ExpressionVisits {
  import opened Wrappers
  import opened Ast
  import opened AstPaths
  import opened Navigation
  import opened Extraction
  import opened LocatorRoundTrip
  import opened ExpressionEdges

  /** An expression with its path; it is open when no field on the way is one that the materializer does not enter. */
  datatype ExprVisit = ExprVisit(path: seq<Segment>, expr: Expr, isOpen: bool)

  function Below(path: seq<Segment>, name: string): seq<Segment> {
    path + [Segment(ParseField(name), None)]
  }

  function BelowAt(path: seq<Segment>, name: string, i: nat): seq<Segment> {
    path + [Segment(ParseField(name), Some(i))]
  }

  /** An expression and those in it, in the order in which extraction comes to them. */
  function ExprVisits(e: Expr, path: seq<Segment>, isOpen: bool): seq<ExprVisit>
    decreases e
  {
    [ExprVisit(path, e, isOpen)] +
    match e
    case Call(func, args, keywords) =>
      ExprVisits(func, Below(path, "func"), isOpen) + ItemVisits(args, path, "args", 0, isOpen) + KeywordVisits(keywords, path, 0)
    case Attribute(target, _) => ExprVisits(target, Below(path, "value"), isOpen)
    case BinOp(left, right) => ExprVisits(left, Below(path, "left"), isOpen) + ExprVisits(right, Below(path, "right"), isOpen)
    case IfExp(test, body, orelse) =>
      ExprVisits(test, Below(path, "test"), false) + ExprVisits(body, Below(path, "body"), false)
      + ExprVisits(orelse, Below(path, "orelse"), false)
    case Lambda(params, body) => DefaultVisits(params, Below(path, "args"), 0) + ExprVisits(body, Below(path, "body"), false)
    case ListComp(elt, generators) => ExprVisits(elt, Below(path, "elt"), false) + GeneratorVisits(generators, path, 0)
    case Tuple(elts) => ItemVisits(elts, path, "elts", 0, isOpen)
    case List(elts) => ItemVisits(elts, path, "elts", 0, isOpen)
    case _ => []
  }

  function ItemVisits(items: seq<Expr>, path: seq<Segment>, name: string, from: nat, isOpen: bool): seq<ExprVisit>
    decreases items
  {
    if items == [] then []
    else ExprVisits(items[0], BelowAt(path, name, from), isOpen) + ItemVisits(items[1..], path, name, from + 1, isOpen)
  }

  function KeywordVisits(keywords: seq<Keyword>, path: seq<Segment>, from: nat): seq<ExprVisit>
    decreases keywords
  {
    if keywords == [] then []
    else KeywordVisit(keywords[0], BelowAt(path, "keywords", from)) + KeywordVisits(keywords[1..], path, from + 1)
  }

  function KeywordVisit(keyword: Keyword, path: seq<Segment>): seq<ExprVisit>
    decreases keyword
  {
    match keyword case Keyword(_, e) => ExprVisits(e, Below(path, "value"), false)
  }

  /** Defaults are counted without the parameters that have none. */
  function DefaultVisits(params: seq<Param>, path: seq<Segment>, from: nat): seq<ExprVisit>
    decreases params
  {
    if params == [] then []
    else
      match params[0]
      case Param(_, None) => DefaultVisits(params[1..], path, from)
      case Param(_, Some(e)) => ExprVisits(e, BelowAt(path, "defaults", from), false) + DefaultVisits(params[1..], path, from + 1)
  }

  function GeneratorVisits(generators: seq<Comprehension>, path: seq<Segment>, from: nat): seq<ExprVisit>
    decreases generators
  {
    if generators == [] then []
    else GeneratorVisit(generators[0], BelowAt(path, "generators", from)) + GeneratorVisits(generators[1..], path, from + 1)
  }

  function GeneratorVisit(g: Comprehension, path: seq<Segment>): seq<ExprVisit>
    decreases g
  {
    match g
    case Comprehension(target, iter, ifs) =>
      ExprVisits(target, Below(path, "target"), false) + ExprVisits(iter, Below(path, "iter"), false)
      + ItemVisits(ifs, path, "ifs", 0, false)
  }

  /** The expressions of a statement outside its suites; tests and the parts of a `for` are not entered afterwards. */
  function HeadVisits(h: Head, path: seq<Segment>): seq<ExprVisit> {
    match h
    case ExprStmt(value) => ExprVisits(value, Below(path, "value"), true)
    case Assign(targets, value) => ItemVisits(targets, path, "targets", 0, true) + ExprVisits(value, Below(path, "value"), true)
    case Delete(targets) => ItemVisits(targets, path, "targets", 0, true)
    case Return(result) => if result.Some? then ExprVisits(result.value, Below(path, "value"), true) else []
    case For(target, iter, _) => ExprVisits(target, Below(path, "target"), false) + ExprVisits(iter, Below(path, "iter"), false)
    case While(test) => ExprVisits(test, Below(path, "test"), false)
    case If(test) => if IsCallNamed(test, "astichi_elif") then [] else ExprVisits(test, Below(path, "test"), false)
    case _ => []
  }

  // ---------- following the paths ----------

  /** The visit lies below the path, and is read from there exactly when it is open. */
  ghost predicate ReadBelow(e: Expr, path: seq<Segment>, isOpen: bool, v: ExprVisit) {
    && path <= v.path && (v.isOpen ==> isOpen)
    && (isOpen ==> CloneExpr(e, v.path[|path|..]) == if v.isOpen then Ok(v.expr) else Err(BadPath))
  }

  lemma {:induction false} ReadItself(e: Expr, path: seq<Segment>, isOpen: bool)
    ensures ReadBelow(e, path, isOpen, ExprVisit(path, e, isOpen))
  {
    assert path[|path|..] == [];
  }

  /** One step up, over a field that is entered. */
  lemma {:induction false} ReadPart(e: Expr, path: seq<Segment>, s: Segment, part: Expr, isOpen: bool, v: ExprVisit)
    requires Part(e, s) == Some(part) && ReadBelow(part, path + [s], isOpen, v)
    ensures ReadBelow(e, path, isOpen, v)
  {
    hide Part;
    var rest := v.path[|path|..];
    assert v.path[|path|] == (path + [s])[|path|] == s;
    assert rest[0] == s && rest[1..] == v.path[|path + [s]|..];
  }

  /** And over one that is not. */
  lemma {:induction false} NotRead(e: Expr, path: seq<Segment>, s: Segment, isOpen: bool, v: ExprVisit)
    requires Part(e, s) == None && path + [s] <= v.path && !v.isOpen
    ensures ReadBelow(e, path, isOpen, v)
  {
    hide Part;
    assert v.path[|path|] == (path + [s])[|path|] == s;
    assert v.path[|path|..][0] == s;
  }

  /** Everything visited below an expression is read from there exactly when it is open. */
  lemma {:induction false} VisitsRead(e: Expr, path: seq<Segment>, isOpen: bool, v: ExprVisit)
    requires v in ExprVisits(e, path, isOpen)
    ensures ReadBelow(e, path, isOpen, v)
    decreases e, 1
  {
    hide ReadBelow, CloneExpr, ItemVisits, KeywordVisits, DefaultVisits, GeneratorVisits;
    if v == ExprVisit(path, e, isOpen) {
      ReadItself(e, path, isOpen);
    } else {
      match e
      case Call(_, _, _) => CallRead(e, path, isOpen, v);
      case Attribute(target, _) =>
        VisitsRead(target, Below(path, "value"), isOpen, v);
        ReadPart(e, path, Segment(Value, None), target, isOpen, v);
      case BinOp(_, _) => OperandRead(e, path, isOpen, v);
      case Tuple(elts) =>
        var k := ItemRead(elts, path, "elts", 0, isOpen, v);
        ReadPart(e, path, Segment(Other("elts"), Some(k)), elts[k], isOpen, v);
      case List(elts) =>
        var k := ItemRead(elts, path, "elts", 0, isOpen, v);
        ReadPart(e, path, Segment(Other("elts"), Some(k)), elts[k], isOpen, v);
      case _ =>
        var s := NothingEntered(e, path, isOpen, v);
        NotRead(e, path, s, isOpen, v);
    }
  }

  lemma {:induction false} CallRead(e: Expr, path: seq<Segment>, isOpen: bool, v: ExprVisit)
    requires e.Call? && v in ExprVisits(e, path, isOpen) && v != ExprVisit(path, e, isOpen)
    ensures ReadBelow(e, path, isOpen, v)
    decreases e, 0
  {
    hide ReadBelow, CloneExpr, ItemVisits, KeywordVisits, DefaultVisits, GeneratorVisits;
    if v in ExprVisits(e.func, Below(path, "func"), isOpen) {
      VisitsRead(e.func, Below(path, "func"), isOpen, v);
      ReadPart(e, path, Segment(Other("func"), None), e.func, isOpen, v);
    } else if v in ItemVisits(e.args, path, "args", 0, isOpen) {
      var k := ItemRead(e.args, path, "args", 0, isOpen, v);
      ReadPart(e, path, Segment(Other("args"), Some(k)), e.args[k], isOpen, v);
    } else {
      var k := KeywordsClosed(e.keywords, path, 0, v);
      NotRead(e, path, Segment(Other("keywords"), Some(k)), isOpen, v);
    }
  }

  lemma {:induction false} OperandRead(e: Expr, path: seq<Segment>, isOpen: bool, v: ExprVisit)
    requires e.BinOp? && v in ExprVisits(e, path, isOpen) && v != ExprVisit(path, e, isOpen)
    ensures ReadBelow(e, path, isOpen, v)
    decreases e, 0
  {
    hide ReadBelow, CloneExpr;
    if v in ExprVisits(e.left, Below(path, "left"), isOpen) {
      VisitsRead(e.left, Below(path, "left"), isOpen, v);
      ReadPart(e, path, Segment(Other("left"), None), e.left, isOpen, v);
    } else {
      VisitsRead(e.right, Below(path, "right"), isOpen, v);
      ReadPart(e, path, Segment(Other("right"), None), e.right, isOpen, v);
    }
  }

  lemma {:induction false} ItemRead(items: seq<Expr>, path: seq<Segment>, name: string, from: nat, isOpen: bool, v: ExprVisit) returns (k: nat)
    requires v in ItemVisits(items, path, name, from, isOpen)
    ensures from <= k < from + |items| && ReadBelow(items[k - from], BelowAt(path, name, k), isOpen, v)
    decreases items
  {
    hide ReadBelow, ExprVisits, BelowAt;
    if v in ExprVisits(items[0], BelowAt(path, name, from), isOpen) {
      k := from;
      VisitsRead(items[0], BelowAt(path, name, from), isOpen, v);
    } else {
      k := ItemRead(items[1..], path, name, from + 1, isOpen, v);
    }
  }

  // ---------- fields that are not entered ----------

  lemma {:induction false} KeywordsClosed(keywords: seq<Keyword>, path: seq<Segment>, from: nat, v: ExprVisit) returns (k: nat)
    requires v in KeywordVisits(keywords, path, from)
    ensures BelowAt(path, "keywords", k) <= v.path && !v.isOpen
    decreases keywords
  {
    hide ExprVisits;
    if v in KeywordVisit(keywords[0], BelowAt(path, "keywords", from)) {
      k := from;
      KeywordClosed(keywords[0], BelowAt(path, "keywords", from), v);
    } else {
      k := KeywordsClosed(keywords[1..], path, from + 1, v);
    }
  }

  lemma {:induction false} KeywordClosed(keyword: Keyword, path: seq<Segment>, v: ExprVisit)
    requires v in KeywordVisit(keyword, path)
    ensures path <= v.path && !v.isOpen
    decreases keyword
  {
    match keyword case Keyword(_, e) => VisitsRead(e, Below(path, "value"), false, v);
  }

  lemma {:induction false} DefaultsClosed(params: seq<Param>, path: seq<Segment>, from: nat, v: ExprVisit)
    requires v in DefaultVisits(params, path, from)
    ensures path <= v.path && !v.isOpen
    decreases params
  {
    hide ExprVisits;
    match params[0]
    case Param(_, None) => DefaultsClosed(params[1..], path, from, v);
    case Param(_, Some(e)) =>
      if v in ExprVisits(e, BelowAt(path, "defaults", from), false) {
        VisitsRead(e, BelowAt(path, "defaults", from), false, v);
      } else {
        DefaultsClosed(params[1..], path, from + 1, v);
      }
  }

  lemma {:induction false} GeneratorsClosed(generators: seq<Comprehension>, path: seq<Segment>, from: nat, v: ExprVisit) returns (k: nat)
    requires v in GeneratorVisits(generators, path, from)
    ensures BelowAt(path, "generators", k) <= v.path && !v.isOpen
    decreases generators
  {
    hide ExprVisits;
    if v in GeneratorVisit(generators[0], BelowAt(path, "generators", from)) {
      k := from;
      GeneratorClosed(generators[0], BelowAt(path, "generators", from), v);
    } else {
      k := GeneratorsClosed(generators[1..], path, from + 1, v);
    }
  }

  lemma {:induction false} GeneratorClosed(g: Comprehension, path: seq<Segment>, v: ExprVisit)
    requires v in GeneratorVisit(g, path)
    ensures path <= v.path && !v.isOpen
    decreases g
  {
    hide ExprVisits;
    match g
    case Comprehension(target, iter, ifs) =>
      if v in ExprVisits(target, Below(path, "target"), false) {
        VisitsRead(target, Below(path, "target"), false, v);
      } else if v in ExprVisits(iter, Below(path, "iter"), false) {
        VisitsRead(iter, Below(path, "iter"), false, v);
      } else {
        var k := ItemRead(ifs, path, "ifs", 0, false, v);
      }
  }

  /** No field of these expressions is entered. */
  lemma {:induction false} NothingEntered(e: Expr, path: seq<Segment>, isOpen: bool, v: ExprVisit) returns (s: Segment)
    requires v in ExprVisits(e, path, isOpen) && v != ExprVisit(path, e, isOpen)
    requires e.IfExp? || e.Lambda? || e.ListComp? || e.Name? || e.Constant?
    ensures Part(e, s) == None && path + [s] <= v.path && !v.isOpen
    decreases e, 0
  {
    match e
    case IfExp(test, body, orelse) =>
      if v in ExprVisits(test, Below(path, "test"), false) {
        s := Segment(Test, None);
        VisitsRead(test, Below(path, "test"), false, v);
      } else if v in ExprVisits(body, Below(path, "body"), false) {
        s := Segment(Body, None);
        VisitsRead(body, Below(path, "body"), false, v);
      } else {
        s := Segment(Orelse, None);
        VisitsRead(orelse, Below(path, "orelse"), false, v);
      }
    case Lambda(params, body) =>
      if v in ExprVisits(body, Below(path, "body"), false) {
        s := Segment(Body, None);
        VisitsRead(body, Below(path, "body"), false, v);
      } else {
        s := Segment(Other("args"), None);
        DefaultsClosed(params, Below(path, "args"), 0, v);
      }
    case ListComp(elt, generators) =>
      if v in ExprVisits(elt, Below(path, "elt"), false) {
        s := Segment(Other("elt"), None);
        VisitsRead(elt, Below(path, "elt"), false, v);
      } else {
        var k := GeneratorsClosed(generators, path, 0, v);
        s := Segment(Other("generators"), Some(k));
      }
  }

  // ---------- from the module ----------

  /** In a statement, an open expression is read along its path, and one that is not is refused. */
  lemma {:induction false} HeadRead(h: Head, path: seq<Segment>, v: ExprVisit)
    requires v in HeadVisits(h, path)
    ensures path < v.path && !IsSuiteField(v.path[|path|].field)
    ensures CloneInHead(h, v.path[|path|..]) == if v.isOpen then Ok(v.expr) else Err(BadPath)
  {
    hide ExprVisits, ItemVisits, ReadBelow, CloneExpr;
    match h
    case ExprStmt(value) => FieldRead(h, path, "value", value, true, v);
    case Assign(targets, value) =>
      if v in ItemVisits(targets, path, "targets", 0, true) {
        TargetRead(h, targets, path, v);
      } else {
        FieldRead(h, path, "value", value, true, v);
      }
    case Delete(targets) => TargetRead(h, targets, path, v);
    case Return(result) => FieldRead(h, path, "value", result.value, true, v);
    case For(target, iter, _) =>
      if v in ExprVisits(target, Below(path, "target"), false) {
        FieldRead(h, path, "target", target, false, v);
      } else {
        FieldRead(h, path, "iter", iter, false, v);
      }
    case While(test) => FieldRead(h, path, "test", test, false, v);
    case If(test) => FieldRead(h, path, "test", test, false, v);
  }

  lemma {:induction false} FieldRead(h: Head, path: seq<Segment>, name: string, part: Expr, isOpen: bool, v: ExprVisit)
    requires v in ExprVisits(part, Below(path, name), isOpen)
    requires var s := Segment(ParseField(name), None);
             !IsSuiteField(s.field) && HeadPart(h, s) == if isOpen then Some(part) else None
    ensures path < v.path && !IsSuiteField(v.path[|path|].field)
    ensures CloneInHead(h, v.path[|path|..]) == if v.isOpen then Ok(v.expr) else Err(BadPath)
  {
    VisitsRead(part, Below(path, name), isOpen, v);
    hide ExprVisits, HeadPart, CloneExpr, ParseField;
    var s := Segment(ParseField(name), None);
    assert v.path[|path|] == (path + [s])[|path|] == s;
    assert v.path[|path|..][0] == s && v.path[|path|..][1..] == v.path[|path + [s]|..];
  }

  lemma {:induction false} TargetRead(h: Head, targets: seq<Expr>, path: seq<Segment>, v: ExprVisit)
    requires v in ItemVisits(targets, path, "targets", 0, true)
    requires (h.Assign? || h.Delete?) && h.targets == targets
    ensures path < v.path && !IsSuiteField(v.path[|path|].field)
    ensures CloneInHead(h, v.path[|path|..]) == if v.isOpen then Ok(v.expr) else Err(BadPath)
  {
    hide ExprVisits, ItemVisits, CloneExpr;
    var k := ItemRead(targets, path, "targets", 0, true, v);
    var s := Segment(Other("targets"), Some(k));
    assert v.path[|path|] == (path + [s])[|path|] == s;
    assert v.path[|path|..][0] == s && v.path[|path|..][1..] == v.path[|path + [s]|..];
    assert HeadPart(h, s) == Some(targets[k]);
  }

  /** Every segment can be read back from its text, as it can when its index is a machine word and its field has a plain name. */
  predicate Readable(path: seq<Segment>) {
    forall s :: s in path ==> Printable(s)
  }

  /**
   The path printed for an expression of a visited statement leads the materializer to that very expression, unless it
   goes through a field that is not entered; then it is refused.
   */
  lemma {:induction false} VisitedExpressionsAreRead(m: Module, v: Visit, w: ExprVisit)
    requires m.head.ModuleHead? && FitsMachine(m) && v in ModuleVisits(m)
    requires w in HeadVisits(v.stmt.head, Segments(v.at))
    ensures CloneExprIn(m, w.path) == if w.isOpen then Ok(w.expr) else Err(BadPath)
    ensures Readable(w.path) ==> CloneExprAtPath(m, PrintPath(w.path)) == CloneExprIn(m, w.path)
  {
    ModuleVisitsExact(m, v);
    assert v.at[0..] == v.at;
    HeadRead(v.stmt.head, Segments(v.at), w);
    hide HeadVisits, CloneInHead, CloneExprIn, ModuleVisits;
    if Readable(w.path) {
      ParsePrint(w.path);
    }
    var rest := w.path[|Segments(v.at)|..];
    assert w.path == Segments(v.at) + rest;
    ReadAtAddress(m, v.at, rest);
  }
}
