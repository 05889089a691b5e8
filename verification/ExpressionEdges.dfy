/**
 Expression edges (materialize_ir.rs): following a path into an expression, replacing what is there, and where such a
 replacement lands after the statement splices.
 */
module ExpressionEdges {
  import opened Wrappers
  import opened Ast
  import opened AstPaths
  import opened Navigation
  import opened Splice
  import opened Templates
  import opened EdgeApplication
  import opened EdgeTargets
  import opened SpliceTheorem
  import opened Survivors

  // ---------- one step of a path ----------

  /** Fields that hold a list, of which a segment selects one item. */
  predicate IsListField(f: Field) {
    IsSuiteField(f) || f in [Other("args"), Other("elts"), Other("targets")]
  }

  predicate IsSuiteField(f: Field) {
    f in [Body, Orelse, Finalbody, Handlers, Cases]
  }

  predicate SamePlace(a: Segment, b: Segment) {
    a.field == b.field && (IsListField(a.field) ==> a.index == b.index)
  }

  /** The two paths part at some segment. */
  predicate Apart(p: seq<Segment>, q: seq<Segment>) {
    p != [] && q != [] && (!SamePlace(p[0], q[0]) || (p[0] == q[0] && Apart(p[1..], q[1..])))
  }

  function Item(items: seq<Expr>, s: Segment): Option<Expr> {
    if s.index.Some? && s.index.value < |items| then Some(items[s.index.value]) else None
  }

  /** The part of an expression that a segment selects; keywords, tests and comprehensions are not entered. */
  function Part(e: Expr, s: Segment): Option<Expr> {
    match e
    case Call(func, args, _) =>
      if s.field == Other("func") then Some(func) else if s.field == Other("args") then Item(args, s) else None
    case Attribute(target, _) => if s.field == Value then Some(target) else None
    case BinOp(left, right) =>
      if s.field == Other("left") then Some(left) else if s.field == Other("right") then Some(right) else None
    case Tuple(elts) => if s.field == Other("elts") then Item(elts, s) else None
    case List(elts) => if s.field == Other("elts") then Item(elts, s) else None
    case _ => None
  }

  function WithPart(e: Expr, s: Segment, part: Expr): (r: Expr)
    requires Part(e, s).Some?
    ensures forall other :: Part(r, other) == if SamePlace(s, other) then Some(part) else Part(e, other)
  {
    match e
    case Call(func, args, keywords) =>
      if s.field == Other("func") then Call(part, args, keywords) else Call(func, args[s.index.value := part], keywords)
    case Attribute(_, attr) => Attribute(part, attr)
    case BinOp(left, right) => if s.field == Other("left") then BinOp(part, right) else BinOp(left, part)
    case Tuple(elts) => Tuple(elts[s.index.value := part])
    case List(elts) => List(elts[s.index.value := part])
  }

  /** The part of a statement, outside its suites, that a segment selects. */
  function HeadPart(h: Head, s: Segment): Option<Expr> {
    match h
    case ExprStmt(value) => if s.field == Value then Some(value) else None
    case Assign(targets, value) =>
      if s.field == Value then Some(value) else if s.field == Other("targets") then Item(targets, s) else None
    case Delete(targets) => if s.field == Other("targets") then Item(targets, s) else None
    case Return(result) => if s.field == Value then result else None
    case _ => None
  }

  function WithHeadPart(h: Head, s: Segment, part: Expr): (r: Head)
    requires HeadPart(h, s).Some?
    ensures forall other :: HeadPart(r, other) == if SamePlace(s, other) then Some(part) else HeadPart(h, other)
  {
    match h
    case ExprStmt(_) => ExprStmt(part)
    case Assign(targets, value) =>
      if s.field == Value then Assign(targets, part) else Assign(targets[s.index.value := part], value)
    case Delete(targets) => Delete(targets[s.index.value := part])
    case Return(_) => Return(Some(part))
  }

  // ---------- reading and replacing along a path ----------

  function CloneExpr(e: Expr, path: seq<Segment>): Result<Expr>
    decreases |path|
  {
    if path == [] then Ok(e)
    else if Part(e, path[0]).None? then Err(BadPath)
    else CloneExpr(Part(e, path[0]).value, path[1..])
  }

  function ReplaceInExpr(e: Expr, path: seq<Segment>, r: Expr): Result<Expr>
    decreases |path|
  {
    if path == [] then Ok(r)
    else if Part(e, path[0]).None? then Err(BadPath)
    else
      var part :- ReplaceInExpr(Part(e, path[0]).value, path[1..], r);
      Ok(WithPart(e, path[0], part))
  }

  function CloneInHead(h: Head, path: seq<Segment>): Result<Expr>
    requires path != []
  {
    if HeadPart(h, path[0]).None? then Err(BadPath) else CloneExpr(HeadPart(h, path[0]).value, path[1..])
  }

  function ReplaceInHead(h: Head, path: seq<Segment>, r: Expr): Result<Head>
    requires path != []
  {
    if HeadPart(h, path[0]).None? then Err(BadPath)
    else
      var part :- ReplaceInExpr(HeadPart(h, path[0]).value, path[1..], r);
      Ok(WithHeadPart(h, path[0], part))
  }

  function CloneExprIn(s: Stmt, path: seq<Segment>): Result<Expr>
    decreases |path|
  {
    if path == [] then Err(BadPath)
    else if !IsSuiteField(path[0].field) then CloneInHead(s.head, path)
    else match NestedSuite(s, path)
      case None => Err(BadPath)
      case Some((slot, rest)) =>
        var suite := Suite(s, slot).value;
        if rest[0].index.None? || rest[0].index.value >= |suite| then Err(BadPath)
        else CloneExprIn(suite[rest[0].index.value], rest[1..])
  }

  function ReplaceExprIn(s: Stmt, path: seq<Segment>, r: Expr): Result<Stmt>
    decreases |path|
  {
    if path == [] then Err(BadPath)
    else if !IsSuiteField(path[0].field) then
      var head :- ReplaceInHead(s.head, path, r);
      Ok(s.(head := head))
    else match NestedSuite(s, path)
      case None => Err(BadPath)
      case Some((slot, rest)) =>
        var suite := Suite(s, slot).value;
        if rest[0].index.None? || rest[0].index.value >= |suite| then Err(BadPath)
        else
          var child :- ReplaceExprIn(suite[rest[0].index.value], rest[1..], r);
          Ok(WithSuite(s, slot, suite[rest[0].index.value := child]))
  }

  /** An empty path stands for the one expression that the module consists of. */
  function CloneExprAtPath(m: Module, path: string): Result<Expr> {
    var segments :- ParseAstPath(path);
    if segments != [] then CloneExprIn(m, segments)
    else if |m.body| == 1 && m.body[0].head.ExprStmt? then Ok(m.body[0].head.value) else Err(BadPath)
  }

  function ReplaceExprAtPath(m: Module, path: string, r: Expr): Result<Module> {
    var segments :- ParseAstPath(path);
    ReplaceExprIn(m, segments, r)
  }

  // ---------- a replacement lands at its path and nowhere else ----------

  lemma {:induction false} ExprReplaced(e: Expr, p: seq<Segment>, r: Expr)
    ensures ReplaceInExpr(e, p, r).Ok? <==> CloneExpr(e, p).Ok?
    ensures ReplaceInExpr(e, p, r).Ok? ==> CloneExpr(ReplaceInExpr(e, p, r).value, p) == Ok(r)
    decreases |p|
  {
    hide Part;
    if p != [] && Part(e, p[0]).Some? {
      ExprReplaced(Part(e, p[0]).value, p[1..], r);
    }
  }

  lemma {:induction false} ExprKept(e: Expr, p: seq<Segment>, r: Expr, q: seq<Segment>)
    requires Apart(p, q) && ReplaceInExpr(e, p, r).Ok?
    ensures CloneExpr(ReplaceInExpr(e, p, r).value, q) == CloneExpr(e, q)
    decreases |p|
  {
    hide Part, SamePlace;
    assert SamePlace(p[0], p[0]) by { SamePlaceItself(p[0]); }
    if SamePlace(p[0], q[0]) {
      ExprKept(Part(e, p[0]).value, p[1..], r, q[1..]);
    }
  }

  lemma {:induction false} SamePlaceItself(s: Segment)
    ensures SamePlace(s, s)
  {
  }

  /** Replacing along a path works exactly where reading works, and then the replacement is read there. */
  lemma {:induction false} ReplacedIsRead(s: Stmt, p: seq<Segment>, r: Expr)
    ensures ReplaceExprIn(s, p, r).Ok? <==> CloneExprIn(s, p).Ok?
    ensures ReplaceExprIn(s, p, r).Ok? ==> CloneExprIn(ReplaceExprIn(s, p, r).value, p) == Ok(r)
    decreases |p|
  {
    if p != [] && !IsSuiteField(p[0].field) {
      hide Part, HeadPart;
      SamePlaceItself(p[0]);
      if HeadPart(s.head, p[0]).Some? {
        ExprReplaced(HeadPart(s.head, p[0]).value, p[1..], r);
      }
    } else if p != [] && NestedSuite(s, p).Some? {
      var (slot, rest) := NestedSuite(s, p).value;
      var suite := Suite(s, slot).value;
      if rest[0].index.Some? && rest[0].index.value < |suite| {
        var i := rest[0].index.value;
        ReplacedIsRead(suite[i], rest[1..], r);
        var child := ReplaceExprIn(suite[i], rest[1..], r);
        if child.Ok? {
          SuiteEntered(s, slot, suite[i := child.value], p);
        }
      }
    }
  }

  lemma {:induction false} SuiteEntered(s: Stmt, slot: Slot, suite: seq<Stmt>, p: seq<Segment>)
    requires Suite(s, slot).Some? && p != []
    ensures NestedSuite(WithSuite(s, slot, suite), p) == NestedSuite(s, p)
  {
    hide WithSuite;
  }

  /** What is read along a path that parts from it stays what it was. */
  lemma {:induction false} OthersKept(s: Stmt, p: seq<Segment>, r: Expr, q: seq<Segment>)
    requires Apart(p, q) && ReplaceExprIn(s, p, r).Ok?
    ensures CloneExprIn(ReplaceExprIn(s, p, r).value, q) == CloneExprIn(s, q)
    decreases |p|
  {
    if !IsSuiteField(p[0].field) {
      HeadKept(s, p, r, q);
    } else {
      var (slot, rest) := NestedSuite(s, p).value;
      var suite := Suite(s, slot).value;
      var i := rest[0].index.value;
      var child := ReplaceExprIn(suite[i], rest[1..], r).value;
      SuiteEntered(s, slot, suite[i := child], q);
      if IsSuiteField(q[0].field) && NestedSuite(s, q).Some? {
        var (slot', rest') := NestedSuite(s, q).value;
        if slot' == slot && rest'[0].index == Some(i) {
          SameSuiteApart(s, p, q);
          OthersKept(suite[i], rest[1..], r, rest'[1..]);
        }
      }
    }
  }

  lemma {:induction false} HeadKept(s: Stmt, p: seq<Segment>, r: Expr, q: seq<Segment>)
    requires Apart(p, q) && !IsSuiteField(p[0].field) && ReplaceExprIn(s, p, r).Ok?
    ensures CloneExprIn(ReplaceExprIn(s, p, r).value, q) == CloneExprIn(s, q)
  {
    hide Part, HeadPart, SamePlace;
    var after := ReplaceExprIn(s, p, r).value;
    SamePlaceItself(p[0]);
    if IsSuiteField(q[0].field) {
      HeadOnly(s, after.head, p, r, q);
    } else if SamePlace(p[0], q[0]) {
      ExprKept(HeadPart(s.head, p[0]).value, p[1..], r, q[1..]);
    }
  }

  /** A replacement in a head leaves the suites of the statement as they are. */
  lemma {:induction false} HeadOnly(s: Stmt, h: Head, p: seq<Segment>, r: Expr, q: seq<Segment>)
    requires p != [] && q != [] && IsSuiteField(q[0].field) && ReplaceInHead(s.head, p, r) == Ok(h)
    ensures CloneExprIn(s.(head := h), q) == CloneExprIn(s, q)
  {
    assert NestedSuite(s, q).None? && NestedSuite(s.(head := h), q).None?;
  }

  lemma {:induction false} SameSuiteApart(s: Stmt, p: seq<Segment>, q: seq<Segment>)
    requires Apart(p, q) && NestedSuite(s, p).Some? && NestedSuite(s, q).Some?
    requires NestedSuite(s, p).value.0 == NestedSuite(s, q).value.0
    requires NestedSuite(s, p).value.1[0].index == NestedSuite(s, q).value.1[0].index
    ensures Apart(NestedSuite(s, p).value.1[1..], NestedSuite(s, q).value.1[1..])
  {
  }

  // ---------- paths of a statement and an expression in it ----------

  lemma {:induction false} StepEntersSuite(step: Step)
    ensures StepSegments(step) != [] && IsSuiteField(StepSegments(step)[0].field)
  {
  }

  /** A path of an expression: the address of its statement, and a path from there that enters no suite. */
  lemma {:induction false} ReadAtAddress(s: Stmt, at: Address, rest: seq<Segment>)
    requires rest != [] && !IsSuiteField(rest[0].field)
    ensures CloneExprIn(s, Segments(at) + rest) ==
            if StmtAt(s, at).None? then Err(BadPath) else CloneInHead(StmtAt(s, at).value.head, rest)
    decreases |at|
  {
    if at == [] {
      assert Segments(at) + rest == rest;
    } else {
      var tail := Segments(at[1..]) + rest;
      var path := Segments(at) + rest;
      assert path == StepSegments(at[0]) + tail;
      FirstOfSegments(at[0], tail);
      StepEntersSuite(at[0]);
      NestedIsFirstStep(s, path);
      hide NestedSuite, FirstStep, StepSegments, Suite, CloneInHead, IsSuiteField;
      if Suite(s, at[0].slot).Some? && at[0].index < |Suite(s, at[0].slot).value| {
        ReadAtAddress(Suite(s, at[0].slot).value[at[0].index], at[1..], rest);
      }
    }
  }

  /**
   After splices that left the statement where it was, an expression in it is read, and replaced, at its original path;
   in particular when every splice put one statement in the place of one.
   */
  lemma {:induction false} UnmovedExpressionRead(m: Module, at: Address, rest: seq<Segment>, t: Targets)
    requires rest != [] && !IsSuiteField(rest[0].field)
    requires StmtAt(m, at).Some? && Survives(m, at, t) && (Unmoved(m, at, t) || OneForOne(t))
    ensures CloneExprIn(SubstInside(m, t), Segments(at) + rest) == CloneExprIn(m, Segments(at) + rest)
  {
    if OneForOne(t) {
      OneForOneKeepsPaths(m, at, t);
    }
    UnmovedSurvivorFound(m, at, t);
    ReadAtAddress(m, at, rest);
    ReadAtAddress(SubstInside(m, t), at, rest);
    hide CloneExprIn, CloneInHead, Survives, Unmoved, OneForOne;
    assert SubstInside(StmtAt(m, at).value, UnderAddress(t, at)).head == StmtAt(m, at).value.head;
  }

  // ---------- expression groups ----------

  function Payload(g: Group): Result<Expr> {
    if g.edges == [] then Err(ExpectedOneEdge)
    else
      var path :- UniqueLocator(g.edges[0].sourceRecords, "astichi.surface.expression.production");
      CloneExprAtPath(g.edges[0].source, path)
  }

  /** The step for an expression group. */
  function ReplaceExpressionStep(m: Module, path: string, g: Group): Result<Module> {
    var r :- Payload(g);
    ReplaceExprAtPath(m, path, r)
  }

  /** `other` treats expression groups as the materializer does. */
  ghost predicate HandlesExpressions(other: OtherStep) {
    forall m: Module, path: string, g: Group :: g.operation == ReplaceExpression ==> other(m, path, g) == ReplaceExpressionStep(m, path, g)
  }

  function PathOfGroup(records: seq<Record>, g: Group): seq<Segment> {
    if g.target.record < |records| && ParseAstPath(records[g.target.record].astPath).Ok?
    then ParseAstPath(records[g.target.record].astPath).value else []
  }

  /** An expression group with one edge, a payload, and an expression to replace at its path. */
  ghost predicate Lands(m: Module, records: seq<Record>, g: Group) {
    && g.operation == ReplaceExpression && |g.edges| == 1 && Payload(g).Ok?
    && g.target.record < |records| && ParseAstPath(records[g.target.record].astPath).Ok?
    && CloneExprIn(m, PathOfGroup(records, g)).Ok?
  }

  ghost predicate PathsApart(records: seq<Record>, groups: seq<KeyedGroup>) {
    forall i, j :: 0 <= i < |groups| && 0 <= j < |groups| && i != j ==>
      Apart(PathOfGroup(records, groups[i].group), PathOfGroup(records, groups[j].group))
  }

  /** Expression groups at paths that part from each other all land, and nothing else is replaced. */
  lemma {:induction false} AllLand(m: Module, records: seq<Record>, groups: seq<KeyedGroup>, other: OtherStep)
    requires HandlesExpressions(other) && PathsApart(records, groups)
    requires forall k :: 0 <= k < |groups| ==> Lands(m, records, groups[k].group)
    ensures ApplyAll(m, records, groups, other).Ok?
    ensures var after := ApplyAll(m, records, groups, other).value;
            && (forall k :: 0 <= k < |groups| ==> CloneExprIn(after, PathOfGroup(records, groups[k].group)) == Payload(groups[k].group))
            && (forall q {:trigger CloneExprIn(after, q)} :: (forall k :: 0 <= k < |groups| ==> Apart(PathOfGroup(records, groups[k].group), q)) ==>
                  CloneExprIn(after, q) == CloneExprIn(m, q))
    decreases |groups|
  {
    if groups != [] {
      var g, rest := groups[0].group, groups[1..];
      var p, r := PathOfGroup(records, g), Payload(g).value;
      hide Payload, CloneExprIn, ReplaceExprIn, PathOfGroup, Apart;
      OneLands(m, records, g, other);
      var m' := ApplyGroup(m, records, g, other).value;
      hide ApplyGroup, ReplaceExpressionStep, HandlesExpressions;
      forall k | 0 <= k < |rest| ensures Lands(m', records, rest[k].group) {
        assert rest[k] == groups[k + 1];
        assert Apart(p, PathOfGroup(records, groups[k + 1].group));
      }
      AllLand(m', records, rest, other);
      var after := ApplyAll(m', records, rest, other).value;
      assert forall k :: 0 <= k < |rest| ==> Apart(PathOfGroup(records, rest[k].group), p);
      assert CloneExprIn(after, p) == CloneExprIn(m', p);
    }
  }

  lemma {:induction false} OneLands(m: Module, records: seq<Record>, g: Group, other: OtherStep)
    requires HandlesExpressions(other) && Lands(m, records, g)
    ensures ApplyGroup(m, records, g, other).Ok?
    ensures var after := ApplyGroup(m, records, g, other).value;
            && CloneExprIn(after, PathOfGroup(records, g)) == Payload(g)
            && forall q :: Apart(PathOfGroup(records, g), q) ==> CloneExprIn(after, q) == CloneExprIn(m, q)
  {
    var p, r := PathOfGroup(records, g), Payload(g).value;
    ReplacedIsRead(m, p, r);
    hide Payload, CloneExprIn, ReplaceExprIn, Apart;
    var path := records[g.target.record].astPath;
    assert other(m, path, g) == ReplaceExpressionStep(m, path, g);
    assert ApplyGroup(m, records, g, other) == ReplaceExprIn(m, p, r);
    forall q | Apart(p, q)
      ensures CloneExprIn(ReplaceExprIn(m, p, r).value, q) == CloneExprIn(m, q)
    {
      OthersKept(m, p, r, q);
    }
  }

  // ---------- all edges of one occurrence ----------

  /** An expression group whose expression lies in a statement that the statement splices leave where it was. */
  ghost predicate InPlace(m: Module, records: seq<Record>, t: Targets, g: Group) {
    && Lands(m, records, g)
    && exists at: Address, rest: seq<Segment> :: HoleIn(m, t, PathOfGroup(records, g), at, rest)
  }

  predicate HoleIn(m: Module, t: Targets, path: seq<Segment>, at: Address, rest: seq<Segment>) {
    && path == Segments(at) + rest && rest != [] && !IsSuiteField(rest[0].field)
    && StmtAt(m, at).Some? && Survives(m, at, t) && (Unmoved(m, at, t) || OneForOne(t))
  }

  lemma {:induction false} InPlaceLands(m: Module, records: seq<Record>, t: Targets, g: Group)
    requires InPlace(m, records, t, g)
    ensures Lands(SubstInside(m, t), records, g)
  {
    hide CloneExprIn, PathOfGroup, Payload, SubstInside, Unmoved, OneForOne, Survives;
    var at, rest :| HoleIn(m, t, PathOfGroup(records, g), at, rest);
    UnmovedExpressionRead(m, at, rest, t);
  }

  /** The expression groups of a list of edges, no two of them at one path. */
  ghost predicate ExpressionsInPlace(m: Module, records: seq<Record>, edges: seq<EdgeInput>) {
    && (forall g :: g in GroupsOf(edges) && !SplicesStatements(g.operation) ==> InPlace(m, records, TargetsOf(records, edges), g))
    && (forall g, h :: g in GroupsOf(edges) && h in GroupsOf(edges) && g != h
                       && !SplicesStatements(g.operation) && !SplicesStatements(h.operation) ==>
          Apart(PathOfGroup(records, g), PathOfGroup(records, h)))
  }

  /**
   Statement and expression edges together: when each expression lies in a statement that the splices leave where it
   was, every expression edge replaces the expression at its own path, and the rest is the simultaneous substitution.
   */
  lemma {:induction false} ExpressionEdgesLand(m: Module, records: seq<Record>, edges: seq<EdgeInput>, other: OtherStep)
    requires Spliceable(m, records, edges) && PayloadsOk(edges) && HandlesExpressions(other)
    requires ExpressionsInPlace(m, records, edges)
    ensures ApplyEdges(m, records, edges, other).Ok?
    ensures var tree, after := SubstInside(m, TargetsOf(records, edges)), ApplyEdges(m, records, edges, other).value;
            && (forall g :: g in GroupsOf(edges) && !SplicesStatements(g.operation) ==>
                  CloneExprIn(after, PathOfGroup(records, g)) == Payload(g))
            && (forall q {:trigger CloneExprIn(after, q)} ::
                  (forall g :: g in GroupsOf(edges) && !SplicesStatements(g.operation) ==> Apart(PathOfGroup(records, g), q)) ==>
                  CloneExprIn(after, q) == CloneExprIn(tree, q))
  {
    var t := TargetsOf(records, edges);
    var tree := SubstInside(m, t);
    var statements, others := EdgesRefineSubstitution(m, records, edges, other);
    var ordered := OrderedGroupsFacts(m, records, edges);
    hide *;
    OthersInPlace(m, records, edges, statements, others);
    AllLand(tree, records, others, other);
    var after := ApplyAll(tree, records, others, other).value;
    forall g | g in GroupsOf(edges) && !SplicesStatements(g.operation)
      ensures CloneExprIn(after, PathOfGroup(records, g)) == Payload(g)
    {
      var k := OtherIndex(records, edges, statements, others, g);
    }
    forall q | forall g :: g in GroupsOf(edges) && !SplicesStatements(g.operation) ==> Apart(PathOfGroup(records, g), q)
      ensures CloneExprIn(after, q) == CloneExprIn(tree, q)
    {
      assert forall k :: 0 <= k < |others| ==> Apart(PathOfGroup(records, others[k].group), q);
    }
  }

  lemma {:induction false} OthersInPlace(
      m: Module, records: seq<Record>, edges: seq<EdgeInput>, statements: seq<KeyedGroup>, others: seq<KeyedGroup>)
    requires ExpressionsInPlace(m, records, edges) && StatementsThenOthers(statements, others)
    requires DrawnFrom(statements + others, GroupsOf(edges)) && NoneTwice(statements + others)
    ensures forall k :: 0 <= k < |others| ==>
              others[k].group in GroupsOf(edges) && !SplicesStatements(others[k].group.operation)
              && Lands(SubstInside(m, TargetsOf(records, edges)), records, others[k].group)
    ensures PathsApart(records, others)
  {
    hide GroupsOf, Lands, InPlace, Apart, PathOfGroup, TargetsOf, SubstInside;
    var all := statements + others;
    forall k | 0 <= k < |others| ensures others[k].group in GroupsOf(edges) && !SplicesStatements(others[k].group.operation) {
      assert all[|statements| + k] == others[k] && all[|statements| + k] in all && others[k] in others;
    }
    forall k | 0 <= k < |others| ensures Lands(SubstInside(m, TargetsOf(records, edges)), records, others[k].group) {
      InPlaceLands(m, records, TargetsOf(records, edges), others[k].group);
    }
    forall i, j | 0 <= i < |others| && 0 <= j < |others| && i != j
      ensures Apart(PathOfGroup(records, others[i].group), PathOfGroup(records, others[j].group))
    {
      assert all[|statements| + i] == others[i] && all[|statements| + j] == others[j];
    }
  }

  lemma {:induction false} OtherIndex(
      records: seq<Record>, edges: seq<EdgeInput>, statements: seq<KeyedGroup>, others: seq<KeyedGroup>, g: Group) returns (k: nat)
    requires Covers(statements + others, GroupsOf(edges), true) && StatementsThenOthers(statements, others)
    requires g in GroupsOf(edges) && !SplicesStatements(g.operation)
    ensures k < |others| && others[k].group == g
  {
    hide GroupsOf, SplicesStatements;
    var keyed :| keyed in statements + others && keyed.group == g;
    assert keyed in others;
    k :| 0 <= k < |others| && others[k] == keyed;
  }
}
