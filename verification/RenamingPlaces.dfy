/** What the renaming of an identifier does at each place of an expression or statement (materialize_ir.rs). */
module RenamingPlaces {
  import opened Wrappers
  import opened Ast
  import opened Places
  import opened Renaming
  import opened PyImports

  // ---------- in an expression ----------

  /** A call whose keywords the renaming also marks as bound. */
  predicate IsBoundary(e: Expr, name: string) {
    e.Call? && IsBoundaryFor(e.func, e.args, name)
  }

  /** The way goes through no keyword of a boundary marker for the name. */
  predicate PastBoundaries(e: Expr, p: seq<Into>, name: string)
    decreases |p|
  {
    p != [] && Child(e, p[0]).Some? ==>
      (p[0].IntoKeyword? ==> !IsBoundary(e, name)) && PastBoundaries(Child(e, p[0]).value, p[1..], name)
  }

  function RenameLabel(text: Option<string>, name: string, to: string): Option<string> {
    if text.Some? && TextMatches(text.value, name) then Some(to) else text
  }

  /** The same expression but for the identifiers in it; its own ones are renamed where they match. */
  predicate RenamedForm(a: Expr, b: Expr, name: string, to: string) {
    match a
    case Name(id, ctx) => b == Name(if TextMatches(id, name) then to else id, ctx)
    case Constant(_) => b == a
    case Call(_, args, keywords) =>
      b.Call? && |b.args| == |args|
      && (!IsBoundary(a, name) ==>
            |b.keywords| == |keywords|
            && forall k :: 0 <= k < |keywords| ==> b.keywords[k].arg == RenameLabel(keywords[k].arg, name, to))
    case Attribute(_, attr) => b.Attribute? && b.attr == attr
    case BinOp(_, _) => b.BinOp?
    case IfExp(_, _, _) => b.IfExp?
    case Lambda(params, _) =>
      b.Lambda? && |b.params| == |params|
      && forall k :: 0 <= k < |params| ==>
           b.params[k].name == (if TextMatches(params[k].name, name) then to else params[k].name)
           && (b.params[k].default.Some? <==> params[k].default.Some?)
    case ListComp(_, generators) =>
      b.ListComp? && |b.generators| == |generators| && forall k :: 0 <= k < |generators| ==> |b.generators[k].ifs| == |generators[k].ifs|
    case Tuple(elts) => b.Tuple? && |b.elts| == |elts|
    case List(elts) => b.List? && |b.elts| == |elts|
  }

  lemma {:induction false} FormRenamed(e: Expr, name: string, to: string)
    ensures RenamedForm(e, RenameExpr(e, name, to), name, to)
  {
    hide TextMatches, MarkBound, IsBoundaryFor, RenameKeywords, RenameParams, RenameGenerators;
    match e
    case Call(_, _, keywords) => KeywordRenamed(keywords, name, to);
    case Lambda(params, _) => ParamRenamed(params, name, to);
    case ListComp(_, generators) => GeneratorRenamed(generators, name, to);
    case _ =>
  }

  lemma {:induction false} ParamRenamed(params: seq<Param>, name: string, to: string)
    ensures var after := RenameParams(params, name, to);
            && |after| == |params|
            && forall k :: 0 <= k < |params| ==>
                 && after[k].name == (if TextMatches(params[k].name, name) then to else params[k].name)
                 && (after[k].default.Some? <==> params[k].default.Some?)
                 && (params[k].default.Some? ==> after[k].default == Some(RenameExpr(params[k].default.value, name, to)))
  {
    hide RenameExpr, TextMatches;
  }

  lemma {:induction false} GeneratorRenamed(generators: seq<Comprehension>, name: string, to: string)
    ensures var after := RenameGenerators(generators, name, to);
            && |after| == |generators|
            && forall k :: 0 <= k < |generators| ==>
                 && after[k].target == RenameExpr(generators[k].target, name, to)
                 && after[k].iter == RenameExpr(generators[k].iter, name, to)
                 && |after[k].ifs| == |generators[k].ifs|
                 && forall j :: 0 <= j < |generators[k].ifs| ==> after[k].ifs[j] == RenameExpr(generators[k].ifs[j], name, to)
  {
    hide RenameExpr;
  }

  lemma {:induction false} KeywordRenamed(keywords: seq<Keyword>, name: string, to: string)
    ensures var after := RenameKeywords(keywords, name, to);
            && |after| == |keywords|
            && forall k :: 0 <= k < |keywords| ==>
                 after[k].arg == RenameLabel(keywords[k].arg, name, to) && after[k].value == RenameExpr(keywords[k].value, name, to)
  {
    hide RenameExpr, TextMatches;
    var after := RenameKeywords(keywords, name, to);
    forall k | 0 <= k < |keywords|
      ensures after[k].arg == RenameLabel(keywords[k].arg, name, to) && after[k].value == RenameExpr(keywords[k].value, name, to)
    {
      assert after[k] == RenameKeyword(keywords[k], name, to);
    }
  }

  lemma {:induction false} ChildRenamed(e: Expr, step: Into, name: string, to: string)
    requires Child(e, step).Some? && (step.IntoKeyword? ==> !IsBoundary(e, name))
    ensures Child(RenameExpr(e, name, to), step) == Some(RenameExpr(Child(e, step).value, name, to))
  {
    hide TextMatches, MarkBound, IsBoundaryFor, RenameKeywords, RenameParams, RenameGenerators;
    match e
    case Call(_, _, keywords) => KeywordRenamed(keywords, name, to);
    case Lambda(params, _) => ParamRenamed(params, name, to);
    case ListComp(_, generators) => GeneratorRenamed(generators, name, to);
    case _ =>
  }

  /** What stands at a place is renamed there, and every expression keeps its form. */
  lemma {:induction false} RenamedAt(e: Expr, p: seq<Into>, name: string, to: string)
    requires At(e, p).Some? && PastBoundaries(e, p, name)
    ensures At(RenameExpr(e, name, to), p) == Some(RenameExpr(At(e, p).value, name, to))
    ensures RenamedForm(At(e, p).value, At(RenameExpr(e, name, to), p).value, name, to)
    decreases |p|
  {
    hide RenameExpr, Child, RenamedForm, IsBoundary;
    if p == [] {
      FormRenamed(e, name, to);
    } else {
      ChildRenamed(e, p[0], name, to);
      RenamedAt(Child(e, p[0]).value, p[1..], name, to);
    }
  }

  // ---------- boundary markers ----------

  /** A `bound` keyword that says yes. */
  predicate SaysBound(keyword: Keyword) {
    keyword == Keyword(Some("bound"), Constant(BoolLit(true)))
  }

  /** The keywords other than `bound` and `outer_bind`, in order. */
  function OtherKeywords(keywords: seq<Keyword>): seq<Keyword> {
    if keywords == [] then []
    else (if keywords[0].arg in [Some("bound"), Some("outer_bind")] then [] else [keywords[0]]) + OtherKeywords(keywords[1..])
  }

  lemma {:induction false} OthersAppend(a: seq<Keyword>, b: seq<Keyword>)
    ensures OtherKeywords(a + b) == OtherKeywords(a) + OtherKeywords(b)
  {
    if a == [] {
      assert a + b == b;
    } else {
      assert (a + b)[1..] == a[1..] + b;
      OthersAppend(a[1..], b);
    }
  }

  lemma {:induction false} SetBoundFacts(keywords: seq<Keyword>)
    ensures OtherKeywords(SetBound(keywords)) == OtherKeywords(keywords)
    ensures forall k :: k in SetBound(keywords) ==> k.arg != Some("outer_bind") && (k.arg == Some("bound") ==> SaysBound(k))
  {
    if keywords != [] {
      SetBoundFacts(keywords[1..]);
      var rest := SetBound(keywords[1..]);
      if keywords[0].arg == Some("bound") {
        OthersAppend([Keyword(Some("bound"), Constant(BoolLit(true)))], rest);
        assert [Keyword(Some("bound"), Constant(BoolLit(true)))][1..] == [];
      } else if keywords[0].arg != Some("outer_bind") {
        OthersAppend([keywords[0]], rest);
        assert [keywords[0]][1..] == [];
      }
    }
  }

  /** A renamed boundary marker says that it is bound, has no `outer_bind`, and keeps its other keywords. */
  lemma {:induction false} BoundaryMarked(e: Expr, name: string, to: string)
    requires IsBoundary(e, name)
    ensures var before, after := RenameKeywords(e.keywords, name, to), RenameExpr(e, name, to);
            && after.Call?
            && (exists k :: 0 <= k < |after.keywords| && SaysBound(after.keywords[k]))
            && (forall k :: k in after.keywords ==> k.arg != Some("outer_bind") && (k.arg == Some("bound") ==> SaysBound(k)))
            && OtherKeywords(after.keywords) == OtherKeywords(before)
  {
    var before := RenameKeywords(e.keywords, name, to);
    var kept := SetBound(before);
    var mark := Keyword(Some("bound"), Constant(BoolLit(true)));
    SetBoundFacts(before);
    hide SetBound, RenameKeywords, IsBoundaryFor;
    var after := RenameExpr(e, name, to).keywords;
    assert after == MarkBound(before);
    if k :| k in kept && k.arg == Some("bound") {
      var i :| 0 <= i < |kept| && kept[i] == k;
      assert SaysBound(after[i]);
    } else {
      OthersAppend(kept, [mark]);
      assert OtherKeywords([mark]) == [] by { assert [mark][1..] == []; }
      assert SaysBound(after[|kept|]);
    }
  }

  // ---------- in a statement ----------

  /** The expressions of a statement outside its suites, in order; defaults of parameters are not among them. */
  function HeadExprs(h: Head): seq<Expr> {
    match h
    case If(test) => [test]
    case While(test) => [test]
    case For(target, iter, _) => [target, iter]
    case Match(subject) => [subject]
    case ExprStmt(value) => [value]
    case Assign(targets, value) => targets + [value]
    case Delete(targets) => targets
    case Return(result) => if result.Some? then [result.value] else []
    case With(items, _) => seq(|items|, k requires 0 <= k < |items| => items[k].contextExpr)
    case _ => []
  }

  /** Each of them is renamed, in its place. */
  lemma {:induction false} HeadExprsRenamed(h: Head, name: string, to: string)
    ensures var before, after := HeadExprs(h), HeadExprs(RenameHead(h, name, to));
            |after| == |before| && forall k :: 0 <= k < |before| ==> after[k] == RenameExpr(before[k], name, to)
  {
    hide RenameExpr, RenameArguments, RenameDotted;
  }

  /** A renaming reaches the statements below in their places. */
  lemma {:induction false} StmtRenamedAt(s: Stmt, at: Address, name: string, to: string)
    ensures StmtAt(RenameStmt(s, name, to), at).Some? <==> StmtAt(s, at).Some?
    ensures StmtAt(s, at).Some? ==> StmtAt(RenameStmt(s, name, to), at) == Some(RenameStmt(StmtAt(s, at).value, name, to))
    decreases |at|
  {
    if at != [] {
      SuiteOfRenamed(s, at[0].slot, name, to);
      hide RenameStmt, Suite;
      if Suite(s, at[0].slot).Some? && at[0].index < |Suite(s, at[0].slot).value| {
        StmtRenamedAt(Suite(s, at[0].slot).value[at[0].index], at[1..], name, to);
      }
    }
  }

  lemma {:induction false} KindKept(h: Head, name: string, to: string)
    ensures var after := RenameHead(h, name, to);
            && HasBody(after) == HasBody(h) && HasOrelse(after) == HasOrelse(h)
            && after.Try? == h.Try? && after.Match? == h.Match?
  {
    hide RenameExpr, RenameArguments, RenameDotted, RenameAll;
  }

  lemma {:induction false} SuiteAt(suite: seq<Stmt>, name: string, to: string)
    ensures |RenameSuite(suite, name, to)| == |suite|
    ensures forall k :: 0 <= k < |suite| ==> RenameSuite(suite, name, to)[k] == RenameStmt(suite[k], name, to)
  {
    hide RenameStmt;
  }

  /** A statement with its suites renamed one by one. */
  lemma {:induction false} StmtForm(s: Stmt, name: string, to: string)
    ensures var after := RenameStmt(s, name, to);
            && after.head == RenameHead(s.head, name, to) && |after.branches| == |s.branches|
            && after.body == RenameSuite(s.body, name, to) && after.orelse == RenameSuite(s.orelse, name, to)
            && after.finalbody == RenameSuite(s.finalbody, name, to)
            && forall k :: 0 <= k < |s.branches| ==>
                 after.branches[k] == Branch(s.branches[k].tag, RenameSuite(s.branches[k].body, name, to))
  {
    hide RenameHead, RenameSuite;
    var after := RenameStmt(s, name, to);
    forall k | 0 <= k < |s.branches| ensures after.branches[k] == Branch(s.branches[k].tag, RenameSuite(s.branches[k].body, name, to)) {
      assert after.branches[k] == RenameBranch(s.branches[k], name, to);
    }
  }

  predicate SuiteRenamed(suite: Option<seq<Stmt>>, after: Option<seq<Stmt>>, name: string, to: string) {
    if suite.None? then after.None?
    else after.Some? && |after.value| == |suite.value| && forall k :: 0 <= k < |suite.value| ==> after.value[k] == RenameStmt(suite.value[k], name, to)
  }

  lemma {:induction false} SuiteOfRenamed(s: Stmt, slot: Slot, name: string, to: string)
    ensures SuiteRenamed(Suite(s, slot), Suite(RenameStmt(s, name, to), slot), name, to)
  {
    hide RenameHead, RenameSuite, RenameStmt, HasBody, HasOrelse;
    KindKept(s.head, name, to);
    StmtForm(s, name, to);
    if Suite(s, slot).Some? {
      SuiteAt(Suite(s, slot).value, name, to);
    }
  }

  // ---------- in the suite of import markers ----------

  /** A statement renamed for each colliding name in turn. */
  function RenamedThrough(s: Stmt, names: seq<string>, to: seq<string>): Stmt
    requires |names| == |to|
    decreases names
  {
    if names == [] then s else RenamedThrough(RenameStmt(s, names[0], to[0]), names[1..], to[1..])
  }

  lemma {:induction false} OthersAt(suite: seq<Stmt>, k: nat, name: string, to: string)
    requires k < |suite|
    ensures RenameOthers(suite, name, to)[k] == if IsImportMarker(suite[k]) then suite[k] else RenameStmt(suite[k], name, to)
  {
    hide RenameStmt, IsImportMarker;
    if k > 0 {
      OthersAt(suite[1..], k - 1, name, to);
    }
  }

  lemma {:induction false} StillNoMarker(s: Stmt, name: string, to: string)
    requires !IsImportMarker(s) && to != "astichi_pyimport"
    ensures !IsImportMarker(RenameStmt(s, name, to))
  {
    MarkersKept(s, name, to);
  }

  lemma {:induction false} EachAt(suite: seq<Stmt>, names: seq<string>, to: seq<string>, k: nat)
    requires |names| == |to| && k < |suite| && !IsImportMarker(suite[k])
    requires forall i :: 0 <= i < |to| ==> to[i] != "astichi_pyimport"
    ensures RenameEach(suite, names, to)[k] == RenamedThrough(suite[k], names, to)
    decreases names
  {
    hide RenameStmt, IsImportMarker, RenameOthers;
    if names != [] {
      OthersAt(suite, k, names[0], to[0]);
      StillNoMarker(suite[k], names[0], to[0]);
      EachAt(RenameOthers(suite, names[0], to[0]), names[1..], to[1..], k);
    }
  }

  /** After the collisions are resolved, each statement that is no import marker is renamed for each collision, and nothing else. */
  lemma {:induction false} ResolvedAt(suite: seq<Stmt>, k: nat)
    requires ImportNames(suite).Ok? && NoDots(ImportNames(suite).value) && k < |suite| && !IsImportMarker(suite[k])
    ensures Resolved(suite).Ok? && |Resolved(suite).value| == |suite|
    ensures var names := Ascending(ImportNames(suite).value * ExistingNames(suite));
            var to := Replacements(names, ExistingNames(suite) + ImportNames(suite).value);
            && |to| == |names| && Resolved(suite).value[k] == RenamedThrough(suite[k], names, to)
            && (names == [] ==> Resolved(suite).value[k] == suite[k])
  {
    CollisionsResolved(suite);
    hide Ascending, Replacements, RenameEach, RenamedThrough, IsImportMarker, ExistingNames;
    var names := Ascending(ImportNames(suite).value * ExistingNames(suite));
    var to := Replacements(names, ExistingNames(suite) + ImportNames(suite).value);
    EachAt(suite, names, to, k);
    if names == [] {
      NotRenamed(suite[k]);
    }
  }

  lemma {:induction false} NotRenamed(s: Stmt)
    ensures RenamedThrough(s, [], []) == s
  {
  }
}
