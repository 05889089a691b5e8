/** Renaming an identifier through a statement, and the fresh names it is renamed to (materialize_ir.rs). */
module Renaming {
  import opened Wrappers
  import opened Sets
  import opened Ast
  import opened AstPaths

  // ---------- fresh names ----------

  function ScopedName(name: string, counter: nat): string {
    name + "__astichi_scoped_" + PrintNat(counter)
  }

  lemma {:induction false} ScopedNamesDiffer(name: string, a: nat, b: nat)
    requires ScopedName(name, a) == ScopedName(name, b)
    ensures a == b
  {
    var prefix := name + "__astichi_scoped_";
    assert ScopedName(name, a)[|prefix|..] == PrintNat(a);
    assert ScopedName(name, b)[|prefix|..] == PrintNat(b);
    ParsePrintNat(a);
    ParsePrintNat(b);
  }

  /** The first `k` scoped names. */
  ghost function Tried(name: string, k: nat): set<string> {
    if k == 0 then {} else Tried(name, k - 1) + {ScopedName(name, k)}
  }

  lemma {:induction false} TriedMembers(name: string, k: nat, j: nat)
    requires k < j
    ensures ScopedName(name, j) !in Tried(name, k)
  {
    if k > 0 {
      TriedMembers(name, k - 1, j);
      if ScopedName(name, j) == ScopedName(name, k) {
        ScopedNamesDiffer(name, j, k);
      }
    }
  }

  lemma {:induction false} TriedSize(name: string, k: nat)
    ensures |Tried(name, k)| == k
  {
    if k > 0 {
      TriedSize(name, k - 1);
      TriedMembers(name, k - 1, k);
    }
  }

  /** The scoped name with the smallest counter that is not in use, found within one try more than there are names. */
  method FreshScopedName(name: string, unavailable: set<string>) returns (candidate: string, counter: nat)
    ensures candidate == ScopedName(name, counter) && candidate !in unavailable
    ensures 1 <= counter <= |unavailable| + 1
    ensures forall k :: 1 <= k < counter ==> ScopedName(name, k) in unavailable
  {
    counter := 1;
    candidate := ScopedName(name, counter);
    TriedSize(name, 0);
    while candidate in unavailable
      invariant 1 <= counter <= |unavailable| + 1
      invariant candidate == ScopedName(name, counter)
      invariant Tried(name, counter - 1) <= unavailable
      invariant forall k :: 1 <= k < counter ==> ScopedName(name, k) in unavailable
      decreases |unavailable| + 1 - counter
    {
      assert Tried(name, counter) == Tried(name, counter - 1) + {candidate};
      SubsetSize(Tried(name, counter), unavailable);
      TriedSize(name, counter);
      counter := counter + 1;
      candidate := ScopedName(name, counter);
    }
  }

  /** The name that the loop finds; there is only one. */
  ghost predicate IsFresh(name: string, unavailable: set<string>, candidate: string) {
    candidate !in unavailable
    && exists counter: nat :: candidate == ScopedName(name, counter) && counter >= 1 && AllTaken(name, counter, unavailable)
  }

  ghost predicate AllTaken(name: string, counter: nat, unavailable: set<string>) {
    forall k :: 1 <= k < counter ==> ScopedName(name, k) in unavailable
  }

  lemma {:induction false} FreshIsUnique(name: string, unavailable: set<string>, a: string, b: string)
    requires IsFresh(name, unavailable, a) && IsFresh(name, unavailable, b)
    ensures a == b
  {
    var i: nat :| a == ScopedName(name, i) && i >= 1 && AllTaken(name, i, unavailable);
    var j: nat :| b == ScopedName(name, j) && j >= 1 && AllTaken(name, j, unavailable);
    hide ScopedName;
    assert i < j ==> ScopedName(name, i) in unavailable;
    assert j < i ==> ScopedName(name, j) in unavailable;
  }

  // ---------- what is renamed ----------

  const ARGUMENT_SUFFIX := "__astichi_arg__"

  predicate TextMatches(current: string, name: string) {
    current == name || current == name + ARGUMENT_SUFFIX
  }

  function RenameText(current: string, name: string, to: string): string {
    if TextMatches(current, name) then to else current
  }

  /** The part of a dotted name before its first dot, which is the name that an import binds. */
  function FirstSegment(text: string): (r: string)
    ensures '.' !in r && r <= text
    ensures '.' !in text ==> r == text
  {
    if text == "" || text[0] == '.' then "" else [text[0]] + FirstSegment(text[1..])
  }

  /** Renames each segment of a dotted name. */
  function RenameDotted(text: string, name: string, to: string): string
    decreases |text|
  {
    var first := FirstSegment(text);
    if |first| == |text| then RenameText(text, name, to)
    else RenameText(first, name, to) + "." + RenameDotted(text[|first| + 1..], name, to)
  }

  lemma {:induction false} FirstOfDotted(a: string, b: string)
    requires '.' !in a
    ensures FirstSegment(a + "." + b) == a
  {
    if a == "" {
      assert (a + "." + b)[0] == '.';
    } else {
      assert (a + "." + b)[1..] == a[1..] + "." + b;
      assert (a + "." + b)[0] == a[0];
      FirstOfDotted(a[1..], b);
    }
  }

  lemma {:induction false} RenameDottedFirst(text: string, name: string, to: string)
    requires '.' !in to
    ensures FirstSegment(RenameDotted(text, name, to)) == RenameText(FirstSegment(text), name, to)
  {
    var first := FirstSegment(text);
    if |first| == |text| {
      assert first == text;
    } else {
      FirstOfDotted(RenameText(first, name, to), RenameDotted(text[|first| + 1..], name, to));
    }
  }

  /** A boundary marker for a renamed name is marked as bound. */
  function MarkBound(keywords: seq<Keyword>): seq<Keyword> {
    var kept := SetBound(keywords);
    if exists k :: k in kept && k.arg == Some("bound") then kept else kept + [Keyword(Some("bound"), Constant(BoolLit(true)))]
  }

  function SetBound(keywords: seq<Keyword>): seq<Keyword> {
    if keywords == [] then []
    else if keywords[0].arg == Some("outer_bind") then SetBound(keywords[1..])
    else if keywords[0].arg == Some("bound") then [Keyword(Some("bound"), Constant(BoolLit(true)))] + SetBound(keywords[1..])
    else [keywords[0]] + SetBound(keywords[1..])
  }

  predicate IsBoundaryFor(func: Expr, args: seq<Expr>, name: string) {
    && CallName(func) in {Some("astichi_import"), Some("astichi_pass")}
    && |args| > 0 && args[0].Name? && TextMatches(args[0].id, name)
  }

  function RenameExpr(e: Expr, name: string, to: string): Expr
    decreases e
  {
    match e
    case Name(id, ctx) => Name(RenameText(id, name, to), ctx)
    case Constant(_) => e
    case Call(func, args, keywords) =>
      var renamed := RenameKeywords(keywords, name, to);
      Call(RenameExpr(func, name, to), RenameAll(args, name, to),
           if IsBoundaryFor(func, args, name) then MarkBound(renamed) else renamed)
    case Attribute(target, attr) => Attribute(RenameExpr(target, name, to), attr)
    case BinOp(left, right) => BinOp(RenameExpr(left, name, to), RenameExpr(right, name, to))
    case IfExp(test, body, orelse) => IfExp(RenameExpr(test, name, to), RenameExpr(body, name, to), RenameExpr(orelse, name, to))
    case Lambda(params, body) => Lambda(RenameParams(params, name, to), RenameExpr(body, name, to))
    case ListComp(elt, generators) => ListComp(RenameExpr(elt, name, to), RenameGenerators(generators, name, to))
    case Tuple(elts) => Tuple(RenameAll(elts, name, to))
    case List(elts) => List(RenameAll(elts, name, to))
  }

  function RenameAll(es: seq<Expr>, name: string, to: string): seq<Expr>
    decreases es
  {
    seq(|es|, k requires 0 <= k < |es| => RenameExpr(es[k], name, to))
  }

  function RenameKeywords(keywords: seq<Keyword>, name: string, to: string): seq<Keyword>
    decreases keywords
  {
    seq(|keywords|, k requires 0 <= k < |keywords| => RenameKeyword(keywords[k], name, to))
  }

  function RenameKeyword(keyword: Keyword, name: string, to: string): Keyword
    decreases keyword
  {
    match keyword
    case Keyword(arg, e) =>
      Keyword(match arg case None => None case Some(text) => Some(RenameText(text, name, to)), RenameExpr(e, name, to))
  }

  function RenameDefault(default: Option<Expr>, name: string, to: string): Option<Expr>
    decreases default
  {
    match default
    case None => None
    case Some(e) => Some(RenameExpr(e, name, to))
  }

  function RenameParams(params: seq<Param>, name: string, to: string): seq<Param>
    decreases params
  {
    seq(|params|, k requires 0 <= k < |params| =>
      Param(RenameText(params[k].name, name, to), RenameDefault(params[k].default, name, to)))
  }

  function RenameGenerators(generators: seq<Comprehension>, name: string, to: string): seq<Comprehension>
    decreases generators
  {
    seq(|generators|, k requires 0 <= k < |generators| =>
      Comprehension(RenameExpr(generators[k].target, name, to), RenameExpr(generators[k].iter, name, to),
                    RenameAll(generators[k].ifs, name, to)))
  }

  function RenameArg(arg: Arg, name: string, to: string): Arg {
    Arg(RenameText(arg.name, name, to), RenameDefault(arg.default, name, to))
  }

  function RenameArgs(args: seq<Arg>, name: string, to: string): seq<Arg> {
    seq(|args|, k requires 0 <= k < |args| => RenameArg(args[k], name, to))
  }

  function RenameVariadic(arg: Option<Arg>, name: string, to: string): Option<Arg> {
    match arg case None => None case Some(a) => Some(RenameArg(a, name, to))
  }

  function RenameArguments(a: Arguments, name: string, to: string): Arguments {
    Arguments(RenameArgs(a.posonlyargs, name, to), RenameArgs(a.args, name, to), RenameVariadic(a.vararg, name, to),
              RenameArgs(a.kwonlyargs, name, to), RenameVariadic(a.kwarg, name, to))
  }

  function RenameAsName(asname: Option<string>, name: string, to: string): Option<string> {
    match asname case None => None case Some(text) => Some(RenameText(text, name, to))
  }

  function RenameHead(h: Head, name: string, to: string): Head {
    match h
    case ModuleHead => h
    case FunctionDef(id, arguments, isAsync) => FunctionDef(RenameText(id, name, to), RenameArguments(arguments, name, to), isAsync)
    case ClassDef(id) => ClassDef(RenameText(id, name, to))
    case If(test) => If(RenameExpr(test, name, to))
    case While(test) => While(RenameExpr(test, name, to))
    case For(target, iter, isAsync) => For(RenameExpr(target, name, to), RenameExpr(iter, name, to), isAsync)
    case With(items, isAsync) =>
      With(seq(|items|, k requires 0 <= k < |items| =>
             WithItem(RenameExpr(items[k].contextExpr, name, to), RenameDefault(items[k].optionalVars, name, to))), isAsync)
    case Try(_) => h
    case Match(subject) => Match(RenameExpr(subject, name, to))
    case ExprStmt(value) => ExprStmt(RenameExpr(value, name, to))
    case Assign(targets, value) => Assign(RenameAll(targets, name, to), RenameExpr(value, name, to))
    case Delete(targets) => Delete(RenameAll(targets, name, to))
    case Return(result) => Return(RenameDefault(result, name, to))
    case Import(names) =>
      Import(seq(|names|, k requires 0 <= k < |names| =>
               Alias(RenameDotted(names[k].name, name, to), RenameAsName(names[k].asname, name, to))))
    case ImportFrom(from, names) =>
      ImportFrom(RenameDotted(from, name, to), seq(|names|, k requires 0 <= k < |names| =>
                   Alias(RenameText(names[k].name, name, to), RenameAsName(names[k].asname, name, to))))
    case Simple(_) => h
  }

  function RenameStmt(s: Stmt, name: string, to: string): Stmt
    decreases s
  {
    match s
    case Stmt(head, body, orelse, finalbody, branches) =>
      Stmt(RenameHead(head, name, to), RenameSuite(body, name, to), RenameSuite(orelse, name, to),
           RenameSuite(finalbody, name, to),
           seq(|branches|, k requires 0 <= k < |branches| => RenameBranch(branches[k], name, to)))
  }

  function RenameBranch(b: Branch, name: string, to: string): Branch
    decreases b
  {
    match b
    case Branch(tag, body) => Branch(tag, RenameSuite(body, name, to))
  }

  function RenameSuite(suite: seq<Stmt>, name: string, to: string): seq<Stmt>
    decreases suite
  {
    seq(|suite|, k requires 0 <= k < |suite| => RenameStmt(suite[k], name, to))
  }

  // ---------- the names a statement binds ----------

  function StoredNames(target: Expr): set<string>
    decreases target
  {
    match target
    case Name(id, _) => {id}
    case Tuple(elts) => set k, n | 0 <= k < |elts| && n in StoredNames(elts[k]) :: n
    case List(elts) => set k, n | 0 <= k < |elts| && n in StoredNames(elts[k]) :: n
    case _ => {}
  }

  function StoredInAll(targets: seq<Expr>): set<string> {
    set k, n | 0 <= k < |targets| && n in StoredNames(targets[k]) :: n
  }

  function ImportedName(alias: Alias): string {
    match alias.asname case Some(text) => text case None => FirstSegment(alias.name)
  }

  function FromName(alias: Alias): string {
    match alias.asname case Some(text) => text case None => alias.name
  }

  function ItemNames(item: WithItem): set<string> {
    match item.optionalVars case None => {} case Some(target) => StoredNames(target)
  }

  function BoundNames(h: Head): set<string> {
    match h
    case FunctionDef(id, _, _) => {id}
    case ClassDef(id) => {id}
    case Assign(targets, _) => StoredInAll(targets)
    case For(target, _, _) => StoredNames(target)
    case With(items, _) => set k, n | 0 <= k < |items| && n in ItemNames(items[k]) :: n
    case Import(names) => set k | 0 <= k < |names| :: ImportedName(names[k])
    case ImportFrom(_, names) => set k | 0 <= k < |names| :: FromName(names[k])
    case _ => {}
  }

  function Renamed(names: set<string>, name: string, to: string): set<string> {
    set n | n in names :: RenameText(n, name, to)
  }

  lemma {:induction false} StoredRenamed(target: Expr, name: string, to: string)
    ensures StoredNames(RenameExpr(target, name, to)) == Renamed(StoredNames(target), name, to)
    decreases target
  {
    match target
    case Tuple(elts) => AllStoredRenamed(elts, name, to);
    case List(elts) => AllStoredRenamed(elts, name, to);
    case _ =>
  }

  lemma {:induction false} AllStoredRenamed(es: seq<Expr>, name: string, to: string)
    ensures StoredInAll(RenameAll(es, name, to)) == Renamed(StoredInAll(es), name, to)
    decreases es
  {
    var after := RenameAll(es, name, to);
    forall k | 0 <= k < |es| ensures StoredNames(after[k]) == Renamed(StoredNames(es[k]), name, to) {
      StoredRenamed(es[k], name, to);
    }
    hide StoredNames, RenameExpr, RenameAll;
    forall n ensures n in StoredInAll(after) <==> n in Renamed(StoredInAll(es), name, to) {
      if n in StoredInAll(after) {
        var k :| 0 <= k < |after| && n in StoredNames(after[k]);
        var m :| m in StoredNames(es[k]) && RenameText(m, name, to) == n;
        assert m in StoredInAll(es);
      }
      if n in Renamed(StoredInAll(es), name, to) {
        var m :| m in StoredInAll(es) && RenameText(m, name, to) == n;
        var k :| 0 <= k < |es| && m in StoredNames(es[k]);
        assert n in StoredNames(after[k]);
      }
    }
  }

  /** Renaming a statement renames exactly the names it binds. */
  lemma {:induction false} BoundRenamed(h: Head, name: string, to: string)
    requires '.' !in to
    ensures BoundNames(RenameHead(h, name, to)) == Renamed(BoundNames(h), name, to)
  {
    match h
    case Assign(targets, _) => AllStoredRenamed(targets, name, to);
    case For(target, _, _) => StoredRenamed(target, name, to);
    case With(items, _) => ItemsRenamed(h, name, to);
    case Import(names) => ImportsRenamed(h, name, to);
    case ImportFrom(_, names) => ImportsFromRenamed(h, name, to);
    case _ =>
  }

  lemma {:induction false} ItemsRenamed(h: Head, name: string, to: string)
    requires h.With?
    ensures BoundNames(RenameHead(h, name, to)) == Renamed(BoundNames(h), name, to)
  {
    var items, after := h.items, RenameHead(h, name, to).items;
    forall k | 0 <= k < |items| ensures ItemNames(after[k]) == Renamed(ItemNames(items[k]), name, to) {
      if items[k].optionalVars.Some? {
        StoredRenamed(items[k].optionalVars.value, name, to);
      }
    }
    hide ItemNames, RenameText;
    forall n | n in Renamed(BoundNames(h), name, to) ensures n in BoundNames(RenameHead(h, name, to)) {
      var m :| m in BoundNames(h) && RenameText(m, name, to) == n;
      var k :| 0 <= k < |items| && m in ItemNames(items[k]);
      assert n in ItemNames(after[k]);
    }
    forall n | n in BoundNames(RenameHead(h, name, to)) ensures n in Renamed(BoundNames(h), name, to) {
      var k :| 0 <= k < |after| && n in ItemNames(after[k]);
      var m :| m in ItemNames(items[k]) && RenameText(m, name, to) == n;
      assert m in BoundNames(h);
    }
  }

  lemma {:induction false} ImportsRenamed(h: Head, name: string, to: string)
    requires h.Import? && '.' !in to
    ensures BoundNames(RenameHead(h, name, to)) == Renamed(BoundNames(h), name, to)
  {
    var after := RenameHead(h, name, to).names;
    forall k | 0 <= k < |h.names| ensures ImportedName(after[k]) == RenameText(ImportedName(h.names[k]), name, to) {
      RenameDottedFirst(h.names[k].name, name, to);
    }
    hide ImportedName, RenameText;
    forall k | 0 <= k < |h.names| ensures ImportedName(h.names[k]) in BoundNames(h) && ImportedName(after[k]) in BoundNames(RenameHead(h, name, to)) {
    }
  }

  lemma {:induction false} ImportsFromRenamed(h: Head, name: string, to: string)
    requires h.ImportFrom?
    ensures BoundNames(RenameHead(h, name, to)) == Renamed(BoundNames(h), name, to)
  {
    var after := RenameHead(h, name, to).names;
    forall k | 0 <= k < |h.names| ensures FromName(after[k]) == RenameText(FromName(h.names[k]), name, to) {
    }
    hide FromName, RenameText;
    forall k | 0 <= k < |h.names| ensures FromName(h.names[k]) in BoundNames(h) && FromName(after[k]) in BoundNames(RenameHead(h, name, to)) {
    }
  }

  // ---------- nothing keeps the old name ----------

  predicate TextAvoids(text: string, name: string) {
    !TextMatches(text, name)
  }

  predicate DottedAvoids(text: string, name: string)
    decreases |text|
  {
    var first := FirstSegment(text);
    TextAvoids(first, name) && (|first| < |text| ==> DottedAvoids(text[|first| + 1..], name))
  }

  /** No identifier in the expression matches the name; the names of keyword arguments are not identifiers. */
  predicate ExprAvoids(e: Expr, name: string)
    decreases e
  {
    match e
    case Name(id, _) => TextAvoids(id, name)
    case Constant(_) => true
    case Call(func, args, keywords) =>
      ExprAvoids(func, name) && AllAvoid(args, name) && forall k :: 0 <= k < |keywords| ==> KeywordAvoids(keywords[k], name)
    case Attribute(target, _) => ExprAvoids(target, name)
    case BinOp(left, right) => ExprAvoids(left, name) && ExprAvoids(right, name)
    case IfExp(test, body, orelse) => ExprAvoids(test, name) && ExprAvoids(body, name) && ExprAvoids(orelse, name)
    case Lambda(params, body) => (forall k :: 0 <= k < |params| ==> ParamAvoids(params[k], name)) && ExprAvoids(body, name)
    case ListComp(elt, generators) =>
      ExprAvoids(elt, name) && forall k :: 0 <= k < |generators| ==> GeneratorAvoids(generators[k], name)
    case Tuple(elts) => AllAvoid(elts, name)
    case List(elts) => AllAvoid(elts, name)
  }

  predicate AllAvoid(es: seq<Expr>, name: string)
    decreases es
  {
    forall k :: 0 <= k < |es| ==> ExprAvoids(es[k], name)
  }

  predicate KeywordAvoids(keyword: Keyword, name: string)
    decreases keyword
  {
    match keyword case Keyword(_, e) => ExprAvoids(e, name)
  }

  predicate DefaultAvoids(default: Option<Expr>, name: string)
    decreases default
  {
    match default case None => true case Some(e) => ExprAvoids(e, name)
  }

  predicate ParamAvoids(param: Param, name: string)
    decreases param
  {
    match param case Param(id, default) => TextAvoids(id, name) && DefaultAvoids(default, name)
  }

  predicate GeneratorAvoids(g: Comprehension, name: string)
    decreases g
  {
    match g case Comprehension(target, iter, ifs) => ExprAvoids(target, name) && ExprAvoids(iter, name) && AllAvoid(ifs, name)
  }

  predicate ArgAvoids(arg: Arg, name: string) {
    TextAvoids(arg.name, name) && DefaultAvoids(arg.default, name)
  }

  predicate ArgsAvoid(args: seq<Arg>, name: string) {
    forall k :: 0 <= k < |args| ==> ArgAvoids(args[k], name)
  }

  predicate ArgumentsAvoid(a: Arguments, name: string) {
    && ArgsAvoid(a.posonlyargs, name) && ArgsAvoid(a.args, name) && ArgsAvoid(a.kwonlyargs, name)
    && (a.vararg.Some? ==> ArgAvoids(a.vararg.value, name)) && (a.kwarg.Some? ==> ArgAvoids(a.kwarg.value, name))
  }

  predicate AsNameAvoids(asname: Option<string>, name: string) {
    asname.Some? ==> TextAvoids(asname.value, name)
  }

  predicate HeadAvoids(h: Head, name: string) {
    match h
    case FunctionDef(id, arguments, _) => TextAvoids(id, name) && ArgumentsAvoid(arguments, name)
    case ClassDef(id) => TextAvoids(id, name)
    case If(test) => ExprAvoids(test, name)
    case While(test) => ExprAvoids(test, name)
    case For(target, iter, _) => ExprAvoids(target, name) && ExprAvoids(iter, name)
    case With(items, _) =>
      forall k :: 0 <= k < |items| ==> ExprAvoids(items[k].contextExpr, name) && DefaultAvoids(items[k].optionalVars, name)
    case Match(subject) => ExprAvoids(subject, name)
    case ExprStmt(value) => ExprAvoids(value, name)
    case Assign(targets, value) => AllAvoid(targets, name) && ExprAvoids(value, name)
    case Delete(targets) => AllAvoid(targets, name)
    case Return(result) => DefaultAvoids(result, name)
    case Import(names) => forall k :: 0 <= k < |names| ==> DottedAvoids(names[k].name, name) && AsNameAvoids(names[k].asname, name)
    case ImportFrom(from, names) =>
      DottedAvoids(from, name) && forall k :: 0 <= k < |names| ==> TextAvoids(names[k].name, name) && AsNameAvoids(names[k].asname, name)
    case _ => true
  }

  /** No identifier in the statement or below it matches the name. */
  predicate StmtAvoids(s: Stmt, name: string)
    decreases s
  {
    match s
    case Stmt(head, body, orelse, finalbody, branches) =>
      HeadAvoids(head, name) && SuiteAvoids(body, name) && SuiteAvoids(orelse, name) && SuiteAvoids(finalbody, name)
      && forall k :: 0 <= k < |branches| ==> BranchAvoids(branches[k], name)
  }

  predicate BranchAvoids(b: Branch, name: string)
    decreases b
  {
    match b case Branch(_, body) => SuiteAvoids(body, name)
  }

  predicate SuiteAvoids(suite: seq<Stmt>, name: string)
    decreases suite
  {
    forall k :: 0 <= k < |suite| ==> StmtAvoids(suite[k], name)
  }

  /** A name that can replace another: it does not match it, and it is a plain identifier. */
  predicate Replaces(to: string, name: string) {
    !TextMatches(to, name) && '.' !in to
  }

  lemma {:induction false} TextRenamedAway(text: string, name: string, to: string)
    requires Replaces(to, name)
    ensures TextAvoids(RenameText(text, name, to), name)
  {
  }

  lemma {:induction false} DottedRenamedAway(text: string, name: string, to: string)
    requires Replaces(to, name)
    ensures DottedAvoids(RenameDotted(text, name, to), name)
    decreases |text|
  {
    var first := FirstSegment(text);
    if |first| == |text| {
      assert first == text;
      assert '.' !in RenameText(text, name, to);
    } else {
      var rest := RenameDotted(text[|first| + 1..], name, to);
      var head := RenameText(first, name, to);
      DottedRenamedAway(text[|first| + 1..], name, to);
      FirstOfDotted(head, rest);
      assert (head + "." + rest)[|head| + 1..] == rest;
    }
  }

  lemma {:induction false} ExprRenamedAway(e: Expr, name: string, to: string)
    requires Replaces(to, name)
    ensures ExprAvoids(RenameExpr(e, name, to), name)
    decreases e
  {
    hide TextMatches, RenameAll, RenameKeywords, RenameParams, RenameGenerators, AllAvoid, MarkBound, IsBoundaryFor;
    match e
    case Name(id, _) => TextRenamedAway(id, name, to);
    case Constant(_) =>
    case Call(func, args, keywords) =>
      ExprRenamedAway(func, name, to);
      AllRenamedAway(args, name, to);
      KeywordsRenamedAway(keywords, name, to);
      MarkBoundAvoids(RenameKeywords(keywords, name, to), name);
    case Attribute(target, _) => ExprRenamedAway(target, name, to);
    case BinOp(left, right) =>
      ExprRenamedAway(left, name, to);
      ExprRenamedAway(right, name, to);
    case IfExp(test, body, orelse) =>
      ExprRenamedAway(test, name, to);
      ExprRenamedAway(body, name, to);
      ExprRenamedAway(orelse, name, to);
    case Lambda(params, body) =>
      ParamsRenamedAway(params, name, to);
      ExprRenamedAway(body, name, to);
    case ListComp(elt, generators) =>
      ExprRenamedAway(elt, name, to);
      GeneratorsRenamedAway(generators, name, to);
    case Tuple(elts) => AllRenamedAway(elts, name, to);
    case List(elts) => AllRenamedAway(elts, name, to);
  }

  lemma {:induction false} AllRenamedAway(es: seq<Expr>, name: string, to: string)
    requires Replaces(to, name)
    ensures AllAvoid(RenameAll(es, name, to), name)
    decreases es
  {
    hide ExprAvoids, RenameExpr, Replaces;
    forall k | 0 <= k < |es| ensures ExprAvoids(RenameExpr(es[k], name, to), name) {
      ExprRenamedAway(es[k], name, to);
    }
  }

  lemma {:induction false} KeywordRenamedAway(keyword: Keyword, name: string, to: string)
    requires Replaces(to, name)
    ensures KeywordAvoids(RenameKeyword(keyword, name, to), name)
    decreases keyword
  {
    hide ExprAvoids, RenameExpr, Replaces;
    match keyword case Keyword(_, e) => ExprRenamedAway(e, name, to);
  }

  lemma {:induction false} KeywordsRenamedAway(keywords: seq<Keyword>, name: string, to: string)
    requires Replaces(to, name)
    ensures |RenameKeywords(keywords, name, to)| == |keywords|
    ensures forall k :: 0 <= k < |keywords| ==> KeywordAvoids(RenameKeywords(keywords, name, to)[k], name)
    decreases keywords
  {
    hide KeywordAvoids, RenameKeyword, Replaces;
    forall k | 0 <= k < |keywords| ensures KeywordAvoids(RenameKeyword(keywords[k], name, to), name) {
      KeywordRenamedAway(keywords[k], name, to);
    }
  }

  lemma {:induction false} MarkBoundAvoids(keywords: seq<Keyword>, name: string)
    requires forall k :: 0 <= k < |keywords| ==> KeywordAvoids(keywords[k], name)
    ensures forall k :: 0 <= k < |MarkBound(keywords)| ==> KeywordAvoids(MarkBound(keywords)[k], name)
  {
    SetBoundAvoids(keywords, name);
  }

  lemma {:induction false} SetBoundAvoids(keywords: seq<Keyword>, name: string)
    requires forall k :: 0 <= k < |keywords| ==> KeywordAvoids(keywords[k], name)
    ensures forall k :: 0 <= k < |SetBound(keywords)| ==> KeywordAvoids(SetBound(keywords)[k], name)
  {
    if keywords != [] {
      SetBoundAvoids(keywords[1..], name);
    }
  }

  lemma {:induction false} DefaultRenamedAway(default: Option<Expr>, name: string, to: string)
    requires Replaces(to, name)
    ensures DefaultAvoids(RenameDefault(default, name, to), name)
    decreases default
  {
    hide ExprAvoids, RenameExpr, Replaces;
    match default case None => case Some(e) => ExprRenamedAway(e, name, to);
  }

  lemma {:induction false} ParamsRenamedAway(params: seq<Param>, name: string, to: string)
    requires Replaces(to, name)
    ensures |RenameParams(params, name, to)| == |params|
    ensures forall k :: 0 <= k < |params| ==> ParamAvoids(RenameParams(params, name, to)[k], name)
    decreases params
  {
    hide DefaultAvoids, RenameDefault, TextMatches;
    forall k | 0 <= k < |params| ensures ParamAvoids(RenameParams(params, name, to)[k], name) {
      TextRenamedAway(params[k].name, name, to);
      DefaultRenamedAway(params[k].default, name, to);
    }
  }

  lemma {:induction false} GeneratorsRenamedAway(generators: seq<Comprehension>, name: string, to: string)
    requires Replaces(to, name)
    ensures |RenameGenerators(generators, name, to)| == |generators|
    ensures forall k :: 0 <= k < |generators| ==> GeneratorAvoids(RenameGenerators(generators, name, to)[k], name)
    decreases generators
  {
    hide ExprAvoids, RenameExpr, AllAvoid, RenameAll, Replaces;
    forall k | 0 <= k < |generators| ensures GeneratorAvoids(RenameGenerators(generators, name, to)[k], name) {
      ExprRenamedAway(generators[k].target, name, to);
      ExprRenamedAway(generators[k].iter, name, to);
      AllRenamedAway(generators[k].ifs, name, to);
    }
  }

  lemma {:induction false} ArgRenamedAway(arg: Arg, name: string, to: string)
    requires Replaces(to, name)
    ensures ArgAvoids(RenameArg(arg, name, to), name)
  {
    hide DefaultAvoids, RenameDefault, TextMatches;
    TextRenamedAway(arg.name, name, to);
    DefaultRenamedAway(arg.default, name, to);
  }

  lemma {:induction false} ArgsRenamedAway(args: seq<Arg>, name: string, to: string)
    requires Replaces(to, name)
    ensures ArgsAvoid(RenameArgs(args, name, to), name)
  {
    hide ArgAvoids, RenameArg, Replaces;
    forall k | 0 <= k < |args| ensures ArgAvoids(RenameArg(args[k], name, to), name) {
      ArgRenamedAway(args[k], name, to);
    }
  }

  lemma {:induction false} ArgumentsRenamedAway(a: Arguments, name: string, to: string)
    requires Replaces(to, name)
    ensures ArgumentsAvoid(RenameArguments(a, name, to), name)
  {
    hide ArgAvoids, RenameArg, ArgsAvoid, RenameArgs, Replaces;
    ArgsRenamedAway(a.posonlyargs, name, to);
    ArgsRenamedAway(a.args, name, to);
    ArgsRenamedAway(a.kwonlyargs, name, to);
    if a.vararg.Some? {
      ArgRenamedAway(a.vararg.value, name, to);
    }
    if a.kwarg.Some? {
      ArgRenamedAway(a.kwarg.value, name, to);
    }
  }

  lemma {:induction false} AliasesRenamedAway(h: Head, name: string, to: string)
    requires Replaces(to, name) && (h.Import? || h.ImportFrom?)
    ensures HeadAvoids(RenameHead(h, name, to), name)
  {
    hide DottedAvoids, RenameDotted, TextMatches;
    if h.ImportFrom? {
      DottedRenamedAway(h.from, name, to);
    }
    forall k | 0 <= k < |h.names|
      ensures DottedAvoids(RenameDotted(h.names[k].name, name, to), name)
      ensures TextAvoids(RenameText(h.names[k].name, name, to), name)
      ensures AsNameAvoids(RenameAsName(h.names[k].asname, name, to), name)
    {
      DottedRenamedAway(h.names[k].name, name, to);
      TextRenamedAway(h.names[k].name, name, to);
      if h.names[k].asname.Some? {
        TextRenamedAway(h.names[k].asname.value, name, to);
      }
    }
  }

  lemma {:induction false} HeadRenamedAway(h: Head, name: string, to: string)
    requires Replaces(to, name)
    ensures HeadAvoids(RenameHead(h, name, to), name)
  {
    hide ExprAvoids, RenameExpr, AllAvoid, RenameAll, ArgumentsAvoid, RenameArguments, DefaultAvoids, RenameDefault, TextMatches;
    match h
    case FunctionDef(id, arguments, _) =>
      TextRenamedAway(id, name, to);
      ArgumentsRenamedAway(arguments, name, to);
    case ClassDef(id) => TextRenamedAway(id, name, to);
    case If(test) => ExprRenamedAway(test, name, to);
    case While(test) => ExprRenamedAway(test, name, to);
    case For(target, iter, _) =>
      ExprRenamedAway(target, name, to);
      ExprRenamedAway(iter, name, to);
    case With(items, _) =>
      forall k | 0 <= k < |items|
        ensures ExprAvoids(RenameExpr(items[k].contextExpr, name, to), name)
        ensures DefaultAvoids(RenameDefault(items[k].optionalVars, name, to), name)
      {
        ExprRenamedAway(items[k].contextExpr, name, to);
        DefaultRenamedAway(items[k].optionalVars, name, to);
      }
    case Match(subject) => ExprRenamedAway(subject, name, to);
    case ExprStmt(value) => ExprRenamedAway(value, name, to);
    case Assign(targets, value) =>
      AllRenamedAway(targets, name, to);
      ExprRenamedAway(value, name, to);
    case Delete(targets) => AllRenamedAway(targets, name, to);
    case Return(result) => DefaultRenamedAway(result, name, to);
    case Import(_) => AliasesRenamedAway(h, name, to);
    case ImportFrom(_, _) => AliasesRenamedAway(h, name, to);
    case _ =>
  }

  /** After the renaming no identifier in the statement, at any depth, matches the old name. */
  lemma {:induction false} StmtRenamedAway(s: Stmt, name: string, to: string)
    requires Replaces(to, name)
    ensures StmtAvoids(RenameStmt(s, name, to), name)
    decreases s
  {
    hide HeadAvoids, RenameHead, SuiteAvoids, RenameSuite, Replaces, BranchAvoids, RenameBranch;
    match s
    case Stmt(head, body, orelse, finalbody, branches) =>
      HeadRenamedAway(head, name, to);
      SuiteRenamedAway(body, name, to);
      SuiteRenamedAway(orelse, name, to);
      SuiteRenamedAway(finalbody, name, to);
      forall k | 0 <= k < |branches| ensures BranchAvoids(RenameBranch(branches[k], name, to), name) {
        BranchRenamedAway(branches[k], name, to);
      }
  }

  lemma {:induction false} BranchRenamedAway(b: Branch, name: string, to: string)
    requires Replaces(to, name)
    ensures BranchAvoids(RenameBranch(b, name, to), name)
    decreases b
  {
    match b case Branch(_, body) => SuiteRenamedAway(body, name, to);
  }

  lemma {:induction false} SuiteRenamedAway(suite: seq<Stmt>, name: string, to: string)
    requires Replaces(to, name)
    ensures SuiteAvoids(RenameSuite(suite, name, to), name)
    decreases suite
  {
    hide StmtAvoids, RenameStmt, Replaces;
    forall k | 0 <= k < |suite| ensures StmtAvoids(RenameStmt(suite[k], name, to), name) {
      StmtRenamedAway(suite[k], name, to);
    }
  }
}
