/** Import markers of a suite, and the renaming that keeps other bindings out of their way (materialize_ir.rs). */
module PyImports {
  import opened Wrappers
  import opened Sets
  import opened Ast
  import opened AstPaths
  import opened EdgeOrder
  import opened Renaming

  // ---------- import markers ----------

  predicate IsPyImport(e: Expr) {
    e.Call? && CallName(e.func) == Some("astichi_pyimport")
  }

  function KeywordValue(keywords: seq<Keyword>, name: string): Option<Expr> {
    if keywords == [] then None
    else if keywords[0].arg == Some(name) then Some(keywords[0].value)
    else KeywordValue(keywords[1..], name)
  }

  function DottedPath(e: Expr): (r: Option<seq<string>>)
    ensures r.Some? ==> r.value != []
  {
    match e
    case Name(id, _) => Some([id])
    case Attribute(target, attr) =>
      (match DottedPath(target) case None => None case Some(path) => Some(path + [attr]))
    case _ => None
  }

  function JoinDots(path: seq<string>): string
    requires path != []
  {
    if |path| == 1 then path[0] else path[0] + "." + JoinDots(path[1..])
  }

  function NamesOf(elts: seq<Expr>): Result<seq<string>> {
    if elts == [] then Ok([])
    else if !elts[0].Name? then Err(BadMarker)
    else
      var rest :- NamesOf(elts[1..]);
      Ok([elts[0].id] + rest)
  }

  /** The names that a marker will bind. */
  function FinalNames(e: Expr): Result<seq<string>> {
    if !IsPyImport(e) then Ok([])
    else
      var names, asName := KeywordValue(e.keywords, "names"), KeywordValue(e.keywords, "as_");
      if names.Some? then if names.value.Tuple? then NamesOf(names.value.elts) else Err(BadMarker)
      else if asName.Some? && asName.value.Name? then Ok([asName.value.id])
      else
        match KeywordValue(e.keywords, "module")
        case None => Err(BadMarker)
        case Some(target) => (match DottedPath(target) case None => Err(BadMarker) case Some(path) => Ok([path[0]]))
  }

  function FromAliases(names: seq<string>): seq<Alias> {
    seq(|names|, k requires 0 <= k < |names| => Alias(names[k], None))
  }

  function Plainly(head: Head): Stmt {
    Stmt(head, [], [], [], [])
  }

  /** The import statement that a marker becomes. */
  function ImportStatement(e: Expr): (r: Result<Stmt>)
    requires IsPyImport(e)
    ensures r.Ok? ==> r.value == Plainly(r.value.head) && (r.value.head.Import? || r.value.head.ImportFrom?)
  {
    match KeywordValue(e.keywords, "module")
    case None => Err(BadMarker)
    case Some(target) =>
      match DottedPath(target)
      case None => Err(BadMarker)
      case Some(path) =>
        match KeywordValue(e.keywords, "names")
        case Some(names) =>
          if !names.Tuple? then Err(BadMarker)
          else
            var ids :- NamesOf(names.elts);
            Ok(Plainly(ImportFrom(JoinDots(path), FromAliases(ids))))
        case None =>
          var asName := KeywordValue(e.keywords, "as_");
          Ok(Plainly(Import([Alias(JoinDots(path), if asName.Some? && asName.value.Name? then Some(asName.value.id) else None)])))
  }

  function SetOf(names: seq<string>): set<string> {
    set n | n in names
  }

  lemma {:induction false} FirstOfJoined(path: seq<string>)
    requires path != [] && '.' !in path[0]
    ensures FirstSegment(JoinDots(path)) == path[0]
  {
    if |path| > 1 {
      FirstOfDotted(path[0], JoinDots(path[1..]));
    }
  }

  /** The names read off a marker before lowering are exactly the names its import statement binds. */
  lemma {:induction false} ImportBindsFinalNames(e: Expr)
    requires IsPyImport(e) && ImportStatement(e).Ok?
    requires FinalNames(e).Ok? ==> forall n :: n in FinalNames(e).value ==> '.' !in n
    ensures FinalNames(e).Ok? && BoundNames(ImportStatement(e).value.head) == SetOf(FinalNames(e).value)
  {
    var path := DottedPath(KeywordValue(e.keywords, "module").value).value;
    var names := KeywordValue(e.keywords, "names");
    var head := ImportStatement(e).value.head;
    if names.Some? {
      var ids := NamesOf(names.value.elts).value;
      forall n ensures n in BoundNames(head) <==> n in ids {
        if n in ids {
          var k :| 0 <= k < |ids| && ids[k] == n;
          assert FromName(head.names[k]) == n;
        }
      }
    } else {
      assert FinalNames(e).Ok?;
      var alias := head.names[0];
      assert FinalNames(e).value == [ImportedName(alias)] by {
        if alias.asname.None? {
          assert path[0] in FinalNames(e).value;
          FirstOfJoined(path);
        }
      }
      forall n ensures n in BoundNames(head) <==> n == ImportedName(alias) {
        assert ImportedName(head.names[0]) == ImportedName(alias);
      }
    }
  }

  // ---------- what the import statement spells ----------

  /** The attribute chain that spells a dotted path. */
  function ChainOf(path: seq<string>, ctx: Ctx): Expr
    requires path != []
  {
    if |path| == 1 then Name(path[0], ctx) else Attribute(ChainOf(path[..|path| - 1], ctx), path[|path| - 1])
  }

  lemma {:induction false} PathOfChain(path: seq<string>, ctx: Ctx)
    requires path != []
    ensures DottedPath(ChainOf(path, ctx)) == Some(path)
  {
    if |path| > 1 {
      PathOfChain(path[..|path| - 1], ctx);
      assert path == path[..|path| - 1] + [path[|path| - 1]];
    } else {
      assert path == [path[0]];
    }
  }

  lemma {:induction false} ChainOfPath(e: Expr) returns (ctx: Ctx)
    requires DottedPath(e).Some?
    ensures e == ChainOf(DottedPath(e).value, ctx)
  {
    match e
    case Name(_, c) => ctx := c;
    case Attribute(target, attr) =>
      ctx := ChainOfPath(target);
      var path := DottedPath(target).value;
      assert (path + [attr])[..|path|] == path;
  }

  /** A text cut at its dots. */
  function CutDots(text: string): seq<string>
    decreases |text|
  {
    var first := FirstSegment(text);
    if |first| == |text| then [text] else [first] + CutDots(text[|first| + 1..])
  }

  lemma {:induction false} CutJoined(path: seq<string>)
    requires path != [] && forall k :: 0 <= k < |path| ==> '.' !in path[k]
    ensures CutDots(JoinDots(path)) == path
  {
    if |path| == 1 {
      assert path == [path[0]];
    } else {
      CutJoined(path[1..]);
      hide CutDots;
      CutFirst(path[0], JoinDots(path[1..]));
      assert path == [path[0]] + path[1..];
    }
  }

  lemma {:induction false} CutFirst(a: string, b: string)
    requires '.' !in a
    ensures CutDots(a + "." + b) == [a] + CutDots(b)
  {
    FirstOfDotted(a, b);
    hide FirstSegment;
    assert (a + "." + b)[|a| + 1..] == b;
  }

  predicate FirstKeyword(keywords: seq<Keyword>, name: string, k: nat) {
    && k < |keywords| && keywords[k].arg == Some(name)
    && forall j :: 0 <= j < k ==> keywords[j].arg != Some(name)
  }

  lemma {:induction false} KeywordIsFirst(keywords: seq<Keyword>, name: string, k: nat)
    requires FirstKeyword(keywords, name, k)
    ensures KeywordValue(keywords, name) == Some(keywords[k].value)
  {
    if k > 0 {
      assert keywords[0].arg != Some(name);
      KeywordIsFirst(keywords[1..], name, k - 1);
    }
  }

  lemma {:induction false} KeywordFound(keywords: seq<Keyword>, name: string) returns (k: nat)
    ensures KeywordValue(keywords, name).Some? ==> FirstKeyword(keywords, name, k) && keywords[k].value == KeywordValue(keywords, name).value
    ensures KeywordValue(keywords, name).None? ==> forall j :: 0 <= j < |keywords| ==> keywords[j].arg != Some(name)
  {
    k := 0;
    if keywords != [] && keywords[0].arg != Some(name) {
      var j := KeywordFound(keywords[1..], name);
      k := j + 1;
      assert forall i :: 1 <= i < |keywords| ==> keywords[i] == keywords[1..][i - 1];
    }
  }

  lemma {:induction false} NamesAt(elts: seq<Expr>)
    ensures NamesOf(elts).Ok? <==> forall k :: 0 <= k < |elts| ==> elts[k].Name?
    ensures NamesOf(elts).Ok? ==> |NamesOf(elts).value| == |elts| && forall k :: 0 <= k < |elts| ==> NamesOf(elts).value[k] == elts[k].id
  {
    if elts != [] {
      NamesAt(elts[1..]);
      assert forall k :: 1 <= k < |elts| ==> elts[k] == elts[1..][k - 1];
    }
  }

  /** The dotted path of the `module` keyword, and the place of that keyword. */
  predicate ModuleSpelled(e: Expr, m: nat, path: seq<string>, ctx: Ctx) {
    e.Call? && FirstKeyword(e.keywords, "module", m) && path != [] && e.keywords[m].value == ChainOf(path, ctx)
  }

  /** The import spells that path in full, and takes its names from the `names` tuple or its alias from `as_`. */
  ghost predicate SpellsImport(e: Expr, path: seq<string>, h: Head)
    requires e.Call?
  {
    if h.ImportFrom? then
      && ((forall k :: 0 <= k < |path| ==> '.' !in path[k]) ==> CutDots(h.from) == path)
      && exists n :: 0 <= n < |e.keywords| && NamesSpelled(e.keywords, n, h.names)
    else
      && h.Import? && |h.names| == 1
      && ((forall k :: 0 <= k < |path| ==> '.' !in path[k]) ==> CutDots(h.names[0].name) == path)
      && (forall n :: 0 <= n < |e.keywords| ==> e.keywords[n].arg != Some("names"))
      && (forall n: nat {:trigger FirstKeyword(e.keywords, "as_", n)} :: FirstKeyword(e.keywords, "as_", n) ==>
            h.names[0].asname == if e.keywords[n].value.Name? then Some(e.keywords[n].value.id) else None)
      && ((forall n :: 0 <= n < |e.keywords| ==> e.keywords[n].arg != Some("as_")) ==> h.names[0].asname == None)
  }

  /** Alias by alias, the elements of the tuple of the first `names` keyword. */
  predicate NamesSpelled(keywords: seq<Keyword>, n: nat, names: seq<Alias>) {
    && FirstKeyword(keywords, "names", n) && keywords[n].value.Tuple?
    && |names| == |keywords[n].value.elts|
    && forall k :: 0 <= k < |names| ==> keywords[n].value.elts[k].Name? && names[k] == Alias(keywords[n].value.elts[k].id, None)
  }

  /** What the statement that a marker becomes imports. */
  lemma {:induction false} ImportSpelled(e: Expr) returns (m: nat, path: seq<string>, ctx: Ctx)
    requires IsPyImport(e) && ImportStatement(e).Ok?
    ensures ModuleSpelled(e, m, path, ctx) && SpellsImport(e, path, ImportStatement(e).value.head)
  {
    m := KeywordFound(e.keywords, "module");
    path := DottedPath(e.keywords[m].value).value;
    ctx := ChainOfPath(e.keywords[m].value);
    if forall k :: 0 <= k < |path| ==> '.' !in path[k] {
      CutJoined(path);
    }
    hide DottedPath, JoinDots, CutDots, ChainOf, SpellsImport, ModuleSpelled;
    assert ModuleSpelled(e, m, path, ctx) by { ModuleForm(e, m, path, ctx); }
    if KeywordValue(e.keywords, "names").Some? {
      FromSpelled(e, path);
    } else {
      PlainSpelled(e, path);
    }
  }

  lemma {:induction false} ModuleForm(e: Expr, m: nat, path: seq<string>, ctx: Ctx)
    requires e.Call? && FirstKeyword(e.keywords, "module", m) && path != [] && e.keywords[m].value == ChainOf(path, ctx)
    ensures ModuleSpelled(e, m, path, ctx)
  {
  }

  lemma {:induction false} FromSpelled(e: Expr, path: seq<string>)
    requires IsPyImport(e) && ImportStatement(e).Ok? && KeywordValue(e.keywords, "names").Some?
    requires DottedPath(KeywordValue(e.keywords, "module").value) == Some(path)
    requires (forall k :: 0 <= k < |path| ==> '.' !in path[k]) ==> CutDots(JoinDots(path)) == path
    ensures SpellsImport(e, path, ImportStatement(e).value.head)
  {
    hide DottedPath, JoinDots, CutDots, NamesOf, KeywordValue;
    var n := KeywordFound(e.keywords, "names");
    NamesAt(e.keywords[n].value.elts);
    assert NamesSpelled(e.keywords, n, ImportStatement(e).value.head.names);
  }

  lemma {:induction false} PlainSpelled(e: Expr, path: seq<string>)
    requires IsPyImport(e) && ImportStatement(e).Ok? && KeywordValue(e.keywords, "names").None?
    requires DottedPath(KeywordValue(e.keywords, "module").value) == Some(path)
    requires (forall k :: 0 <= k < |path| ==> '.' !in path[k]) ==> CutDots(JoinDots(path)) == path
    ensures SpellsImport(e, path, ImportStatement(e).value.head)
  {
    hide DottedPath, JoinDots, CutDots, NamesOf, KeywordValue;
    var n := KeywordFound(e.keywords, "names");
    var a := KeywordFound(e.keywords, "as_");
    var h := ImportStatement(e).value.head;
    forall i: nat | FirstKeyword(e.keywords, "as_", i)
      ensures h.names[0].asname == if e.keywords[i].value.Name? then Some(e.keywords[i].value.id) else None
    {
      KeywordIsFirst(e.keywords, "as_", i);
    }
  }

  // ---------- the names in a suite ----------

  function MarkerNames(s: Stmt): Result<set<string>> {
    if !s.head.ExprStmt? then Ok({})
    else
      var names :- FinalNames(s.head.value);
      Ok(SetOf(names))
  }

  function ImportNames(suite: seq<Stmt>): Result<set<string>> {
    if suite == [] then Ok({})
    else
      var first :- MarkerNames(suite[0]);
      var rest :- ImportNames(suite[1..]);
      Ok(first + rest)
  }

  predicate IsImportMarker(s: Stmt) {
    s.head.ExprStmt? && IsPyImport(s.head.value)
  }

  /** The names bound by the statements of a suite, nested suites apart. */
  function ExistingNames(suite: seq<Stmt>): set<string> {
    if suite == [] then {} else BoundNames(suite[0].head) + ExistingNames(suite[1..])
  }

  function RenameOthers(suite: seq<Stmt>, name: string, to: string): (r: seq<Stmt>)
    ensures |r| == |suite|
  {
    if suite == [] then []
    else [if IsImportMarker(suite[0]) then suite[0] else RenameStmt(suite[0], name, to)] + RenameOthers(suite[1..], name, to)
  }

  // ---------- resolving collisions ----------

  lemma {:induction false} FreshExists(name: string, unavailable: set<string>)
    ensures exists c :: IsFresh(name, unavailable, c)
  {
    var counter := 1;
    TriedSize(name, 0);
    while ScopedName(name, counter) in unavailable
      invariant 1 <= counter <= |unavailable| + 1
      invariant Tried(name, counter - 1) <= unavailable && AllTaken(name, counter, unavailable)
      decreases |unavailable| + 1 - counter
    {
      assert Tried(name, counter) == Tried(name, counter - 1) + {ScopedName(name, counter)};
      SubsetSize(Tried(name, counter), unavailable);
      TriedSize(name, counter);
      counter := counter + 1;
    }
    assert IsFresh(name, unavailable, ScopedName(name, counter));
  }

  ghost function Fresh(name: string, unavailable: set<string>): (c: string)
    ensures IsFresh(name, unavailable, c)
  {
    FreshExists(name, unavailable);
    var c :| IsFresh(name, unavailable, c);
    c
  }

  predicate IsLeast(m: string, names: set<string>) {
    m in names && forall n :: n in names ==> n == m || TextLess(m, n)
  }

  lemma {:induction false} LeastExists(names: set<string>)
    requires names != {}
    ensures exists m :: IsLeast(m, names)
  {
    LexStrictOrder(CharLess, TextLess);
    var x :| x in names;
    if names == {x} {
      assert IsLeast(x, names);
    } else {
      var rest := names - {x};
      assert rest != {};
      LeastExists(rest);
      var n :| IsLeast(n, rest);
      assert IsLeast(if TextLess(n, x) then n else x, names);
    }
  }

  lemma {:induction false} LeastIsUnique(a: string, b: string, names: set<string>)
    requires IsLeast(a, names) && IsLeast(b, names)
    ensures a == b
  {
    LexStrictOrder(CharLess, TextLess);
  }

  /** The names in alphabetical order. */
  ghost function Ascending(names: set<string>): (r: seq<string>)
    ensures forall n :: n in r <==> n in names
    decreases |names|
  {
    if names == {} then []
    else
      LeastExists(names);
      var least :| IsLeast(least, names);
      assert names == {least} + (names - {least});
      [least] + Ascending(names - {least})
  }

  /** The replacement for each colliding name; each is new to all names so far. */
  ghost function Replacements(names: seq<string>, unavailable: set<string>): (r: seq<string>)
    ensures |r| == |names|
  {
    if names == [] then []
    else [Fresh(names[0], unavailable)] + Replacements(names[1..], unavailable + {Fresh(names[0], unavailable)})
  }

  function RenameEach(suite: seq<Stmt>, names: seq<string>, to: seq<string>): (r: seq<Stmt>)
    requires |names| == |to|
    ensures |r| == |suite|
    decreases names
  {
    if names == [] then suite else RenameEach(RenameOthers(suite, names[0], to[0]), names[1..], to[1..])
  }

  /** A suite with every binding that collides with an import marker renamed. */
  ghost function Resolved(suite: seq<Stmt>): Result<seq<Stmt>> {
    var imports :- ImportNames(suite);
    var colliding := Ascending(imports * ExistingNames(suite));
    Ok(RenameEach(suite, colliding, Replacements(colliding, ExistingNames(suite) + imports)))
  }

  // ---------- renaming keeps the markers apart ----------

  predicate NoDots(names: set<string>) {
    forall n :: n in names ==> '.' !in n
  }

  lemma {:induction false} FreshForm(name: string, unavailable: set<string>)
    ensures Fresh(name, unavailable) !in unavailable
    ensures '.' !in name ==> '.' !in Fresh(name, unavailable)
    ensures forall other: string :: Fresh(name, unavailable) != other + ARGUMENT_SUFFIX
    ensures Fresh(name, unavailable) != "astichi_pyimport"
  {
    var chosen := Fresh(name, unavailable);
    var counter: nat :| chosen == ScopedName(name, counter) && counter >= 1 && AllTaken(name, counter, unavailable);
    ScopedForm(name, counter);
  }

  lemma {:induction false} ScopedForm(name: string, counter: nat)
    ensures '.' !in name ==> '.' !in ScopedName(name, counter)
    ensures forall other: string :: ScopedName(name, counter) != other + ARGUMENT_SUFFIX
    ensures ScopedName(name, counter) != "astichi_pyimport"
  {
    var scoped, digits := ScopedName(name, counter), PrintNat(counter);
    DigitsOf(counter);
    assert scoped[|scoped| - 1] == digits[|digits| - 1];
    assert digits[|digits| - 1] in digits;
    forall other: string ensures scoped != other + ARGUMENT_SUFFIX {
      var text := other + ARGUMENT_SUFFIX;
      assert text[|text| - 1] == '_';
    }
    var marker := "astichi_pyimport";
    assert marker[|marker| - 1] == 't';
  }

  /** A statement that is no import marker does not become one. */
  lemma {:induction false} MarkersKept(s: Stmt, name: string, to: string)
    requires to != "astichi_pyimport"
    ensures IsImportMarker(RenameStmt(s, name, to)) ==> IsImportMarker(s)
  {
    if s.head.ExprStmt? && s.head.value.Call? {
      var func := s.head.value.func;
      assert RenameStmt(s, name, to).head.value.func == RenameExpr(func, name, to);
      assert CallName(RenameExpr(func, name, to)) == Some("astichi_pyimport") ==> CallName(func) == Some("astichi_pyimport");
    }
  }

  lemma {:induction false} OthersNames(suite: seq<Stmt>, name: string, to: string)
    requires '.' !in to && to != "astichi_pyimport"
    ensures ImportNames(RenameOthers(suite, name, to)) == ImportNames(suite)
    ensures ExistingNames(RenameOthers(suite, name, to)) == Renamed(ExistingNames(suite), name, to)
    ensures forall k :: 0 <= k < |suite| && IsImportMarker(suite[k]) ==> RenameOthers(suite, name, to)[k] == suite[k]
  {
    if suite != [] {
      OthersNames(suite[1..], name, to);
      BoundRenamed(suite[0].head, name, to);
      MarkersKept(suite[0], name, to);
      var after := RenameStmt(suite[0], name, to);
      HeadRenamed(suite[0], name, to);
      if !IsImportMarker(suite[0]) {
        NotMarkerNames(suite[0]);
        NotMarkerNames(after);
      } else {
        MarkerBindsNothing(suite[0]);
      }
      RenamedUnion(BoundNames(suite[0].head), ExistingNames(suite[1..]), name, to);
      assert RenameOthers(suite, name, to)[1..] == RenameOthers(suite[1..], name, to);
    }
  }

  lemma {:induction false} HeadRenamed(s: Stmt, name: string, to: string)
    ensures RenameStmt(s, name, to).head == RenameHead(s.head, name, to)
  {
  }

  lemma {:induction false} NotMarkerNames(s: Stmt)
    requires !IsImportMarker(s)
    ensures MarkerNames(s) == Ok({})
  {
    assert SetOf([]) == {};
  }

  lemma {:induction false} MarkerBindsNothing(s: Stmt)
    requires IsImportMarker(s)
    ensures BoundNames(s.head) == {}
  {
  }

  lemma {:induction false} RenamedUnion(a: set<string>, b: set<string>, name: string, to: string)
    ensures Renamed(a + b, name, to) == Renamed(a, name, to) + Renamed(b, name, to)
  {
  }

  // ---------- the result ----------

  /** What a bound name becomes: the replacement of the colliding name it matches, if it matches one. */
  function FinalName(n: string, names: seq<string>, to: seq<string>): string
    requires |names| == |to|
  {
    if names == [] then n
    else if TextMatches(n, names[0]) then to[0]
    else FinalName(n, names[1..], to[1..])
  }

  function Finals(bound: set<string>, names: seq<string>, to: seq<string>): set<string>
    requires |names| == |to|
  {
    set n | n in bound :: FinalName(n, names, to)
  }

  /** Replacements differ from each other and from every name in use, and match no colliding name. */
  ghost predicate Separate(names: seq<string>, to: seq<string>, unavailable: set<string>) {
    && |to| == |names|
    && (forall i :: 0 <= i < |to| ==> to[i] !in unavailable && to[i] != "astichi_pyimport")
    && (forall i, j :: 0 <= i < j < |to| ==> to[i] != to[j])
    && (forall i, j :: 0 <= i < |to| && 0 <= j < |names| ==> !TextMatches(to[i], names[j]))
  }

  lemma {:induction false} ReplacementsSeparate(names: seq<string>, unavailable: set<string>)
    requires forall n :: n in names ==> n in unavailable
    ensures Separate(names, Replacements(names, unavailable), unavailable)
  {
    if names != [] {
      var chosen := Fresh(names[0], unavailable);
      var to, rest := Replacements(names, unavailable), Replacements(names[1..], unavailable + {chosen});
      FreshForm(names[0], unavailable);
      ReplacementsSeparate(names[1..], unavailable + {chosen});
      hide Replacements, Fresh;
      forall i, j | 0 <= i < |to| && 0 <= j < |names| ensures !TextMatches(to[i], names[j]) {
        assert names[j] in names;
        if i > 0 {
          assert rest[i - 1] !in unavailable + {chosen};
          if j > 0 {
            assert !TextMatches(rest[i - 1], names[1..][j - 1]);
          } else {
            ReplacementForm(names[1..], unavailable + {chosen}, i - 1, names[0]);
          }
        }
      }
    }
  }

  lemma {:induction false} ReplacementForm(names: seq<string>, unavailable: set<string>, i: nat, other: string)
    requires i < |names|
    ensures Replacements(names, unavailable)[i] != other + ARGUMENT_SUFFIX
    ensures '.' !in names[i] ==> '.' !in Replacements(names, unavailable)[i]
  {
    if i == 0 {
      FreshForm(names[0], unavailable);
    } else {
      ReplacementForm(names[1..], unavailable + {Fresh(names[0], unavailable)}, i - 1, other);
    }
  }

  lemma {:induction false} NotMatched(n: string, names: seq<string>, to: seq<string>)
    requires |names| == |to| && forall j :: 0 <= j < |names| ==> !TextMatches(n, names[j])
    ensures FinalName(n, names, to) == n
  {
    if names != [] {
      assert forall j :: 0 <= j < |names[1..]| ==> names[1..][j] == names[j + 1];
      NotMatched(n, names[1..], to[1..]);
    }
  }

  /** No replacement is renamed again, so renaming name by name renames each binding at most once. */
  lemma {:induction false} RenameEachNames(suite: seq<Stmt>, names: seq<string>, to: seq<string>, unavailable: set<string>)
    requires Separate(names, to, unavailable) && forall i :: 0 <= i < |to| ==> '.' !in to[i]
    ensures ImportNames(RenameEach(suite, names, to)) == ImportNames(suite)
    ensures ExistingNames(RenameEach(suite, names, to)) == Finals(ExistingNames(suite), names, to)
    ensures forall k :: 0 <= k < |suite| && IsImportMarker(suite[k]) ==> RenameEach(suite, names, to)[k] == suite[k]
    decreases names
  {
    var bound := ExistingNames(suite);
    if names == [] {
      assert Finals(bound, names, to) == bound;
    } else {
      var once := RenameOthers(suite, names[0], to[0]);
      OthersNames(suite, names[0], to[0]);
      assert Separate(names[1..], to[1..], unavailable);
      RenameEachNames(once, names[1..], to[1..], unavailable);
      hide ExistingNames, ImportNames, RenameOthers, Separate;
      assert !exists j :: 0 <= j < |names[1..]| && TextMatches(to[0], names[1..][j]) by { FirstNotMatched(names, to, unavailable); }
      NotMatched(to[0], names[1..], to[1..]);
      FinalsStep(bound, names, to);
    }
  }

  lemma {:induction false} FirstNotMatched(names: seq<string>, to: seq<string>, unavailable: set<string>)
    requires Separate(names, to, unavailable) && names != []
    ensures forall j :: 0 <= j < |names[1..]| ==> !TextMatches(to[0], names[1..][j])
  {
  }

  lemma {:induction false} FinalsStep(bound: set<string>, names: seq<string>, to: seq<string>)
    requires |names| == |to| && names != [] && FinalName(to[0], names[1..], to[1..]) == to[0]
    ensures Finals(Renamed(bound, names[0], to[0]), names[1..], to[1..]) == Finals(bound, names, to)
  {
    forall n ensures FinalName(RenameText(n, names[0], to[0]), names[1..], to[1..]) == FinalName(n, names, to) {
    }
    hide FinalName, RenameText;
    forall n | n in bound ensures FinalName(n, names, to) in Finals(Renamed(bound, names[0], to[0]), names[1..], to[1..]) {
      assert RenameText(n, names[0], to[0]) in Renamed(bound, names[0], to[0]);
    }
  }

  lemma {:induction false} FinalAvoids(n: string, names: seq<string>, to: seq<string>, avoided: set<string>)
    requires |names| == |to| && (forall i :: 0 <= i < |to| ==> to[i] !in avoided)
    requires n in avoided ==> n in names
    ensures FinalName(n, names, to) !in avoided
  {
    if names != [] && !TextMatches(n, names[0]) {
      assert n in names ==> n in names[1..];
      FinalAvoids(n, names[1..], to[1..], avoided);
    }
  }

  /**
   After the renaming no statement of the suite binds a name that an import marker will bind. The markers are
   untouched, and every other binding is as it was or has the replacement of the colliding name it matches.
   */
  lemma {:induction false} CollisionsResolved(suite: seq<Stmt>)
    requires ImportNames(suite).Ok? && NoDots(ImportNames(suite).value)
    ensures var imports := ImportNames(suite).value;
            var after := Resolved(suite).value;
            var names := Ascending(imports * ExistingNames(suite));
            var to := Replacements(names, ExistingNames(suite) + imports);
            && Resolved(suite).Ok? && |after| == |suite|
            && ImportNames(after) == Ok(imports)
            && ExistingNames(after) !! imports
            && ExistingNames(after) == Finals(ExistingNames(suite), names, to)
            && Separate(names, to, ExistingNames(suite) + imports)
            && forall k :: 0 <= k < |suite| && IsImportMarker(suite[k]) ==> after[k] == suite[k]
  {
    var imports, bound := ImportNames(suite).value, ExistingNames(suite);
    var names := Ascending(imports * bound);
    var to := Replacements(names, bound + imports);
    ReplacementsSeparate(names, bound + imports);
    forall i | 0 <= i < |to| ensures '.' !in to[i] && to[i] !in imports {
      assert names[i] in names;
      ReplacementForm(names, bound + imports, i, "");
    }
    RenameEachNames(suite, names, to, bound + imports);
    hide Ascending, Replacements, ExistingNames, ImportNames, RenameEach, FinalName, Separate;
    forall n | n in bound ensures FinalName(n, names, to) !in imports {
      FinalAvoids(n, names, to, imports);
    }
  }

  // ---------- the renaming as it runs ----------

  lemma {:induction false} AscendingFirst(names: set<string>, least: string)
    requires IsLeast(least, names)
    ensures Ascending(names) == [least] + Ascending(names - {least})
  {
    LeastExists(names);
    forall other | IsLeast(other, names) ensures other == least {
      LeastIsUnique(other, least, names);
    }
  }

  method RenamePyImportCollisions(suite: seq<Stmt>) returns (r: Result<seq<Stmt>>)
    ensures r == Resolved(suite)
  {
    var found := ImportNames(suite);
    if found.Err? {
      return Err(found.error);
    }
    var existing := ExistingNames(suite);
    var unavailable, todo, body := existing + found.value, found.value * existing, suite;
    ghost var all, spare := Ascending(todo), Replacements(Ascending(todo), unavailable);
    while todo != {}
      invariant RenameEach(body, Ascending(todo), Replacements(Ascending(todo), unavailable)) == RenameEach(suite, all, spare)
      decreases todo
    {
      LeastExists(todo);
      var name :| name in todo && forall n :: n in todo ==> n == name || TextLess(name, n);
      AscendingFirst(todo, name);
      var replacement, counter := FreshScopedName(name, unavailable);
      assert AllTaken(name, counter, unavailable);
      FreshIsUnique(name, unavailable, replacement, Fresh(name, unavailable));
      assert Ascending(todo)[1..] == Ascending(todo - {name});
      unavailable, todo := unavailable + {replacement}, todo - {name};
      body := RenameOthers(body, name, replacement);
    }
    r := Ok(body);
  }
}
