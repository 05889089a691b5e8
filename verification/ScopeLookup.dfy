/** Finding the scope that a path is in (template_package_v2.rs): two loops with different comparisons, one answer. */
module ScopeLookup {
  import opened Wrappers
  import opened Ast
  import opened AstPaths
  import opened Navigation
  import opened LocatorRoundTrip
  import opened Scopes
  import opened ScopeTree

  // ---------- prefixes of paths ----------

  predicate AstPathIsPrefix(scopePath: string, astPath: string) {
    scopePath == "" || astPath == scopePath || scopePath + "/" <= astPath
  }

  function NonEmpty(parts: seq<string>): nat {
    if parts == [] then 0 else (if parts[0] == "" then 0 else 1) + NonEmpty(parts[1..])
  }

  function AstPathDepth(path: string): nat {
    if path == "" then 0 else NonEmpty(Split(path))
  }

  lemma {:induction false} JoinSplit(text: string)
    ensures Join(Split(text)) == text
  {
    if text != "" {
      JoinSplit(text[1..]);
      var rest := Split(text[1..]);
      if text[0] == '/' {
        assert ([""] + rest)[1..] == rest;
        assert Join([""] + rest) == "" + "/" + Join(rest);
        assert text == ['/'] + text[1..];
      } else {
        JoinFirst(text[0], rest);
        assert text == [text[0]] + text[1..];
      }
    }
  }

  lemma {:induction false} JoinFirst(c: char, texts: seq<string>)
    requires texts != []
    ensures Join([[c] + texts[0]] + texts[1..]) == [c] + Join(texts)
  {
    var longer := [[c] + texts[0]] + texts[1..];
    assert longer[1..] == texts[1..];
    if |texts| > 1 {
      assert [c] + texts[0] + "/" + Join(texts[1..]) == [c] + (texts[0] + "/" + Join(texts[1..]));
    }
  }

  lemma {:induction false} SplitStep(c: char, text: string)
    ensures Split("") == [""]
    ensures var rest := Split(text);
            Split([c] + text) == if c == '/' then [""] + rest else [[c] + rest[0]] + rest[1..]
  {
    assert ([c] + text)[1..] == text;
  }

  lemma {:induction false} SplitAppend(a: string, b: string)
    ensures Split(a + "/" + b) == Split(a) + Split(b)
  {
    hide Split;
    if a == "" {
      SplitStep('/', b);
      assert a + "/" + b == ['/'] + b;
    } else {
      var c, text := a[0], a[1..];
      SplitAppend(text, b);
      SplitStep(c, text);
      SplitStep(c, text + "/" + b);
      assert a == [c] + text && a + "/" + b == [c] + (text + "/" + b);
      FrontAppend(c, Split(text), Split(b));
    }
  }

  lemma {:induction false} FrontAppend(c: char, rest: seq<string>, more: seq<string>)
    requires rest != []
    ensures [""] + (rest + more) == [""] + rest + more
    ensures [[c] + (rest + more)[0]] + (rest + more)[1..] == [[c] + rest[0]] + rest[1..] + more
  {
    assert (rest + more)[1..] == rest[1..] + more;
  }

  /** The test on strings is the test on segments: for any two paths, one begins with the segments of the other. */
  lemma {:induction false} PrefixOfSegments(scopePath: string, astPath: string)
    requires scopePath != ""
    ensures AstPathIsPrefix(scopePath, astPath) <==> Split(scopePath) <= Split(astPath)
  {
    var a, b := Split(scopePath), Split(astPath);
    if scopePath + "/" <= astPath {
      var rest := astPath[|scopePath| + 1..];
      assert astPath == scopePath + "/" + rest;
      SplitAppend(scopePath, rest);
    }
    if a <= b {
      JoinSplit(scopePath);
      JoinSplit(astPath);
      var rest := b[|a|..];
      assert b == a + rest;
      if rest == [] {
        assert b == a;
      } else {
        JoinAppend(a, rest);
      }
    }
  }

  lemma {:induction false} AllNonEmpty(parts: seq<string>)
    requires forall t :: t in parts ==> t != ""
    ensures NonEmpty(parts) == |parts|
  {
    if parts != [] {
      assert parts[0] in parts && forall t :: t in parts[1..] ==> t in parts;
      AllNonEmpty(parts[1..]);
    }
  }

  /** A printed path has as many parts as its address has segments. */
  lemma {:induction false} PrintedParts(at: Address)
    requires at != [] && MachineSized(at)
    ensures PrintAddress(at) != "" && Split(PrintAddress(at)) == PrintSegments(Segments(at))
    ensures AstPathDepth(PrintAddress(at)) == |Split(PrintAddress(at))| >= 1
  {
    SegmentsPrintable(at);
    ParsePrint(Segments(at));
    ParsePrintSegments(Segments(at));
    LastSegment(at);
    PathEnd(Segments(at));
    AllNonEmpty(Split(PrintAddress(at)));
  }

  lemma {:induction false} SegmentsLength(a: seq<Segment>)
    ensures |PrintSegments(a)| == |a|
  {
    PrintSegmentsAppend(a, []);
  }

  /** For statements, the test says whether one is nested in the other. */
  lemma {:induction false} PrefixIsNesting(a: Address, b: Address)
    requires a != [] && b != [] && MachineSized(a) && MachineSized(b)
    ensures AstPathIsPrefix(PrintAddress(a), PrintAddress(b)) <==> a <= b
  {
    PrintedParts(a);
    PrintedParts(b);
    PrefixOfSegments(PrintAddress(a), PrintAddress(b));
    if a <= b {
      var rest := b[|a|..];
      assert b == a + rest;
      SegmentsAppend(a, rest);
      PrintSegmentsAppend(Segments(a), Segments(rest));
    }
    if PrintSegments(Segments(a)) <= PrintSegments(Segments(b)) {
      PrintedPrefix(a, b);
    }
  }

  lemma {:induction false} PrintedPrefix(a: Address, b: Address)
    requires MachineSized(a) && MachineSized(b) && PrintSegments(Segments(a)) <= PrintSegments(Segments(b))
    ensures a <= b
    decreases |a|
  {
    if a != [] {
      SegmentsLength(Segments(a));
      SegmentsLength(Segments(b));
      if b == [] {
        LastSegment(a);
        assert false;
      }
      SegmentsPrintable(a);
      SegmentsPrintable(b);
      PrefixSegments(Segments(a), Segments(b));
      PrefixSteps(a, b);
      assert a == [a[0]] + a[1..] && b == [b[0]] + b[1..];
      SameRest(StepSegments(a[0]), Segments(a[1..]), Segments(b[1..]));
      assert forall step :: step in a[1..] ==> step in a;
      assert forall step :: step in b[1..] ==> step in b;
      PrintSegmentsPrefix(Segments(a[1..]), Segments(b[1..]));
      PrintedPrefix(a[1..], b[1..]);
    }
  }

  lemma {:induction false} PrintSegmentsPrefix(a: seq<Segment>, b: seq<Segment>)
    requires a <= b
    ensures PrintSegments(a) <= PrintSegments(b)
  {
    assert b == a + b[|a|..];
    PrintSegmentsAppend(a, b[|a|..]);
  }

  lemma {:induction false} SameRest(first: seq<Segment>, a: seq<Segment>, b: seq<Segment>)
    requires first + a <= first + b
    ensures a <= b
  {
    assert forall k :: 0 <= k < |a| ==> (first + a)[|first| + k] == a[k] && (first + b)[|first| + k] == b[k];
  }

  /** Segments are read back from what is printed, so equal texts mean equal segments. */
  lemma {:induction false} PrefixSegments(a: seq<Segment>, b: seq<Segment>)
    requires PrintSegments(a) <= PrintSegments(b)
    requires (forall s :: s in a ==> Printable(s)) && (forall s :: s in b ==> Printable(s))
    ensures a <= b
  {
    hide Printable, PrintSegment, ParseSegment;
    SegmentsLength(a);
    SegmentsLength(b);
    if a != [] {
      var printed, printed' := PrintSegments(a), PrintSegments(b);
      assert printed[0] == printed'[0] && a[0] in a && b[0] in b;
      ParsePrintSegment(a[0]);
      ParsePrintSegment(b[0]);
      assert printed[1..] == PrintSegments(a[1..]) && printed'[1..] == PrintSegments(b[1..]);
      TailPrefix(printed, printed');
      assert (forall s :: s in a[1..] ==> s in a) && (forall s :: s in b[1..] ==> s in b);
      PrefixSegments(a[1..], b[1..]);
      assert a == [a[0]] + a[1..] && b == [b[0]] + b[1..];
    }
  }

  lemma {:induction false} TailPrefix<T>(a: seq<T>, b: seq<T>)
    requires a != [] && a <= b
    ensures a[1..] <= b[1..]
  {
    assert forall k :: 0 <= k < |a[1..]| ==> a[1..][k] == a[k + 1] == b[k + 1] == b[1..][k];
  }

  lemma {:induction false} PrefixSteps(a: Address, b: Address)
    requires a != [] && b != [] && Segments(a) <= Segments(b)
    ensures a[0] == b[0]
  {
    FirstOfSegments(a[0], Segments(a[1..]));
    FirstOfSegments(b[0], Segments(b[1..]));
    FirstStepOfPrefix(Segments(a), Segments(b));
  }

  lemma {:induction false} FirstStepOfPrefix(a: seq<Segment>, b: seq<Segment>)
    requires a <= b && FirstStep(a).Some?
    ensures FirstStep(b) == FirstStep(a)
  {
    assert a[0] == b[0];
    if |a| >= 2 {
      assert a[1] == b[1];
    }
  }

  // ---------- the two lookups ----------

  /** The last of the deepest scopes that the path is in; the first scope of all if it is in none. */
  method ScopeForAstPath(scopes: seq<ScopeSpec>, path: string) returns (best: nat)
    requires scopes != []
    ensures best < |scopes|
    ensures (exists k :: 0 <= k < |scopes| && AstPathIsPrefix(scopes[k].path, path)) ==> AstPathIsPrefix(scopes[best].path, path)
    ensures forall k :: 0 <= k < |scopes| && AstPathIsPrefix(scopes[k].path, path) ==>
              AstPathDepth(scopes[k].path) <= AstPathDepth(scopes[best].path)
    ensures forall k :: best < k < |scopes| && AstPathIsPrefix(scopes[k].path, path) ==>
              AstPathDepth(scopes[k].path) < AstPathDepth(scopes[best].path)
  {
    hide AstPathIsPrefix, AstPathDepth;
    best := 0;
    var depth := 0;
    ghost var found := false;
    for k := 0 to |scopes|
      invariant best < |scopes|
      invariant found <==> exists j :: 0 <= j < k && AstPathIsPrefix(scopes[j].path, path)
      invariant found ==> best < k && AstPathIsPrefix(scopes[best].path, path) && depth == AstPathDepth(scopes[best].path)
      invariant !found ==> best == 0 && depth == 0
      invariant forall j :: 0 <= j < k && AstPathIsPrefix(scopes[j].path, path) ==> AstPathDepth(scopes[j].path) <= depth
      invariant forall j :: best < j < k && AstPathIsPrefix(scopes[j].path, path) ==> AstPathDepth(scopes[j].path) < depth
    {
      if AstPathIsPrefix(scopes[k].path, path) {
        found := true;
        if AstPathDepth(scopes[k].path) >= depth {
          best := k;
          depth := AstPathDepth(scopes[k].path);
        }
      }
    }
  }

  /** The first of the deepest scopes that the path is in, if it is in any. */
  method ScopeIdForStatementPath(scopes: seq<ScopeSpec>, path: string) returns (best: Option<nat>)
    ensures best.None? <==> forall k :: 0 <= k < |scopes| ==> !AstPathIsPrefix(scopes[k].path, path)
    ensures best.Some? ==> exists k :: 0 <= k < |scopes| && scopes[k].id == best.value && FirstDeepest(scopes, path, k)
  {
    hide AstPathIsPrefix, AstPathDepth;
    best := None;
    var depth := 0;
    ghost var at := 0;
    for k := 0 to |scopes|
      invariant best.None? <==> forall j :: 0 <= j < k ==> !AstPathIsPrefix(scopes[j].path, path)
      invariant best.Some? ==> 0 <= at < k && scopes[at].id == best.value && depth == AstPathDepth(scopes[at].path)
      invariant best.Some? ==> FirstDeepest(scopes[..k], path, at)
    {
      var scope := scopes[k];
      assert scopes[..k + 1] == scopes[..k] + [scope];
      if AstPathIsPrefix(scope.path, path) {
        if best.None? || AstPathDepth(scope.path) > depth {
          best, depth, at := Some(scope.id), AstPathDepth(scope.path), k;
        }
      }
    }
    assert scopes[..|scopes|] == scopes;
  }

  predicate FirstDeepest(scopes: seq<ScopeSpec>, path: string, k: int) {
    && 0 <= k < |scopes| && AstPathIsPrefix(scopes[k].path, path)
    && (forall j :: 0 <= j < |scopes| && AstPathIsPrefix(scopes[j].path, path) ==>
          AstPathDepth(scopes[j].path) <= AstPathDepth(scopes[k].path))
    && (forall j :: 0 <= j < k && AstPathIsPrefix(scopes[j].path, path) ==>
          AstPathDepth(scopes[j].path) < AstPathDepth(scopes[k].path))
  }

  predicate LastDeepest(scopes: seq<ScopeSpec>, path: string, k: int) {
    && 0 <= k < |scopes| && AstPathIsPrefix(scopes[k].path, path)
    && (forall j :: 0 <= j < |scopes| && AstPathIsPrefix(scopes[j].path, path) ==>
          AstPathDepth(scopes[j].path) <= AstPathDepth(scopes[k].path))
    && (forall j :: k < j < |scopes| && AstPathIsPrefix(scopes[j].path, path) ==>
          AstPathDepth(scopes[j].path) < AstPathDepth(scopes[k].path))
  }

  // ---------- the statements that the traversal can come to ----------

  predicate EntersSlot(h: Head, slot: Slot) {
    match slot
    case InBody => EntersBody(h)
    case InOrelse => EntersOrelse(h)
    case InFinalbody => EntersTry(h)
    case InHandler(_) => EntersTry(h)
    case InCase(_) => false
  }

  /** The traversal enters every suite on the way from a statement to the address. */
  predicate EnteredAlong(s: Stmt, p: Address)
    decreases |p|
  {
    p != [] ==>
      && Suite(s, p[0].slot).Some? && p[0].index < |Suite(s, p[0].slot).value|
      && EntersSlot(s.head, p[0].slot)
      && EnteredAlong(Suite(s, p[0].slot).value[p[0].index], p[1..])
  }

  /** And on the way from the module. */
  predicate EnteredFrom(m: Module, p: Address) {
    p != [] ==> p[0].slot == InBody && p[0].index < |m.body| && EnteredAlong(m.body[p[0].index], p[1..])
  }

  predicate EntersAt(m: Module, at: Address, slot: Slot) {
    && EnteredFrom(m, at) && StmtAt(m, at).Some?
    && if at == [] then slot == InBody else EntersSlot(StmtAt(m, at).value.head, slot)
  }

  lemma {:induction false} EnteredOneMore(s: Stmt, a: Address, step: Step)
    requires EnteredAlong(s, a) && StmtAt(s, a).Some? && EnteredAlong(StmtAt(s, a).value, [step])
    ensures EnteredAlong(s, a + [step])
    decreases |a|
  {
    if a == [] {
      assert a + [step] == [step];
    } else {
      assert (a + [step])[1..] == a[1..] + [step];
      EnteredOneMore(Suite(s, a[0].slot).value[a[0].index], a[1..], step);
    }
  }

  lemma {:induction false} ChildEntered(m: Module, at: Address, slot: Slot, index: nat)
    requires m.head.ModuleHead? && EntersAt(m, at, slot)
    requires Suite(StmtAt(m, at).value, slot).Some? && index < |Suite(StmtAt(m, at).value, slot).value|
    ensures EnteredFrom(m, at + [Step(slot, index)])
  {
    var step := Step(slot, index);
    if at == [] {
      assert at + [step] == [step] && [step][1..] == [];
    } else {
      assert (at + [step])[1..] == at[1..] + [step] && [step][1..] == [];
      EnteredOneMore(m.body[at[0].index], at[1..], step);
    }
  }

  // ---------- one answer ----------

  /** A recorded scope is a function or class that the traversal can come to, with its kind and its name. */
  ghost predicate Recorded(m: Module, s: Scope) {
    && StmtAt(m, s.at).Some? && s.owner != [] && EnteredFrom(m, s.at)
    && ScopeKind(StmtAt(m, s.at).value.head) == Some((s.kind, s.owner[|s.owner| - 1]))
  }

  lemma {:induction false} ScopesAreStatements(s: Stmt, at: Address, place: Place, m: Module)
    requires m.head.ModuleHead? && StmtAt(m, at) == Some(s) && at != [] && EnteredFrom(m, at)
    ensures forall k :: 0 <= k < |StmtScopes(s, at, place)| ==> Recorded(m, StmtScopes(s, at, place)[k])
    decreases s, 1
  {
    hide NestedScopes, EnteredFrom;
    if ScopeKind(s.head).None? {
      NestedAreStatements(s, at, place, m);
    } else {
      var (kind, name) := ScopeKind(s.head).value;
      NestedAreStatements(s, at, Place(place.next, place.owner + [name], place.next + 1), m);
    }
  }

  lemma {:induction false} ChildIsStatement(m: Module, at: Address, slot: Slot, index: nat)
    requires StmtAt(m, at).Some? && Suite(StmtAt(m, at).value, slot).Some? && index < |Suite(StmtAt(m, at).value, slot).value|
    ensures StmtAt(m, at + [Step(slot, index)]) == Some(Suite(StmtAt(m, at).value, slot).value[index])
  {
    StmtAtCompose(m, at, [Step(slot, index)]);
    assert [Step(slot, index)][1..] == [];
  }

  lemma {:induction false} SuiteAreStatements(suite: seq<Stmt>, slot: Slot, from: nat, at: Address, place: Place, m: Module)
    requires m.head.ModuleHead? && EntersAt(m, at, slot) && Suite(StmtAt(m, at).value, slot).Some?
    requires from <= |Suite(StmtAt(m, at).value, slot).value| && suite == Suite(StmtAt(m, at).value, slot).value[from..]
    ensures forall k :: 0 <= k < |SuiteScopes(suite, slot, from, at, place)| ==> Recorded(m, SuiteScopes(suite, slot, from, at, place)[k])
    decreases suite, 0
  {
    hide StmtScopes, StmtAt, Suite, EnteredFrom;
    if suite != [] {
      var here := at + [Step(slot, from)];
      var first := StmtScopes(suite[0], here, place);
      ChildIsStatement(m, at, slot, from);
      ChildEntered(m, at, slot, from);
      ScopesAreStatements(suite[0], here, place, m);
      SuiteAreStatements(suite[1..], slot, from + 1, at, After(place, first), m);
    }
  }

  lemma {:induction false} HandlersAreStatements(branches: seq<Branch>, from: nat, at: Address, place: Place, m: Module)
    requires m.head.ModuleHead? && at != [] && EnteredFrom(m, at)
    requires StmtAt(m, at).Some? && EntersTry(StmtAt(m, at).value.head) && from <= |StmtAt(m, at).value.branches|
    requires branches == StmtAt(m, at).value.branches[from..]
    ensures forall k :: 0 <= k < |HandlerScopes(branches, from, at, place)| ==> Recorded(m, HandlerScopes(branches, from, at, place)[k])
    decreases branches
  {
    hide SuiteScopes, StmtAt, EnteredFrom;
    if branches != [] {
      var first := SuiteScopes(branches[0].body, InHandler(from), 0, at, place);
      SuiteAreStatements(branches[0].body, InHandler(from), 0, at, place, m);
      HandlersAreStatements(branches[1..], from + 1, at, After(place, first), m);
    }
  }

  lemma {:induction false} FieldAreStatements(entered: bool, suite: seq<Stmt>, slot: Slot, at: Address, place: Place, m: Module)
    requires m.head.ModuleHead?
    requires entered ==> EntersAt(m, at, slot) && Suite(StmtAt(m, at).value, slot) == Some(suite)
    ensures forall k :: 0 <= k < |ScopesIf(entered, suite, slot, at, place)| ==> Recorded(m, ScopesIf(entered, suite, slot, at, place)[k])
    decreases suite, 1
  {
    hide SuiteScopes, StmtAt;
    if entered {
      assert suite[0..] == suite;
      SuiteAreStatements(suite, slot, 0, at, place, m);
    }
  }

  lemma {:induction false} NestedAreStatements(s: Stmt, at: Address, place: Place, m: Module)
    requires m.head.ModuleHead? && StmtAt(m, at) == Some(s) && at != [] && EnteredFrom(m, at)
    ensures forall k :: 0 <= k < |NestedScopes(s, at, place)| ==> Recorded(m, NestedScopes(s, at, place)[k])
    decreases s, 0
  {
    hide ScopesIf, HandlerScopes, StmtAt, EnteredFrom;
    var body := ScopesIf(EntersBody(s.head), s.body, InBody, at, place);
    var handlers := if EntersTry(s.head) then HandlerScopes(s.branches, 0, at, After(place, body)) else [];
    var orelse := ScopesIf(EntersOrelse(s.head), s.orelse, InOrelse, at, After(place, body + handlers));
    FieldAreStatements(EntersBody(s.head), s.body, InBody, at, place, m);
    if EntersTry(s.head) {
      assert s.branches[0..] == s.branches;
      HandlersAreStatements(s.branches, 0, at, After(place, body), m);
    }
    FieldAreStatements(EntersOrelse(s.head), s.orelse, InOrelse, at, After(place, body + handlers), m);
    FieldAreStatements(EntersTry(s.head), s.finalbody, InFinalbody, at, After(place, body + handlers + orelse), m);
  }

  /** Every recorded scope of a module, apart from the module itself, is a function or class that the traversal comes to. */
  lemma {:induction false} ScopesRecorded(m: Module, id: nat)
    requires m.head.ModuleHead? && 1 <= id <= |ModuleScopes(m)|
    ensures Recorded(m, ModuleScopes(m)[id - 1])
    ensures AllScopes(m)[id] == Spec(ModuleScopes(m)[id - 1])
  {
    hide SuiteScopes, Recorded;
    assert m.body[0..] == m.body;
    SuiteAreStatements(m.body, InBody, 0, [], Place(0, [], 1), m);
  }

  lemma {:induction false} ScopeAddressSized(m: Module, id: nat)
    requires m.head.ModuleHead? && FitsMachine(m) && 1 <= id <= |ModuleScopes(m)|
    ensures AddressOfScope(m, id) != [] && MachineSized(AddressOfScope(m, id))
    ensures AllScopes(m)[id].path == PrintAddress(AddressOfScope(m, id))
  {
    hide ModuleScopes, MachineSized, PrintAddress, AllScopes;
    ScopesRecorded(m, id);
    ParentIsInnermost(m, id);
  }

  /** No two scopes that a path is in are equally deep. */
  lemma {:induction false} EquallyDeepIsSame(m: Module, path: string, i: nat, j: nat)
    requires m.head.ModuleHead? && FitsMachine(m) && i <= |ModuleScopes(m)| && j <= |ModuleScopes(m)|
    requires AstPathIsPrefix(AllScopes(m)[i].path, path) && AstPathIsPrefix(AllScopes(m)[j].path, path)
    requires AstPathDepth(AllScopes(m)[i].path) == AstPathDepth(AllScopes(m)[j].path)
    ensures i == j
  {
    var a, b := AddressOfScope(m, i), AddressOfScope(m, j);
    if i > 0 {
      ScopeAddressSized(m, i);
      PrintedParts(a);
    }
    if j > 0 {
      ScopeAddressSized(m, j);
      PrintedParts(b);
    }
    ScopesNumbered(m, i, j);
    hide AddressOfScope, AllScopes, ModuleScopes, MachineSized, AstPathDepth;
    if i > 0 && j > 0 {
      PrefixOfSegments(PrintAddress(a), path);
      PrefixOfSegments(PrintAddress(b), path);
      JoinSplit(PrintAddress(a));
      JoinSplit(PrintAddress(b));
      assert Split(PrintAddress(a)) == Split(PrintAddress(b));
      PrintAddressInjective(a, b);
    }
  }

  /** Both lookups find the one innermost recorded scope that a path is in, so they agree on every path. */
  lemma {:induction false} LookupsAgree(m: Module, path: string, i: nat, j: nat)
    requires m.head.ModuleHead? && FitsMachine(m) && i <= |ModuleScopes(m)| && j <= |ModuleScopes(m)|
    requires LastDeepest(AllScopes(m), path, i) && FirstDeepest(AllScopes(m), path, j)
    ensures i == j
  {
    hide AstPathIsPrefix, AstPathDepth, FitsMachine, ModuleScopes;
    EquallyDeepIsSame(m, path, i, j);
  }

  /** The one deepest recorded scope that a path is in. */
  predicate Deepest(m: Module, path: string, id: nat) {
    && id <= |ModuleScopes(m)| && AstPathIsPrefix(AllScopes(m)[id].path, path)
    && forall other :: 0 <= other <= |ModuleScopes(m)| && AstPathIsPrefix(AllScopes(m)[other].path, path) && other != id ==>
         AstPathDepth(AllScopes(m)[other].path) < AstPathDepth(AllScopes(m)[id].path)
  }

  /** The lookups, run one after the other on the scopes of a module. */
  method LookUp(m: Module, path: string) returns (id: nat)
    requires m.head.ModuleHead? && FitsMachine(m)
    ensures Deepest(m, path, id)
  {
    var scopes := ExtractScopes(m);
    assert AstPathIsPrefix(scopes[0].path, path);
    id := ScopeForAstPath(scopes, path);
    var best := ScopeIdForStatementPath(scopes, path);
    hide AstPathIsPrefix, AstPathDepth, FitsMachine, ModuleScopes;
    ghost var k :| 0 <= k < |scopes| && scopes[k].id == best.value && FirstDeepest(scopes, path, k);
    LookupsAgree(m, path, id, k);
    ScopesNumbered(m, k, k);
    assert best == Some(id);
  }

  // ---------- no scope is missed ----------

  ghost predicate Has(scopes: seq<Scope>, at: Address) {
    exists k :: 0 <= k < |scopes| && scopes[k].at == at
  }

  lemma {:induction false} HasAppend(a: seq<Scope>, b: seq<Scope>, at: Address)
    ensures Has(a, at) ==> Has(a + b, at)
    ensures Has(b, at) ==> Has(a + b, at)
  {
    if k :| 0 <= k < |a| && a[k].at == at {
      assert (a + b)[k].at == at;
    }
    if k :| 0 <= k < |b| && b[k].at == at {
      assert (a + b)[|a| + k].at == at;
    }
  }

  lemma {:induction false} StmtScopesComplete(s: Stmt, at: Address, place: Place, p: Address)
    requires EnteredAlong(s, p) && StmtAt(s, p).Some? && ScopeKind(StmtAt(s, p).value.head).Some?
    ensures Has(StmtScopes(s, at, place), at + p)
    decreases |p|, 2
  {
    hide NestedScopes, Has;
    var kind := ScopeKind(s.head);
    if p == [] {
      assert at + p == at;
      FirstScope(s, at, place);
    } else if kind.None? {
      NestedScopesComplete(s, at, place, p);
    } else {
      var owner := place.owner + [kind.value.1];
      NestedScopesComplete(s, at, Place(place.next, owner, place.next + 1), p);
      HasAppend([Scope(place.next, place.parent, kind.value.0, at, owner)], NestedScopes(s, at, Place(place.next, owner, place.next + 1)), at + p);
    }
  }

  lemma {:induction false} FirstScope(s: Stmt, at: Address, place: Place)
    requires ScopeKind(s.head).Some?
    ensures Has(StmtScopes(s, at, place), at)
  {
    hide NestedScopes;
    assert StmtScopes(s, at, place)[0].at == at;
  }

  lemma {:induction false} SuiteScopesComplete(suite: seq<Stmt>, slot: Slot, from: nat, at: Address, place: Place, p: Address)
    requires p != [] && p[0].slot == slot && from <= p[0].index < from + |suite|
    requires var child := suite[p[0].index - from];
             EnteredAlong(child, p[1..])
             && StmtAt(child, p[1..]).Some? && ScopeKind(StmtAt(child, p[1..]).value.head).Some?
    ensures Has(SuiteScopes(suite, slot, from, at, place), at + p)
    decreases |p|, 0, |suite|
  {
    hide StmtScopes, Has, EnteredAlong, StmtAt;
    var here := at + [Step(slot, from)];
    var first := StmtScopes(suite[0], here, place);
    var rest := SuiteScopes(suite[1..], slot, from + 1, at, After(place, first));
    HasAppend(first, rest, at + p);
    if p[0].index == from {
      StmtScopesComplete(suite[0], here, place, p[1..]);
      assert p == [p[0]] + p[1..];
      assert here + p[1..] == at + p;
    } else {
      assert suite[1..][p[0].index - from - 1] == suite[p[0].index - from];
      SuiteScopesComplete(suite[1..], slot, from + 1, at, After(place, first), p);
    }
  }

  lemma {:induction false} HandlerScopesComplete(branches: seq<Branch>, from: nat, at: Address, place: Place, p: Address)
    requires p != [] && p[0].slot.InHandler? && from <= p[0].slot.k < from + |branches|
    requires var body := branches[p[0].slot.k - from].body;
             && p[0].index < |body| && EnteredAlong(body[p[0].index], p[1..])
             && StmtAt(body[p[0].index], p[1..]).Some? && ScopeKind(StmtAt(body[p[0].index], p[1..]).value.head).Some?
    ensures Has(HandlerScopes(branches, from, at, place), at + p)
    decreases |p|, 1, |branches|
  {
    hide SuiteScopes, Has, EnteredAlong, StmtAt;
    var first := SuiteScopes(branches[0].body, InHandler(from), 0, at, place);
    var rest := HandlerScopes(branches[1..], from + 1, at, After(place, first));
    HasAppend(first, rest, at + p);
    if p[0].slot.k == from {
      SuiteScopesComplete(branches[0].body, InHandler(from), 0, at, place, p);
    } else {
      assert branches[1..][p[0].slot.k - from - 1] == branches[p[0].slot.k - from];
      HandlerScopesComplete(branches[1..], from + 1, at, After(place, first), p);
    }
  }

  lemma {:induction false} NestedScopesComplete(s: Stmt, at: Address, place: Place, p: Address)
    requires p != [] && EnteredAlong(s, p) && StmtAt(s, p).Some? && ScopeKind(StmtAt(s, p).value.head).Some?
    ensures Has(NestedScopes(s, at, place), at + p)
    decreases |p|, 1
  {
    hide SuiteScopes, HandlerScopes, Has;
    var body := ScopesIf(EntersBody(s.head), s.body, InBody, at, place);
    var handlers := if EntersTry(s.head) then HandlerScopes(s.branches, 0, at, After(place, body)) else [];
    var orelse := ScopesIf(EntersOrelse(s.head), s.orelse, InOrelse, at, After(place, body + handlers));
    var final := ScopesIf(EntersTry(s.head), s.finalbody, InFinalbody, at, After(place, body + handlers + orelse));
    HasAppend(body, handlers, at + p);
    HasAppend(body + handlers, orelse, at + p);
    HasAppend(body + handlers + orelse, final, at + p);
    match p[0].slot
    case InBody => SuiteScopesComplete(s.body, InBody, 0, at, place, p);
    case InOrelse => SuiteScopesComplete(s.orelse, InOrelse, 0, at, After(place, body + handlers), p);
    case InFinalbody => SuiteScopesComplete(s.finalbody, InFinalbody, 0, at, After(place, body + handlers + orelse), p);
    case InHandler(_) => HandlerScopesComplete(s.branches, 0, at, After(place, body), p);
  }

  /** A function or class. */
  predicate IsScope(m: Module, p: Address) {
    StmtAt(m, p).Some? && ScopeKind(StmtAt(m, p).value.head).Some?
  }

  ghost predicate RecordedAt(m: Module, p: Address) {
    exists id :: 1 <= id <= |ModuleScopes(m)| && AddressOfScope(m, id) == p
  }

  /** Recorded are exactly the functions and classes that the traversal can come to. */
  lemma {:induction false} RecordedIff(m: Module, p: Address)
    requires m.head.ModuleHead? && p != []
    ensures RecordedAt(m, p) <==> IsScope(m, p) && EnteredFrom(m, p)
  {
    if RecordedAt(m, p) {
      var id :| 1 <= id <= |ModuleScopes(m)| && AddressOfScope(m, id) == p;
      hide ModuleScopes, EnteredFrom;
      ScopesRecorded(m, id);
    }
    if IsScope(m, p) && EnteredFrom(m, p) {
      SuiteScopesComplete(m.body, InBody, 0, [], Place(0, [], 1), p);
      assert [] + p == p;
      hide SuiteScopes;
      var k :| 0 <= k < |ModuleScopes(m)| && ModuleScopes(m)[k].at == p;
      assert AddressOfScope(m, k + 1) == p;
    }
  }

  /** A function or class in a match case is not recorded. */
  lemma {:induction false} MatchScopesMissed(subject: Expr, tag: string, definition: Stmt)
    requires ScopeKind(definition.head).Some?
    ensures var m := Stmt(ModuleHead, [Stmt(Match(subject), [], [], [], [Branch(tag, [definition])])], [], [], []);
            IsScope(m, [Step(InBody, 0), Step(InCase(0), 0)]) && ModuleScopes(m) == []
  {
    var choice := Stmt(Match(subject), [], [], [], [Branch(tag, [definition])]);
    var m := Stmt(ModuleHead, [choice], [], [], []);
    var at := [Step(InBody, 0), Step(InCase(0), 0)];
    assert at[1..] == [Step(InCase(0), 0)] && at[1..][1..] == [];
    assert choice.branches[0].body == [definition] && Suite(choice, InCase(0)) == Some([definition]);
    assert StmtAt(definition, []) == Some(definition);
    assert StmtAt(choice, [Step(InCase(0), 0)]) == Some(definition) by { assert [Step(InCase(0), 0)][1..] == []; }
    assert [] + [Step(InBody, 0)] == [Step(InBody, 0)] && m.body[1..] == [];
    var place := Place(0, [], 1);
    NothingEntered(choice, [Step(InBody, 0)], place);
    assert SuiteScopes(m.body[1..], InBody, 1, [], After(place, [])) == [];
    assert SuiteScopes(m.body, InBody, 0, [], place) == [] + [];
  }

  lemma {:induction false} NothingEntered(s: Stmt, at: Address, place: Place)
    requires ScopeKind(s.head).None? && !EntersBody(s.head) && !EntersOrelse(s.head) && !EntersTry(s.head)
    ensures StmtScopes(s, at, place) == []
  {
    assert NestedScopes(s, at, place) == [];
  }

  // ---------- the function or class around a statement ----------

  /** The innermost function or class that a statement is or lies in, or the module. */
  function InnermostScope(m: Module, at: Address): (r: Address)
    ensures r <= at && (r != [] ==> IsScope(m, r))
    ensures forall n :: 0 < n <= |at| && IsScope(m, at[..n]) ==> n <= |r|
  {
    if at == [] then []
    else if IsScope(m, at) then at
    else
      assert at[..|at|] == at && forall n :: 0 <= n < |at| ==> at[..|at| - 1][..n] == at[..n];
      InnermostScope(m, at[..|at| - 1])
  }

  lemma {:induction false} DeeperIsLonger(a: Address, b: Address)
    requires a <= b && a != [] && MachineSized(a) && MachineSized(b)
    ensures AstPathDepth(PrintAddress(a)) <= AstPathDepth(PrintAddress(b))
  {
    hide AstPathDepth, MachineSized;
    PrintedParts(a);
    PrintedParts(b);
    assert b == a + b[|a|..];
    SegmentsAppend(a, b[|a|..]);
    SegmentsLength(Segments(a));
    SegmentsLength(Segments(b));
  }

  /** The deepest recorded scope around a statement is its innermost function or class exactly when the traversal comes to that. */
  lemma {:induction false} LookUpRightIff(m: Module, at: Address, id: nat)
    requires m.head.ModuleHead? && FitsMachine(m) && at != [] && StmtAt(m, at).Some?
    requires Deepest(m, PrintAddress(at), id)
    ensures AddressOfScope(m, id) == InnermostScope(m, at) <==> EnteredFrom(m, InnermostScope(m, at))
  {
    var p, found := InnermostScope(m, at), AddressOfScope(m, id);
    hide ModuleScopes, EnteredFrom, AstPathIsPrefix, AstPathDepth, MachineSized, InnermostScope;
    assert MachineSized(at);
    assert found <= p by { FoundIsAround(m, at, id); }
    if found == p && p != [] {
      ScopesRecorded(m, id);
    }
    if EnteredFrom(m, p) && p != [] {
      RecordedIff(m, p);
      var other :| 1 <= other <= |ModuleScopes(m)| && AddressOfScope(m, other) == p;
      ScopeAddressSized(m, other);
      PrefixIsNesting(p, at);
      PrintedParts(p);
      if id > 0 {
        ScopeAddressSized(m, id);
        DeeperIsLonger(found, p);
      } else {
        EmptyDepth();
      }
      assert other == id;
    }
  }

  lemma {:induction false} EmptyDepth()
    ensures AstPathDepth(MODULE_SCOPE.path) == 0
  {
  }

  lemma {:induction false} FoundIsAround(m: Module, at: Address, id: nat)
    requires m.head.ModuleHead? && FitsMachine(m) && at != [] && StmtAt(m, at).Some?
    requires Deepest(m, PrintAddress(at), id)
    ensures AddressOfScope(m, id) <= InnermostScope(m, at)
  {
    hide ModuleScopes, EnteredFrom, AstPathIsPrefix, AstPathDepth, MachineSized, InnermostScope;
    if id > 0 {
      assert MachineSized(at);
      ScopeAddressSized(m, id);
      ScopesRecorded(m, id);
      PrefixIsNesting(AddressOfScope(m, id), at);
      assert at[..|AddressOfScope(m, id)|] == AddressOfScope(m, id);
    }
  }
}
