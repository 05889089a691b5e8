/** Build paths of insert shells and the expressions that spell them (src/astichi/shell_refs.py). */
module RefPaths {
  import opened Wrappers

  datatype RefSegment = Named(name: string) | Index(i: int)

  type RefPath = seq<RefSegment>

  datatype Literal = Text(text: string) | Number(i: int) | Flag(b: bool) | Nothing

  /** The expressions that a `ref=` value may be made of; the rest are `Unsupported`. */
  datatype Node =
    | NameNode(id: string)
    | Attribute(value: Node, attr: string)
    | Subscript(value: Node, slice: Node)
    | TupleNode(elts: seq<Node>)
    | Constant(literal: Literal)
    | Unsupported

  // ---------- normal paths ----------

  function IndexRun(path: RefPath): (split: nat)
    ensures split <= |path|
    ensures forall k :: 0 <= k < split ==> path[k].Index?
    ensures split < |path| ==> path[split].Named?
  {
    if path == [] || path[0].Named? then 0 else 1 + IndexRun(path[1..])
  }

  /** Moves the first name in front of the indexes that come before it. */
  function Normalize(path: RefPath): Result<RefPath> {
    if path == [] || path[0].Named? then Ok(path)
    else
      var split := IndexRun(path);
      if split == |path| then Err(BadPath) else Ok([path[split]] + path[..split] + path[split + 1..])
  }

  method NormalizeRefPath(path: RefPath) returns (r: Result<RefPath>)
    ensures r == Normalize(path)
  {
    if path == [] || path[0].Named? {
      return Ok(path);
    }
    var split := 0;
    while split < |path| && path[split].Index?
      invariant split <= |path| && IndexRun(path) == split + IndexRun(path[split..])
    {
      assert path[split..][1..] == path[split + 1..];
      split := split + 1;
    }
    if split == |path| {
      return Err(BadPath);
    }
    r := Ok([path[split]] + path[..split] + path[split + 1..]);
  }

  predicate HasName(path: RefPath) {
    exists k :: 0 <= k < |path| && path[k].Named?
  }

  predicate NameFirst(path: RefPath) {
    path != [] && path[0].Named?
  }

  /** Normalizing brings the first name to the front; every other segment stays where it is among the rest. */
  lemma {:induction false} NormalizeExact(path: RefPath, k: nat)
    requires k < |path| && path[k].Named? && forall j :: 0 <= j < k ==> path[j].Index?
    ensures Normalize(path).Ok? && |Normalize(path).value| == |path| && Normalize(path).value[0] == path[k]
    ensures forall j :: 1 <= j < |path| ==> Normalize(path).value[j] == path[if j <= k then j - 1 else j]
  {
    assert IndexRun(path) == k;
  }

  /** Normalizing keeps the segments, fails only without a name, and changes nothing the second time. */
  lemma {:induction false} NormalizeFacts(path: RefPath)
    ensures Normalize(path).Ok? <==> path == [] || HasName(path)
    ensures Normalize(path).Ok? ==>
              var r := Normalize(path).value;
              multiset(r) == multiset(path) && Normalize(r) == Ok(r) && (path != [] ==> NameFirst(r))
  {
    if path != [] && path[0].Index? {
      var split := IndexRun(path);
      if split < |path| {
        assert path == path[..split] + [path[split]] + path[split + 1..];
      }
    }
  }

  // ---------- encoding ----------

  function ConstantsOf(indices: seq<int>): (r: seq<Node>)
    ensures |r| == |indices|
    ensures forall k :: 0 <= k < |r| ==> r[k] == Constant(Number(indices[k]))
  {
    if indices == [] then [] else [Constant(Number(indices[0]))] + ConstantsOf(indices[1..])
  }

  function ApplyIndexRun(expr: Node, indices: seq<int>): Node
    requires indices != []
  {
    Subscript(expr, if |indices| == 1 then Constant(Number(indices[0])) else TupleNode(ConstantsOf(indices)))
  }

  function Applied(expr: Node, run: seq<int>): Node {
    if run == [] then expr else ApplyIndexRun(expr, run)
  }

  /** The expression so far, and the indexes still to be applied to it. */
  datatype Fluent = Fluent(expr: Option<Node>, run: seq<int>)

  function Extend(state: Fluent, segment: RefSegment): Fluent {
    match segment
    case Index(i) => Fluent(state.expr, state.run + [i])
    case Named(name) =>
      match state.expr
      case None => Fluent(Some(NameNode(name)), state.run)
      case Some(expr) => Fluent(Some(Attribute(Applied(expr, state.run), name)), [])
  }

  /** The fluent expression for the first `n` segments. */
  function Folded(path: RefPath, n: nat): Fluent
    requires n <= |path|
  {
    if n == 0 then Fluent(None, []) else Extend(Folded(path, n - 1), path[n - 1])
  }

  function Finished(state: Fluent): Result<Node> {
    match state.expr
    case None => Err(BadPath)
    case Some(expr) => Ok(Applied(expr, state.run))
  }

  function SegmentNode(segment: RefSegment): Node {
    match segment
    case Named(name) => Constant(Text(name))
    case Index(i) => Constant(Number(i))
  }

  function TupleOf(path: RefPath): Node {
    TupleNode(seq(|path|, k requires 0 <= k < |path| => SegmentNode(path[k])))
  }

  predicate AllIdentifiers(path: RefPath, isIdentifier: string -> bool) {
    forall k :: 0 <= k < |path| && path[k].Named? ==> isIdentifier(path[k].name)
  }

  /** Spells a path as a fluent expression, or as a tuple when a name is not an identifier. */
  function Encode(path: RefPath, isIdentifier: string -> bool): Result<Node> {
    var normal :- Normalize(path);
    if normal == [] then Err(BadPath)
    else if !AllIdentifiers(normal, isIdentifier) then Ok(TupleOf(normal))
    else Finished(Folded(normal, |normal|))
  }

  method RefPathToAst(path: RefPath, isIdentifier: string -> bool) returns (r: Result<Node>)
    ensures r == Encode(path, isIdentifier)
  {
    var found := NormalizeRefPath(path);
    if found.Err? {
      return Err(found.error);
    }
    var normal := found.value;
    if normal == [] {
      return Err(BadPath);
    }
    if exists k :: 0 <= k < |normal| && normal[k].Named? && !isIdentifier(normal[k].name) {
      return Ok(TupleOf(normal));
    }
    var expr: Option<Node> := None;
    var indexRun: seq<int> := [];
    for n := 0 to |normal|
      invariant Fluent(expr, indexRun) == Folded(normal, n)
    {
      var segment := normal[n];
      if segment.Index? {
        indexRun := indexRun + [segment.i];
      } else if expr.None? {
        expr := Some(NameNode(segment.name));
      } else {
        var base := expr.value;
        if indexRun != [] {
          base := ApplyIndexRun(base, indexRun);
          indexRun := [];
        }
        expr := Some(Attribute(base, segment.name));
      }
    }
    if expr.None? {
      return Err(BadPath);
    }
    r := Ok(if indexRun != [] then ApplyIndexRun(expr.value, indexRun) else expr.value);
  }

  // ---------- decoding ----------

  function ParseSegment(node: Node): Result<RefSegment> {
    if node.Constant? && node.literal.Text? then Ok(Named(node.literal.text))
    else if node.Constant? && node.literal.Number? then Ok(Index(node.literal.i))
    else Err(BadPath)
  }

  function ParseSegments(nodes: seq<Node>): Result<RefPath> {
    if nodes == [] then Ok([])
    else
      var first :- ParseSegment(nodes[0]);
      var rest :- ParseSegments(nodes[1..]);
      Ok([first] + rest)
  }

  function ParseIndex(node: Node): Result<int> {
    var segment :- ParseSegment(node);
    if segment.Index? then Ok(segment.i) else Err(BadPath)
  }

  function ParseIndices(nodes: seq<Node>): Result<seq<int>> {
    if nodes == [] then Ok([])
    else
      var first :- ParseIndex(nodes[0]);
      var rest :- ParseIndices(nodes[1..]);
      Ok([first] + rest)
  }

  function ParseSlice(node: Node): Result<seq<int>> {
    if node.TupleNode? then
      var indices :- ParseIndices(node.elts);
      if indices == [] then Err(BadPath) else Ok(indices)
    else
      var i :- ParseIndex(node);
      Ok([i])
  }

  /** A name with the indexes that follow it. */
  datatype Component = Component(name: string, indices: seq<int>)

  function ParseComponents(node: Node): (r: Result<seq<Component>>)
    ensures r.Ok? ==> r.value != []
  {
    match node
    case NameNode(id) => Ok([Component(id, [])])
    case Attribute(value, attr) =>
      var components :- ParseComponents(value);
      Ok(components + [Component(attr, [])])
    case Subscript(value, slice) =>
      var components :- ParseComponents(value);
      var indices :- ParseSlice(slice);
      var last := components[|components| - 1];
      Ok(components[|components| - 1 := Component(last.name, last.indices + indices)])
    case _ => Err(BadPath)
  }

  function IndexSegments(indices: seq<int>): RefPath {
    seq(|indices|, k requires 0 <= k < |indices| => Index(indices[k]))
  }

  function PathOf(components: seq<Component>): RefPath {
    if components == [] then []
    else
      var last := components[|components| - 1];
      PathOf(components[..|components| - 1]) + [Named(last.name)] + IndexSegments(last.indices)
  }

  function Decode(node: Node): Result<RefPath> {
    if node.TupleNode? then
      var path :- ParseSegments(node.elts);
      Normalize(path)
    else
      var components :- ParseComponents(node);
      Ok(PathOf(components))
  }

  /** Decodes an expression; the list of components is extended as the path is read out. */
  method ParseRefPathLiteral(node: Node) returns (r: Result<RefPath>)
    ensures r == Decode(node)
  {
    if node.TupleNode? {
      var segments := ParseSegments(node.elts);
      if segments.Err? {
        return Err(segments.error);
      }
      r := NormalizeRefPath(segments.value);
      return;
    }
    var found := ParseComponents(node);
    if found.Err? {
      return Err(found.error);
    }
    var components, path := found.value, [];
    for n := 0 to |components|
      invariant path == PathOf(components[..n])
    {
      assert components[..n + 1][..n] == components[..n];
      path := path + [Named(components[n].name)] + IndexSegments(components[n].indices);
    }
    assert components[..|components|] == components;
    r := Ok(path);
  }

  // ---------- what is encoded is read back ----------

  lemma {:induction false} ConstantsRead(indices: seq<int>)
    ensures ParseIndices(ConstantsOf(indices)) == Ok(indices)
  {
    if indices != [] {
      ConstantsRead(indices[1..]);
      assert ConstantsOf(indices)[1..] == ConstantsOf(indices[1..]);
      assert [indices[0]] + indices[1..] == indices;
    }
  }

  lemma {:induction false} SliceRead(expr: Node, indices: seq<int>)
    requires indices != []
    ensures ParseSlice(ApplyIndexRun(expr, indices).slice) == Ok(indices)
  {
    ConstantsRead(indices);
    if |indices| == 1 {
      assert indices == [indices[0]];
    }
  }

  lemma {:induction false} PathOfPush(components: seq<Component>, c: Component)
    ensures PathOf(components + [c]) == PathOf(components) + [Named(c.name)] + IndexSegments(c.indices)
  {
    assert (components + [c])[..|components|] == components;
  }

  /** The path of components whose last one has no indexes yet, and after it gets some. */
  lemma {:induction false} LastIndices(cs: seq<Component>, run: seq<int>)
    requires cs != [] && cs[|cs| - 1].indices == []
    ensures PathOf(cs[|cs| - 1 := Component(cs[|cs| - 1].name, run)]) == PathOf(cs) + IndexSegments(run)
  {
    var before, last := cs[..|cs| - 1], cs[|cs| - 1];
    PathOfPush(before, last);
    PathOfPush(before, Component(last.name, run));
    hide PathOf;
    assert cs == before + [last];
    assert cs[|cs| - 1 := Component(last.name, run)] == before + [Component(last.name, run)];
    assert IndexSegments([]) == [];
  }

  lemma {:induction false} RunRead(expr: Node, run: seq<int>)
    requires ParseComponents(expr).Ok?
    requires var cs := ParseComponents(expr).value; cs[|cs| - 1].indices == []
    ensures ParseComponents(Applied(expr, run)).Ok?
    ensures PathOf(ParseComponents(Applied(expr, run)).value) == PathOf(ParseComponents(expr).value) + IndexSegments(run)
  {
    hide PathOf, ParseSlice;
    var cs := ParseComponents(expr).value;
    if run == [] {
      assert IndexSegments(run) == [];
    } else {
      SliceRead(expr, run);
      assert [] + run == run;
      LastIndices(cs, run);
      assert ParseComponents(ApplyIndexRun(expr, run)) == Ok(cs[|cs| - 1 := Component(cs[|cs| - 1].name, [] + run)]);
    }
  }

  /** What the fluent expression so far spells. */
  ghost predicate Spells(state: Fluent, path: RefPath) {
    && state.expr.Some?
    && ParseComponents(state.expr.value).Ok?
    && var cs := ParseComponents(state.expr.value).value;
       cs[|cs| - 1].indices == [] && PathOf(cs) + IndexSegments(state.run) == path
  }

  lemma {:induction false} ExtendSpells(state: Fluent, path: RefPath, segment: RefSegment)
    requires Spells(state, path)
    ensures Spells(Extend(state, segment), path + [segment])
  {
    var cs := ParseComponents(state.expr.value).value;
    match segment
    case Index(i) =>
      assert IndexSegments(state.run + [i]) == IndexSegments(state.run) + [Index(i)];
    case Named(name) =>
      RunRead(state.expr.value, state.run);
      var applied := ParseComponents(Applied(state.expr.value, state.run)).value;
      PathOfPush(applied, Component(name, []));
      assert IndexSegments([]) == [];
  }

  lemma {:induction false} FirstFolded(path: RefPath)
    requires NameFirst(path)
    ensures Folded(path, 1) == Fluent(Some(NameNode(path[0].name)), [])
  {
    assert Folded(path, 0) == Fluent(None, []);
  }

  lemma {:induction false} OneComponent(name: string)
    ensures PathOf([Component(name, [])]) == [Named(name)]
  {
    PathOfPush([], Component(name, []));
    assert [] + [Component(name, [])] == [Component(name, [])];
  }

  lemma {:induction false} FoldedSpells(path: RefPath, n: nat)
    requires NameFirst(path) && 1 <= n <= |path|
    ensures Spells(Folded(path, n), path[..n])
  {
    if n == 1 {
      FirstFolded(path);
      OneComponent(path[0].name);
      assert path[..1] == [path[0]] && IndexSegments([]) == [];
      hide Folded, PathOf;
    } else {
      hide Spells, Extend;
      FoldedSpells(path, n - 1);
      ExtendSpells(Folded(path, n - 1), path[..n - 1], path[n - 1]);
      assert path[..n] == path[..n - 1] + [path[n - 1]];
    }
  }

  lemma {:induction false} SpelledRead(state: Fluent, path: RefPath)
    requires Spells(state, path)
    ensures Finished(state).Ok? && !Finished(state).value.TupleNode? && Decode(Finished(state).value) == Ok(path)
  {
    RunRead(state.expr.value, state.run);
  }

  lemma {:induction false} SegmentsRead(path: RefPath)
    ensures ParseSegments(TupleOf(path).elts) == Ok(path)
  {
    if path != [] {
      SegmentsRead(path[1..]);
      assert TupleOf(path).elts[1..] == TupleOf(path[1..]).elts;
      assert [path[0]] + path[1..] == path;
    }
  }

  /** Encoding and decoding any path with a name gives its normal form, in the fluent and in the tuple form. */
  lemma {:induction false} DecodeEncode(path: RefPath, isIdentifier: string -> bool)
    ensures Encode(path, isIdentifier).Ok? <==> HasName(path)
    ensures HasName(path) ==>
              && Normalize(path).Ok?
              && Decode(Encode(path, isIdentifier).value) == Ok(Normalize(path).value)
              && (Encode(path, isIdentifier).value.TupleNode? <==> !AllIdentifiers(Normalize(path).value, isIdentifier))
  {
    NormalizeFacts(path);
    if HasName(path) {
      var normal := Normalize(path).value;
      if AllIdentifiers(normal, isIdentifier) {
        FoldedSpells(normal, |normal|);
        assert normal[..|normal|] == normal;
        SpelledRead(Folded(normal, |normal|), normal);
      } else {
        SegmentsRead(normal);
      }
    }
  }

  // ---------- canonical expressions ----------

  predicate CanonicalSlice(slice: Node) {
    || (slice.Constant? && slice.literal.Number?)
    || (slice.TupleNode? && |slice.elts| >= 2
        && forall k :: 0 <= k < |slice.elts| ==> slice.elts[k].Constant? && slice.elts[k].literal.Number?)
  }

  /** One subscript at most after each name, with a single index written without a tuple. */
  predicate Canonical(node: Node) {
    match node
    case NameNode(_) => true
    case Attribute(value, _) => Canonical(value)
    case Subscript(value, slice) => !value.Subscript? && Canonical(value) && CanonicalSlice(slice)
    case _ => false
  }

  lemma {:induction false} IndicesBack(nodes: seq<Node>)
    requires forall k :: 0 <= k < |nodes| ==> nodes[k].Constant? && nodes[k].literal.Number?
    ensures ParseIndices(nodes).Ok? && ConstantsOf(ParseIndices(nodes).value) == nodes
  {
    if nodes != [] {
      IndicesBack(nodes[1..]);
      assert [nodes[0]] + nodes[1..] == nodes;
    }
  }

  lemma {:induction false} SliceBack(expr: Node, slice: Node)
    requires CanonicalSlice(slice)
    ensures ParseSlice(slice).Ok? && ParseSlice(slice).value != []
    ensures ApplyIndexRun(expr, ParseSlice(slice).value) == Subscript(expr, slice)
  {
    if slice.TupleNode? {
      IndicesBack(slice.elts);
      assert |ConstantsOf(ParseIndices(slice.elts).value)| == |slice.elts|;
    }
  }

  /** An expression is what the fold makes of its own path. */
  ghost predicate FoldsBack(node: Node) {
    && ParseComponents(node).Ok?
    && var path := PathOf(ParseComponents(node).value);
       && NameFirst(path) && Finished(Folded(path, |path|)) == Ok(node)
       && (!node.Subscript? ==> Folded(path, |path|) == Fluent(Some(node), []))
  }

  lemma {:induction false} NameFolds(id: string)
    ensures FoldsBack(NameNode(id))
  {
    OneComponent(id);
    FirstFolded([Named(id)]);
  }

  lemma {:induction false} AttributePath(components: seq<Component>, attr: string)
    ensures PathOf(components + [Component(attr, [])]) == PathOf(components) + [Named(attr)]
  {
    PathOfPush(components, Component(attr, []));
    assert IndexSegments([]) == [];
  }

  lemma {:induction false} AttributeFolds(value: Node, attr: string)
    requires FoldsBack(value)
    ensures FoldsBack(Attribute(value, attr))
  {
    var cs := ParseComponents(value).value;
    var path := PathOf(cs);
    var longer := path + [Named(attr)];
    AttributePath(cs, attr);
    FoldedPrefix(path, longer, |path|);
    assert longer[|path|] == Named(attr);
    assert Folded(longer, |longer|) == Extend(Folded(path, |path|), Named(attr));
    hide PathOf, ParseComponents, Folded;
    assert ParseComponents(Attribute(value, attr)) == Ok(cs + [Component(attr, [])]) by { AttributeComponents(value, attr); }
  }

  lemma {:induction false} AttributeComponents(value: Node, attr: string)
    requires ParseComponents(value).Ok?
    ensures ParseComponents(Attribute(value, attr)) == Ok(ParseComponents(value).value + [Component(attr, [])])
  {
  }

  lemma {:induction false} SubscriptFolds(value: Node, slice: Node)
    requires FoldsBack(value) && !value.Subscript? && CanonicalSlice(slice)
    ensures FoldsBack(Subscript(value, slice))
  {
    hide PathOf, ParseComponents, Folded, ParseSlice, ApplyIndexRun, CanonicalSlice;
    SliceBack(value, slice);
    NoIndices(value);
    var cs, indices := ParseComponents(value).value, ParseSlice(slice).value;
    var path := PathOf(cs);
    LastIndices(cs, indices);
    FoldedIndices(path, indices, |indices|);
    assert indices[..|indices|] == indices && [] + indices == indices;
    SubscriptComponents(value, slice);
    assert |path + IndexSegments(indices)| == |path| + |indices|;
  }

  lemma {:induction false} SubscriptComponents(value: Node, slice: Node)
    requires ParseComponents(value).Ok? && ParseSlice(slice).Ok?
    ensures var cs := ParseComponents(value).value;
            var last := cs[|cs| - 1];
            ParseComponents(Subscript(value, slice)) ==
            Ok(cs[|cs| - 1 := Component(last.name, last.indices + ParseSlice(slice).value)])
  {
  }

  lemma {:induction false} CanonicalFolded(node: Node)
    requires Canonical(node)
    ensures FoldsBack(node)
  {
    hide FoldsBack, CanonicalSlice;
    match node
    case NameNode(id) => NameFolds(id);
    case Attribute(value, attr) =>
      CanonicalFolded(value);
      AttributeFolds(value, attr);
    case Subscript(value, slice) =>
      CanonicalFolded(value);
      SubscriptFolds(value, slice);
  }

  lemma {:induction false} NoIndices(node: Node)
    requires ParseComponents(node).Ok? && !node.Subscript?
    ensures var cs := ParseComponents(node).value; cs[|cs| - 1].indices == []
  {
  }

  lemma {:induction false} FoldedPrefix(path: RefPath, longer: RefPath, n: nat)
    requires path <= longer && n <= |path|
    ensures Folded(longer, n) == Folded(path, n)
  {
    if n > 0 {
      FoldedPrefix(path, longer, n - 1);
    }
  }

  lemma {:induction false} FoldedIndices(path: RefPath, indices: seq<int>, n: nat)
    requires n <= |indices| && Folded(path, |path|).run == []
    ensures var all := path + IndexSegments(indices);
            Folded(all, |path| + n) == Fluent(Folded(path, |path|).expr, indices[..n])
  {
    var all := path + IndexSegments(indices);
    if n == 0 {
      FoldedPrefix(path, all, |path|);
    } else {
      FoldedIndices(path, indices, n - 1);
      assert all[|path| + n - 1] == Index(indices[n - 1]);
      assert indices[..n] == indices[..n - 1] + [indices[n - 1]];
    }
  }

  lemma {:induction false} IndexSlice(expr: Node, run: seq<int>)
    requires run != []
    ensures CanonicalSlice(ApplyIndexRun(expr, run).slice)
  {
  }

  /** The fold makes canonical expressions only. */
  lemma {:induction false} FoldedCanonical(path: RefPath, n: nat)
    requires n <= |path|
    ensures Folded(path, n).expr.Some? ==> Canonical(Folded(path, n).expr.value) && !Folded(path, n).expr.value.Subscript?
  {
    if n > 0 {
      FoldedCanonical(path, n - 1);
      var before := Folded(path, n - 1);
      if before.run != [] && before.expr.Some? {
        IndexSlice(before.expr.value, before.run);
      }
    }
  }

  /** Re-encoding a decoded fluent expression leaves it alone exactly when it is canonical, and makes it canonical in any case. */
  lemma {:induction false} ReEncoding(node: Node, isIdentifier: string -> bool)
    requires !node.TupleNode? && Decode(node).Ok? && AllIdentifiers(Decode(node).value, isIdentifier)
    ensures var again := Encode(Decode(node).value, isIdentifier);
            && again.Ok? && Canonical(again.value)
            && Decode(again.value) == Decode(node)
            && (again.value == node <==> Canonical(node))
  {
    var cs := ParseComponents(node).value;
    var path := PathOf(cs);
    PathNameFirst(cs);
    DecodeEncode(path, isIdentifier);
    assert HasName(path);
    FoldedCanonical(path, |path|);
    var state := Folded(path, |path|);
    if state.run != [] && state.expr.Some? {
      IndexSlice(state.expr.value, state.run);
    }
    if Canonical(node) {
      CanonicalFolded(node);
    }
  }

  lemma {:induction false} PathNameFirst(components: seq<Component>)
    requires components != []
    ensures NameFirst(PathOf(components))
  {
    if |components| > 1 {
      PathNameFirst(components[..|components| - 1]);
    } else {
      assert components[..0] == [];
    }
  }

  // ---------- the reference of an insert call ----------

  datatype RefKeyword = RefKeyword(arg: string, value: Node)

  /** The reference of a call, which may be given once. */
  function ExtractRef(keywords: seq<RefKeyword>): Result<Option<RefPath>> {
    if keywords == [] then Ok(None)
    else
      var before :- ExtractRef(keywords[..|keywords| - 1]);
      var last := keywords[|keywords| - 1];
      if last.arg != "ref" then Ok(before)
      else if before.Some? then Err(BadPath)
      else
        var path :- Decode(last.value);
        Ok(Some(path))
  }

  /** The position of the first reference, or the number of keywords. */
  function RefPosition(keywords: seq<RefKeyword>): (k: nat)
    ensures k <= |keywords|
    ensures k < |keywords| ==> keywords[k].arg == "ref"
    ensures forall j :: 0 <= j < k ==> keywords[j].arg != "ref"
  {
    if keywords == [] || keywords[0].arg == "ref" then 0 else 1 + RefPosition(keywords[1..])
  }

  function WithRef(keywords: seq<RefKeyword>, value: Node): seq<RefKeyword> {
    var k := RefPosition(keywords);
    if k < |keywords| then keywords[k := RefKeyword("ref", value)] else keywords + [RefKeyword("ref", value)]
  }

  predicate AtMostOneRef(keywords: seq<RefKeyword>) {
    forall j, k :: 0 <= j < k < |keywords| ==> keywords[j].arg != "ref" || keywords[k].arg != "ref"
  }

  lemma {:induction false} ExtractOnly(keywords: seq<RefKeyword>, k: nat)
    requires k < |keywords| && keywords[k].arg == "ref" && AtMostOneRef(keywords)
    ensures ExtractRef(keywords) ==
            if Decode(keywords[k].value).Err? then Err(Decode(keywords[k].value).error) else Ok(Some(Decode(keywords[k].value).value))
  {
    hide Decode;
    var n := |keywords| - 1;
    if k < n {
      ExtractOnly(keywords[..n], k);
    } else {
      ExtractNone(keywords[..n]);
    }
  }

  lemma {:induction false} ExtractNone(keywords: seq<RefKeyword>)
    requires forall k :: 0 <= k < |keywords| ==> keywords[k].arg != "ref"
    ensures ExtractRef(keywords) == Ok(None)
  {
    if keywords != [] {
      ExtractNone(keywords[..|keywords| - 1]);
    }
  }

  /** A reference given twice is refused. */
  lemma {:induction false} RepeatedRefFails(keywords: seq<RefKeyword>)
    requires !AtMostOneRef(keywords)
    ensures ExtractRef(keywords).Err?
  {
    hide Decode;
    var front := keywords[..|keywords| - 1];
    if !AtMostOneRef(front) {
      RepeatedRefFails(front);
    } else {
      var k := RefPosition(front);
      ExtractOnly(front, k);
    }
  }

  /** A reference that is set is read back in normal form, unless the call repeats it; the other keywords stay as they are. */
  lemma {:induction false} SetIsRead(keywords: seq<RefKeyword>, path: RefPath, isIdentifier: string -> bool)
    requires HasName(path)
    ensures Encode(path, isIdentifier).Ok? && Normalize(path).Ok?
    ensures var after := WithRef(keywords, Encode(path, isIdentifier).value);
            && (ExtractRef(after) == Ok(Some(Normalize(path).value)) <==> AtMostOneRef(keywords))
            && (forall k :: 0 <= k < |keywords| && keywords[k].arg != "ref" ==> after[k] == keywords[k])
  {
    DecodeEncode(path, isIdentifier);
    hide Encode, Decode, Normalize;
    var k := RefPosition(keywords);
    var after := WithRef(keywords, Encode(path, isIdentifier).value);
    if AtMostOneRef(keywords) {
      ExtractOnly(after, k);
    } else {
      assert forall j :: 0 <= j < |keywords| ==> after[j].arg == keywords[j].arg;
      RepeatedRefFails(after);
    }
  }

  class InsertCall {
    var keywords: seq<RefKeyword>

    constructor (keywords: seq<RefKeyword>)
      ensures this.keywords == keywords
    {
      this.keywords := keywords;
    }

    method SetInsertRef(path: RefPath, isIdentifier: string -> bool) returns (r: Result<()>)
      modifies this
      ensures if Encode(path, isIdentifier).Ok? then r == Ok(()) && keywords == WithRef(old(keywords), Encode(path, isIdentifier).value)
              else r == Err(Encode(path, isIdentifier).error) && keywords == old(keywords)
    {
      var value := RefPathToAst(path, isIdentifier);
      if value.Err? {
        return Err(value.error);
      }
      var keyword := RefKeyword("ref", value.value);
      var k := 0;
      while k < |keywords| && keywords[k].arg != "ref"
        invariant k <= |keywords| && keywords == old(keywords) && k <= RefPosition(keywords)
      {
        k := k + 1;
      }
      keywords := if k < |keywords| then keywords[k := keyword] else keywords + [keyword];
      r := Ok(());
    }

    /** Puts a prefix in front of the reference, if there is one. */
    method PrefixInsertRef(prefix: RefPath, isIdentifier: string -> bool) returns (r: Result<()>)
      modifies this
      ensures var before := ExtractRef(old(keywords));
              && (before.Err? ==> r == Err(before.error) && keywords == old(keywords))
              && (before == Ok(None) ==> r == Ok(()) && keywords == old(keywords))
              && (before.Ok? && before.value.Some? ==>
                    var path := prefix + before.value.value;
                    if HasName(path) then r == Ok(()) && ExtractRef(keywords) == Ok(Some(Normalize(path).value))
                    else r.Err? && keywords == old(keywords))
    {
      var before := ExtractRef(keywords);
      if before.Err? {
        return Err(before.error);
      }
      if before.value.None? {
        return Ok(());
      }
      var path := prefix + before.value.value;
      hide Encode, Decode, ExtractRef;
      if !AtMostOneRef(keywords) {
        RepeatedRefFails(keywords);
        assert false;
      }
      NormalizeFacts(path);
      var normal := NormalizeRefPath(path);
      if normal.Err? {
        return Err(normal.error);
      }
      DecodeEncode(normal.value, isIdentifier);
      SameNames(path, normal.value);
      if HasName(path) {
        SetIsRead(keywords, normal.value, isIdentifier);
      }
      r := SetInsertRef(normal.value, isIdentifier);
    }
  }

  lemma {:induction false} SameNames(a: RefPath, b: RefPath)
    requires multiset(a) == multiset(b)
    ensures HasName(a) <==> HasName(b)
  {
    forall p: RefPath, q: RefPath | multiset(p) == multiset(q) && HasName(p) ensures HasName(q) {
      var k :| 0 <= k < |p| && p[k].Named?;
      assert p[k] in multiset(q);
    }
  }
}
