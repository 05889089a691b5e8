/** The order in which the materializer applies groups of edges, and why it keeps every later path valid. */
module EdgeOrder {
  import opened Wrappers
  import opened Ast
  import opened AstPaths
  import opened Navigation
  import opened Splice

  // ---------- lexicographic orders ----------

  predicate Lex<T(==)>(less: (T, T) -> bool, a: seq<T>, b: seq<T>) {
    if b == [] then false
    else if a == [] then true
    else less(a[0], b[0]) || (a[0] == b[0] && Lex(less, a[1..], b[1..]))
  }

  ghost predicate StrictOrder<T(!new)>(less: (T, T) -> bool) {
    && (forall x :: !less(x, x))
    && (forall x, y :: less(x, y) || x == y || less(y, x))
    && (forall x, y, z :: less(x, y) && less(y, z) ==> less(x, z))
  }

  lemma {:induction false} LexIrreflexive<T(!new)>(less: (T, T) -> bool, a: seq<T>)
    requires StrictOrder(less)
    ensures !Lex(less, a, a)
  {
    if a != [] {
      LexIrreflexive(less, a[1..]);
    }
  }

  lemma {:induction false} LexTotal<T(!new)>(less: (T, T) -> bool, a: seq<T>, b: seq<T>)
    requires StrictOrder(less)
    ensures Lex(less, a, b) || a == b || Lex(less, b, a)
  {
    if a != [] && b != [] && a[0] == b[0] {
      LexTotal(less, a[1..], b[1..]);
      assert a == [a[0]] + a[1..] && b == [b[0]] + b[1..];
    }
  }

  lemma {:induction false} LexTransitive<T(!new)>(less: (T, T) -> bool, a: seq<T>, b: seq<T>, c: seq<T>)
    requires StrictOrder(less) && Lex(less, a, b) && Lex(less, b, c)
    ensures Lex(less, a, c)
  {
    if a != [] && a[0] == b[0] == c[0] {
      LexTransitive(less, a[1..], b[1..], c[1..]);
    }
  }

  lemma {:induction false} LexStrictOrder<T(!new)>(less: (T, T) -> bool, lex: (seq<T>, seq<T>) -> bool)
    requires StrictOrder(less)
    requires forall a, b :: lex(a, b) == Lex(less, a, b)
    ensures StrictOrder(lex)
  {
    forall a ensures !lex(a, a) {
      LexIrreflexive(less, a);
    }
    forall a, b ensures lex(a, b) || a == b || lex(b, a) {
      LexTotal(less, a, b);
    }
    forall a, b, c | lex(a, b) && lex(b, c) ensures lex(a, c) {
      LexTransitive(less, a, b, c);
    }
  }

  predicate CharLess(x: char, y: char) {
    x < y
  }

  predicate TextLess(a: string, b: string) {
    Lex(CharLess, a, b)
  }

  // ---------- the sort key of a statement path ----------

  /** One segment of a path, with the largest index for a segment that has none. */
  type KeyPart = (string, nat)

  predicate PartLess(x: KeyPart, y: KeyPart) {
    TextLess(x.0, y.0) || (x.0 == y.0 && x.1 < y.1)
  }

  datatype PathKey = PathKey(depth: nat, parts: seq<KeyPart>)

  function PartOf(s: Segment): KeyPart {
    (FieldName(s.field), if s.index.Some? then s.index.value else USIZE_MAX)
  }

  function PartsOf(segments: seq<Segment>): seq<KeyPart> {
    if segments == [] then [] else [PartOf(segments[0])] + PartsOf(segments[1..])
  }

  function KeyOf(segments: seq<Segment>): PathKey {
    PathKey(|segments|, PartsOf(segments))
  }

  predicate KeyLess(x: PathKey, y: PathKey) {
    x.depth < y.depth || (x.depth == y.depth && Lex(PartLess, x.parts, y.parts))
  }

  lemma {:induction false} PartLessStrict()
    ensures StrictOrder(PartLess)
  {
    LexStrictOrder(CharLess, TextLess);
  }

  lemma {:induction false} KeyLessStrict()
    ensures StrictOrder(KeyLess)
  {
    PartLessStrict();
    forall x: PathKey, y: PathKey ensures !KeyLess(x, x) && (KeyLess(x, y) || x == y || KeyLess(y, x)) {
      LexIrreflexive(PartLess, x.parts);
      LexTotal(PartLess, x.parts, y.parts);
    }
    forall x: PathKey, y: PathKey, z: PathKey | KeyLess(x, y) && KeyLess(y, z) ensures KeyLess(x, z) {
      if x.depth == y.depth == z.depth {
        LexTransitive(PartLess, x.parts, y.parts, z.parts);
      }
    }
  }

  /** With a strict order, "not after" carries over two comparisons. */
  lemma {:induction false} NotLessTransitive<T(!new)>(less: (T, T) -> bool, x: T, y: T, z: T)
    requires StrictOrder(less) && !less(x, y) && !less(y, z)
    ensures !less(x, z)
  {
    assert less(y, x) || x == y;
    assert less(z, y) || y == z;
  }

  // ---------- descending keys keep later addresses ----------

  lemma {:induction false} PartsAppend(a: seq<Segment>, b: seq<Segment>)
    ensures PartsOf(a + b) == PartsOf(a) + PartsOf(b)
    ensures |PartsOf(a)| == |a|
  {
    if a == [] {
      assert a + b == b;
    } else {
      PartsAppend(a[1..], b);
      assert (a + b)[1..] == a[1..] + b;
    }
  }

  lemma {:induction false} LexCommonPrefix<T(!new)>(less: (T, T) -> bool, p: seq<T>, a: seq<T>, b: seq<T>)
    requires StrictOrder(less)
    ensures Lex(less, p + a, p + b) <==> Lex(less, a, b)
  {
    if p == [] {
      assert p + a == a && p + b == b;
    } else {
      LexCommonPrefix(less, p[1..], a, b);
      assert (p + a)[1..] == p[1..] + a && (p + b)[1..] == p[1..] + b;
    }
  }

  lemma {:induction false} SameSuiteSmallerIndex(q: Step, p: Step)
    requires q.slot == p.slot && q.index < p.index
    ensures KeyLess(KeyOf(StepSegments(q)), KeyOf(StepSegments(p)))
  {
    PartLessStrict();
    var sq, sp := StepSegments(q), StepSegments(p);
    var n := |sq| - 1;
    var last: Segment, last' := sq[n], sp[n];
    assert sq == sq[..n] + [last] && sp == sp[..n] + [last'] && sq[..n] == sp[..n];
    PartsAppend(sq[..n], [last]);
    PartsAppend(sp[..n], [last']);
    assert [last][1..] == [] && [last'][1..] == [];
    assert PartsOf([last]) == [PartOf(last)] + PartsOf([]) && PartsOf([last']) == [PartOf(last')] + PartsOf([]);
    LexCommonPrefix(PartLess, PartsOf(sq[..n]), PartsOf([last]), PartsOf([last']));
  }

  /** A target whose splice would move another one has the smaller key, so it comes later in the run. */
  lemma {:induction false} ShiftingTargetIsLater(q: Address, p: Address)
    requires Shifts(q, p) && q != p
    ensures KeyLess(KeyOf(Segments(q)), KeyOf(Segments(p)))
    decreases |q|
  {
    PartLessStrict();
    PartsAppend(StepSegments(q[0]), Segments(q[1..]));
    PartsAppend(StepSegments(p[0]), Segments(p[1..]));
    assert Segments(q) == StepSegments(q[0]) + Segments(q[1..]);
    assert Segments(p) == StepSegments(p[0]) + Segments(p[1..]);
    if |q| == 1 {
      assert Segments(q) == StepSegments(q[0]);
      if |p| == 1 {
        assert Segments(p) == StepSegments(p[0]);
        assert q == [q[0]] && p == [p[0]];
        SameSuiteSmallerIndex(q[0], p[0]);
      } else {
        LastSegment(p[1..]);
      }
    } else {
      assert q == [q[0]] + q[1..] && p == [p[0]] + p[1..];
      ShiftingTargetIsLater(q[1..], p[1..]);
      LexCommonPrefix(PartLess, PartsOf(StepSegments(q[0])), PartsOf(Segments(q[1..])), PartsOf(Segments(p[1..])));
    }
  }
}
