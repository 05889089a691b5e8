/** The textual AST paths that extraction prints and the materializer parses, such as `body[3]/handlers[0]/body[1]`. */
module AstPaths {
  import opened Wrappers

  datatype Field = Body | Orelse | Finalbody | Handlers | Cases | Value | Test | Other(name: string)

  datatype Segment = Segment(field: Field, index: Option<nat>)

  /** Indexes are machine words. */
  const USIZE_MAX: nat := 0xFFFF_FFFF_FFFF_FFFF

  function FieldName(f: Field): string {
    match f
    case Body => "body"
    case Orelse => "orelse"
    case Finalbody => "finalbody"
    case Handlers => "handlers"
    case Cases => "cases"
    case Value => "value"
    case Test => "test"
    case Other(name) => name
  }

  function ParseField(name: string): Field {
    if name == "body" then Body
    else if name == "orelse" then Orelse
    else if name == "finalbody" then Finalbody
    else if name == "handlers" then Handlers
    else if name == "cases" then Cases
    else if name == "value" then Value
    else if name == "test" then Test
    else Other(name)
  }

  // ---------- printing ----------

  function Digit(d: nat): char
    requires d < 10
  {
    '0' + d as char
  }

  function PrintNat(n: nat): string {
    if n < 10 then [Digit(n)] else PrintNat(n / 10) + [Digit(n % 10)]
  }

  function Indexed(text: string, i: nat): string {
    text + "[" + PrintNat(i) + "]"
  }

  function PrintSegment(s: Segment): string {
    match s.index
    case None => FieldName(s.field)
    case Some(i) => Indexed(FieldName(s.field), i)
  }

  function PrintSegments(segments: seq<Segment>): seq<string> {
    if segments == [] then [] else [PrintSegment(segments[0])] + PrintSegments(segments[1..])
  }

  function Join(texts: seq<string>): string {
    if texts == [] then ""
    else if |texts| == 1 then texts[0]
    else texts[0] + "/" + Join(texts[1..])
  }

  function PrintPath(segments: seq<Segment>): string {
    Join(PrintSegments(segments))
  }

  // ---------- parsing ----------

  function Split(text: string): (r: seq<string>)
    ensures |r| > 0
  {
    if text == "" then [""]
    else
      var rest := Split(text[1..]);
      if text[0] == '/' then [""] + rest else [[text[0]] + rest[0]] + rest[1..]
  }

  /** The position of the first `c` in `text`, or its length. */
  function Find(text: string, c: char): (i: nat)
    ensures i <= |text|
    ensures forall j :: 0 <= j < i ==> text[j] != c
    ensures i < |text| ==> text[i] == c
  {
    if text == "" || text[0] == c then 0 else 1 + Find(text[1..], c)
  }

  function ParseDigits(text: string, acc: nat): Result<nat> {
    if text == "" then Ok(acc)
    else if '0' <= text[0] <= '9' then ParseDigits(text[1..], 10 * acc + (text[0] - '0') as nat)
    else Err(BadPath)
  }

  /** An unsigned machine word: digits, with an optional plus sign. */
  function ParseIndex(text: string): Result<nat> {
    var digits := if |text| > 0 && text[0] == '+' then text[1..] else text;
    if digits == "" then Err(BadPath)
    else
      var n :- ParseDigits(digits, 0);
      if n > USIZE_MAX then Err(BadPath) else Ok(n)
  }

  function ParseSegment(text: string): Result<Segment> {
    var open := Find(text, '[');
    if open == |text| then Ok(Segment(ParseField(text), None))
    else if text[|text| - 1] != ']' then Err(BadPath)
    else
      var index :- ParseIndex(text[open + 1..|text| - 1]);
      Ok(Segment(ParseField(text[..open]), Some(index)))
  }

  function ParseSegments(texts: seq<string>): Result<seq<Segment>> {
    if texts == [] then Ok([])
    else
      var first :- ParseSegment(texts[0]);
      var rest :- ParseSegments(texts[1..]);
      Ok([first] + rest)
  }

  function ParseAstPath(path: string): Result<seq<Segment>> {
    if path == "" || path == "." then Ok([]) else ParseSegments(Split(path))
  }

  // ---------- parsing undoes printing ----------

  predicate Plain(text: string) {
    forall c :: c in text ==> c != '/' && c != '['
  }

  predicate Printable(s: Segment) {
    && (s.field.Other? ==> Plain(s.field.name) && s.field.name != "" && ParseField(s.field.name) == s.field)
    && (s.index.Some? ==> s.index.value <= USIZE_MAX)
    && (s.index.None? ==> FieldName(s.field) != ".")
  }

  lemma {:induction false} DigitsOf(n: nat)
    ensures PrintNat(n) != "" && forall c :: c in PrintNat(n) ==> '0' <= c <= '9'
  {
    if n >= 10 {
      DigitsOf(n / 10);
    }
  }

  lemma {:induction false} ParseDigitsAppend(a: string, c: char, acc: nat)
    requires forall d :: d in a ==> '0' <= d <= '9'
    requires '0' <= c <= '9'
    ensures ParseDigits(a, acc).Ok?
    ensures ParseDigits(a + [c], acc) == Ok(10 * ParseDigits(a, acc).value + (c - '0') as nat)
    decreases |a|
  {
    if a == "" {
      assert "" + [c] == [c];
      assert ParseDigits([c], acc) == ParseDigits([c][1..], 10 * acc + (c - '0') as nat);
    } else {
      assert a[0] in a && forall d :: d in a[1..] ==> d in a;
      assert (a + [c])[1..] == a[1..] + [c];
      ParseDigitsAppend(a[1..], c, 10 * acc + (a[0] - '0') as nat);
    }
  }

  lemma {:induction false} ParsePrintNat(n: nat)
    ensures ParseDigits(PrintNat(n), 0) == Ok(n)
  {
    if n < 10 {
      assert ParseDigits([Digit(n)], 0) == ParseDigits([Digit(n)][1..], n);
    } else {
      DigitsOf(n / 10);
      ParsePrintNat(n / 10);
      ParseDigitsAppend(PrintNat(n / 10), Digit(n % 10), 0);
    }
  }

  lemma {:induction false} FindAfter(a: string, b: string, c: char)
    requires c !in a && b != "" && b[0] == c
    ensures Find(a + b, c) == |a|
  {
    assert (a + b)[|a|] == c;
    assert forall i :: 0 <= i < |a| ==> (a + b)[i] == a[i] && a[i] in a;
  }

  lemma {:induction false} ParseIndexPrint(n: nat)
    requires n <= USIZE_MAX
    ensures ParseIndex(PrintNat(n)) == Ok(n)
  {
    DigitsOf(n);
    ParsePrintNat(n);
    assert PrintNat(n)[0] in PrintNat(n);
  }

  lemma {:induction false} ParseIndexedName(name: string, i: nat)
    requires Plain(name) && i <= USIZE_MAX
    ensures var text := name + "[" + PrintNat(i) + "]";
            ParseSegment(text) == Ok(Segment(ParseField(name), Some(i))) && '/' !in text
  {
    DigitsOf(i);
    ParseIndexPrint(i);
    hide ParseIndex, PrintNat, ParseField;
    var text := name + "[" + PrintNat(i) + "]";
    assert text == name + ("[" + PrintNat(i) + "]");
    FindAfter(name, "[" + PrintNat(i) + "]", '[');
    assert text[..|name|] == name;
    assert text[|name| + 1..|text| - 1] == PrintNat(i);
  }

  lemma {:induction false} ParsePrintSegment(s: Segment)
    requires Printable(s)
    ensures ParseSegment(PrintSegment(s)) == Ok(s) && '/' !in PrintSegment(s) && PrintSegment(s) != "" && PrintSegment(s) != "."
  {
    var name := FieldName(s.field);
    assert Plain(name) && name != "" && ParseField(name) == s.field;
    match s.index
    case None =>
      assert forall i :: 0 <= i < |name| ==> name[i] in name;
    case Some(i) =>
      ParseIndexedName(name, i);
  }

  lemma {:induction false} SplitFirst(a: string, b: string)
    requires '/' !in a
    ensures Split(a) == [a] && Split(a + "/" + b) == [a] + Split(b)
  {
    if a == "" {
      assert (a + "/" + b)[1..] == b;
    } else {
      assert a[0] in a && '/' !in a[1..];
      SplitFirst(a[1..], b);
      assert (a + "/" + b)[1..] == a[1..] + "/" + b;
      assert [a[0]] + a[1..] == a;
      assert Split(a + "/" + b) == [[a[0]] + a[1..]] + ([a[1..]] + Split(b))[1..];
    }
  }

  /** Joining with slashes loses nothing, as long as the pieces have none. */
  lemma {:induction false} SplitJoin(texts: seq<string>)
    requires texts != [] && forall t :: t in texts ==> '/' !in t
    ensures Split(Join(texts)) == texts
  {
    if |texts| == 1 {
      SplitFirst(texts[0], "");
    } else {
      SplitFirst(texts[0], Join(texts[1..]));
      SplitJoin(texts[1..]);
      assert [texts[0]] + texts[1..] == texts;
    }
  }

  lemma {:induction false} ParsePrintSegments(segments: seq<Segment>)
    requires forall s :: s in segments ==> Printable(s)
    ensures ParseSegments(PrintSegments(segments)) == Ok(segments)
    ensures |PrintSegments(segments)| == |segments|
    ensures forall t :: t in PrintSegments(segments) ==> '/' !in t && t != "" && t != "."
  {
    if segments != [] {
      var texts := PrintSegments(segments);
      ParsePrintSegment(segments[0]);
      ParsePrintSegments(segments[1..]);
      assert texts[1..] == PrintSegments(segments[1..]);
      assert [segments[0]] + segments[1..] == segments;
    }
  }

  /** Every printable path is read back segment by segment. */
  lemma {:induction false} ParsePrint(segments: seq<Segment>)
    requires forall s :: s in segments ==> Printable(s)
    ensures ParseAstPath(PrintPath(segments)) == Ok(segments)
    ensures segments != [] ==> Split(PrintPath(segments)) == PrintSegments(segments)
  {
    if segments != [] {
      var texts := PrintSegments(segments);
      ParsePrintSegments(segments);
      SplitJoin(texts);
      assert texts[0] in texts;
      assert |texts| > 1 ==> |Join(texts)| > 1;
    }
  }
}
