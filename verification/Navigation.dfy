/**
 How the materializer follows a parsed path from a module to a statement (materialize_ir.rs), and why that is the
 address model of `Ast`: a path leads to a statement exactly when it spells an address that is there.
 */
module Navigation {
  import opened Wrappers
  import opened Ast
  import opened AstPaths

  // ---------- addresses as segments ----------

  function StepSegments(step: Step): seq<Segment> {
    match step.slot
    case InBody => [Segment(Body, Some(step.index))]
    case InOrelse => [Segment(Orelse, Some(step.index))]
    case InFinalbody => [Segment(Finalbody, Some(step.index))]
    case InHandler(k) => [Segment(Handlers, Some(k)), Segment(Body, Some(step.index))]
    case InCase(k) => [Segment(Cases, Some(k)), Segment(Body, Some(step.index))]
  }

  function Segments(at: Address): seq<Segment> {
    if at == [] then [] else StepSegments(at[0]) + Segments(at[1..])
  }

  function PrintAddress(at: Address): string {
    PrintPath(Segments(at))
  }

  /** The first step that a path spells, with the number of segments it takes. */
  function FirstStep(segments: seq<Segment>): Option<(Step, nat)> {
    if segments == [] || segments[0].index.None? then None
    else
      var i := segments[0].index.value;
      match segments[0].field
      case Body => Some((Step(InBody, i), 1))
      case Orelse => Some((Step(InOrelse, i), 1))
      case Finalbody => Some((Step(InFinalbody, i), 1))
      case _ =>
        if |segments| >= 2 && segments[1].field == Body && segments[1].index.Some? then
          if segments[0].field == Handlers then Some((Step(InHandler(i), segments[1].index.value), 2))
          else if segments[0].field == Cases then Some((Step(InCase(i), segments[1].index.value), 2))
          else None
        else None
  }

  function ToAddress(segments: seq<Segment>): Option<Address>
    decreases |segments|
  {
    if segments == [] then Some([])
    else match FirstStep(segments)
      case None => None
      case Some((step, used)) =>
        match ToAddress(segments[used..])
        case None => None
        case Some(rest) => Some([step] + rest)
  }

  lemma {:induction false} FirstOfSegments(step: Step, rest: seq<Segment>)
    ensures FirstStep(StepSegments(step) + rest) == Some((step, |StepSegments(step)|))
    ensures (StepSegments(step) + rest)[|StepSegments(step)|..] == rest
  {
  }

  lemma {:induction false} AddressOfSegments(at: Address)
    ensures ToAddress(Segments(at)) == Some(at)
  {
    if at != [] {
      FirstOfSegments(at[0], Segments(at[1..]));
      AddressOfSegments(at[1..]);
      assert [at[0]] + at[1..] == at;
    }
  }

  lemma {:induction false} SegmentsOfFirst(segments: seq<Segment>)
    requires FirstStep(segments).Some?
    ensures var (step, used) := FirstStep(segments).value;
            0 < used <= |segments| && StepSegments(step) == segments[..used]
  {
  }

  /** A path spells at most one address. */
  lemma {:induction false} SegmentsOfAddress(segments: seq<Segment>)
    requires ToAddress(segments).Some?
    ensures Segments(ToAddress(segments).value) == segments
    decreases |segments|
  {
    if segments != [] {
      var (step, used) := FirstStep(segments).value;
      var rest := ToAddress(segments[used..]).value;
      SegmentsOfFirst(segments);
      SegmentsOfAddress(segments[used..]);
      hide StepSegments, FirstStep;
      assert ([step] + rest)[1..] == rest;
      assert segments == segments[..used] + segments[used..];
    }
  }

  lemma {:induction false} SegmentsAppend(a: Address, b: Address)
    ensures Segments(a + b) == Segments(a) + Segments(b)
  {
    if a == [] {
      assert a + b == b;
    } else {
      hide StepSegments;
      SegmentsAppend(a[1..], b);
      assert (a + b)[1..] == a[1..] + b;
      assert (a + b)[0] == a[0];
    }
  }

  // ---------- following a path ----------

  /** The suite that the next segment enters, with the path left over; that path starts with the index into the suite. */
  function NestedSuite(s: Stmt, segments: seq<Segment>): Option<(Slot, seq<Segment>)>
    requires segments != []
  {
    var h, field, index := s.head, segments[0].field, segments[0].index;
    match field
    case Body => if HasBody(h) then Some((InBody, segments)) else None
    case Orelse => if HasOrelse(h) then Some((InOrelse, segments)) else None
    case Finalbody => if h.Try? then Some((InFinalbody, segments)) else None
    case Handlers =>
      if h.Try? && index.Some? && index.value < |s.branches| && |segments| > 1 && segments[1].field == Body
      then Some((InHandler(index.value), segments[1..])) else None
    case Cases =>
      if h.Match? && index.Some? && index.value < |s.branches| && |segments| > 1 && segments[1].field == Body
      then Some((InCase(index.value), segments[1..])) else None
    case _ => None
  }

  function CloneStmt(s: Stmt, segments: seq<Segment>): Result<Stmt>
    decreases |segments|
  {
    if segments == [] then Ok(s)
    else match NestedSuite(s, segments)
      case None => Err(BadPath)
      case Some((slot, path)) =>
        var suite := Suite(s, slot).value;
        if path[0].index.None? || path[0].index.value >= |suite| then Err(BadPath)
        else CloneStmt(suite[path[0].index.value], path[1..])
  }

  /** An empty path is refused: the module itself is not a statement. */
  function CloneStmtAtPath(m: Module, path: string): Result<Stmt> {
    var segments :- ParseAstPath(path);
    if segments == [] then Err(BadPath) else CloneStmt(m, segments)
  }

  /** Entering a suite by the next segments is taking the first step they spell. */
  lemma {:induction false} NestedIsFirstStep(s: Stmt, segments: seq<Segment>)
    requires segments != []
    ensures var nested := NestedSuite(s, segments);
            var first := FirstStep(segments);
            if first.Some? && Suite(s, first.value.0.slot).Some? then
              && nested.Some? && nested.value.0 == first.value.0.slot
              && nested.value.1[0].index == Some(first.value.0.index)
              && nested.value.1[1..] == segments[first.value.1..]
            else nested.None? || nested.value.1[0].index.None?
  {
  }

  lemma {:induction false} CloneIsStmtAt(s: Stmt, segments: seq<Segment>)
    ensures CloneStmt(s, segments) ==
            if ToAddress(segments).None? || StmtAt(s, ToAddress(segments).value).None? then Err(BadPath)
            else Ok(StmtAt(s, ToAddress(segments).value).value)
    decreases |segments|
  {
    if segments != [] {
      NestedIsFirstStep(s, segments);
      hide NestedSuite, FirstStep, Suite;
      if FirstStep(segments).Some? {
        var (step, used) := FirstStep(segments).value;
        var rest := segments[used..];
        if Suite(s, step.slot).Some? && step.index < |Suite(s, step.slot).value| {
          CloneIsStmtAt(Suite(s, step.slot).value[step.index], rest);
          if ToAddress(rest).Some? {
            assert ([step] + ToAddress(rest).value)[1..] == ToAddress(rest).value;
          }
        }
      }
    }
  }

  predicate MachineSized(at: Address) {
    forall step :: step in at ==>
      && step.index <= USIZE_MAX
      && (step.slot.InHandler? || step.slot.InCase? ==> step.slot.k <= USIZE_MAX)
  }

  lemma {:induction false} SegmentsPrintable(at: Address)
    requires MachineSized(at)
    ensures forall s :: s in Segments(at) ==> Printable(s)
    ensures at != [] ==> Segments(at) != []
  {
    if at != [] {
      SegmentsPrintable(at[1..]);
      assert at[0] in at;
      forall s | s in StepSegments(at[0]) ensures Printable(s) {}
    }
  }

  /** Parsing a printed address and following it finds the statement at the address. */
  lemma {:induction false} PrintedAddressFound(m: Module, at: Address)
    requires at != [] && MachineSized(at)
    ensures CloneStmtAtPath(m, PrintAddress(at)) ==
            if StmtAt(m, at).None? then Err(BadPath) else Ok(StmtAt(m, at).value)
  {
    SegmentsPrintable(at);
    ParsePrint(Segments(at));
    AddressOfSegments(at);
    CloneIsStmtAt(m, Segments(at));
  }

  /** Different statements have different paths. */
  lemma {:induction false} PrintAddressInjective(a: Address, b: Address)
    requires MachineSized(a) && MachineSized(b) && PrintAddress(a) == PrintAddress(b)
    ensures a == b
  {
    SegmentsPrintable(a);
    SegmentsPrintable(b);
    ParsePrint(Segments(a));
    ParsePrint(Segments(b));
    AddressOfSegments(a);
    AddressOfSegments(b);
  }

  // ---------- how extraction extends a path ----------

  lemma {:induction false} JoinAppend(a: seq<string>, b: seq<string>)
    requires a != [] && b != []
    ensures Join(a + b) == Join(a) + "/" + Join(b)
  {
    if |a| == 1 {
      assert (a + b)[1..] == b;
    } else {
      JoinAppend(a[1..], b);
      assert (a + b)[1..] == a[1..] + b;
    }
  }

  lemma {:induction false} PrintSegmentsAppend(a: seq<Segment>, b: seq<Segment>)
    ensures PrintSegments(a + b) == PrintSegments(a) + PrintSegments(b)
    ensures |PrintSegments(a)| == |a|
  {
    if a == [] {
      assert a + b == b;
    } else {
      PrintSegmentsAppend(a[1..], b);
      assert (a + b)[1..] == a[1..] + b;
    }
  }

  lemma {:induction false} PrintPathAppend(a: seq<Segment>, b: seq<Segment>)
    requires a != [] && b != []
    ensures PrintPath(a + b) == PrintPath(a) + "/" + PrintPath(b)
  {
    PrintSegmentsAppend(a, b);
    PrintSegmentsAppend(b, []);
    JoinAppend(PrintSegments(a), PrintSegments(b));
  }

  lemma {:induction false} PrintStep(at: Address, step: Step)
    requires at != []
    ensures PrintAddress(at + [step]) == PrintAddress(at) + "/" + PrintAddress([step])
  {
    SegmentsAppend(at, [step]);
    assert Segments([step]) == StepSegments(step) + Segments([step][1..]) == StepSegments(step);
    assert Segments(at)[0] == StepSegments(at[0])[0];
    PrintPathAppend(Segments(at), Segments([step]));
  }

  // ---------- locators of markers ----------

  /** The position of the last slash, or none. */
  function LastSlash(path: string): (r: Option<nat>)
    ensures r.Some? ==> r.value < |path| && path[r.value] == '/'
  {
    if path == "" then None
    else match LastSlash(path[1..])
      case Some(i) => Some(i + 1)
      case None => if path[0] == '/' then Some(0) else None
  }

  predicate EndsWith(text: string, suffix: string) {
    |suffix| <= |text| && text[|text| - |suffix|..] == suffix
  }

  /** A block marker is an expression statement, whose record points at its value, or a whole `with` statement. */
  function StatementPathForLocator(path: string): Result<string> {
    if EndsWith(path, "/value") then
      match LastSlash(path)
      case None => Err(BadPath)
      case Some(i) => Ok(path[..i])
    else Ok(path)
  }

  /** An `elif` marker is an `if` statement, whose record points at its test. */
  function IfStatementPathForElifLocator(path: string): Result<string> {
    match LastSlash(path)
    case None => Err(BadPath)
    case Some(i) => if path[i + 1..] == "test" then Ok(path[..i]) else Err(BadPath)
  }

  lemma {:induction false} LastSlashAppend(path: string, tail: string)
    requires '/' !in tail
    ensures LastSlash(path + ("/" + tail)) == Some(|path|)
  {
    if path == "" {
      assert path + ("/" + tail) == "/" + tail;
      assert ("/" + tail)[1..] == tail;
      assert LastSlash(tail).None?;
    } else {
      assert (path + ("/" + tail))[1..] == path[1..] + ("/" + tail);
      LastSlashAppend(path[1..], tail);
    }
  }

  lemma {:induction false} LastSegment(at: Address)
    requires at != []
    ensures Segments(at) != [] && Segments(at)[|Segments(at)| - 1].index.Some?
  {
    if |at| > 1 {
      LastSegment(at[1..]);
    } else {
      assert Segments(at) == StepSegments(at[0]) + Segments(at[1..]) == StepSegments(at[0]);
    }
  }

  lemma {:induction false} PathEnd(segments: seq<Segment>)
    requires segments != [] && segments[|segments| - 1].index.Some?
    ensures PrintPath(segments) != "" && PrintPath(segments)[|PrintPath(segments)| - 1] == ']'
  {
    if |segments| > 1 {
      PathEnd(segments[1..]);
      assert PrintSegments(segments)[1..] == PrintSegments(segments[1..]);
      PrintSegmentsAppend(segments[1..], []);
    } else {
      assert PrintSegments(segments) == [PrintSegment(segments[0])] + PrintSegments(segments[1..]);
    }
  }

  /** The locators that extraction writes lead back to the statement that carries the marker. */
  lemma {:induction false} LocatorsLeadBack(at: Address)
    requires at != [] && MachineSized(at)
    ensures StatementPathForLocator(PrintAddress(at) + "/value") == Ok(PrintAddress(at))
    ensures StatementPathForLocator(PrintAddress(at)) == Ok(PrintAddress(at))
    ensures IfStatementPathForElifLocator(PrintAddress(at) + "/test") == Ok(PrintAddress(at))
  {
    var path := PrintAddress(at);
    LastSegment(at);
    PathEnd(Segments(at));
    SuffixedPath(path, "/value", "value");
    SuffixedPath(path, "/test", "test");
    NotSuffixed(path);
  }

  lemma {:induction false} SuffixedPath(path: string, suffix: string, tail: string)
    requires '/' !in tail && suffix == "/" + tail
    ensures LastSlash(path + suffix) == Some(|path|)
    ensures (path + suffix)[..|path|] == path && (path + suffix)[|path| + 1..] == tail
    ensures EndsWith(path + suffix, suffix)
  {
    LastSlashAppend(path, tail);
  }

  lemma {:induction false} NotSuffixed(path: string)
    requires path != "" && path[|path| - 1] == ']'
    ensures !EndsWith(path, "/value")
  {
    if |path| >= 6 {
      assert path[|path| - 6..][5] == path[|path| - 1];
      assert "/value"[5] == 'e';
    }
  }
}
