/** The wildcard path matcher with its memo table (occurrence_store.rs). */
module PathMatcher {
  import opened Wrappers
  import opened Sets

  // ---------- the meaning of a selector ----------

  /** The characters that a literal part may not contain. */
  const RESERVED := ".+?*/"

  predicate Wildcard(part: string) {
    part == "." || part == "?" || part == "*" || part == "+"
  }

  predicate Malformed(part: string) {
    part == "" || (!Wildcard(part) && exists c :: c in part && c in RESERVED)
  }

  /** The pieces of a path that one selector part stands for. */
  predicate Accepts(part: string, piece: seq<string>) {
    if Malformed(part) then false
    else if part == "." then |piece| == 1
    else if part == "?" then |piece| <= 1
    else if part == "*" then true
    else if part == "+" then |piece| >= 1
    else piece == [part]
  }

  function Concat(pieces: seq<seq<string>>): seq<string> {
    if pieces == [] then [] else pieces[0] + Concat(pieces[1..])
  }

  ghost predicate SplitsInto(selector: seq<string>, path: seq<string>, pieces: seq<seq<string>>) {
    && |pieces| == |selector|
    && Concat(pieces) == path
    && forall k :: 0 <= k < |selector| ==> Accepts(selector[k], pieces[k])
  }

  /** The path splits into consecutive pieces, one for each part of the selector. */
  ghost predicate Matches(selector: seq<string>, path: seq<string>) {
    exists pieces :: SplitsInto(selector, path, pieces)
  }

  /** The parts before a malformed one match the beginning of the path, so the matcher comes to that part. */
  ghost predicate Stuck(selector: seq<string>, path: seq<string>) {
    exists k, j :: StuckAt(selector, path, k, j)
  }

  ghost predicate StuckAt(selector: seq<string>, path: seq<string>, k: int, j: int) {
    0 <= k < |selector| && 0 <= j <= |path| && Malformed(selector[k]) && Matches(selector[..k], path[..j])
  }

  // ---------- the matcher without its memo ----------

  /** `first || then`, where `then` is only looked at when `first` is false. */
  function Or(first: Result<bool>, second: Result<bool>): Result<bool> {
    if first == Ok(false) then second else first
  }

  function Match(selector: seq<string>, path: seq<string>): Result<bool>
    decreases |selector| + |path|
  {
    if selector == [] then Ok(path == [])
    else
      var part := selector[0];
      if part == "" then Err(BadSelector)
      else if part == "." then
        if path == [] then Ok(false) else Match(selector[1..], path[1..])
      else if part == "?" then
        Or(Match(selector[1..], path), if path == [] then Ok(false) else Match(selector[1..], path[1..]))
      else if part == "*" then
        Or(Match(selector[1..], path), if path == [] then Ok(false) else Match(selector, path[1..]))
      else if part == "+" then
        if path == [] then Ok(false) else Or(Match(selector[1..], path[1..]), Match(selector, path[1..]))
      else if exists c :: c in part && c in RESERVED then Err(BadSelector)
      else if path == [] || part != path[0] then Ok(false)
      else Match(selector[1..], path[1..])
  }

  // ---------- the first part decides where the rest begins ----------

  ghost predicate Leads(part: string, path: seq<string>, q: seq<string> -> bool) {
    exists n :: LeadsBy(part, path, q, n)
  }

  ghost predicate LeadsBy(part: string, path: seq<string>, q: seq<string> -> bool, n: int) {
    0 <= n <= |path| && Accepts(part, path[..n]) && q(path[n..])
  }

  /** Parts that take one element, or at most one. */
  lemma {:induction false} LeadsOnce(part: string, path: seq<string>, q: seq<string> -> bool)
    requires !Malformed(part) && part != "*" && part != "+"
    ensures Leads(part, path, q) <==>
            (part == "?" && q(path)) || (path != [] && (part == path[0] || Wildcard(part)) && q(path[1..]))
  {
    assert LeadsBy(part, path, q, 0) <==> part == "?" && q(path) by {
      assert path[0..] == path && path[..0] == [];
    }
    assert LeadsBy(part, path, q, 1) <==> path != [] && (part == path[0] || Wildcard(part)) && q(path[1..]) by {
      if path != [] {
        assert path[..1] == [path[0]];
      }
    }
    if Leads(part, path, q) {
      var n :| LeadsBy(part, path, q, n);
      assert |path[..n]| == n <= 1;
    }
  }

  /** Parts that take any number of elements, or at least one. */
  lemma {:induction false} LeadsAgain(part: string, path: seq<string>, q: seq<string> -> bool)
    requires part == "*" || part == "+"
    ensures Leads(part, path, q) <==>
            (part == "*" && q(path)) || (path != [] && ((part == "+" && q(path[1..])) || Leads(part, path[1..], q)))
  {
    assert part == "*" ==> (LeadsBy(part, path, q, 0) <==> q(path)) by {
      assert path[0..] == path;
    }
    if Leads(part, path, q) {
      var n :| LeadsBy(part, path, q, n);
      if n > 0 {
        assert path[1..][n - 1..] == path[n..];
        assert |path[1..][..n - 1]| == n - 1;
        assert n > 1 || part == "*" ==> LeadsBy(part, path[1..], q, n - 1);
      }
    }
    if path != [] && part == "+" && q(path[1..]) {
      assert |path[..1]| == 1;
      assert LeadsBy(part, path, q, 1);
    }
    if path != [] && Leads(part, path[1..], q) {
      var n :| LeadsBy(part, path[1..], q, n);
      assert path[1..][n..] == path[n + 1..];
      assert |path[..n + 1]| == n + 1;
      assert LeadsBy(part, path, q, n + 1);
    }
  }

  lemma {:induction false} LeadsStep(part: string, path: seq<string>, q: seq<string> -> bool)
    requires !Malformed(part)
    ensures part == "." ==> (Leads(part, path, q) <==> path != [] && q(path[1..]))
    ensures part == "?" ==> (Leads(part, path, q) <==> q(path) || (path != [] && q(path[1..])))
    ensures part == "*" ==> (Leads(part, path, q) <==> q(path) || (path != [] && Leads(part, path[1..], q)))
    ensures part == "+" ==> (Leads(part, path, q) <==> path != [] && (q(path[1..]) || Leads(part, path[1..], q)))
    ensures !Wildcard(part) ==> (Leads(part, path, q) <==> path != [] && part == path[0] && q(path[1..]))
  {
    hide Leads, Malformed;
    if part == "*" || part == "+" {
      LeadsAgain(part, path, q);
    } else {
      LeadsOnce(part, path, q);
    }
  }

  lemma {:induction false} MatchesLeads(selector: seq<string>, path: seq<string>)
    requires selector != []
    ensures Matches(selector, path) <==> Leads(selector[0], path, rest => Matches(selector[1..], rest))
  {
    if Matches(selector, path) {
      var pieces :| SplitsInto(selector, path, pieces);
      var n := |pieces[0]|;
      assert path[..n] == pieces[0] && path[n..] == Concat(pieces[1..]);
      assert SplitsInto(selector[1..], path[n..], pieces[1..]);
      assert LeadsBy(selector[0], path, rest => Matches(selector[1..], rest), n);
    }
    if Leads(selector[0], path, rest => Matches(selector[1..], rest)) {
      var n :| LeadsBy(selector[0], path, rest => Matches(selector[1..], rest), n);
      var rest :| SplitsInto(selector[1..], path[n..], rest);
      var pieces := [path[..n]] + rest;
      assert pieces[1..] == rest;
      assert path[..n] + path[n..] == path;
      assert SplitsInto(selector, path, pieces);
    }
  }

  lemma {:induction false} StuckLeads(selector: seq<string>, path: seq<string>)
    requires selector != [] && !Malformed(selector[0])
    ensures Stuck(selector, path) <==> Leads(selector[0], path, rest => Stuck(selector[1..], rest))
  {
    if Stuck(selector, path) {
      var k, j :| StuckAt(selector, path, k, j);
      assert selector[..k][1..] == selector[1..][..k - 1] && selector[..k][0] == selector[0];
      MatchesLeads(selector[..k], path[..j]);
      var n :| LeadsBy(selector[0], path[..j], rest => Matches(selector[..k][1..], rest), n);
      assert path[..j][..n] == path[..n] && path[..j][n..] == path[n..][..j - n];
      assert StuckAt(selector[1..], path[n..], k - 1, j - n);
      assert LeadsBy(selector[0], path, rest => Stuck(selector[1..], rest), n);
    }
    if Leads(selector[0], path, rest => Stuck(selector[1..], rest)) {
      var n :| LeadsBy(selector[0], path, rest => Stuck(selector[1..], rest), n);
      var k, j :| StuckAt(selector[1..], path[n..], k, j);
      assert selector[..k + 1][1..] == selector[1..][..k];
      assert path[..n + j][..n] == path[..n] && path[..n + j][n..] == path[n..][..j];
      assert LeadsBy(selector[0], path[..n + j], rest => Matches(selector[..k + 1][1..], rest), n);
      MatchesLeads(selector[..k + 1], path[..n + j]);
      assert StuckAt(selector, path, k + 1, n + j);
    }
  }

  /**
   What the matcher decides, exactly: it fails when it comes to a malformed part, and otherwise answers whether the
   path splits as the selector asks.
   */
  lemma {:induction false} MatchDecides(selector: seq<string>, path: seq<string>)
    ensures Match(selector, path).Err? <==> Stuck(selector, path)
    ensures Match(selector, path).Err? ==> Match(selector, path).error == BadSelector
    ensures Match(selector, path).Ok? ==> (Match(selector, path).value <==> Matches(selector, path))
    ensures Match(selector, path) == Ok(true) ==> forall k :: 0 <= k < |selector| ==> !Malformed(selector[k])
    decreases |selector| + |path|
  {
    if selector == [] {
      assert Concat([]) == [];
      assert path == [] ==> SplitsInto([], [], []);
    } else if Malformed(selector[0]) {
      assert selector[..0] == [] && path[..0] == [];
      assert SplitsInto([], [], []);
      assert StuckAt(selector, path, 0, 0);
    } else {
      var part := selector[0];
      var matches, stuck := rest => Matches(selector[1..], rest), rest => Stuck(selector[1..], rest);
      MatchesLeads(selector, path);
      StuckLeads(selector, path);
      LeadsStep(part, path, matches);
      LeadsStep(part, path, stuck);
      MatchDecides(selector[1..], path);
      if path != [] {
        MatchDecides(selector[1..], path[1..]);
        if part == "*" || part == "+" {
          MatchesLeads(selector, path[1..]);
          StuckLeads(selector, path[1..]);
          MatchDecides(selector, path[1..]);
        }
      }
      if Match(selector, path) == Ok(true) {
        var pieces :| SplitsInto(selector, path, pieces);
      }
    }
  }

  /** A selector without malformed parts never fails. */
  lemma {:induction false} WellFormedNeverFails(selector: seq<string>, path: seq<string>)
    requires forall k :: 0 <= k < |selector| ==> !Malformed(selector[k])
    ensures Match(selector, path) == Ok(Matches(selector, path))
  {
    MatchDecides(selector, path);
    assert forall k, j :: !StuckAt(selector, path, k, j);
  }

  // ---------- the matcher with its memo ----------

  type Cell = (nat, nat)

  predicate After(a: Cell, b: Cell) {
    a.0 > b.0 || (a.0 == b.0 && a.1 > b.1)
  }

  /** The cells of the table: a position in the selector and one in the path, ends included. */
  function Grid(m: nat, n: nat): (r: set<Cell>)
    ensures forall c: Cell :: c in r <==> c.0 < m && c.1 <= n
    ensures |r| == m * (n + 1)
  {
    if m == 0 then {}
    else
      var row := Row(m - 1, n);
      assert Grid(m - 1, n) !! row;
      Grid(m - 1, n) + row
  }

  function Row(i: nat, n: nat): (r: set<Cell>)
    ensures forall c: Cell :: c in r <==> c.0 == i && c.1 <= n
    ensures |r| == n + 1
  {
    if n == 0 then {(i, 0)} else Row(i, n - 1) + {(i, n)}
  }

  class Matcher {
    const selector: seq<string>
    const path: seq<string>
    var memo: map<Cell, bool>
    /** The cells whose value was worked out, and how often that happened. */
    ghost var evaluated: set<Cell>
    ghost var evaluations: nat

    /** The value of a cell. */
    ghost function Known(c: Cell): Result<bool> {
      if c.0 <= |selector| && c.1 <= |path| then Match(selector[c.0..], path[c.1..]) else Err(StaleHandle)
    }

    ghost predicate Right(known: map<Cell, bool>) {
      forall c: Cell :: c in known ==> Known(c) == Ok(known[c])
    }

    /** The memo is right, and every cell of the table was worked out at most once. */
    ghost predicate Consistent(known: map<Cell, bool>, begun: set<Cell>, count: nat) {
      Right(known) && known.Keys <= begun <= Grid(|selector| + 1, |path|) && count == |begun|
    }

    ghost predicate Valid()
      reads this
    {
      Consistent(memo, evaluated, evaluations)
    }

    constructor (selector: seq<string>, path: seq<string>)
      ensures Valid() && evaluated == {} && memo == map[]
      ensures this.selector == selector && this.path == path
    {
      this.selector, this.path := selector, path;
      memo, evaluated, evaluations := map[], {}, 0;
    }

    /** The cells that are begun and not yet known. */
    ghost function Pending(): set<Cell>
      reads this
    {
      evaluated - memo.Keys
    }

    /** How the value of a cell comes from later cells. */
    lemma {:induction false} KnownStep(i: nat, j: nat)
      requires i <= |selector| && j <= |path|
      ensures i == |selector| ==> Known((i, j)) == Ok(j == |path|)
      ensures i < |selector| ==>
                var part := selector[i];
                Known((i, j)) ==
                if part == "" then Err(BadSelector)
                else if part == "." then if j == |path| then Ok(false) else Known((i + 1, j + 1))
                else if part == "?" then Or(Known((i + 1, j)), if j == |path| then Ok(false) else Known((i + 1, j + 1)))
                else if part == "*" then Or(Known((i + 1, j)), if j == |path| then Ok(false) else Known((i, j + 1)))
                else if part == "+" then if j == |path| then Ok(false) else Or(Known((i + 1, j + 1)), Known((i, j + 1)))
                else if exists c :: c in part && c in RESERVED then Err(BadSelector)
                else if j == |path| || part != path[j] then Ok(false)
                else Known((i + 1, j + 1))
    {
      if i < |selector| {
        assert selector[i..][1..] == selector[i + 1..];
        assert j < |path| ==> path[j..][1..] == path[j + 1..];
      }
    }

    /** One cell of the table. No cell is worked out twice. */
    method MatchesAt(i: nat, j: nat) returns (r: Result<bool>)
      requires Valid() && i <= |selector| && j <= |path| && AllBefore(Pending(), (i, j))
      modifies this
      ensures Valid()
      ensures r == Known((i, j))
      ensures r.Ok? ==> Pending() == old(Pending())
      decreases |selector| - i + |path| - j, 1
    {
      hide Known, Consistent, AllBefore;
      if (i, j) in memo {
        Recall((i, j), evaluated, evaluations);
        return Ok(memo[(i, j)]);
      }
      ghost var above := Pending();
      NotBegun(above, i, j);
      Begin((i, j), evaluated, evaluations);
      evaluated, evaluations := evaluated + {(i, j)}, evaluations + 1;
      r := WorkOut(i, j);
      if r.Ok? {
        Finish((i, j), r.value, evaluated, evaluations, above);
        memo := memo[(i, j) := r.value];
      }
    }

    lemma {:induction false} Recall(c: Cell, begun: set<Cell>, count: nat)
      requires Consistent(memo, begun, count) && c in memo
      ensures Known(c) == Ok(memo[c])
    {
      hide Known, Grid;
    }

    lemma {:induction false} Begin(c: Cell, begun: set<Cell>, count: nat)
      requires c.0 <= |selector| && c.1 <= |path| && c !in memo && c !in begun - memo.Keys
      requires Consistent(memo, begun, count)
      ensures Consistent(memo, begun + {c}, count + 1)
      ensures (begun + {c}) - memo.Keys == (begun - memo.Keys) + {c}
    {
      hide Known;
    }

    lemma {:induction false} Finish(c: Cell, value: bool, begun: set<Cell>, count: nat, above: set<Cell>)
      requires Consistent(memo, begun, count) && Known(c) == Ok(value)
      requires begun - memo.Keys == above + {c} && c !in above
      ensures Consistent(memo[c := value], begun, count)
      ensures begun - memo[c := value].Keys == above
    {
      hide Known, Grid;
      assert c in above + {c};
      forall y ensures y in begun - memo[c := value].Keys <==> y in above {
        assert y in begun - memo.Keys <==> y in above + {c};
      }
    }

    method WorkOut(i: nat, j: nat) returns (r: Result<bool>)
      requires Valid() && i <= |selector| && j <= |path|
      requires AllBefore(Pending(), (i + 1, j)) && AllBefore(Pending(), (i + 1, j + 1)) && AllBefore(Pending(), (i, j + 1))
      modifies this
      ensures Valid()
      ensures r == Known((i, j))
      ensures r.Ok? ==> Pending() == old(Pending())
      decreases |selector| - i + |path| - j, 0
    {
      KnownStep(i, j);
      hide Known, Valid, AllBefore, Pending;
      if i == |selector| {
        return Ok(j == |path|);
      }
      var part := selector[i];
      if part == "" {
        return Err(BadSelector);
      } else if part == "." {
        r := Ok(false);
        if j < |path| {
          r := MatchesAt(i + 1, j + 1);
        }
      } else if part == "?" {
        r := MatchesAt(i + 1, j);
        if r == Ok(false) && j < |path| {
          r := MatchesAt(i + 1, j + 1);
        }
      } else if part == "*" {
        r := MatchesAt(i + 1, j);
        if r == Ok(false) && j < |path| {
          r := MatchesAt(i, j + 1);
        }
      } else if part == "+" {
        r := Ok(false);
        if j < |path| {
          r := MatchesAt(i + 1, j + 1);
          if r == Ok(false) {
            r := MatchesAt(i, j + 1);
          }
        }
      } else if exists c :: c in part && c in RESERVED {
        return Err(BadSelector);
      } else {
        r := Ok(false);
        if j < |path| && part == path[j] {
          r := MatchesAt(i + 1, j + 1);
        }
      }
    }
  }

  lemma {:induction false} NotBegun(above: set<Cell>, i: nat, j: nat)
    requires AllBefore(above, (i, j))
    ensures (i, j) !in above
    ensures var here := above + {(i, j)};
            AllBefore(here, (i + 1, j)) && AllBefore(here, (i + 1, j + 1)) && AllBefore(here, (i, j + 1))
  {
    assert !After((i, j), (i, j));
  }

  predicate AllBefore(pending: set<Cell>, cell: Cell) {
    forall c :: c in pending ==> After(cell, c)
  }

  /** Whether a path matches a selector, with the table filled once. */
  method MatchesPath(selector: seq<string>, path: seq<string>) returns (r: Result<bool>, ghost evaluations: nat)
    ensures r == Match(selector, path)
    ensures evaluations <= (|selector| + 1) * (|path| + 1)
  {
    var matcher := new Matcher(selector, path);
    r := matcher.MatchesAt(0, 0);
    evaluations := matcher.evaluations;
    SubsetSize(matcher.evaluated, Grid(|selector| + 1, |path|));
    assert selector[0..] == selector && path[0..] == path;
  }
}
