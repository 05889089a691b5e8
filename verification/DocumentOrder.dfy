/** The order in which statements stand in a module. */
module DocumentOrder {
  import opened Ast

  /** The suites of a statement, as they stand in its text: body, handlers or cases, `else`, `finally`. */
  function Rank(slot: Slot): (nat, nat) {
    match slot
    case InBody => (0, 0)
    case InHandler(k) => (1, k)
    case InCase(k) => (1, k)
    case InOrelse => (2, 0)
    case InFinalbody => (3, 0)
  }

  predicate StepBefore(a: Step, b: Step) {
    var (first, branch), (first', branch') := Rank(a.slot), Rank(b.slot);
    first < first' || (first == first' && (branch < branch' || (branch == branch' && a.index < b.index)))
  }

  /** A statement comes before those inside it, and before what follows the place where their addresses part. */
  predicate AddressBefore(a: Address, b: Address)
    decreases |a|
  {
    b != [] && (a == [] || StepBefore(a[0], b[0]) || (a[0] == b[0] && AddressBefore(a[1..], b[1..])))
  }

  lemma {:induction false} NotBeforeItself(a: Address)
    ensures !AddressBefore(a, a)
  {
    if a != [] {
      NotBeforeItself(a[1..]);
    }
  }

  lemma {:induction false} BeforeInside(a: Address, b: Address)
    requires a < b
    ensures AddressBefore(a, b)
  {
    if a != [] {
      assert a[1..] < b[1..];
      BeforeInside(a[1..], b[1..]);
    }
  }

  lemma {:induction false} BeforeParted(at: Address, a: Address, b: Address)
    requires at < a && at < b && StepBefore(a[|at|], b[|at|])
    ensures AddressBefore(a, b)
  {
    if at != [] {
      assert at[1..] < a[1..] && at[1..] < b[1..];
      assert a[1..][|at[1..]|] == a[|at|] && b[1..][|at[1..]|] == b[|at|];
      BeforeParted(at[1..], a[1..], b[1..]);
    }
  }
}
