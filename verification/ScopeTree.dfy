/** The parent that is recorded for a scope is the innermost scope around it (template_package_v2.rs). */
module ScopeTree {
  import opened Ast
  import opened Scopes
  import opened DocumentOrder

  // Along a sequence of steps, `a < b` says that the statement at `b` is nested in the statement at `a`.

  // ---------- the invariant of the traversal ----------

  /** The code of a scope belongs to the owner of the code around it and to its own name. */
  predicate OwnedBy(scope: Scope, owner: seq<string>) {
    scope.owner != [] && scope.owner[..|scope.owner| - 1] == owner
  }

  /** No recorded scope lies around scope `k`; the scope around the traversal is its parent. */
  ghost predicate Outermost(scopes: seq<Scope>, k: nat, place: Place)
    requires k < |scopes|
  {
    && scopes[k].parent == place.parent && OwnedBy(scopes[k], place.owner)
    && forall j :: 0 <= j < |scopes| ==> !(scopes[j].at < scopes[k].at)
  }

  /** Scope `j` is the parent of scope `k`, lies around it, and no other does so more closely. */
  ghost predicate Innermost(scopes: seq<Scope>, j: int, k: nat)
    requires k < |scopes|
  {
    && 0 <= j < k && scopes[k].parent == scopes[j].id && scopes[j].at < scopes[k].at
    && OwnedBy(scopes[k], scopes[j].owner)
    && forall i :: 0 <= i < |scopes| && scopes[i].at < scopes[k].at ==> scopes[i].at <= scopes[j].at
  }

  ghost predicate ParentRight(scopes: seq<Scope>, k: nat, place: Place)
    requires k < |scopes|
  {
    Outermost(scopes, k, place) || exists j :: Innermost(scopes, j, k)
  }

  ghost predicate Tree(scopes: seq<Scope>, place: Place) {
    && (forall k :: 0 <= k < |scopes| ==> scopes[k].id == place.next + k)
    && (forall j, k :: 0 <= j < k < |scopes| ==> AddressBefore(scopes[j].at, scopes[k].at))
    && (forall k :: 0 <= k < |scopes| ==> ParentRight(scopes, k, place))
  }

  /** Scopes of different statements of one suite, or of different suites, the first before the second. */
  ghost predicate Apart(a: seq<Scope>, b: seq<Scope>) {
    forall i, j :: 0 <= i < |a| && 0 <= j < |b| ==> Beside(a[i].at, b[j].at)
  }

  predicate Beside(a: Address, b: Address) {
    !(a <= b) && !(b <= a) && AddressBefore(a, b)
  }

  lemma {:induction false} TreeAppend(a: seq<Scope>, b: seq<Scope>, place: Place)
    requires Tree(a, place) && Tree(b, After(place, a)) && Apart(a, b)
    ensures Tree(a + b, place)
  {
    var all := a + b;
    forall j, k | 0 <= j < k < |all| ensures AddressBefore(all[j].at, all[k].at) {
      if j < |a| <= k {
        assert Beside(a[j].at, b[k - |a|].at);
      }
    }
    forall k | 0 <= k < |all| ensures ParentRight(all, k, place) {
      if k < |a| {
        FirstParents(a, b, k, place);
      } else {
        SecondParents(a, b, k - |a|, place);
      }
    }
  }

  lemma {:induction false} FirstParents(a: seq<Scope>, b: seq<Scope>, k: nat, place: Place)
    requires k < |a| && ParentRight(a, k, place) && Apart(a, b)
    ensures ParentRight(a + b, k, place)
  {
    var all := a + b;
    forall i | |a| <= i < |all| ensures !(all[i].at < all[k].at) {
      assert Beside(a[k].at, b[i - |a|].at);
    }
    if j :| Innermost(a, j, k) {
      assert Innermost(all, j, k);
    } else {
      assert Outermost(all, k, place);
    }
  }

  lemma {:induction false} SecondParents(a: seq<Scope>, b: seq<Scope>, k: nat, place: Place)
    requires k < |b| && ParentRight(b, k, After(place, a)) && Apart(a, b)
    ensures ParentRight(a + b, |a| + k, place)
  {
    var all := a + b;
    forall i | 0 <= i < |a| ensures !(all[i].at < all[|a| + k].at) {
      assert Beside(a[i].at, b[k].at);
    }
    if j :| Innermost(b, j, k) {
      forall i | 0 <= i < |all| && all[i].at < all[|a| + k].at ensures all[i].at <= all[|a| + j].at {
        assert all[i] == b[i - |a|];
      }
      assert Innermost(all, |a| + j, |a| + k);
    } else {
      assert Outermost(all, |a| + k, place);
    }
  }

  /** A scope in front of the scopes inside it. */
  lemma {:induction false} TreeBelow(own: Scope, inner: seq<Scope>, place: Place, owner: seq<string>)
    requires own.id == place.next && own.parent == place.parent && OwnedBy(own, place.owner) && owner == own.owner
    requires Tree(inner, Place(own.id, owner, place.next + 1))
    requires forall k :: 0 <= k < |inner| ==> own.at < inner[k].at
    ensures Tree([own] + inner, place)
  {
    var all := [own] + inner;
    forall j, k | 0 <= j < k < |all| ensures AddressBefore(all[j].at, all[k].at) {
      if j == 0 {
        BeforeInside(own.at, inner[k - 1].at);
      }
    }
    forall k | 0 <= k < |all| ensures ParentRight(all, k, place) {
      var below := k - 1;
      if k == 0 {
        assert Outermost(all, 0, place);
      } else if j :| Innermost(inner, j, below) {
        forall i | 0 <= i < |all| && all[i].at < all[k].at ensures all[i].at <= all[j + 1].at {
          if i > 0 {
            assert all[i] == inner[i - 1];
          }
        }
        assert Innermost(all, j + 1, k);
      } else {
        var around := Place(own.id, owner, place.next + 1);
        assert ParentRight(inner, below, around);
        assert Outermost(inner, below, around);
        forall i | 1 <= i < |all| ensures !(all[i].at < all[k].at) {
          assert !(inner[i - 1].at < inner[below].at);
        }
        assert Innermost(all, 0, k);
      }
    }
  }

  // ---------- where the scopes of a suite lie ----------

  ghost predicate In(scopes: seq<Scope>, at: Address, slot: Slot, from: nat) {
    forall k :: 0 <= k < |scopes| ==>
      at < scopes[k].at && scopes[k].at[|at|].slot == slot && scopes[k].at[|at|].index >= from
  }

  ghost predicate InHandlers(scopes: seq<Scope>, at: Address, from: nat) {
    forall k :: 0 <= k < |scopes| ==>
      at < scopes[k].at && scopes[k].at[|at|].slot.InHandler? && scopes[k].at[|at|].slot.k >= from
  }

  ghost predicate Inside(scopes: seq<Scope>, at: Address) {
    forall k :: 0 <= k < |scopes| ==> at < scopes[k].at
  }

  lemma {:induction false} DifferentSteps(a: Address, b: Address, at: Address)
    requires at < a && at < b && StepBefore(a[|at|], b[|at|])
    ensures Beside(a, b)
  {
    var n := |at|;
    assert a[n] != b[n];
    BeforeParted(at, a, b);
  }

  lemma {:induction false} StmtTree(s: Stmt, at: Address, place: Place)
    ensures Tree(StmtScopes(s, at, place), place)
    ensures forall k :: 0 <= k < |StmtScopes(s, at, place)| ==> at <= StmtScopes(s, at, place)[k].at
    decreases s, 1
  {
    hide NestedScopes, Tree;
    if ScopeKind(s.head).None? {
      NestedTree(s, at, place);
    } else {
      var (kind, name) := ScopeKind(s.head).value;
      var owner := place.owner + [name];
      NestedTree(s, at, Place(place.next, owner, place.next + 1));
      TreeBelow(Scope(place.next, place.parent, kind, at, owner), NestedScopes(s, at, Place(place.next, owner, place.next + 1)), place, owner);
    }
  }

  lemma {:induction false} SuiteTree(suite: seq<Stmt>, slot: Slot, from: nat, at: Address, place: Place)
    ensures Tree(SuiteScopes(suite, slot, from, at, place), place)
    ensures In(SuiteScopes(suite, slot, from, at, place), at, slot, from)
    decreases suite, 0
  {
    if suite != [] {
      hide StmtScopes, Tree;
      var here := at + [Step(slot, from)];
      var first := StmtScopes(suite[0], here, place);
      var rest := SuiteScopes(suite[1..], slot, from + 1, at, After(place, first));
      StmtTree(suite[0], here, place);
      SuiteTree(suite[1..], slot, from + 1, at, After(place, first));
      forall k | 0 <= k < |first| ensures at < first[k].at && first[k].at[|at|] == Step(slot, from) {
        assert here <= first[k].at && here[|at|] == Step(slot, from);
      }
      forall i, j | 0 <= i < |first| && 0 <= j < |rest| ensures Beside(first[i].at, rest[j].at) {
        DifferentSteps(first[i].at, rest[j].at, at);
      }
      TreeAppend(first, rest, place);
    } else {
      assert SuiteScopes(suite, slot, from, at, place) == [];
    }
  }

  lemma {:induction false} HandlersTree(branches: seq<Branch>, from: nat, at: Address, place: Place)
    ensures Tree(HandlerScopes(branches, from, at, place), place)
    ensures InHandlers(HandlerScopes(branches, from, at, place), at, from)
    decreases branches
  {
    if branches != [] {
      hide SuiteScopes, Tree;
      var first := SuiteScopes(branches[0].body, InHandler(from), 0, at, place);
      var rest := HandlerScopes(branches[1..], from + 1, at, After(place, first));
      SuiteTree(branches[0].body, InHandler(from), 0, at, place);
      HandlersTree(branches[1..], from + 1, at, After(place, first));
      HandlerBeforeRest(first, rest, at, from);
      hide Apart, HandlerScopes;
      TreeAppend(first, rest, place);
    } else {
      assert HandlerScopes(branches, from, at, place) == [];
    }
  }

  lemma {:induction false} HandlerBeforeRest(first: seq<Scope>, rest: seq<Scope>, at: Address, from: nat)
    requires In(first, at, InHandler(from), 0) && InHandlers(rest, at, from + 1)
    ensures Apart(first, rest)
    ensures InHandlers(first + rest, at, from)
  {
    forall i, j | 0 <= i < |first| && 0 <= j < |rest| ensures Beside(first[i].at, rest[j].at) {
      DifferentSteps(first[i].at, rest[j].at, at);
    }
  }

  lemma {:induction false} NoTree(place: Place)
    ensures Tree([], place)
  {
  }

  ghost predicate InOneOf(scopes: seq<Scope>, at: Address, slots: set<Slot>, handlers: bool) {
    forall k :: 0 <= k < |scopes| ==>
      at < scopes[k].at && (scopes[k].at[|at|].slot in slots || (handlers && scopes[k].at[|at|].slot.InHandler?))
  }

  /** Scopes in different suites of one statement are apart. */
  lemma {:induction false} SuitesApart(a: seq<Scope>, b: seq<Scope>, at: Address, slots: set<Slot>, handlers: bool, slot: Slot)
    requires InOneOf(a, at, slots, handlers) && In(b, at, slot, 0)
    requires (forall first :: first in slots ==> Rank(first).0 < Rank(slot).0) && (handlers ==> 1 < Rank(slot).0)
    ensures Apart(a, b)
  {
    forall i, j | 0 <= i < |a| && 0 <= j < |b| ensures Beside(a[i].at, b[j].at) {
      DifferentSteps(a[i].at, b[j].at, at);
    }
  }

  lemma {:induction false} HandlersApart(a: seq<Scope>, b: seq<Scope>, at: Address)
    requires In(a, at, InBody, 0) && InHandlers(b, at, 0)
    ensures Apart(a, b)
  {
    forall i, j | 0 <= i < |a| && 0 <= j < |b| ensures Beside(a[i].at, b[j].at) {
      DifferentSteps(a[i].at, b[j].at, at);
    }
  }

  lemma {:induction false} FieldTree(entered: bool, suite: seq<Stmt>, slot: Slot, at: Address, place: Place)
    ensures Tree(ScopesIf(entered, suite, slot, at, place), place)
    ensures In(ScopesIf(entered, suite, slot, at, place), at, slot, 0)
    decreases suite, 1
  {
    hide SuiteScopes;
    if entered {
      SuiteTree(suite, slot, 0, at, place);
    } else {
      NoTree(place);
    }
  }

  lemma {:induction false} NestedTree(s: Stmt, at: Address, place: Place)
    ensures Tree(NestedScopes(s, at, place), place)
    ensures Inside(NestedScopes(s, at, place), at)
    decreases s, 0
  {
    hide ScopesIf, HandlerScopes, Tree;
    var body := ScopesIf(EntersBody(s.head), s.body, InBody, at, place);
    var handlers := if EntersTry(s.head) then HandlerScopes(s.branches, 0, at, After(place, body)) else [];
    var orelse := ScopesIf(EntersOrelse(s.head), s.orelse, InOrelse, at, After(place, body + handlers));
    var final := ScopesIf(EntersTry(s.head), s.finalbody, InFinalbody, at, After(place, body + handlers + orelse));
    FieldTree(EntersBody(s.head), s.body, InBody, at, place);
    if EntersTry(s.head) {
      HandlersTree(s.branches, 0, at, After(place, body));
    } else {
      NoTree(After(place, body));
    }
    FieldTree(EntersOrelse(s.head), s.orelse, InOrelse, at, After(place, body + handlers));
    FieldTree(EntersTry(s.head), s.finalbody, InFinalbody, at, After(place, body + handlers + orelse));
    FourTrees(body, handlers, orelse, final, at, place);
  }

  lemma {:induction false} FourTrees(body: seq<Scope>, handlers: seq<Scope>, orelse: seq<Scope>, final: seq<Scope>, at: Address, place: Place)
    requires Tree(body, place) && In(body, at, InBody, 0)
    requires Tree(handlers, After(place, body)) && InHandlers(handlers, at, 0)
    requires Tree(orelse, After(place, body + handlers)) && In(orelse, at, InOrelse, 0)
    requires Tree(final, After(place, body + handlers + orelse)) && In(final, at, InFinalbody, 0)
    ensures Tree(body + handlers + orelse + final, place) && Inside(body + handlers + orelse + final, at)
  {
    hide Tree, Apart;
    HandlersApart(body, handlers, at);
    TreeAppend(body, handlers, place);
    SuitesApart(body + handlers, orelse, at, {InBody}, true, InOrelse);
    TreeAppend(body + handlers, orelse, place);
    SuitesApart(body + handlers + orelse, final, at, {InBody, InOrelse}, true, InFinalbody);
    TreeAppend(body + handlers + orelse, final, place);
  }

  // ---------- the result ----------

  /** Where scope `id` of a module lies. */
  function AddressOfScope(m: Module, id: nat): Address
    requires id <= |ModuleScopes(m)|
  {
    if id == 0 then [] else ModuleScopes(m)[id - 1].at
  }

  /** Identifiers count the recorded scopes in document order, and no statement is recorded twice. */
  lemma {:induction false} ScopesNumbered(m: Module, i: nat, j: nat)
    requires i <= |ModuleScopes(m)| && j <= |ModuleScopes(m)|
    ensures AllScopes(m)[i].id == i
    ensures i < j ==> AddressBefore(AddressOfScope(m, i), AddressOfScope(m, j))
    ensures AddressOfScope(m, i) == AddressOfScope(m, j) ==> i == j
  {
    SuiteTree(m.body, InBody, 0, [], Place(0, [], 1));
    NotBeforeItself(AddressOfScope(m, i));
    hide SuiteScopes;
    if i != j {
      var first, second := if i < j then i else j, if i < j then j else i;
      assert second > 0 && AddressBefore(AddressOfScope(m, first), AddressOfScope(m, second));
    }
  }

  /**
   The parent of a scope was recorded before it and is the innermost of all recorded scopes around it; the code of the
   scope belongs to the owner of its parent and to its own name.
   */
  lemma {:induction false} ParentIsInnermost(m: Module, id: nat)
    requires 1 <= id <= |ModuleScopes(m)|
    ensures AllScopes(m)[id].parent.Some?
    ensures var parent := AllScopes(m)[id].parent.value;
            && parent < id
            && AddressOfScope(m, parent) < AddressOfScope(m, id)
            && AllScopes(m)[id].owner != []
            && AllScopes(m)[id].owner[..|AllScopes(m)[id].owner| - 1] == AllScopes(m)[parent].owner
            && forall other :: 0 <= other <= |ModuleScopes(m)| && AddressOfScope(m, other) < AddressOfScope(m, id) ==>
                 AddressOfScope(m, other) <= AddressOfScope(m, parent)
  {
    hide SuiteScopes, Tree, ParentRight;
    var scopes, place := ModuleScopes(m), Place(0, [], 1);
    SuiteTree(m.body, InBody, 0, [], place);
    TreeParent(scopes, place, id - 1);
    InsideModule(m, id - 1);
    InnermostInModule(m, scopes, id - 1);
  }

  lemma {:induction false} TreeParent(scopes: seq<Scope>, place: Place, k: nat)
    requires Tree(scopes, place) && k < |scopes|
    ensures ParentRight(scopes, k, place)
    ensures forall i :: 0 <= i < |scopes| ==> scopes[i].id == place.next + i
  {
    hide ParentRight;
  }

  lemma {:induction false} InsideModule(m: Module, k: nat)
    requires k < |ModuleScopes(m)|
    ensures [] < ModuleScopes(m)[k].at
  {
    SuiteTree(m.body, InBody, 0, [], Place(0, [], 1));
    hide SuiteScopes, Tree;
  }

  lemma {:induction false} InnermostInModule(m: Module, scopes: seq<Scope>, k: nat)
    requires scopes == ModuleScopes(m) && k < |scopes| && ParentRight(scopes, k, Place(0, [], 1)) && [] < scopes[k].at
    requires forall i :: 0 <= i < |scopes| ==> scopes[i].id == 1 + i
    ensures var parent := scopes[k].parent;
            && parent <= k
            && AddressOfScope(m, parent) < scopes[k].at
            && OwnedBy(scopes[k], if parent == 0 then [] else scopes[parent - 1].owner)
            && forall other :: 0 <= other <= |scopes| && AddressOfScope(m, other) < scopes[k].at ==>
                 AddressOfScope(m, other) <= AddressOfScope(m, parent)
  {
    hide ModuleScopes;
    if j :| Innermost(scopes, j, k) {
      forall other | 0 <= other <= |scopes| && AddressOfScope(m, other) < scopes[k].at ensures AddressOfScope(m, other) <= scopes[j].at {
        if other > 0 {
          assert scopes[other - 1].at < scopes[k].at;
        }
      }
    } else {
      assert Outermost(scopes, k, Place(0, [], 1));
      forall other | 1 <= other <= |scopes| ensures !(AddressOfScope(m, other) < scopes[k].at) {
        assert !(scopes[other - 1].at < scopes[k].at);
      }
    }
  }
}
