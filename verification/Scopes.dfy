/** The scopes of a template, and finding the scope that a path is in (template_package_v2.rs). */
module Scopes {
  import opened Wrappers
  import opened Ast
  import opened AstPaths
  import opened Navigation
  import opened Extraction

  /** A scope as it is recorded. */
  datatype ScopeSpec = ScopeSpec(id: nat, parent: Option<nat>, kind: string, path: string, owner: seq<string>)

  /** A scope with the address of its statement in place of its path. */
  datatype Scope = Scope(id: nat, parent: nat, kind: string, at: Address, owner: seq<string>)

  // ---------- the scopes below a statement, in the order they are recorded ----------

  function ScopeKind(h: Head): Option<(string, string)> {
    match h
    case FunctionDef(name, _, isAsync) => Some((if isAsync then "async_function" else "function", name))
    case ClassDef(name) => Some(("class", name))
    case _ => None
  }

  predicate EntersBody(h: Head) {
    || h.FunctionDef? || h.ClassDef? || h.While? || h.If?
    || (h.For? && !h.isAsync) || (h.With? && !h.isAsync) || (h.Try? && !h.isStar)
  }

  predicate EntersOrelse(h: Head) {
    (h.For? && !h.isAsync) || h.While? || h.If? || (h.Try? && !h.isStar)
  }

  predicate EntersTry(h: Head) {
    h.Try? && !h.isStar
  }

  /** Where a scope is recorded: below which scope, in whose code, and how many were recorded before. */
  datatype Place = Place(parent: nat, owner: seq<string>, next: nat)

  function After(place: Place, scopes: seq<Scope>): Place {
    Place(place.parent, place.owner, place.next + |scopes|)
  }

  function StmtScopes(s: Stmt, at: Address, place: Place): seq<Scope>
    decreases s, 1
  {
    match ScopeKind(s.head)
    case None => NestedScopes(s, at, place)
    case Some((kind, name)) =>
      var owner := place.owner + [name];
      [Scope(place.next, place.parent, kind, at, owner)] + NestedScopes(s, at, Place(place.next, owner, place.next + 1))
  }

  function NestedScopes(s: Stmt, at: Address, place: Place): seq<Scope>
    decreases s, 0
  {
    var body := ScopesIf(EntersBody(s.head), s.body, InBody, at, place);
    var handlers := if EntersTry(s.head) then HandlerScopes(s.branches, 0, at, After(place, body)) else [];
    var orelse := ScopesIf(EntersOrelse(s.head), s.orelse, InOrelse, at, After(place, body + handlers));
    var final := ScopesIf(EntersTry(s.head), s.finalbody, InFinalbody, at, After(place, body + handlers + orelse));
    body + handlers + orelse + final
  }

  function ScopesIf(entered: bool, suite: seq<Stmt>, slot: Slot, at: Address, place: Place): seq<Scope>
    decreases suite, 1
  {
    if entered then SuiteScopes(suite, slot, 0, at, place) else []
  }

  function SuiteScopes(suite: seq<Stmt>, slot: Slot, from: nat, at: Address, place: Place): seq<Scope>
    decreases suite, 0
  {
    if suite == [] then []
    else
      var first := StmtScopes(suite[0], at + [Step(slot, from)], place);
      first + SuiteScopes(suite[1..], slot, from + 1, at, After(place, first))
  }

  function HandlerScopes(branches: seq<Branch>, from: nat, at: Address, place: Place): seq<Scope>
    decreases branches
  {
    if branches == [] then []
    else
      var first := SuiteScopes(branches[0].body, InHandler(from), 0, at, place);
      first + HandlerScopes(branches[1..], from + 1, at, After(place, first))
  }

  const MODULE_SCOPE := ScopeSpec(0, None, "module", "", [])

  function Spec(s: Scope): ScopeSpec {
    ScopeSpec(s.id, Some(s.parent), s.kind, PrintAddress(s.at), s.owner)
  }

  function Specs(scopes: seq<Scope>): (r: seq<ScopeSpec>)
    ensures |r| == |scopes|
  {
    seq(|scopes|, k requires 0 <= k < |scopes| => Spec(scopes[k]))
  }

  /** The scopes below the module scope. */
  function ModuleScopes(m: Module): seq<Scope> {
    SuiteScopes(m.body, InBody, 0, [], Place(0, [], 1))
  }

  function AllScopes(m: Module): seq<ScopeSpec> {
    [MODULE_SCOPE] + Specs(ModuleScopes(m))
  }

  // ---------- the traversal itself ----------

  lemma {:induction false} SpecsAppend(a: seq<Scope>, b: seq<Scope>)
    ensures Specs(a + b) == Specs(a) + Specs(b)
  {
  }

  method VisitStmtScopes(s: Stmt, path: string, ghost at: Address, parent: nat, owner: seq<string>, scopes: seq<ScopeSpec>)
    returns (r: seq<ScopeSpec>)
    requires at != [] && path == PrintAddress(at)
    ensures r == scopes + Specs(StmtScopes(s, at, Place(parent, owner, |scopes|)))
    decreases s, 2
  {
    hide NestedScopes;
    match s.head
    case FunctionDef(name, _, isAsync) =>
      r := PushScope(s, if isAsync then "async_function" else "function", name, path, at, parent, owner, scopes);
    case ClassDef(name) =>
      r := PushScope(s, "class", name, path, at, parent, owner, scopes);
    case _ =>
      r := VisitNestedScopes(s, path, at, parent, owner, scopes);
  }

  lemma {:induction false} PushedFirst(own: Scope, nested: seq<Scope>, scopes: seq<ScopeSpec>)
    ensures scopes + [Spec(own)] + Specs(nested) == scopes + Specs([own] + nested)
  {
    SpecsAppend([own], nested);
    assert Specs([own]) == [Spec(own)];
  }

  /** Records the scope of a function or class and goes on inside it. */
  method PushScope(s: Stmt, kind: string, name: string, path: string, ghost at: Address, parent: nat, owner: seq<string>, scopes: seq<ScopeSpec>)
    returns (r: seq<ScopeSpec>)
    requires at != [] && path == PrintAddress(at) && ScopeKind(s.head) == Some((kind, name))
    ensures r == scopes + Specs(StmtScopes(s, at, Place(parent, owner, |scopes|)))
    decreases s, 1
  {
    hide NestedScopes;
    var id, inner := |scopes|, owner + [name];
    r := VisitNestedScopes(s, path, at, id, inner, scopes + [ScopeSpec(id, Some(parent), kind, path, inner)]);
    PushedFirst(Scope(id, parent, kind, at, inner), NestedScopes(s, at, Place(id, inner, id + 1)), scopes);
  }

  lemma {:induction false} NestedParts(s: Stmt, at: Address, place: Place, count: nat)
    requires count == place.next
    ensures var body := ScopesIf(EntersBody(s.head), s.body, InBody, at, place);
            var second := Place(place.parent, place.owner, count + |body|);
            var handlers := if EntersTry(s.head) then HandlerScopes(s.branches, 0, at, second) else [];
            var third := Place(place.parent, place.owner, count + |body| + |handlers|);
            var orelse := ScopesIf(EntersOrelse(s.head), s.orelse, InOrelse, at, third);
            var fourth := Place(place.parent, place.owner, count + |body| + |handlers| + |orelse|);
            var final := ScopesIf(EntersTry(s.head), s.finalbody, InFinalbody, at, fourth);
            Specs(NestedScopes(s, at, place)) == Specs(body) + Specs(handlers) + Specs(orelse) + Specs(final)
  {
    hide ScopesIf, HandlerScopes, Specs;
    var body := ScopesIf(EntersBody(s.head), s.body, InBody, at, place);
    var handlers := if EntersTry(s.head) then HandlerScopes(s.branches, 0, at, After(place, body)) else [];
    var orelse := ScopesIf(EntersOrelse(s.head), s.orelse, InOrelse, at, After(place, body + handlers));
    var final := ScopesIf(EntersTry(s.head), s.finalbody, InFinalbody, at, After(place, body + handlers + orelse));
    SpecsAppend(body, handlers);
    SpecsAppend(body + handlers, orelse);
    SpecsAppend(body + handlers + orelse, final);
  }

  method VisitNestedScopes(s: Stmt, path: string, ghost at: Address, parent: nat, owner: seq<string>, scopes: seq<ScopeSpec>)
    returns (r: seq<ScopeSpec>)
    requires at != [] && path == PrintAddress(at)
    ensures r == scopes + Specs(NestedScopes(s, at, Place(parent, owner, |scopes|)))
    decreases s, 0
  {
    hide ScopesIf, HandlerScopes, NestedScopes, Specs;
    NestedParts(s, at, Place(parent, owner, |scopes|), |scopes|);
    r := VisitFieldScopes(EntersBody(s.head), s.body, path, InBody, at, parent, owner, scopes);
    ghost var body := ScopesIf(EntersBody(s.head), s.body, InBody, at, Place(parent, owner, |scopes|));
    ghost var second := Place(parent, owner, |scopes| + |body|);
    ghost var handlers := if EntersTry(s.head) then HandlerScopes(s.branches, 0, at, second) else [];
    if EntersTry(s.head) {
      r := VisitHandlerScopes(s.branches, path, at, parent, owner, r);
    } else {
      NoSpecs(r);
    }
    ghost var third := Place(parent, owner, |scopes| + |body| + |handlers|);
    r := VisitFieldScopes(EntersOrelse(s.head), s.orelse, path, InOrelse, at, parent, owner, r);
    ghost var orelse := ScopesIf(EntersOrelse(s.head), s.orelse, InOrelse, at, third);
    ghost var fourth := Place(parent, owner, |scopes| + |body| + |handlers| + |orelse|);
    r := VisitFieldScopes(EntersTry(s.head), s.finalbody, path, InFinalbody, at, parent, owner, r);
    ghost var final := ScopesIf(EntersTry(s.head), s.finalbody, InFinalbody, at, fourth);
    Regroup(scopes, Specs(body), Specs(handlers), Specs(orelse), Specs(final));
  }

  lemma {:induction false} NoSpecs(scopes: seq<ScopeSpec>)
    ensures scopes + Specs([]) == scopes
  {
  }

  lemma {:induction false} Reassociate<T>(a: seq<T>, b: seq<T>, c: seq<T>)
    ensures a + (b + c) == a + b + c
  {
  }

  lemma {:induction false} Regroup<T>(a: seq<T>, b: seq<T>, c: seq<T>, d: seq<T>, e: seq<T>)
    ensures a + b + c + d + e == a + (b + c + d + e)
  {
  }

  method VisitFieldScopes(
      entered: bool, suite: seq<Stmt>, path: string, slot: Slot, ghost at: Address, parent: nat, owner: seq<string>, scopes: seq<ScopeSpec>)
    returns (r: seq<ScopeSpec>)
    requires at != [] && path == PrintAddress(at) && (slot.InBody? || slot.InOrelse? || slot.InFinalbody?)
    ensures r == scopes + Specs(ScopesIf(entered, suite, slot, at, Place(parent, owner, |scopes|)))
    decreases suite, 2
  {
    hide SuiteScopes;
    r := scopes;
    if entered {
      r := VisitSuiteScopes(suite, path + "/" + SlotPath(slot), slot, at, parent, owner, scopes);
    }
  }

  lemma {:induction false} SuiteStep(suite: seq<Stmt>, slot: Slot, k: nat, at: Address, place: Place)
    requires k <= |suite|
    ensures k == |suite| ==> SuiteScopes(suite[k..], slot, k, at, place) == []
    ensures k < |suite| ==>
              var first := StmtScopes(suite[k], at + [Step(slot, k)], place);
              Specs(SuiteScopes(suite[k..], slot, k, at, place)) ==
              Specs(first) + Specs(SuiteScopes(suite[k + 1..], slot, k + 1, at, After(place, first)))
  {
    hide StmtScopes;
    if k < |suite| {
      assert suite[k..][0] == suite[k] && suite[k..][1..] == suite[k + 1..];
      var first := StmtScopes(suite[k], at + [Step(slot, k)], place);
      SpecsAppend(first, SuiteScopes(suite[k + 1..], slot, k + 1, at, After(place, first)));
    }
  }

  method VisitSuiteScopes(suite: seq<Stmt>, path: string, ghost slot: Slot, ghost at: Address, parent: nat, owner: seq<string>, scopes: seq<ScopeSpec>)
    returns (r: seq<ScopeSpec>)
    requires path == SuitePath(at, slot)
    ensures r == scopes + Specs(SuiteScopes(suite, slot, 0, at, Place(parent, owner, |scopes|)))
    decreases suite, 1
  {
    hide StmtScopes, SuiteScopes, SuitePath, Specs, PrintAddress;
    r := scopes;
    ghost var all := Specs(SuiteScopes(suite, slot, 0, at, Place(parent, owner, |scopes|)));
    assert suite[0..] == suite;
    for index := 0 to |suite|
      invariant scopes + all == r + Specs(SuiteScopes(suite[index..], slot, index, at, Place(parent, owner, |r|)))
    {
      SuitePathIndex(at, Step(slot, index));
      ghost var place := Place(parent, owner, |r|);
      SuiteStep(suite, slot, index, at, place);
      ghost var first := StmtScopes(suite[index], at + [Step(slot, index)], place);
      Reassociate(r, Specs(first), Specs(SuiteScopes(suite[index + 1..], slot, index + 1, at, After(place, first))));
      r := VisitStmtScopes(suite[index], Indexed(path, index), at + [Step(slot, index)], parent, owner, r);
    }
    SuiteStep(suite, slot, |suite|, at, Place(parent, owner, |r|));
    NoSpecs(r);
  }

  lemma {:induction false} HandlerStep(branches: seq<Branch>, k: nat, at: Address, place: Place)
    requires k <= |branches|
    ensures k == |branches| ==> HandlerScopes(branches[k..], k, at, place) == []
    ensures k < |branches| ==>
              var first := SuiteScopes(branches[k].body, InHandler(k), 0, at, place);
              Specs(HandlerScopes(branches[k..], k, at, place)) ==
              Specs(first) + Specs(HandlerScopes(branches[k + 1..], k + 1, at, After(place, first)))
  {
    hide SuiteScopes;
    if k < |branches| {
      assert branches[k..][0] == branches[k] && branches[k..][1..] == branches[k + 1..];
      var first := SuiteScopes(branches[k].body, InHandler(k), 0, at, place);
      SpecsAppend(first, HandlerScopes(branches[k + 1..], k + 1, at, After(place, first)));
    }
  }

  method VisitHandlerScopes(branches: seq<Branch>, path: string, ghost at: Address, parent: nat, owner: seq<string>, scopes: seq<ScopeSpec>)
    returns (r: seq<ScopeSpec>)
    requires at != [] && path == PrintAddress(at)
    ensures r == scopes + Specs(HandlerScopes(branches, 0, at, Place(parent, owner, |scopes|)))
    decreases branches, 1
  {
    hide SuiteScopes, HandlerScopes, PrintAddress, Specs;
    r := scopes;
    ghost var all := Specs(HandlerScopes(branches, 0, at, Place(parent, owner, |scopes|)));
    assert branches[0..] == branches;
    for index := 0 to |branches|
      invariant scopes + all == r + Specs(HandlerScopes(branches[index..], index, at, Place(parent, owner, |r|)))
    {
      ghost var place := Place(parent, owner, |r|);
      HandlerStep(branches, index, at, place);
      ghost var first := SuiteScopes(branches[index].body, InHandler(index), 0, at, place);
      Reassociate(r, Specs(first), Specs(HandlerScopes(branches[index + 1..], index + 1, at, After(place, first))));
      var handler := Indexed("handlers", index);
      Assoc(path + "/", handler + "/", "body");
      Assoc(path + "/", handler, "/");
      r := VisitSuiteScopes(branches[index].body, path + "/" + handler + "/" + "body", InHandler(index), at, parent, owner, r);
    }
    HandlerStep(branches, |branches|, at, Place(parent, owner, |r|));
    NoSpecs(r);
  }

  method ExtractScopes(m: Module) returns (r: seq<ScopeSpec>)
    ensures r == AllScopes(m)
  {
    r := VisitSuiteScopes(m.body, "body", InBody, [], 0, [], [MODULE_SCOPE]);
  }
}
