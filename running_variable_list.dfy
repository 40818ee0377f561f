/**
 * The running session's variable list: the scopes of the selected stack
 * frame and, under every expanded entry, its child variables, laid out as
 * a pre-order walk driven by an explicit stack, with an expansion state
 * per entry path that outlives each rebuild.
 *
 * The session is a parameter: the scopes it reports for a stack frame id
 * and the variables it reports for a variables reference.
 */
module RunningVariableList {
  import opened Wrappers
  import opened DapTypes

  /** Where an entry sits: the variables references from its scope down, and the variable's name. */
  datatype EntryPath = EntryPath(leafName: Option<string>, indices: seq<nat>)

  function ForScope(scopeId: nat): EntryPath
  {
    EntryPath(None, [scopeId])
  }

  function WithName(p: EntryPath, name: string): EntryPath
  {
    EntryPath(Some(name), p.indices)
  }

  /** The path of a child of the entry whose variables reference is `variableReference`. */
  function WithChild(p: EntryPath, variableReference: nat): EntryPath
  {
    EntryPath(None, p.indices + [variableReference])
  }

  /** The variables reference the entry is listed under; every path has at least one. */
  function ParentReferenceId(p: EntryPath): nat
    requires p.indices != []
  {
    p.indices[|p.indices| - 1]
  }

  /** The path operations agree with each other. */
  lemma PathLaws(p: EntryPath, name: string, r: nat, s: nat)
    ensures ForScope(s).leafName == None && |ForScope(s).indices| == 1 && ParentReferenceId(ForScope(s)) == s
    ensures WithChild(p, r).leafName == None && ParentReferenceId(WithChild(p, r)) == r
    ensures |WithChild(p, r).indices| == |p.indices| + 1 && WithChild(p, r).indices[..|p.indices|] == p.indices
    ensures WithName(p, name).leafName == Some(name) && WithName(p, name).indices == p.indices
    ensures p.indices != [] ==> ParentReferenceId(WithName(p, name)) == ParentReferenceId(p)
    ensures WithName(WithName(p, name), name) == WithName(p, name)
  {
  }

  datatype EntryState = EntryState(depth: nat, isExpanded: bool)

  datatype EntryKind = VariableKind(variable: Variable) | ScopeKind(scope: Scope)

  datatype ListEntry = ListEntry(dapKind: EntryKind, path: EntryPath)

  /** A pending element of the walk: a variables reference, the path it was pushed with, and what it is. */
  datatype Item = Item(reference: nat, path: EntryPath, kind: EntryKind)

  type States = map<EntryPath, EntryState>

  /**
   * `to_lowercase` on ASCII letters only; other characters are kept. That
   * is enough here, because the result is only compared with "locals".
   */
  function AsciiLower(c: char): char
  {
    if 'A' <= c <= 'Z' then (c as int + 32) as char else c
  }

  /** The string with its ASCII letters lowered, as `AsciiLower` does. */
  function Lowercase(s: string): (r: string)
    ensures |r| == |s|
    ensures forall i | 0 <= i < |s| :: r[i] == AsciiLower(s[i])
  {
    if s == [] then [] else [AsciiLower(s[0])] + Lowercase(s[1..])
  }

  /**
   * A scope starts expanded when it is the frame's only scope, or its hint
   * is Locals, or it has no hint and is named "locals" in any case.
   */
  predicate ScopeStartsExpanded(scope: Scope, scopesCount: nat)
  {
    || scopesCount == 1
    || (if scope.presentationHint.Some?
        then scope.presentationHint.value == ScopePresentationHint.Locals
        else Lowercase(scope.name) == "locals")
  }

  /** The path an item is recorded under: a variable's path carries its name. */
  function Named(x: Item): (p: EntryPath)
    ensures p.indices == x.path.indices
    ensures x.kind.VariableKind? ==> p.leafName == Some(x.kind.variable.name)
    ensures x.kind.ScopeKind? ==> p == x.path
  {
    if x.kind.VariableKind? then WithName(x.path, x.kind.variable.name) else x.path
  }

  /** The state a path gets when it is first met: its depth, and expanded only for a scope that starts so. */
  function NewState(x: Item, scopesCount: nat): (s: EntryState)
    ensures s.depth == |x.path.indices|
    ensures s.isExpanded ==> x.kind.ScopeKind?
  {
    EntryState(|Named(x).indices|, x.kind.ScopeKind? && ScopeStartsExpanded(x.kind.scope, scopesCount))
  }

  function OrInsert(st: States, p: EntryPath, s: EntryState): (r: States)
    ensures p in r && (p in st ==> r == st) && (p !in st ==> r == st[p := s])
  {
    if p in st then st else st[p := s]
  }

  /** The children of an expanded entry, in the order the session gives them. */
  function Children(x: Item, p: EntryPath, variablesOf: nat -> seq<Variable>): (kids: seq<Item>)
    ensures |kids| == |variablesOf(x.reference)|
    ensures forall i | 0 <= i < |kids| ::
      kids[i] == Item(variablesOf(x.reference)[i].variablesReference, WithChild(p, x.reference), VariableKind(variablesOf(x.reference)[i]))
  {
    ChildItems(variablesOf(x.reference), WithChild(p, x.reference))
  }

  function ChildItems(vars: seq<Variable>, path: EntryPath): (kids: seq<Item>)
    ensures |kids| == |vars|
    ensures forall i | 0 <= i < |kids| :: kids[i] == Item(vars[i].variablesReference, path, VariableKind(vars[i]))
  {
    if vars == [] then [] else [Item(vars[0].variablesReference, path, VariableKind(vars[0]))] + ChildItems(vars[1..], path)
  }

  /** Every expanded state is for a path at most `bound` references deep. */
  predicate Bounded(st: States, bound: nat)
  {
    forall p | p in st :: st[p].isExpanded ==> |p.indices| <= bound
  }

  /** A scope item sits at the path of its scope: at most `bound` references deep and without a name. */
  predicate ScopeItemOk(x: Item, bound: nat)
  {
    x.kind.ScopeKind? ==> |x.path.indices| <= bound && x.path.leafName == None
  }

  predicate ShallowScopes(items: seq<Item>, bound: nat)
  {
    forall i | 0 <= i < |items| :: ScopeItemOk(items[i], bound)
  }

  lemma ShallowConcat(a: seq<Item>, b: seq<Item>, bound: nat)
    requires ShallowScopes(a, bound) && ShallowScopes(b, bound)
    ensures ShallowScopes(a + b, bound)
  {
    forall i | 0 <= i < |a + b| ensures ScopeItemOk((a + b)[i], bound) {
      if i < |a| { assert (a + b)[i] == a[i]; } else { assert (a + b)[i] == b[i - |a|]; }
    }
  }

  function Gap(x: Item, bound: nat): nat
  {
    if |x.path.indices| > bound then 0 else bound + 1 - |x.path.indices|
  }

  function MaxGap(items: seq<Item>, bound: nat): (g: nat)
    ensures forall i | 0 <= i < |items| :: Gap(items[i], bound) <= g
  {
    if items == [] then 0 else
      var rest := MaxGap(items[1..], bound);
      if Gap(items[0], bound) > rest then Gap(items[0], bound) else rest
  }

  lemma {:induction false} MaxGapBelow(items: seq<Item>, bound: nat, g: nat)
    requires forall i | 0 <= i < |items| :: Gap(items[i], bound) <= g
    ensures MaxGap(items, bound) <= g
  {
    if items != [] {
      MaxGapBelow(items[1..], bound, g);
    }
  }

  /**
   * What a walk does to the states: those it found stay as they were, and
   * each new one has its path's depth and, for a variable, is collapsed.
   */
  predicate Extends(st: States, st': States, bound: nat)
  {
    && (forall p | p in st :: p in st' && st'[p] == st[p])
    && (forall p | p in st' && p !in st :: st'[p].depth == |p.indices|)
    && (forall p | p in st' && p !in st :: p.leafName.Some? ==> !st'[p].isExpanded)
    && Bounded(st', bound)
  }

  lemma ExtendsTrans(a: States, b: States, c: States, bound: nat)
    requires Extends(a, b, bound) && Extends(b, c, bound)
    ensures Extends(a, c, bound)
  {
  }

  /** The states once an item is met: `entry(path).or_insert(...)`. */
  function Meet(x: Item, st: States, scopesCount: nat): States
  {
    OrInsert(st, Named(x), NewState(x, scopesCount))
  }

  lemma MeetBounded(x: Item, st: States, scopesCount: nat, bound: nat)
    requires bound >= 1 && Bounded(st, bound) && ScopeItemOk(x, bound)
    ensures Bounded(Meet(x, st, scopesCount), bound)
    ensures Meet(x, st, scopesCount)[Named(x)].isExpanded ==> 1 <= Gap(x, bound)
  {
  }

  lemma MeetExtends(x: Item, st: States, scopesCount: nat, bound: nat)
    requires bound >= 1 && Bounded(st, bound) && ScopeItemOk(x, bound)
    ensures Extends(st, Meet(x, st, scopesCount), bound)
    ensures Meet(x, st, scopesCount)[Named(x)].isExpanded ==> 1 <= Gap(x, bound)
  {
  }

  /**
   * The walk of one item: it is listed, gets a state if its path has none,
   * and when that state is expanded is followed by the walk of its children.
   */
  function Visit(x: Item, st: States, scopesCount: nat, variablesOf: nat -> seq<Variable>, bound: nat): (r: (seq<ListEntry>, States))
    requires bound >= 1 && Bounded(st, bound) && ScopeItemOk(x, bound)
    ensures Bounded(r.1, bound)
    ensures r.0 != [] && r.0[0] == ListEntry(x.kind, Named(x))
    decreases Gap(x, bound), 0
  {
    var p := Named(x);
    var st1 := Meet(x, st, scopesCount);
    MeetBounded(x, st, scopesCount, bound);
    if st1[p].isExpanded then
      var kids := Children(x, p, variablesOf);
      MaxGapBelow(kids, bound, Gap(x, bound) - 1);
      var w := Walk(kids, st1, scopesCount, variablesOf, bound);
      ([ListEntry(x.kind, p)] + w.0, w.1)
    else ([ListEntry(x.kind, p)], st1)
  }

  /** The pre-order walk of `build_entries`: each item's walk in turn, the states carried along. */
  function Walk(items: seq<Item>, st: States, scopesCount: nat, variablesOf: nat -> seq<Variable>, bound: nat): (r: (seq<ListEntry>, States))
    requires bound >= 1 && Bounded(st, bound) && ShallowScopes(items, bound)
    ensures Bounded(r.1, bound)
    decreases MaxGap(items, bound), |items|
  {
    if items == [] then ([], st) else
      var v := Visit(items[0], st, scopesCount, variablesOf, bound);
      var w := Walk(items[1..], v.1, scopesCount, variablesOf, bound);
      (v.0 + w.0, w.1)
  }

  /** An item's walk keeps the states it finds and adds new ones as `NewState` makes them. */
  lemma {:induction false} VisitExtends(x: Item, st: States, scopesCount: nat, variablesOf: nat -> seq<Variable>, bound: nat)
    requires bound >= 1 && Bounded(st, bound) && ScopeItemOk(x, bound)
    ensures Extends(st, Visit(x, st, scopesCount, variablesOf, bound).1, bound)
    decreases Gap(x, bound), 0
  {
    var p := Named(x);
    var st1 := Meet(x, st, scopesCount);
    MeetExtends(x, st, scopesCount, bound);
    if st1[p].isExpanded {
      var kids := Children(x, p, variablesOf);
      MaxGapBelow(kids, bound, Gap(x, bound) - 1);
      WalkExtends(kids, st1, scopesCount, variablesOf, bound);
      ExtendsTrans(st, st1, Walk(kids, st1, scopesCount, variablesOf, bound).1, bound);
    }
  }

  /** A walk keeps the states it finds and adds new ones as `NewState` makes them. */
  lemma {:induction false} WalkExtends(items: seq<Item>, st: States, scopesCount: nat, variablesOf: nat -> seq<Variable>, bound: nat)
    requires bound >= 1 && Bounded(st, bound) && ShallowScopes(items, bound)
    ensures Extends(st, Walk(items, st, scopesCount, variablesOf, bound).1, bound)
    decreases MaxGap(items, bound), |items|
  {
    if items != [] {
      var v := Visit(items[0], st, scopesCount, variablesOf, bound);
      VisitExtends(items[0], st, scopesCount, variablesOf, bound);
      WalkExtends(items[1..], v.1, scopesCount, variablesOf, bound);
      ExtendsTrans(st, v.1, Walk(items[1..], v.1, scopesCount, variablesOf, bound).1, bound);
    }
  }

  /** Walking two lists of items one after the other is walking their concatenation. */
  lemma {:induction false} WalkConcat(a: seq<Item>, b: seq<Item>, st: States, scopesCount: nat, variablesOf: nat -> seq<Variable>, bound: nat)
    requires bound >= 1 && Bounded(st, bound) && ShallowScopes(a, bound) && ShallowScopes(b, bound)
    ensures ShallowScopes(a + b, bound)
    ensures var wa := Walk(a, st, scopesCount, variablesOf, bound);
      var wb := Walk(b, wa.1, scopesCount, variablesOf, bound);
      Walk(a + b, st, scopesCount, variablesOf, bound) == (wa.0 + wb.0, wb.1)
    decreases |a|
  {
    ShallowConcat(a, b, bound);
    if a == [] {
      assert a + b == b;
      var wb := Walk(b, st, scopesCount, variablesOf, bound);
      assert Walk(a, st, scopesCount, variablesOf, bound) == ([], st);
      assert [] + wb.0 == wb.0;
    } else {
      assert (a + b)[0] == a[0];
      assert (a + b)[1..] == a[1..] + b;
      var v := Visit(a[0], st, scopesCount, variablesOf, bound);
      WalkConcat(a[1..], b, v.1, scopesCount, variablesOf, bound);
      var wa := Walk(a[1..], v.1, scopesCount, variablesOf, bound);
      var wb := Walk(b, wa.1, scopesCount, variablesOf, bound);
      assert Walk(a, st, scopesCount, variablesOf, bound) == (v.0 + wa.0, wa.1);
      assert Walk(a + b, st, scopesCount, variablesOf, bound) == (v.0 + (wa.0 + wb.0), wb.1);
      assert v.0 + (wa.0 + wb.0) == (v.0 + wa.0) + wb.0;
    }
  }

  /** The stack after the top item is popped and, when its state is expanded, its children pushed in reverse. */
  function Pushed(stack: seq<Item>, st1: States, variablesOf: nat -> seq<Variable>): seq<Item>
    requires stack != []
  {
    var x := stack[|stack| - 1];
    var below := stack[..|stack| - 1];
    if Named(x) in st1 && st1[Named(x)].isExpanded then below + Reverse(Children(x, Named(x), variablesOf)) else below
  }

  /** The walk of the stack read from the top: the top item's walk, then the rest. */
  lemma PopWalk(stack: seq<Item>, st: States, scopesCount: nat, variablesOf: nat -> seq<Variable>, bound: nat)
    requires stack != [] && bound >= 1 && Bounded(st, bound) && ShallowScopes(Reverse(stack), bound)
    ensures ScopeItemOk(stack[|stack| - 1], bound) && ShallowScopes(Reverse(stack[..|stack| - 1]), bound)
    ensures var v := Visit(stack[|stack| - 1], st, scopesCount, variablesOf, bound);
      var w := Walk(Reverse(stack[..|stack| - 1]), v.1, scopesCount, variablesOf, bound);
      Walk(Reverse(stack), st, scopesCount, variablesOf, bound) == (v.0 + w.0, w.1)
  {
    var x := stack[|stack| - 1];
    var rest := Reverse(stack[..|stack| - 1]);
    ReversePop(stack);
    var items := [x] + rest;
    assert items[0] == x && items[1..] == rest;
    assert ScopeItemOk(items[0], bound);
    assert ShallowScopes(rest, bound) by {
      forall i | 0 <= i < |rest| ensures ScopeItemOk(rest[i], bound) {
        assert rest[i] == items[i + 1];
      }
    }
  }

  /** One turn of the loop of `build_entries`: the walk of the stack is the top entry and the walk of the next stack. */
  lemma StackStep(stack: seq<Item>, st: States, scopesCount: nat, variablesOf: nat -> seq<Variable>, bound: nat)
    requires stack != [] && bound >= 1 && Bounded(st, bound) && ShallowScopes(Reverse(stack), bound)
    ensures var x := stack[|stack| - 1];
      var st1 := Meet(x, st, scopesCount);
      var next := Pushed(stack, st1, variablesOf);
      Bounded(st1, bound) && ShallowScopes(Reverse(next), bound) &&
      Walk(Reverse(stack), st, scopesCount, variablesOf, bound) ==
        ([ListEntry(x.kind, Named(x))] + Walk(Reverse(next), st1, scopesCount, variablesOf, bound).0,
         Walk(Reverse(next), st1, scopesCount, variablesOf, bound).1)
  {
    var x := stack[|stack| - 1];
    var below := stack[..|stack| - 1];
    PopWalk(stack, st, scopesCount, variablesOf, bound);
    MeetBounded(x, st, scopesCount, bound);
    var st1 := Meet(x, st, scopesCount);
    if st1[Named(x)].isExpanded {
      ExpandedStep(x, below, st, scopesCount, variablesOf, bound);
    }
  }

  /** The loop invariant of `build_entries` survives one turn. */
  lemma LoopStep(es: seq<ListEntry>, stack: seq<Item>, st: States, scopesCount: nat, variablesOf: nat -> seq<Variable>, bound: nat,
                 target: (seq<ListEntry>, States))
    requires stack != [] && bound >= 1 && Bounded(st, bound) && ShallowScopes(Reverse(stack), bound)
    requires es + Walk(Reverse(stack), st, scopesCount, variablesOf, bound).0 == target.0
    requires Walk(Reverse(stack), st, scopesCount, variablesOf, bound).1 == target.1
    ensures var x := stack[|stack| - 1];
      var st1 := Meet(x, st, scopesCount);
      var next := Pushed(stack, st1, variablesOf);
      Bounded(st1, bound) && ShallowScopes(Reverse(next), bound) &&
      (es + [ListEntry(x.kind, Named(x))]) + Walk(Reverse(next), st1, scopesCount, variablesOf, bound).0 == target.0 &&
      Walk(Reverse(next), st1, scopesCount, variablesOf, bound).1 == target.1 &&
      |es + [ListEntry(x.kind, Named(x))]| <= |target.0|
  {
    StackStep(stack, st, scopesCount, variablesOf, bound);
    var x := stack[|stack| - 1];
    var st1 := Meet(x, st, scopesCount);
    var next := Pushed(stack, st1, variablesOf);
    var w := Walk(Reverse(next), st1, scopesCount, variablesOf, bound).0;
    assert es + ([ListEntry(x.kind, Named(x))] + w) == (es + [ListEntry(x.kind, Named(x))]) + w;
  }

  lemma ExpandedStep(x: Item, below: seq<Item>, st: States, scopesCount: nat, variablesOf: nat -> seq<Variable>, bound: nat)
    requires bound >= 1 && Bounded(st, bound) && ScopeItemOk(x, bound) && ShallowScopes(Reverse(below), bound)
    requires Meet(x, st, scopesCount)[Named(x)].isExpanded
    ensures var st1 := Meet(x, st, scopesCount);
      var kids := Children(x, Named(x), variablesOf);
      var rest := Reverse(below);
      var v := Visit(x, st, scopesCount, variablesOf, bound);
      Bounded(st1, bound) && Reverse(below + Reverse(kids)) == kids + rest && ShallowScopes(kids + rest, bound) &&
      v.0 + Walk(rest, v.1, scopesCount, variablesOf, bound).0 == [ListEntry(x.kind, Named(x))] + Walk(kids + rest, st1, scopesCount, variablesOf, bound).0 &&
      Walk(rest, v.1, scopesCount, variablesOf, bound).1 == Walk(kids + rest, st1, scopesCount, variablesOf, bound).1
  {
    VisitExpanded(x, st, scopesCount, variablesOf, bound);
    var st1 := Meet(x, st, scopesCount);
    var kids := Children(x, Named(x), variablesOf);
    var rest := Reverse(below);
    PushedChildren(below, kids);
    ShallowConcat(kids, rest, bound);
    WalkConcat(kids, rest, st1, scopesCount, variablesOf, bound);
    var v := Visit(x, st, scopesCount, variablesOf, bound);
    var wk := Walk(kids, st1, scopesCount, variablesOf, bound);
    Glue(ListEntry(x.kind, Named(x)), v, wk, Walk(rest, v.1, scopesCount, variablesOf, bound), Walk(kids + rest, st1, scopesCount, variablesOf, bound));
  }

  lemma Glue<S>(e: ListEntry, v: (seq<ListEntry>, S), wk: (seq<ListEntry>, S), wr: (seq<ListEntry>, S), whole: (seq<ListEntry>, S))
    requires v == ([e] + wk.0, wk.1) && whole == (wk.0 + wr.0, wr.1)
    ensures v.0 + wr.0 == [e] + whole.0 && wr.1 == whole.1
  {
    assert ([e] + wk.0) + wr.0 == [e] + (wk.0 + wr.0);
  }

  lemma PushedChildren(below: seq<Item>, kids: seq<Item>)
    ensures Reverse(below + Reverse(kids)) == kids + Reverse(below)
  {
    ReverseConcat(below, Reverse(kids));
    ReverseReverse(kids);
  }

  /** The walk of an item whose state is expanded: the item, then the walk of its children. */
  lemma VisitExpanded(x: Item, st: States, scopesCount: nat, variablesOf: nat -> seq<Variable>, bound: nat)
    requires bound >= 1 && Bounded(st, bound) && ScopeItemOk(x, bound)
    requires Meet(x, st, scopesCount)[Named(x)].isExpanded
    ensures Bounded(Meet(x, st, scopesCount), bound)
    ensures ShallowScopes(Children(x, Named(x), variablesOf), bound)
    ensures var w := Walk(Children(x, Named(x), variablesOf), Meet(x, st, scopesCount), scopesCount, variablesOf, bound);
      Visit(x, st, scopesCount, variablesOf, bound) == ([ListEntry(x.kind, Named(x))] + w.0, w.1)
  {
    MeetBounded(x, st, scopesCount, bound);
  }

  /** The scopes `build_entries` starts from: those with variables, in order, each at the path of its reference. */
  function ScopeItems(scopes: seq<Scope>, variablesOf: nat -> seq<Variable>): (items: seq<Item>)
    ensures forall i | 0 <= i < |items| :: items[i].kind.ScopeKind? && items[i].path == ForScope(items[i].reference)
    ensures forall i | 0 <= i < |items| :: items[i].reference == items[i].kind.scope.variablesReference
    ensures |items| <= |scopes|
  {
    if scopes == [] then [] else
      var rest := ScopeItems(scopes[1..], variablesOf);
      var s := scopes[0];
      if |variablesOf(s.variablesReference)| > 0
      then [Item(s.variablesReference, ForScope(s.variablesReference), ScopeKind(s))] + rest
      else rest
  }

  /** Every scope with variables is one of the items `build_entries` starts from. */
  /** Every item `build_entries` starts from is one of the scopes, and one with variables. */
  lemma {:induction false} ScopeItemsSound(scopes: seq<Scope>, variablesOf: nat -> seq<Variable>, i: nat)
    requires i < |ScopeItems(scopes, variablesOf)|
    ensures ScopeItems(scopes, variablesOf)[i].kind.scope in scopes
    ensures |variablesOf(ScopeItems(scopes, variablesOf)[i].reference)| > 0
  {
    var items := ScopeItems(scopes, variablesOf);
    var rest := ScopeItems(scopes[1..], variablesOf);
    var s := scopes[0];
    var head := Item(s.variablesReference, ForScope(s.variablesReference), ScopeKind(s));
    if |variablesOf(s.variablesReference)| > 0 {
      assert items == [head] + rest;
      if i > 0 {
        ScopeItemsSound(scopes[1..], variablesOf, i - 1);
        assert items[i] == rest[i - 1];
      }
    } else {
      assert items == rest;
      ScopeItemsSound(scopes[1..], variablesOf, i);
    }
  }

  lemma {:induction false} ScopeItemsComplete(scopes: seq<Scope>, variablesOf: nat -> seq<Variable>, k: nat)
    requires k < |scopes| && |variablesOf(scopes[k].variablesReference)| > 0
    ensures exists i | 0 <= i < |ScopeItems(scopes, variablesOf)| :: ScopeItems(scopes, variablesOf)[i].kind == ScopeKind(scopes[k])
  {
    var items := ScopeItems(scopes, variablesOf);
    var rest := ScopeItems(scopes[1..], variablesOf);
    var s := scopes[0];
    var head := Item(s.variablesReference, ForScope(s.variablesReference), ScopeKind(s));
    if k == 0 {
      assert items == [head] + rest;
      assert items[0].kind == ScopeKind(scopes[0]);
    } else {
      assert scopes[1..][k - 1] == scopes[k];
      ScopeItemsComplete(scopes[1..], variablesOf, k - 1);
      var i :| 0 <= i < |rest| && rest[i].kind == ScopeKind(scopes[k]);
      if |variablesOf(s.variablesReference)| > 0 {
        assert items == [head] + rest;
        assert items[i + 1] == rest[i];
      } else {
        assert items == rest;
      }
    }
  }

  /** A bound on the depth of every path the states hold, and at least 1. */
  ghost function DepthBound(st: States): (b: nat)
    ensures b >= 1 && forall p | p in st :: |p.indices| <= b
    decreases |st|
  {
    if st == map[] then 1 else
      var p :| p in st;
      var rest := DepthBound(st - {p});
      assert forall q | q in st && q != p :: q in st - {p};
      if |p.indices| > rest then |p.indices| else rest
  }

  /** What `build_entries` makes of a stack frame's scopes, starting from states `st`. */
  ghost function Build(st: States, scopes: seq<Scope>, variablesOf: nat -> seq<Variable>): (r: (seq<ListEntry>, States))
  {
    var bound := DepthBound(st);
    Walk(ScopeItems(scopes, variablesOf), st, |scopes|, variablesOf, bound)
  }

  /** A scope entry of an item's walk is the item itself. */
  lemma {:induction false} VisitScopeEntries(x: Item, st: States, scopesCount: nat, variablesOf: nat -> seq<Variable>, bound: nat, j: nat)
    requires bound >= 1 && Bounded(st, bound) && ScopeItemOk(x, bound)
    requires j < |Visit(x, st, scopesCount, variablesOf, bound).0|
    requires Visit(x, st, scopesCount, variablesOf, bound).0[j].dapKind.ScopeKind?
    ensures j == 0
    decreases Gap(x, bound), 0
  {
    if j > 0 {
      var p := Named(x);
      var st1 := Meet(x, st, scopesCount);
      MeetBounded(x, st, scopesCount, bound);
      assert st1[p].isExpanded;
      var kids := Children(x, p, variablesOf);
      MaxGapBelow(kids, bound, Gap(x, bound) - 1);
      var w := Walk(kids, st1, scopesCount, variablesOf, bound);
      assert Visit(x, st, scopesCount, variablesOf, bound).0[j] == w.0[j - 1];
      WalkScopeEntries(kids, st1, scopesCount, variablesOf, bound, j - 1);
      assert false;
    }
  }

  /** Every scope entry of a walk is one of the items walked. */
  lemma {:induction false} WalkScopeEntries(items: seq<Item>, st: States, scopesCount: nat, variablesOf: nat -> seq<Variable>, bound: nat, j: nat)
    requires bound >= 1 && Bounded(st, bound) && ShallowScopes(items, bound)
    requires j < |Walk(items, st, scopesCount, variablesOf, bound).0|
    requires Walk(items, st, scopesCount, variablesOf, bound).0[j].dapKind.ScopeKind?
    ensures exists i | 0 <= i < |items| :: items[i].kind == Walk(items, st, scopesCount, variablesOf, bound).0[j].dapKind
    decreases MaxGap(items, bound), |items|
  {
    var e := Walk(items, st, scopesCount, variablesOf, bound).0[j];
    var v := Visit(items[0], st, scopesCount, variablesOf, bound);
    var w := Walk(items[1..], v.1, scopesCount, variablesOf, bound);
    if j < |v.0| {
      assert e == v.0[j];
      VisitScopeEntries(items[0], st, scopesCount, variablesOf, bound, j);
    } else {
      assert e == w.0[j - |v.0|];
      WalkScopeEntries(items[1..], v.1, scopesCount, variablesOf, bound, j - |v.0|);
      var i :| 0 <= i < |items[1..]| && items[1..][i].kind == e.dapKind;
      assert items[i + 1].kind == e.dapKind;
    }
  }

  /** Every item walked is listed. */
  lemma {:induction false} WalkListsItems(items: seq<Item>, st: States, scopesCount: nat, variablesOf: nat -> seq<Variable>, bound: nat, i: nat)
    requires bound >= 1 && Bounded(st, bound) && ShallowScopes(items, bound)
    requires i < |items|
    ensures exists j | 0 <= j < |Walk(items, st, scopesCount, variablesOf, bound).0| ::
      Walk(items, st, scopesCount, variablesOf, bound).0[j].dapKind == items[i].kind
  {
    var es := Walk(items, st, scopesCount, variablesOf, bound).0;
    var v := Visit(items[0], st, scopesCount, variablesOf, bound);
    var w := Walk(items[1..], v.1, scopesCount, variablesOf, bound);
    assert es == v.0 + w.0;
    if i == 0 {
      assert es[0] == v.0[0];
    } else {
      WalkListsItems(items[1..], v.1, scopesCount, variablesOf, bound, i - 1);
      var j :| 0 <= j < |w.0| && w.0[j].dapKind == items[1..][i - 1].kind;
      assert es[|v.0| + j] == w.0[j];
    }
  }

  /** `build_entries` lists a scope exactly when it is one of the frame's scopes and has variables. */
  lemma BuildListsScopesWithVariables(st: States, scopes: seq<Scope>, variablesOf: nat -> seq<Variable>, s: Scope)
    ensures (exists j | 0 <= j < |Build(st, scopes, variablesOf).0| :: Build(st, scopes, variablesOf).0[j].dapKind == ScopeKind(s))
      <==> s in scopes && |variablesOf(s.variablesReference)| > 0
  {
    var items := ScopeItems(scopes, variablesOf);
    var bound := DepthBound(st);
    var es := Build(st, scopes, variablesOf).0;
    if exists j | 0 <= j < |es| :: es[j].dapKind == ScopeKind(s) {
      var j :| 0 <= j < |es| && es[j].dapKind == ScopeKind(s);
      WalkScopeEntries(items, st, |scopes|, variablesOf, bound, j);
      var i :| 0 <= i < |items| && items[i].kind == ScopeKind(s);
      ScopeItemsSound(scopes, variablesOf, i);
    }
    if s in scopes && |variablesOf(s.variablesReference)| > 0 {
      var k :| 0 <= k < |scopes| && scopes[k] == s;
      ScopeItemsComplete(scopes, variablesOf, k);
      var i :| 0 <= i < |items| && items[i].kind == ScopeKind(s);
      WalkListsItems(items, st, |scopes|, variablesOf, bound, i);
    }
  }

  function Flip(st: States, p: EntryPath, expanded: bool): (r: States)
    requires p in st
    ensures r.Keys == st.Keys && r[p] == EntryState(st[p].depth, expanded)
    ensures forall q | q in st && q != p :: r[q] == st[q]
  {
    st[p := EntryState(st[p].depth, expanded)]
  }

  class VariableList {
    var entries: seq<ListEntry>
    var entryStates: States
    var selectedStackFrameId: Option<nat>
    var selection: Option<EntryPath>
    /** The entry being edited and the text of its editor. */
    var editedPath: Option<(EntryPath, string)>

    constructor ()
      ensures entries == [] && entryStates == map[] && selectedStackFrameId == None
      ensures selection == None && editedPath == None
    {
      entries := [];
      entryStates := map[];
      selectedStackFrameId := None;
      selection := None;
      editedPath := None;
    }

    /** `build_entries`: nothing without a selected stack frame, else the walk of its scopes. */
    method BuildEntries(scopesOf: nat -> seq<Scope>, variablesOf: nat -> seq<Variable>)
      modifies this
      ensures selectedStackFrameId == None ==> entries == old(entries) && entryStates == old(entryStates)
      ensures selectedStackFrameId.Some? ==>
        (entries, entryStates) == Build(old(entryStates), scopesOf(selectedStackFrameId.value), variablesOf)
      ensures selectedStackFrameId == old(selectedStackFrameId)
      ensures selection == old(selection) && editedPath == old(editedPath)
    {
      if selectedStackFrameId == None {
        return;
      }
      var scopes := scopesOf(selectedStackFrameId.value);
      ghost var bound := DepthBound(entryStates);
      ghost var target := Build(entryStates, scopes, variablesOf);
      var stack := Reverse(ScopeItems(scopes, variablesOf));
      ReverseReverse(ScopeItems(scopes, variablesOf));
      var es: seq<ListEntry> := [];
      var st := entryStates;
      while stack != []
        invariant Bounded(st, bound) && ShallowScopes(Reverse(stack), bound)
        invariant es + Walk(Reverse(stack), st, |scopes|, variablesOf, bound).0 == target.0
        invariant Walk(Reverse(stack), st, |scopes|, variablesOf, bound).1 == target.1
        invariant unchanged(this)
        decreases |target.0| - |es|
      {
        LoopStep(es, stack, st, |scopes|, variablesOf, bound, target);
        ghost var before := stack;
        var x := stack[|stack| - 1];
        stack := stack[..|stack| - 1];
        var p := Named(x);
        ghost var old_st := st;
        st := OrInsert(st, p, NewState(x, |scopes|));
        es := es + [ListEntry(x.kind, p)];
        if st[p].isExpanded {
          stack := stack + Reverse(Children(x, p, variablesOf));
        }
        assert st == Meet(x, old_st, |scopes|);
        assert stack == Pushed(before, st, variablesOf);
      }
      assert Walk(Reverse(stack), st, |scopes|, variablesOf, bound) == ([], st);
      assert es == target.0;
      entries := es;
      entryStates := st;
    }

    /** `toggle_entry`: flips a known path's expansion and rebuilds; an unknown path changes nothing. */
    method ToggleEntry(path: EntryPath, scopesOf: nat -> seq<Scope>, variablesOf: nat -> seq<Variable>)
      modifies this
      ensures path !in old(entryStates) ==> entries == old(entries) && entryStates == old(entryStates)
      ensures path in old(entryStates) && selectedStackFrameId.Some? ==>
        (entries, entryStates) ==
        Build(Flip(old(entryStates), path, !old(entryStates)[path].isExpanded), scopesOf(selectedStackFrameId.value), variablesOf)
      ensures path in old(entryStates) && selectedStackFrameId == None ==>
        entries == old(entries) && entryStates == Flip(old(entryStates), path, !old(entryStates)[path].isExpanded)
      ensures selectedStackFrameId == old(selectedStackFrameId)
      ensures selection == old(selection) && editedPath == old(editedPath)
    {
      if path !in entryStates {
        return;
      }
      entryStates := Flip(entryStates, path, !entryStates[path].isExpanded);
      BuildEntries(scopesOf, variablesOf);
    }

    /** `expand_selected_entry` and `collapse_selected_entry`: set the selected path's expansion, when it has a state. */
    method SetSelectedExpanded(expanded: bool, scopesOf: nat -> seq<Scope>, variablesOf: nat -> seq<Variable>)
      modifies this
      ensures selection == None || selection.value !in old(entryStates) ==>
        entries == old(entries) && entryStates == old(entryStates)
      ensures selection.Some? && selection.value in old(entryStates) && selectedStackFrameId.Some? ==>
        (entries, entryStates) ==
        Build(Flip(old(entryStates), selection.value, expanded), scopesOf(selectedStackFrameId.value), variablesOf)
      ensures selection.Some? && selection.value in old(entryStates) && selectedStackFrameId == None ==>
        entries == old(entries) && entryStates == Flip(old(entryStates), selection.value, expanded)
      ensures selectedStackFrameId == old(selectedStackFrameId)
      ensures selection == old(selection) && editedPath == old(editedPath)
    {
      if selection == None || selection.value !in entryStates {
        return;
      }
      entryStates := Flip(entryStates, selection.value, expanded);
      BuildEntries(scopesOf, variablesOf);
    }

    /** A Stopped session event forgets every entry state before the rebuild. */
    method OnStopped(scopesOf: nat -> seq<Scope>, variablesOf: nat -> seq<Variable>)
      modifies this
      ensures selectedStackFrameId.Some? ==>
        (entries, entryStates) == Build(map[], scopesOf(selectedStackFrameId.value), variablesOf)
      ensures selectedStackFrameId == None ==> entries == old(entries) && entryStates == map[]
      ensures selectedStackFrameId == old(selectedStackFrameId)
      ensures selection == old(selection) && editedPath == old(editedPath)
    {
      entryStates := map[];
      BuildEntries(scopesOf, variablesOf);
    }

    /** `SelectedStackFrameChanged`: the frame becomes the selected one and the list is rebuilt for it. */
    method OnSelectedStackFrameChanged(stackFrameId: nat, scopesOf: nat -> seq<Scope>, variablesOf: nat -> seq<Variable>)
      modifies this
      ensures selectedStackFrameId == Some(stackFrameId)
      ensures (entries, entryStates) == Build(old(entryStates), scopesOf(stackFrameId), variablesOf)
      ensures selection == old(selection) && editedPath == old(editedPath)
    {
      selectedStackFrameId := Some(stackFrameId);
      BuildEntries(scopesOf, variablesOf);
    }

    /** `select_first`: ends any edit and selects the first entry, if there is one. */
    method SelectFirst()
      modifies this
      ensures editedPath == None
      ensures entries != [] ==> selection == Some(entries[0].path)
      ensures entries == [] ==> selection == old(selection)
      ensures entries == old(entries) && entryStates == old(entryStates) && selectedStackFrameId == old(selectedStackFrameId)
    {
      editedPath := None;
      if entries != [] {
        selection := Some(entries[0].path);
      }
    }

    /** `select_last`: ends any edit and selects the last entry, if there is one. */
    method SelectLast()
      modifies this
      ensures editedPath == None
      ensures entries != [] ==> selection == Some(entries[|entries| - 1].path)
      ensures entries == [] ==> selection == old(selection)
      ensures entries == old(entries) && entryStates == old(entryStates) && selectedStackFrameId == old(selectedStackFrameId)
    {
      editedPath := None;
      if entries != [] {
        selection := Some(entries[|entries| - 1].path);
      }
    }

    /** The first index whose entry has the path, if any. */
    function IndexOf(p: EntryPath): (r: Option<nat>)
      reads this
      ensures r.Some? ==> r.value < |entries| && entries[r.value].path == p
      ensures r.Some? ==> forall k | 0 <= k < r.value :: entries[k].path != p
      ensures r == None ==> forall k | 0 <= k < |entries| :: entries[k].path != p
    {
      FirstWithPath(entries, p)
    }

    /**
     * `select_prev`: the entry before the selected one, staying on the
     * first; no selection selects the first entry; a selection that is not
     * listed stays as it is.
     */
    method SelectPrev()
      modifies this
      ensures editedPath == None
      ensures old(selection) == None ==> (entries != [] ==> selection == Some(entries[0].path)) && (entries == [] ==> selection == None)
      ensures old(selection).Some? && IndexOf(old(selection).value) == None ==> selection == old(selection)
      ensures old(selection).Some? && IndexOf(old(selection).value).Some? ==>
        var ix := IndexOf(old(selection).value).value;
        selection == Some(entries[if ix == 0 then 0 else ix - 1].path)
      ensures entries == old(entries) && entryStates == old(entryStates) && selectedStackFrameId == old(selectedStackFrameId)
    {
      editedPath := None;
      if selection.Some? {
        var found := IndexOf(selection.value);
        if found.Some? {
          var ix := if found.value == 0 then 0 else found.value - 1;
          selection := Some(entries[ix].path);
        }
      } else {
        SelectFirst();
      }
    }

    /**
     * `select_next`: the entry after the selected one, going round to the
     * first after the last; no selection selects the first entry; a
     * selection that is not listed stays as it is.
     */
    method SelectNext()
      modifies this
      ensures editedPath == None
      ensures old(selection) == None ==> (entries != [] ==> selection == Some(entries[0].path)) && (entries == [] ==> selection == None)
      ensures old(selection).Some? && IndexOf(old(selection).value) == None ==> selection == old(selection)
      ensures old(selection).Some? && IndexOf(old(selection).value).Some? ==>
        var ix := IndexOf(old(selection).value).value;
        selection == Some(entries[if ix + 1 < |entries| then ix + 1 else 0].path)
      ensures entries == old(entries) && entryStates == old(entryStates) && selectedStackFrameId == old(selectedStackFrameId)
    {
      editedPath := None;
      if selection.Some? {
        var found := IndexOf(selection.value);
        if found.Some? {
          if found.value + 1 < |entries| {
            selection := Some(entries[found.value + 1].path);
          } else {
            SelectFirst();
          }
        }
      } else {
        SelectFirst();
      }
    }

    /**
     * The context menu's "Set value", or a double click on a variable's
     * value: an editor holding the value is opened on the variable's path.
     * A scope's context menu is refused and leaves the edit as it was.
     */
    method EditVariable(e: ListEntry)
      modifies this
      ensures e.dapKind.VariableKind? ==> editedPath == Some((e.path, e.dapKind.variable.value))
      ensures !e.dapKind.VariableKind? ==> editedPath == old(editedPath)
      ensures entries == old(entries) && entryStates == old(entryStates)
      ensures selection == old(selection) && selectedStackFrameId == old(selectedStackFrameId)
    {
      if !e.dapKind.VariableKind? {
        return;
      }
      editedPath := Some((e.path, e.dapKind.variable.value));
    }

    /**
     * `confirm_variable_edit`: the edit ends; a variable's edit becomes a
     * set-variable request for its parent reference, its name and the
     * editor's text; a scope's edit sends nothing.
     */
    method ConfirmVariableEdit() returns (request: Option<(nat, string, string)>)
      requires editedPath.Some? ==> editedPath.value.0.indices != []
      modifies this
      ensures editedPath == None
      ensures old(editedPath) == None ==> request == None
      ensures old(editedPath).Some? ==>
        var (path, text) := old(editedPath).value;
        (path.leafName == None ==> request == None) &&
        (path.leafName.Some? ==> request == Some((ParentReferenceId(path), path.leafName.value, text)))
      ensures entries == old(entries) && entryStates == old(entryStates)
      ensures selection == old(selection) && selectedStackFrameId == old(selectedStackFrameId)
    {
      var edited := editedPath;
      editedPath := None;
      if edited == None {
        return None;
      }
      var (path, text) := edited.value;
      var reference := ParentReferenceId(path);
      if path.leafName == None {
        return None;
      }
      return Some((reference, path.leafName.value, text));
    }

    /**
     * `completion_variables`: the listed variables, in order: the variable
     * of the entry at `i` is at the position given by the number of
     * variable entries before it.
     */
    function CompletionVariables(): (vs: seq<Variable>)
      reads this
      ensures |vs| <= |entries|
      ensures forall v :: v in vs <==> exists i | 0 <= i < |entries| :: entries[i].dapKind == VariableKind(v)
      ensures forall i | 0 <= i < |entries| && entries[i].dapKind.VariableKind? ::
                |VariablesOf(entries[..i])| < |vs| && vs[|VariablesOf(entries[..i])|] == entries[i].dapKind.variable
    {
      VariablesOfPositions(entries);
      VariablesOf(entries)
    }
  }

  function FirstWithPath(es: seq<ListEntry>, p: EntryPath): (r: Option<nat>)
    ensures r.Some? ==> r.value < |es| && es[r.value].path == p
    ensures r.Some? ==> forall k | 0 <= k < r.value :: es[k].path != p
    ensures r == None ==> forall k | 0 <= k < |es| :: es[k].path != p
  {
    if es == [] then None
    else if es[0].path == p then Some(0)
    else match FirstWithPath(es[1..], p)
      case None => None
      case Some(k) => Some(k + 1)
  }

  function VariablesOf(es: seq<ListEntry>): (vs: seq<Variable>)
    ensures |vs| <= |es|
    ensures forall v :: v in vs <==> exists i | 0 <= i < |es| :: es[i].dapKind == VariableKind(v)
  {
    if es == [] then []
    else
      var rest := VariablesOf(es[1..]);
      assert forall i | 1 <= i < |es| :: es[i] == es[1..][i - 1];
      assert forall v :: (exists i | 0 <= i < |es[1..]| :: es[1..][i].dapKind == VariableKind(v)) ==> exists i | 0 <= i < |es| :: es[i].dapKind == VariableKind(v);
      if es[0].dapKind.VariableKind? then [es[0].dapKind.variable] + rest else rest
  }

  /** Taking the variables keeps the entries' order: it distributes over concatenation. */
  lemma {:induction false} VariablesOfConcat(a: seq<ListEntry>, b: seq<ListEntry>)
    ensures VariablesOf(a + b) == VariablesOf(a) + VariablesOf(b)
  {
    if a == [] {
      assert a + b == b;
    } else {
      assert (a + b)[1..] == a[1..] + b;
      VariablesOfConcat(a[1..], b);
    }
  }

  /**
   * Every variable entry, duplicates included, gives its variable at the
   * position counting the variable entries before it.
   */
  lemma VariablesOfPositions(es: seq<ListEntry>)
    ensures forall i | 0 <= i < |es| && es[i].dapKind.VariableKind? ::
              |VariablesOf(es[..i])| < |VariablesOf(es)| && VariablesOf(es)[|VariablesOf(es[..i])|] == es[i].dapKind.variable
  {
    forall i | 0 <= i < |es| && es[i].dapKind.VariableKind?
      ensures |VariablesOf(es[..i])| < |VariablesOf(es)| && VariablesOf(es)[|VariablesOf(es[..i])|] == es[i].dapKind.variable
    {
      assert es == es[..i] + ([es[i]] + es[i + 1..]);
      VariablesOfConcat(es[..i], [es[i]] + es[i + 1..]);
      assert ([es[i]] + es[i + 1..])[1..] == es[i + 1..];
    }
  }

  function Reverse<T>(s: seq<T>): (r: seq<T>)
    ensures |r| == |s|
  {
    if s == [] then [] else Reverse(s[1..]) + [s[0]]
  }

  lemma {:induction false} ReversePush<T>(s: seq<T>, x: T)
    ensures Reverse(s + [x]) == [x] + Reverse(s)
  {
    ReverseConcat(s, [x]);
    assert Reverse([x]) == Reverse([x][1..]) + [x];
  }

  lemma {:induction false} ReversePop<T>(s: seq<T>)
    requires s != []
    ensures Reverse(s) == [s[|s| - 1]] + Reverse(s[..|s| - 1])
  {
    assert s == s[..|s| - 1] + [s[|s| - 1]];
    ReversePush(s[..|s| - 1], s[|s| - 1]);
  }

  lemma {:induction false} ReverseConcat<T>(a: seq<T>, b: seq<T>)
    ensures Reverse(a + b) == Reverse(b) + Reverse(a)
  {
    if a == [] {
      assert a + b == b;
    } else {
      assert (a + b)[0] == a[0] && (a + b)[1..] == a[1..] + b;
      ReverseConcat(a[1..], b);
    }
  }

  lemma {:induction false} ReverseReverse<T>(s: seq<T>)
    ensures Reverse(Reverse(s)) == s
  {
    if s != [] {
      ReverseConcat(Reverse(s[1..]), [s[0]]);
      ReverseReverse(s[1..]);
      assert Reverse([s[0]]) == Reverse([s[0]][1..]) + [s[0]];
      assert s == [s[0]] + s[1..];
    }
  }
}
