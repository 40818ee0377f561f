/**
 * The earlier variable list of the debugger panel: the rows shown for the
 * current stack frame of a thread, which scopes and variables are open
 * (kept as a sorted list of entry ids that is searched by bisection), and
 * the inline editor that sets a variable's value.
 */
module VariableList {
  import opened Wrappers
  import opened DapTypes

  // ---------------------------------------------------------------------
  // Entry ids: "scope-<reference>" and "variable-<depth>-<reference>-<name>"
  // ---------------------------------------------------------------------

  predicate IsDigit(c: char) { '0' <= c <= '9' }

  predicate AllDigits(s: string) { forall i | 0 <= i < |s| :: IsDigit(s[i]) }

  function DigitChar(d: nat): (c: char)
    requires d < 10
    ensures IsDigit(c) && c as int - '0' as int == d
  {
    ('0' as int + d) as char
  }

  /** The decimal text `format!("{}")` gives a number. */
  function DecimalText(n: nat): (s: string)
    ensures s != [] && AllDigits(s)
  {
    if n < 10 then [DigitChar(n)] else DecimalText(n / 10) + [DigitChar(n % 10)]
  }

  /** The number a run of decimal digits denotes. */
  function DecimalValue(s: string): nat
  {
    if s == [] then 0
    else DecimalValue(s[..|s| - 1]) * 10 + (if IsDigit(s[|s| - 1]) then s[|s| - 1] as int - '0' as int else 0)
  }

  lemma {:induction false} DecimalRoundTrip(n: nat)
    ensures DecimalValue(DecimalText(n)) == n
  {
    if n >= 10 {
      var s := DecimalText(n);
      assert s[..|s| - 1] == DecimalText(n / 10);
      DecimalRoundTrip(n / 10);
    }
  }

  function ScopeEntryId(scope: Scope): string
  {
    "scope-" + DecimalText(scope.variablesReference)
  }

  function VariableEntryId(variable: Variable, scope: Scope, depth: nat): string
  {
    "variable-" + DecimalText(depth) + "-" + DecimalText(scope.variablesReference) + "-" + variable.name
  }

  /** Reads the reference back out of a scope id. */
  function ParseScopeEntryId(s: string): (r: Option<nat>)
    ensures r.Some? ==> |s| > 6 && s[..6] == "scope-"
  {
    if |s| > 6 && s[..6] == "scope-" && AllDigits(s[6..]) then Some(DecimalValue(s[6..])) else None
  }

  /** The text before the first '-' and the text after it. */
  function SplitAtDash(s: string): (r: Option<(string, string)>)
    ensures r.Some? ==> r.value.0 + "-" + r.value.1 == s
  {
    if s == [] then None
    else if s[0] == '-' then Some(([], s[1..]))
    else match SplitAtDash(s[1..])
      case None => None
      case Some(parts) => Some(([s[0]] + parts.0, parts.1))
  }

  lemma {:induction false} SplitAtDashDigits(ds: string, rest: string)
    requires AllDigits(ds)
    ensures SplitAtDash(ds + "-" + rest) == Some((ds, rest))
  {
    if ds != [] {
      assert (ds + "-" + rest)[1..] == ds[1..] + "-" + rest;
      SplitAtDashDigits(ds[1..], rest);
      assert [ds[0]] + ds[1..] == ds;
    } else {
      assert ds + "-" + rest == ['-'] + rest;
    }
  }

  /** Reads depth, scope reference and name back out of a variable id. */
  function ParseVariableEntryId(s: string): (r: Option<(nat, nat, string)>)
    ensures r.Some? ==> |s| >= 9 && s[..9] == "variable-"
  {
    if |s| >= 9 && s[..9] == "variable-" then
      match SplitAtDash(s[9..])
      case None => None
      case Some(first) =>
        match SplitAtDash(first.1)
        case None => None
        case Some(second) => Some((DecimalValue(first.0), DecimalValue(second.0), second.1))
    else None
  }

  lemma ScopeEntryIdRoundTrip(scope: Scope)
    ensures ParseScopeEntryId(ScopeEntryId(scope)) == Some(scope.variablesReference)
  {
    var s := ScopeEntryId(scope);
    assert s[6..] == DecimalText(scope.variablesReference);
    DecimalRoundTrip(scope.variablesReference);
  }

  lemma VariableEntryIdRoundTrip(variable: Variable, scope: Scope, depth: nat)
    ensures ParseVariableEntryId(VariableEntryId(variable, scope, depth)) ==
      Some((depth, scope.variablesReference, variable.name))
  {
    var d := DecimalText(depth);
    var v := DecimalText(scope.variablesReference);
    var s := VariableEntryId(variable, scope, depth);
    assert s[9..] == d + "-" + (v + "-" + variable.name);
    SplitAtDashDigits(d, v + "-" + variable.name);
    SplitAtDashDigits(v, variable.name);
    DecimalRoundTrip(depth);
    DecimalRoundTrip(scope.variablesReference);
  }

  /**
   * Two scopes share an open state exactly when their references agree, two
   * variables exactly when depth, scope reference and name agree, and a
   * scope id is never a variable id.
   */
  lemma EntryIdsDistinct(a: Scope, b: Scope, x: Variable, y: Variable, da: nat, db: nat)
    ensures ScopeEntryId(a) == ScopeEntryId(b) <==> a.variablesReference == b.variablesReference
    ensures VariableEntryId(x, a, da) == VariableEntryId(y, b, db) <==>
      da == db && a.variablesReference == b.variablesReference && x.name == y.name
    ensures ScopeEntryId(a) != VariableEntryId(x, b, db)
  {
    ScopeEntryIdRoundTrip(a);
    ScopeEntryIdRoundTrip(b);
    VariableEntryIdRoundTrip(x, a, da);
    VariableEntryIdRoundTrip(y, b, db);
    assert ScopeEntryId(a)[0] == 's' && VariableEntryId(x, b, db)[0] == 'v';
  }

  // ---------------------------------------------------------------------
  // The open entries: a strictly ascending list of ids
  // ---------------------------------------------------------------------

  /** The byte order of UTF-8 strings, which is the order of their characters. */
  predicate Less(a: string, b: string)
  {
    if a == [] then b != []
    else if b == [] then false
    else if a[0] != b[0] then a[0] < b[0]
    else Less(a[1..], b[1..])
  }

  lemma {:induction false} LessIrreflexive(a: string)
    ensures !Less(a, a)
  {
    if a != [] {
      LessIrreflexive(a[1..]);
    }
  }

  lemma {:induction false} LessTransitive(a: string, b: string, c: string)
    requires Less(a, b) && Less(b, c)
    ensures Less(a, c)
  {
    if a != [] && a[0] == b[0] && b[0] == c[0] {
      LessTransitive(a[1..], b[1..], c[1..]);
    }
  }

  lemma {:induction false} LessTotal(a: string, b: string)
    ensures a == b || Less(a, b) || Less(b, a)
  {
    if a != [] && b != [] && a[0] == b[0] {
      LessTotal(a[1..], b[1..]);
      if a[1..] == b[1..] {
        assert a == [a[0]] + a[1..] && b == [b[0]] + b[1..];
      }
    }
  }

  lemma LessAsymmetric(a: string, b: string)
    requires Less(a, b)
    ensures !Less(b, a) && a != b
  {
    if Less(b, a) {
      LessTransitive(a, b, a);
    }
    LessIrreflexive(a);
  }

  lemma {:induction false} LessCommonPrefix(p: string, a: string, b: string)
    ensures Less(p + a, p + b) <==> Less(a, b)
  {
    if p != [] {
      assert (p + a)[0] == p[0] && (p + b)[0] == p[0];
      assert (p + a)[1..] == p[1..] + a && (p + b)[1..] == p[1..] + b;
      LessCommonPrefix(p[1..], a, b);
    } else {
      assert p + a == a && p + b == b;
    }
  }

  /** Strictly ascending, hence also free of duplicates. */
  predicate Sorted(v: seq<string>)
  {
    forall i, j | 0 <= i < j < |v| :: Less(v[i], v[j])
  }

  /** The number of leading ids below `x`: where bisection ends. */
  function LowerBound(v: seq<string>, x: string): (i: nat)
    ensures i <= |v|
  {
    if v == [] then 0 else if Less(v[0], x) then 1 + LowerBound(v[1..], x) else 0
  }

  /** Every id before the lower bound is below `x`, and the one at it is not. */
  lemma {:induction false} LowerBoundSplits(v: seq<string>, x: string)
    ensures forall k | 0 <= k < LowerBound(v, x) :: Less(v[k], x)
    ensures LowerBound(v, x) < |v| ==> !Less(v[LowerBound(v, x)], x)
  {
    if v != [] && Less(v[0], x) {
      LowerBoundSplits(v[1..], x);
    }
  }

  lemma {:induction false} LowerBoundIs(v: seq<string>, x: string, i: nat)
    requires i <= |v| && forall k | 0 <= k < i :: Less(v[k], x)
    requires i < |v| ==> !Less(v[i], x)
    ensures LowerBound(v, x) == i
  {
    if i > 0 {
      LowerBoundIs(v[1..], x, i - 1);
    }
  }

  /** In an ascending list every id from the lower bound on is above `x` or is `x`. */
  lemma LowerBoundAbove(v: seq<string>, x: string)
    requires Sorted(v)
    ensures forall k | LowerBound(v, x) <= k < |v| :: !Less(v[k], x)
  {
    var i := LowerBound(v, x);
    LowerBoundSplits(v, x);
    forall k | i < k < |v|
      ensures !Less(v[k], x)
    {
      LessTotal(v[i], x);
      if Less(x, v[i]) {
        LessTransitive(x, v[i], v[k]);
      }
      LessAsymmetric(x, v[k]);
    }
  }

  /** `Vec::binary_search`: `Ok` with the index of the id, or `Err` with where it belongs. */
  datatype SearchOutcome = Found(index: nat) | NotFound(index: nat)

  function BinarySearch(v: seq<string>, x: string): (r: SearchOutcome)
    ensures r.index <= |v|
    ensures r.Found? ==> r.index < |v| && v[r.index] == x
  {
    var i := LowerBound(v, x);
    if i < |v| && v[i] == x then Found(i) else NotFound(i)
  }

  /** On an ascending list the search finds exactly the ids that are there, and otherwise names the slot between smaller and larger ones. */
  lemma BinarySearchCorrect(v: seq<string>, x: string)
    requires Sorted(v)
    ensures BinarySearch(v, x).Found? <==> x in v
    ensures BinarySearch(v, x).NotFound? ==>
      var i := BinarySearch(v, x).index;
      (forall k | 0 <= k < i :: Less(v[k], x)) && (forall k | i <= k < |v| :: Less(x, v[k]))
  {
    var i := LowerBound(v, x);
    LowerBoundSplits(v, x);
    LowerBoundAbove(v, x);
    LessIrreflexive(x);
    assert forall k | 0 <= k < |v| && v[k] == x :: k == i;
    forall k | i <= k < |v| && x !in v
      ensures Less(x, v[k])
    {
      LessTotal(v[k], x);
    }
  }

  lemma InsertSorted(v: seq<string>, i: nat, x: string)
    requires Sorted(v) && i <= |v|
    requires forall k | 0 <= k < i :: Less(v[k], x)
    requires forall k | i <= k < |v| :: Less(x, v[k])
    ensures Sorted(v[..i] + [x] + v[i..])
  {
    var w := v[..i] + [x] + v[i..];
    forall p, q | 0 <= p < q < |w|
      ensures Less(w[p], w[q])
    {
      if q < i {
        assert w[p] == v[p] && w[q] == v[q];
      } else if q == i {
        assert w[p] == v[p];
      } else if p == i {
        assert w[q] == v[q - 1];
      } else if p < i {
        assert w[p] == v[p] && w[q] == v[q - 1];
      } else {
        assert w[p] == v[p - 1] && w[q] == v[q - 1];
      }
    }
  }

  lemma RemoveSorted(v: seq<string>, i: nat)
    requires Sorted(v) && i < |v|
    ensures Sorted(v[..i] + v[i + 1..])
  {
    var w := v[..i] + v[i + 1..];
    forall p, q | 0 <= p < q < |w|
      ensures Less(w[p], w[q])
    {
      var p' := if p < i then p else p + 1;
      var q' := if q < i then q else q + 1;
      assert w[p] == v[p'] && w[q] == v[q'];
    }
  }

  /** `toggle_entry_collapsed` on the ids: removes a present id, inserts an absent one in its place. */
  function Toggle(v: seq<string>, x: string): seq<string>
  {
    match BinarySearch(v, x)
    case Found(i) => v[..i] + v[i + 1..]
    case NotFound(i) => v[..i] + [x] + v[i..]
  }

  lemma ToggleSorted(v: seq<string>, x: string)
    requires Sorted(v)
    ensures Sorted(Toggle(v, x))
  {
    BinarySearchCorrect(v, x);
    match BinarySearch(v, x)
    case Found(i) => RemoveSorted(v, i);
    case NotFound(i) => InsertSorted(v, i, x);
  }

  /** Toggling flips whether `x` is open and leaves every other id as it was. */
  lemma ToggleMembership(v: seq<string>, x: string)
    requires Sorted(v)
    ensures x in Toggle(v, x) <==> x !in v
    ensures forall y | y != x :: y in Toggle(v, x) <==> y in v
  {
    BinarySearchCorrect(v, x);
    match BinarySearch(v, x)
    case Found(i) =>
      assert v == v[..i] + [v[i]] + v[i + 1..];
      forall k | 0 <= k < |v| && k != i
        ensures v[k] != x
      {
        if k < i { LessAsymmetric(v[k], v[i]); } else { LessAsymmetric(v[i], v[k]); }
      }
    case NotFound(i) =>
      assert v == v[..i] + v[i..];
  }

  /** Toggling the same id twice restores the open entries. */
  lemma ToggleTwice(v: seq<string>, x: string)
    requires Sorted(v)
    ensures Toggle(Toggle(v, x), x) == v
  {
    BinarySearchCorrect(v, x);
    match BinarySearch(v, x)
    case Found(i) => ReinsertRemoved(v, x, i);
    case NotFound(i) => RemoveInserted(v, x, i);
  }

  lemma ReinsertRemoved(v: seq<string>, x: string, i: nat)
    requires Sorted(v) && BinarySearch(v, x) == Found(i)
    ensures Toggle(v[..i] + v[i + 1..], x) == v
  {
    var w := v[..i] + v[i + 1..];
    assert forall k | 0 <= k < i :: w[k] == v[k];
    if i < |w| {
      assert w[i] == v[i + 1];
      LessAsymmetric(v[i], v[i + 1]);
    }
    LowerBoundIs(w, x, i);
    assert w[..i] + [x] + w[i..] == v;
  }

  lemma RemoveInserted(v: seq<string>, x: string, i: nat)
    requires BinarySearch(v, x) == NotFound(i)
    ensures Toggle(v[..i] + [x] + v[i..], x) == v
  {
    var w := v[..i] + [x] + v[i..];
    assert forall k | 0 <= k < i :: w[k] == v[k];
    LowerBoundSplits(v, x);
    LessIrreflexive(x);
    LowerBoundIs(w, x, i);
    assert w[..i] + w[i + 1..] == v;
  }

  /** Opening the first scope: inserted in order when it is not open yet (the corrected form). */
  function OpenFirstScope(v: seq<string>, id: string): seq<string>
  {
    match BinarySearch(v, id)
    case Found(_) => v
    case NotFound(i) => v[..i] + [id] + v[i..]
  }

  lemma OpenFirstScopeOpens(v: seq<string>, id: string)
    requires Sorted(v)
    ensures Sorted(OpenFirstScope(v, id))
    ensures forall y :: y in OpenFirstScope(v, id) <==> y in v || y == id
  {
    BinarySearchCorrect(v, id);
    match BinarySearch(v, id)
    case Found(_) =>
    case NotFound(i) =>
      InsertSorted(v, i, id);
      assert v == v[..i] + v[i..];
  }

  /** Opening the first scope as `build_entries` writes it: appended at the end. */
  function OpenFirstScopeAsWritten(v: seq<string>, id: string): (r: seq<string>)
    ensures |r| == |v| + 1 && r[|v|] == id
  {
    v + [id]
  }

  /**
   * The append puts "scope-1" after an open "scope-5", so the list is no
   * longer ascending and bisection has no defined answer; and when the scope
   * is open already it is listed twice, so collapsing it once leaves it open.
   */
  lemma OpenFirstScopeAsWrittenBreaksOrder()
    ensures Sorted(["scope-5"]) && !Sorted(OpenFirstScopeAsWritten(["scope-5"], "scope-1"))
    ensures Sorted(["scope-1"]) && "scope-1" in Toggle(OpenFirstScopeAsWritten(["scope-1"], "scope-1"), "scope-1")
  {
    LessCommonPrefix("scope-", "1", "5");
    assert "scope-1" == "scope-" + "1" && "scope-5" == "scope-" + "5";
    LessAsymmetric("scope-1", "scope-5");
    var u := OpenFirstScopeAsWritten(["scope-5"], "scope-1");
    assert !Less(u[0], u[1]);
    var w := OpenFirstScopeAsWritten(["scope-1"], "scope-1");
    LessIrreflexive("scope-1");
    LowerBoundIs(w, "scope-1", 0);
    assert Toggle(w, "scope-1") == ["scope-1"];
  }

  // ---------------------------------------------------------------------
  // Rows
  // ---------------------------------------------------------------------

  datatype SetVariableState = SetVariableState(parentVariablesReference: nat, name: string, value: string)

  datatype ThreadEntry =
    | ScopeEntry(scope: Scope)
    | SetVariableEditor(depth: nat, state: SetVariableState)
    | VariableEntry(depth: nat, scope: Scope, variable: Variable, hasChildren: bool, parentVariablesReference: nat)

  /**
   * What the list reads of a thread: its current stack frame and, by stack
   * frame, each scope with its variables flattened with their depths.
   */
  datatype ThreadState = ThreadState(
    currentStackFrameId: nat,
    variables: map<nat, seq<(Scope, seq<(nat, Variable)>)>>)

  /** The request sent to set a variable (its format is always left unset). */
  datatype SetVariableRequest = SetVariableRequest(variablesReference: nat, name: string, value: string)

  /**
   * The editor row goes above a variable of the scope the edit was started
   * in whose name is the edited one; its depth is not checked, so a nested
   * variable of that name gets one too.
   */
  predicate EditsHere(state: Option<SetVariableState>, scope: Scope, variable: Variable)
  {
    state.Some? && state.value.parentVariablesReference == scope.variablesReference && state.value.name == variable.name
  }

  function VariableRows(scope: Scope, depth: nat, variable: Variable, state: Option<SetVariableState>): (r: seq<ThreadEntry>)
    ensures 1 <= |r| <= 2 && r[|r| - 1].VariableEntry? && r[|r| - 1].variable == variable && r[|r| - 1].depth == depth
  {
    (if EditsHere(state, scope, variable) then [SetVariableEditor(depth, state.value)] else [])
    + [VariableEntry(depth, scope, variable, variable.variablesReference > 0, scope.variablesReference)]
  }

  /**
   * The skip depth once a listed variable at `depth` has been seen: cleared
   * when the variable is no deeper than it, then set to the variable's depth
   * when the variable is collapsed and nothing shallower is being skipped.
   */
  function DepthCheckAfter(check: Option<nat>, depth: nat, closed: bool): Option<nat>
  {
    var reset := if check.Some? && check.value >= depth then None else check;
    if closed && (reset.None? || reset.value > depth) then Some(depth) else reset
  }

  /** For a listed variable nothing shallower is skipped, so a collapsed one always starts a skip at its own depth. */
  lemma DepthCheckOfListed(check: Option<nat>, depth: nat, closed: bool)
    requires check.None? || depth <= check.value
    ensures DepthCheckAfter(check, depth, closed) == if closed then Some(depth) else None
  {
  }

  /**
   * The rows of one open scope's variables. `check` is the depth of the
   * nearest collapsed variable whose subtree is being skipped.
   */
  function VarEntries(scope: Scope, vars: seq<(nat, Variable)>, open: seq<string>, state: Option<SetVariableState>, check: Option<nat>): seq<ThreadEntry>
    decreases |vars|
  {
    if vars == [] then []
    else
      var depth := vars[0].0;
      var variable := vars[0].1;
      if check.Some? && depth > check.value then VarEntries(scope, vars[1..], open, state, check)
      else
        var next := DepthCheckAfter(check, depth, BinarySearch(open, VariableEntryId(variable, scope, depth)).NotFound?);
        VariableRows(scope, depth, variable, state) + VarEntries(scope, vars[1..], open, state, next)
  }

  lemma Glue<T>(a: seq<T>, b: seq<T>, c: seq<T>)
    ensures a + (b + c) == (a + b) + c
  {
  }

  /** One step of the variables loop: either the variable is skipped, or its rows come first. */
  lemma VarEntriesStep(scope: Scope, vars: seq<(nat, Variable)>, j: nat, open: seq<string>, state: Option<SetVariableState>, check: Option<nat>)
    requires j < |vars|
    ensures check.Some? && vars[j].0 > check.value ==>
      VarEntries(scope, vars[j..], open, state, check) == VarEntries(scope, vars[j + 1..], open, state, check)
    ensures !(check.Some? && vars[j].0 > check.value) ==>
      VarEntries(scope, vars[j..], open, state, check) ==
        VariableRows(scope, vars[j].0, vars[j].1, state) + VarEntries(scope, vars[j + 1..], open, state,
          DepthCheckAfter(check, vars[j].0, BinarySearch(open, VariableEntryId(vars[j].1, scope, vars[j].0)).NotFound?))
  {
    assert vars[j..][0] == vars[j] && vars[j..][1..] == vars[j + 1..];
  }

  /** The rows of one scope: none without variables, only its own row when it is closed. */
  function ScopeRows(sv: (Scope, seq<(nat, Variable)>), open: seq<string>, state: Option<SetVariableState>): seq<ThreadEntry>
  {
    if sv.1 == [] then []
    else [ScopeEntry(sv.0)] + (if BinarySearch(open, ScopeEntryId(sv.0)).Found? then VarEntries(sv.0, sv.1, open, state, None) else [])
  }

  /** The rows of a stack frame: each scope's rows in turn. */
  function Entries(svs: seq<(Scope, seq<(nat, Variable)>)>, open: seq<string>, state: Option<SetVariableState>): seq<ThreadEntry>
  {
    if svs == [] then [] else Entries(svs[..|svs| - 1], open, state) + ScopeRows(svs[|svs| - 1], open, state)
  }

  /** One step of the scopes loop. */
  lemma EntriesStep(svs: seq<(Scope, seq<(nat, Variable)>)>, i: nat, open: seq<string>, state: Option<SetVariableState>)
    requires i < |svs|
    ensures Entries(svs[..i + 1], open, state) == Entries(svs[..i], open, state) + ScopeRows(svs[i], open, state)
    ensures FirstNonEmpty(svs[i..]) == if svs[i].1 != [] then Some(svs[i].0) else FirstNonEmpty(svs[i + 1..])
  {
    assert svs[..i + 1][..i] == svs[..i];
    assert svs[i..][0] == svs[i] && svs[i..][1..] == svs[i + 1..];
  }

  /** The rows of a scope with variables: its own row, then its variables' rows when it is open. */
  lemma ScopeRowsOfNonEmpty(sv: (Scope, seq<(nat, Variable)>), open: seq<string>, state: Option<SetVariableState>)
    requires sv.1 != []
    ensures BinarySearch(open, ScopeEntryId(sv.0)).NotFound? ==> ScopeRows(sv, open, state) == [ScopeEntry(sv.0)]
    ensures BinarySearch(open, ScopeEntryId(sv.0)).Found? ==>
      ScopeRows(sv, open, state) == [ScopeEntry(sv.0)] + VarEntries(sv.0, sv.1, open, state, None)
  {
  }

  /** The scope the loop reaches first with variables is the one `open_first_scope` opens. */
  lemma OpenedAtFirst(svs: seq<(Scope, seq<(nat, Variable)>)>, i: nat, start: seq<string>, openFirstScope: bool)
    requires i < |svs| && svs[i].1 != [] && FirstNonEmpty(svs[i..]) == FirstNonEmpty(svs)
    requires FirstNonEmpty(svs[i..]) == Some(svs[i].0)
    ensures Opened(svs, start, openFirstScope) == if openFirstScope then OpenFirstScope(start, ScopeEntryId(svs[i].0)) else start
  {
  }

  lemma OpenedSorted(svs: seq<(Scope, seq<(nat, Variable)>)>, start: seq<string>, openFirstScope: bool)
    requires Sorted(start)
    ensures Sorted(Opened(svs, start, openFirstScope))
  {
    if openFirstScope && FirstNonEmpty(svs).Some? {
      OpenFirstScopeOpens(start, ScopeEntryId(FirstNonEmpty(svs).value));
    }
  }

  function FirstNonEmpty(svs: seq<(Scope, seq<(nat, Variable)>)>): Option<Scope>
  {
    if svs == [] then None else if svs[0].1 != [] then Some(svs[0].0) else FirstNonEmpty(svs[1..])
  }

  /** The open entries once `open_first_scope` has opened the first scope with variables. */
  function Opened(svs: seq<(Scope, seq<(nat, Variable)>)>, open: seq<string>, openFirstScope: bool): seq<string>
  {
    if openFirstScope && FirstNonEmpty(svs).Some? then OpenFirstScope(open, ScopeEntryId(FirstNonEmpty(svs).value)) else open
  }

  /** The stored rows after a rebuild: the current frame's rows replaced, or nothing when its variables are unknown. */
  function Rebuilt(stored: map<nat, seq<ThreadEntry>>, thread: ThreadState, open: seq<string>, state: Option<SetVariableState>): map<nat, seq<ThreadEntry>>
  {
    if thread.currentStackFrameId in thread.variables then
      stored[thread.currentStackFrameId := Entries(thread.variables[thread.currentStackFrameId], open, state)]
    else stored
  }

  // ---------------------------------------------------------------------
  // What the rows say
  // ---------------------------------------------------------------------

  function ScopesListed(es: seq<ThreadEntry>): seq<Scope>
  {
    if es == [] then [] else (if es[0].ScopeEntry? then [es[0].scope] else []) + ScopesListed(es[1..])
  }

  lemma {:induction false} ScopesListedConcat(a: seq<ThreadEntry>, b: seq<ThreadEntry>)
    ensures ScopesListed(a + b) == ScopesListed(a) + ScopesListed(b)
  {
    if a != [] {
      assert (a + b)[0] == a[0] && (a + b)[1..] == a[1..] + b;
      ScopesListedConcat(a[1..], b);
      var head := if a[0].ScopeEntry? then [a[0].scope] else [];
      assert ScopesListed(a + b) == head + (ScopesListed(a[1..]) + ScopesListed(b));
      assert ScopesListed(a) == head + ScopesListed(a[1..]);
    } else {
      assert a + b == b;
    }
  }

  lemma {:induction false} VarEntriesListNoScopes(scope: Scope, vars: seq<(nat, Variable)>, open: seq<string>, state: Option<SetVariableState>, check: Option<nat>)
    ensures ScopesListed(VarEntries(scope, vars, open, state, check)) == []
    decreases |vars|
  {
    if vars != [] {
      var depth := vars[0].0;
      if check.Some? && depth > check.value {
        VarEntriesListNoScopes(scope, vars[1..], open, state, check);
      } else {
        var next := DepthCheckAfter(check, depth, BinarySearch(open, VariableEntryId(vars[0].1, scope, depth)).NotFound?);
        var rows := VariableRows(scope, depth, vars[0].1, state);
        VarEntriesListNoScopes(scope, vars[1..], open, state, next);
        ScopesListedConcat(rows, VarEntries(scope, vars[1..], open, state, next));
        assert ScopesListed(rows) == [] by {
          if |rows| == 2 { assert rows[1..] == [rows[1]]; }
        }
      }
    }
  }

  function ScopesWithVariables(svs: seq<(Scope, seq<(nat, Variable)>)>): seq<Scope>
  {
    if svs == [] then []
    else ScopesWithVariables(svs[..|svs| - 1]) + (if svs[|svs| - 1].1 != [] then [svs[|svs| - 1].0] else [])
  }

  /** Every scope with variables gets one row, in order, open or not; a scope without variables gets none. */
  lemma {:induction false} EntriesListScopes(svs: seq<(Scope, seq<(nat, Variable)>)>, open: seq<string>, state: Option<SetVariableState>)
    ensures ScopesListed(Entries(svs, open, state)) == ScopesWithVariables(svs)
  {
    if svs != [] {
      var last := svs[|svs| - 1];
      var init := svs[..|svs| - 1];
      EntriesListScopes(init, open, state);
      ScopesListedConcat(Entries(init, open, state), ScopeRows(last, open, state));
      if last.1 != [] {
        var tail := if BinarySearch(open, ScopeEntryId(last.0)).Found? then VarEntries(last.0, last.1, open, state, None) else [];
        VarEntriesListNoScopes(last.0, last.1, open, state, None);
        ScopesListedConcat([ScopeEntry(last.0)], tail);
        assert ScopesListed([ScopeEntry(last.0)]) == [last.0];
      }
    }
  }

  /** Every row of a scope's variables belongs to that scope and names one of its variables. */
  ghost predicate RowsFrom(es: seq<ThreadEntry>, scope: Scope, vars: seq<(nat, Variable)>)
  {
    forall k | 0 <= k < |es| :: RowFrom(es[k], scope, vars)
  }

  ghost predicate RowFrom(e: ThreadEntry, scope: Scope, vars: seq<(nat, Variable)>)
  {
    match e
    case ScopeEntry(_) => false
    case VariableEntry(depth, s, variable, hasChildren, parent) =>
      s == scope && parent == scope.variablesReference && (depth, variable) in vars
      && hasChildren == (variable.variablesReference > 0)
    case SetVariableEditor(depth, state) =>
      exists v :: (depth, v) in vars && EditsHere(Some(state), scope, v)
  }

  lemma {:induction false} VarEntriesFrom(scope: Scope, vars: seq<(nat, Variable)>, open: seq<string>, state: Option<SetVariableState>, check: Option<nat>)
    ensures RowsFrom(VarEntries(scope, vars, open, state, check), scope, vars)
    decreases |vars|
  {
    if vars != [] {
      var depth := vars[0].0;
      var variable := vars[0].1;
      assert vars[0] in vars;
      assert forall e | e in vars[1..] :: e in vars;
      if check.Some? && depth > check.value {
        VarEntriesFrom(scope, vars[1..], open, state, check);
      } else {
        var next := DepthCheckAfter(check, depth, BinarySearch(open, VariableEntryId(variable, scope, depth)).NotFound?);
        var rows := VariableRows(scope, depth, variable, state);
        var rest := VarEntries(scope, vars[1..], open, state, next);
        VarEntriesFrom(scope, vars[1..], open, state, next);
        assert RowsFrom(rows, scope, vars);
        assert RowsFrom(rows + rest, scope, vars) by {
          forall k | |rows| <= k < |rows + rest|
            ensures (rows + rest)[k] == rest[k - |rows|]
          {
          }
        }
      }
    }
  }

  /** Each editor row sits right above the row of the variable being edited. */
  predicate EditorsPrecede(es: seq<ThreadEntry>)
  {
    forall k | 0 <= k < |es| && es[k].SetVariableEditor? ::
      k + 1 < |es| && es[k + 1].VariableEntry? && es[k + 1].depth == es[k].depth
      && es[k + 1].variable.name == es[k].state.name
      && es[k + 1].parentVariablesReference == es[k].state.parentVariablesReference
  }

  lemma EditorsPrecedeConcat(a: seq<ThreadEntry>, b: seq<ThreadEntry>)
    requires EditorsPrecede(a) && EditorsPrecede(b)
    ensures EditorsPrecede(a + b)
  {
    forall k | |a| <= k < |a + b|
      ensures (a + b)[k] == b[k - |a|]
    {
    }
  }

  lemma {:induction false} VarEntriesEditorsPrecede(scope: Scope, vars: seq<(nat, Variable)>, open: seq<string>, state: Option<SetVariableState>, check: Option<nat>)
    ensures EditorsPrecede(VarEntries(scope, vars, open, state, check))
    decreases |vars|
  {
    if vars != [] {
      var depth := vars[0].0;
      if check.Some? && depth > check.value {
        VarEntriesEditorsPrecede(scope, vars[1..], open, state, check);
      } else {
        var next := DepthCheckAfter(check, depth, BinarySearch(open, VariableEntryId(vars[0].1, scope, depth)).NotFound?);
        VarEntriesEditorsPrecede(scope, vars[1..], open, state, next);
        EditorsPrecedeConcat(VariableRows(scope, depth, vars[0].1, state), VarEntries(scope, vars[1..], open, state, next));
      }
    }
  }

  lemma {:induction false} EntriesEditorsPrecede(svs: seq<(Scope, seq<(nat, Variable)>)>, open: seq<string>, state: Option<SetVariableState>)
    ensures EditorsPrecede(Entries(svs, open, state))
  {
    if svs != [] {
      var last := svs[|svs| - 1];
      EntriesEditorsPrecede(svs[..|svs| - 1], open, state);
      if last.1 != [] && BinarySearch(open, ScopeEntryId(last.0)).Found? {
        VarEntriesEditorsPrecede(last.0, last.1, open, state, None);
        EditorsPrecedeConcat([ScopeEntry(last.0)], VarEntries(last.0, last.1, open, state, None));
      }
      EditorsPrecedeConcat(Entries(svs[..|svs| - 1], open, state), ScopeRows(last, open, state));
    }
  }

  /**
   * Below a collapsed variable at depth `d` the variables deeper than `d`
   * are skipped: a run of them adds no row.
   */
  lemma {:induction false} SkipsDeeperRun(scope: Scope, vars: seq<(nat, Variable)>, open: seq<string>, state: Option<SetVariableState>, d: nat, n: nat)
    requires n <= |vars| && forall k | 0 <= k < n :: vars[k].0 > d
    ensures VarEntries(scope, vars, open, state, Some(d)) == VarEntries(scope, vars[n..], open, state, Some(d))
  {
    if n > 0 {
      SkipsDeeperRun(scope, vars[1..], open, state, d, n - 1);
      assert vars[1..][n - 1..] == vars[n..];
    }
  }

  /** A variable no deeper than the skipped subtree's root (or with nothing skipped) is listed again. */
  lemma ListsShallower(scope: Scope, vars: seq<(nat, Variable)>, open: seq<string>, state: Option<SetVariableState>, check: Option<nat>)
    requires vars != [] && (check.None? || vars[0].0 <= check.value)
    ensures VarEntries(scope, vars, open, state, check)[..|VariableRows(scope, vars[0].0, vars[0].1, state)|]
      == VariableRows(scope, vars[0].0, vars[0].1, state)
  {
  }

  /** A collapsed variable starts skipping at its own depth; an expanded one skips nothing. */
  lemma CollapsedStartsSkip(scope: Scope, vars: seq<(nat, Variable)>, open: seq<string>, state: Option<SetVariableState>, check: Option<nat>)
    requires vars != [] && (check.None? || vars[0].0 <= check.value)
    ensures var rows := VariableRows(scope, vars[0].0, vars[0].1, state);
      BinarySearch(open, VariableEntryId(vars[0].1, scope, vars[0].0)).NotFound? ==>
        VarEntries(scope, vars, open, state, check) == rows + VarEntries(scope, vars[1..], open, state, Some(vars[0].0))
    ensures var rows := VariableRows(scope, vars[0].0, vars[0].1, state);
      BinarySearch(open, VariableEntryId(vars[0].1, scope, vars[0].0)).Found? ==>
        VarEntries(scope, vars, open, state, check) == rows + VarEntries(scope, vars[1..], open, state, None)
  {
  }

  // ---------------------------------------------------------------------
  // The list
  // ---------------------------------------------------------------------

  /** The variable rows of an open scope: the inner loop of `build_entries`. */
  method OpenScopeRows(scope: Scope, variables: seq<(nat, Variable)>, open: seq<string>, editing: Option<SetVariableState>)
    returns (entries: seq<ThreadEntry>)
    ensures entries == VarEntries(scope, variables, open, editing, None)
  {
    ghost var target := VarEntries(scope, variables, open, editing, None);
    entries := [];
    var depthCheck: Option<nat> := None;
    for j := 0 to |variables|
      invariant entries + VarEntries(scope, variables[j..], open, editing, depthCheck) == target
    {
      var depth := variables[j].0;
      var variable := variables[j].1;
      VarEntriesStep(scope, variables, j, open, editing, depthCheck);
      if depthCheck.Some? && depth > depthCheck.value {
        continue;
      }
      var hasChildren := variable.variablesReference > 0;
      var closed := BinarySearch(open, VariableEntryId(variable, scope, depth)).NotFound?;
      ghost var rest := VarEntries(scope, variables[j + 1..], open, editing, DepthCheckAfter(depthCheck, depth, closed));
      depthCheck := DepthCheckAfter(depthCheck, depth, closed);
      var rows: seq<ThreadEntry> := [];
      if editing.Some? {
        var state := editing.value;
        if state.parentVariablesReference == scope.variablesReference && state.name == variable.name {
          rows := [SetVariableEditor(depth, state)];
        }
      }
      rows := rows + [VariableEntry(depth, scope, variable, hasChildren, scope.variablesReference)];
      assert rows == VariableRows(scope, depth, variable, editing);
      Glue(entries, rows, rest);
      entries := entries + rows;
    }
    assert variables[|variables|..] == [];
  }

  /** What the scopes loop of `build_entries` keeps true after `i` scopes. */
  ghost predicate FrameInvariant(svs: seq<(Scope, seq<(nat, Variable)>)>, i: nat, start: seq<string>, openFirstScope: bool,
                                 editing: Option<SetVariableState>, entries: seq<ThreadEntry>, open: seq<string>)
    requires i <= |svs|
  {
    && (entries == [] ==> open == start && FirstNonEmpty(svs[i..]) == FirstNonEmpty(svs))
    && (entries != [] ==> open == Opened(svs, start, openFirstScope))
    && entries == Entries(svs[..i], Opened(svs, start, openFirstScope), editing)
  }

  /** The open entries after the loop has looked at one more scope. */
  function OpenAfter(sv: (Scope, seq<(nat, Variable)>), openFirstScope: bool, entries: seq<ThreadEntry>, open: seq<string>): seq<string>
  {
    if sv.1 != [] && openFirstScope && entries == [] then OpenFirstScope(open, ScopeEntryId(sv.0)) else open
  }

  lemma FrameStep(svs: seq<(Scope, seq<(nat, Variable)>)>, i: nat, start: seq<string>, openFirstScope: bool,
                  editing: Option<SetVariableState>, entries: seq<ThreadEntry>, open: seq<string>)
    requires i < |svs| && FrameInvariant(svs, i, start, openFirstScope, editing, entries, open)
    ensures svs[i].1 != [] ==> OpenAfter(svs[i], openFirstScope, entries, open) == Opened(svs, start, openFirstScope)
    ensures FrameInvariant(svs, i + 1, start, openFirstScope, editing,
      entries + ScopeRows(svs[i], Opened(svs, start, openFirstScope), editing), OpenAfter(svs[i], openFirstScope, entries, open))
  {
    EntriesStep(svs, i, Opened(svs, start, openFirstScope), editing);
    if svs[i].1 != [] && entries == [] {
      OpenedAtFirst(svs, i, start, openFirstScope);
    }
  }

  /**
   * The rows of a stack frame: the scopes loop of `build_entries`, over its
   * scopes and their variables, with the open entries it starts from; also
   * the open entries once the first scope has been opened.
   */
  method FrameRows(scopesAndVars: seq<(Scope, seq<(nat, Variable)>)>, start: seq<string>, editing: Option<SetVariableState>, openFirstScope: bool)
    returns (entries: seq<ThreadEntry>, open: seq<string>)
    requires Sorted(start)
    ensures open == Opened(scopesAndVars, start, openFirstScope) && Sorted(open)
    ensures entries == Entries(scopesAndVars, open, editing)
  {
    open := start;
    entries := [];
    for i := 0 to |scopesAndVars|
      invariant FrameInvariant(scopesAndVars, i, start, openFirstScope, editing, entries, open)
    {
      var scope := scopesAndVars[i].0;
      var variables := scopesAndVars[i].1;
      FrameStep(scopesAndVars, i, start, openFirstScope, editing, entries, open);
      if variables == [] {
        assert entries + ScopeRows(scopesAndVars[i], Opened(scopesAndVars, start, openFirstScope), editing) == entries;
        continue;
      }
      if openFirstScope && entries == [] {
        open := OpenFirstScope(open, ScopeEntryId(scope));
      }
      ScopeRowsOfNonEmpty(scopesAndVars[i], open, editing);
      if BinarySearch(open, ScopeEntryId(scope)).NotFound? {
        entries := entries + [ScopeEntry(scope)];
        continue;
      }
      var rows := OpenScopeRows(scope, variables, open, editing);
      entries := entries + ([ScopeEntry(scope)] + rows);
    }
    assert scopesAndVars[..|scopesAndVars|] == scopesAndVars;
    assert scopesAndVars[|scopesAndVars|..] == [];
    OpenedSorted(scopesAndVars, start, openFirstScope);
  }

  class VariableList {
    var openEntries: seq<string>
    var setVariableState: Option<SetVariableState>
    var stackFrameEntries: map<nat, seq<ThreadEntry>>
    var editorText: string

    predicate Valid()
      reads this
    {
      Sorted(openEntries)
    }

    /** `new`: nothing open, no edit in progress, no rows yet. */
    constructor ()
      ensures Valid()
      ensures openEntries == [] && setVariableState == None && stackFrameEntries == map[] && editorText == ""
    {
      openEntries := [];
      setVariableState := None;
      stackFrameEntries := map[];
      editorText := "";
    }

    /**
     * `build_entries`: when the current frame's variables are known, its rows
     * are recomputed from them and the open entries.
     */
    method BuildEntries(thread: ThreadState, openFirstScope: bool)
      requires Valid()
      modifies this
      ensures Valid()
      ensures thread.currentStackFrameId !in thread.variables ==> openEntries == old(openEntries)
      ensures thread.currentStackFrameId in thread.variables ==>
        openEntries == Opened(thread.variables[thread.currentStackFrameId], old(openEntries), openFirstScope)
      ensures stackFrameEntries == Rebuilt(old(stackFrameEntries), thread, openEntries, setVariableState)
      ensures setVariableState == old(setVariableState) && editorText == old(editorText)
    {
      var frameId := thread.currentStackFrameId;
      if frameId !in thread.variables {
        return;
      }
      var entries, open := FrameRows(thread.variables[frameId], openEntries, setVariableState, openFirstScope);
      openEntries := open;
      stackFrameEntries := stackFrameEntries[frameId := entries];
    }

    /** `toggle_entry_collapsed`: the id's open state flips, then the rows are rebuilt. */
    method ToggleEntryCollapsed(entryId: string, thread: ThreadState)
      requires Valid()
      modifies this
      ensures Valid()
      ensures openEntries == Toggle(old(openEntries), entryId)
      ensures stackFrameEntries == Rebuilt(old(stackFrameEntries), thread, openEntries, setVariableState)
      ensures setVariableState == old(setVariableState) && editorText == old(editorText)
    {
      match BinarySearch(openEntries, entryId) {
        case Found(ix) =>
          openEntries := openEntries[..ix] + openEntries[ix + 1..];
        case NotFound(ix) =>
          openEntries := openEntries[..ix] + [entryId] + openEntries[ix..];
      }
      ToggleSorted(old(openEntries), entryId);
      BuildEntries(thread, false);
    }

    /** The "Set value" menu entry: the edit starts from the variable's current value. */
    method StartSetVariable(parentVariablesReference: nat, variable: Variable, thread: ThreadState)
      requires Valid()
      modifies this
      ensures Valid() && openEntries == old(openEntries)
      ensures setVariableState == Some(SetVariableState(parentVariablesReference, variable.name, variable.value))
      ensures editorText == variable.value
      ensures stackFrameEntries == Rebuilt(old(stackFrameEntries), thread, openEntries, setVariableState)
    {
      setVariableState := Some(SetVariableState(parentVariablesReference, variable.name, variable.value));
      editorText := variable.value;
      BuildEntries(thread, false);
    }

    /** The editor losing focus abandons the edit and rebuilds the rows. */
    method OnEditorBlurred(thread: ThreadState)
      requires Valid()
      modifies this
      ensures Valid() && openEntries == old(openEntries) && editorText == old(editorText)
      ensures setVariableState == None
      ensures stackFrameEntries == Rebuilt(old(stackFrameEntries), thread, openEntries, setVariableState)
    {
      setVariableState := None;
      BuildEntries(thread, false);
    }

    /**
     * `set_variable_value`: the editor is emptied and the edit ends; a request
     * goes out, and the rows are rebuilt, only when the text differs from the
     * value the edit started from.
     */
    method SetVariableValue(thread: ThreadState) returns (request: Option<SetVariableRequest>)
      requires Valid()
      modifies this
      ensures Valid() && openEntries == old(openEntries)
      ensures editorText == "" && setVariableState == None
      ensures request.Some? <==> old(setVariableState).Some? && old(editorText) != old(setVariableState).value.value
      ensures request.Some? ==> request.value == SetVariableRequest(
        old(setVariableState).value.parentVariablesReference, old(setVariableState).value.name, old(editorText))
      ensures request.Some? ==> stackFrameEntries == Rebuilt(old(stackFrameEntries), thread, openEntries, None)
      ensures request.None? ==> stackFrameEntries == old(stackFrameEntries)
    {
      var newValue := editorText;
      editorText := "";
      var taken := setVariableState;
      setVariableState := None;
      if taken.None? {
        return None;
      }
      var state := taken.value;
      if newValue == state.value {
        return None;
      }
      request := Some(SetVariableRequest(state.parentVariablesReference, state.name, newValue));
      BuildEntries(thread, false);
    }
  }
}
