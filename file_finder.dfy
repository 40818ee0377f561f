/**
 * The file finder's list of matches: the ranking of fuzzy path matches,
 * the sorted insertion of new matches into the list the picker shows, the
 * guard against results of stale searches, the selected-index rule, the
 * history separator and the labels cut out of a path match. Fuzzy matching
 * itself is not modelled: its results are parameters.
 */
module FileFinder {
  import opened Wrappers

  /** A worktree-relative path as its normal components; `Path`'s order compares components. */
  type Path = seq<string>

  /** The fuzzy matcher's result for one path; the `f64` score is an integer key here. */
  datatype PathMatch = PathMatch(
    score: int,
    positions: seq<nat>,
    worktreeId: nat,
    path: Path,
    pathPrefix: string,
    distanceToRelativeAncestor: nat)

  datatype ProjectPath = ProjectPath(worktreeId: nat, path: Path)

  datatype FoundPath = FoundPath(project: ProjectPath, absolute: Option<string>)

  /** A row of the picker: a history item (matched or not) or a search result. */
  datatype Match =
    | History(found: FoundPath, panelMatch: Option<PathMatch>)
    | Search(searchMatch: PathMatch)

  datatype FileSearchQuery = FileSearchQuery(rawQuery: string, fileQueryEnd: Option<nat>)

  /** `push_new_matches` stops inserting when the list reaches this length. */
  const MaxMatches: nat := 100

  // ---------------------------------------------------------------------
  // Orders
  // ---------------------------------------------------------------------

  /**
   * What a component of a lexicographic order must satisfy on the three
   * comparisons `ab`, `bc` and `ac` of three values.
   */
  predicate Chain(ab: Ordering, bc: Ordering, ac: Ordering)
  {
    && (ab == Greater && bc != Less ==> ac == Greater)
    && (ab != Less && bc == Greater ==> ac == Greater)
    && (ab == Equal && bc == Equal ==> ac == Equal)
  }

  lemma ChainThen(p1: Ordering, p2: Ordering, p3: Ordering, q1: Ordering, q2: Ordering, q3: Ordering)
    requires Chain(p1, p2, p3) && Chain(q1, q2, q3)
    ensures Chain(p1.Then(q1), p2.Then(q2), p3.Then(q3))
  {
  }

  lemma ChainSwap(ab: Ordering, bc: Ordering, ac: Ordering)
    requires Chain(ab, bc, ac)
    ensures Chain(bc, ab, ac)
  {
  }

  lemma ThenReverse(p: Ordering, q: Ordering)
    ensures p.Then(q).Reverse() == p.Reverse().Then(q.Reverse())
  {
  }

  lemma CmpIntLaws(x: int, y: int, z: int)
    ensures Chain(CmpInt(x, y), CmpInt(y, z), CmpInt(x, z))
    ensures CmpInt(y, x) == CmpInt(x, y).Reverse()
  {
  }

  /** `str`'s order: lexicographic by character. */
  function CmpString(a: string, b: string): Ordering
  {
    if a == [] then (if b == [] then Equal else Less)
    else if b == [] then Greater
    else CmpInt(a[0] as int, b[0] as int).Then(CmpString(a[1..], b[1..]))
  }

  lemma {:induction false} CmpStringLaws(a: string, b: string, c: string)
    ensures Chain(CmpString(a, b), CmpString(b, c), CmpString(a, c))
    ensures CmpString(b, a) == CmpString(a, b).Reverse()
    ensures CmpString(a, b) == Equal <==> a == b
  {
    if a != [] && b != [] && c != [] {
      CmpStringLaws(a[1..], b[1..], c[1..]);
      CmpIntLaws(a[0] as int, b[0] as int, c[0] as int);
      ChainThen(CmpInt(a[0] as int, b[0] as int), CmpInt(b[0] as int, c[0] as int), CmpInt(a[0] as int, c[0] as int),
        CmpString(a[1..], b[1..]), CmpString(b[1..], c[1..]), CmpString(a[1..], c[1..]));
      ThenReverse(CmpInt(a[0] as int, b[0] as int), CmpString(a[1..], b[1..]));
      assert a == [a[0]] + a[1..] && b == [b[0]] + b[1..];
    } else if a != [] && b != [] {
      CmpStringLaws(a[1..], b[1..], b[1..]);
      ThenReverse(CmpInt(a[0] as int, b[0] as int), CmpString(a[1..], b[1..]));
      assert a == [a[0]] + a[1..] && b == [b[0]] + b[1..];
    }
  }

  /** `Path`'s order: lexicographic by component. */
  function CmpPath(a: Path, b: Path): Ordering
  {
    if a == [] then (if b == [] then Equal else Less)
    else if b == [] then Greater
    else CmpString(a[0], b[0]).Then(CmpPath(a[1..], b[1..]))
  }

  lemma {:induction false} CmpPathLaws(a: Path, b: Path, c: Path)
    ensures Chain(CmpPath(a, b), CmpPath(b, c), CmpPath(a, c))
    ensures CmpPath(b, a) == CmpPath(a, b).Reverse()
    ensures CmpPath(a, b) == Equal <==> a == b
  {
    if a != [] && b != [] && c != [] {
      CmpPathLaws(a[1..], b[1..], c[1..]);
      CmpStringLaws(a[0], b[0], c[0]);
      ChainThen(CmpString(a[0], b[0]), CmpString(b[0], c[0]), CmpString(a[0], c[0]),
        CmpPath(a[1..], b[1..]), CmpPath(b[1..], c[1..]), CmpPath(a[1..], c[1..]));
      ThenReverse(CmpString(a[0], b[0]), CmpPath(a[1..], b[1..]));
      assert a == [a[0]] + a[1..] && b == [b[0]] + b[1..];
    } else if a != [] && b != [] {
      CmpPathLaws(a[1..], b[1..], b[1..]);
      CmpStringLaws(a[0], b[0], b[0]);
      ThenReverse(CmpString(a[0], b[0]), CmpPath(a[1..], b[1..]));
      assert a == [a[0]] + a[1..] && b == [b[0]] + b[1..];
    }
  }

  /**
   * `ProjectPanelOrdMatch::cmp`: `Greater` means a better match. Higher
   * score first, then the larger worktree id, then the smaller distance to
   * the relative ancestor, then the lexicographically earlier path.
   */
  function CmpPanel(a: PathMatch, b: PathMatch): Ordering
  {
    CmpInt(a.score, b.score)
      .Then(CmpInt(a.worktreeId, b.worktreeId))
      .Then(CmpInt(b.distanceToRelativeAncestor, a.distanceToRelativeAncestor))
      .Then(CmpPath(a.path, b.path).Reverse())
  }

  /** The panel order chains like a lexicographic order. */
  lemma CmpPanelChain(a: PathMatch, b: PathMatch, c: PathMatch)
    ensures Chain(CmpPanel(a, b), CmpPanel(b, c), CmpPanel(a, c))
  {
    var s1, s2, s3 := CmpInt(a.score, b.score), CmpInt(b.score, c.score), CmpInt(a.score, c.score);
    var w1, w2, w3 := CmpInt(a.worktreeId, b.worktreeId), CmpInt(b.worktreeId, c.worktreeId), CmpInt(a.worktreeId, c.worktreeId);
    var d1, d2, d3 := CmpInt(b.distanceToRelativeAncestor, a.distanceToRelativeAncestor),
      CmpInt(c.distanceToRelativeAncestor, b.distanceToRelativeAncestor),
      CmpInt(c.distanceToRelativeAncestor, a.distanceToRelativeAncestor);
    var p1, p2, p3 := CmpPath(a.path, b.path).Reverse(), CmpPath(b.path, c.path).Reverse(), CmpPath(a.path, c.path).Reverse();
    CmpIntLaws(a.score, b.score, c.score);
    CmpIntLaws(a.worktreeId, b.worktreeId, c.worktreeId);
    CmpIntLaws(c.distanceToRelativeAncestor, b.distanceToRelativeAncestor, a.distanceToRelativeAncestor);
    ChainSwap(d2, d1, d3);
    assert Chain(p1, p2, p3) by {
      CmpPathLaws(c.path, b.path, a.path);
      CmpPathLaws(a.path, b.path, c.path);
      CmpPathLaws(a.path, c.path, c.path);
      ChainSwap(CmpPath(c.path, b.path), CmpPath(b.path, a.path), CmpPath(c.path, a.path));
    }
    ChainThen(s1, s2, s3, w1, w2, w3);
    ChainThen(s1.Then(w1), s2.Then(w2), s3.Then(w3), d1, d2, d3);
    ChainThen(s1.Then(w1).Then(d1), s2.Then(w2).Then(d2), s3.Then(w3).Then(d3), p1, p2, p3);
  }

  /** Swapping the arguments of the panel order reverses it. */
  lemma CmpPanelAnti(a: PathMatch, b: PathMatch)
    ensures CmpPanel(b, a) == CmpPanel(a, b).Reverse()
  {
    var s1 := CmpInt(a.score, b.score);
    var w1 := CmpInt(a.worktreeId, b.worktreeId);
    var d1 := CmpInt(b.distanceToRelativeAncestor, a.distanceToRelativeAncestor);
    var p1 := CmpPath(a.path, b.path).Reverse();
    CmpIntLaws(a.score, b.score, b.score);
    CmpIntLaws(a.worktreeId, b.worktreeId, b.worktreeId);
    CmpIntLaws(a.distanceToRelativeAncestor, b.distanceToRelativeAncestor, b.distanceToRelativeAncestor);
    CmpPathLaws(a.path, b.path, b.path);
    ThenReverse(s1, w1);
    ThenReverse(s1.Then(w1), d1);
    ThenReverse(s1.Then(w1).Then(d1), p1);
  }

  /**
   * The ranking `ProjectPanelOrdMatch::cmp` gives: a higher score wins; on a tie
   * the larger worktree id, then the smaller distance, then the earlier
   * path wins; two matches tie only when all four keys agree.
   */
  lemma PanelRanking(a: PathMatch, b: PathMatch)
    ensures a.score > b.score ==> CmpPanel(a, b) == Greater
    ensures a.score == b.score && a.worktreeId > b.worktreeId ==> CmpPanel(a, b) == Greater
    ensures (a.score == b.score && a.worktreeId == b.worktreeId
      && a.distanceToRelativeAncestor < b.distanceToRelativeAncestor) ==> CmpPanel(a, b) == Greater
    ensures (a.score == b.score && a.worktreeId == b.worktreeId
      && a.distanceToRelativeAncestor == b.distanceToRelativeAncestor
      && CmpPath(a.path, b.path) == Less) ==> CmpPanel(a, b) == Greater
    ensures CmpPanel(a, b) == Equal <==>
      a.score == b.score && a.worktreeId == b.worktreeId
      && a.distanceToRelativeAncestor == b.distanceToRelativeAncestor && a.path == b.path
  {
    CmpPathLaws(a.path, b.path, b.path);
  }

  /** `Option<&ProjectPanelOrdMatch>`'s order: no match ranks below any match. */
  function CmpPanelOption(a: Option<PathMatch>, b: Option<PathMatch>): Ordering
  {
    match (a, b)
    case (None, None) => Equal
    case (None, Some(_)) => Less
    case (Some(_), None) => Greater
    case (Some(x), Some(y)) => CmpPanel(x, y)
  }

  lemma CmpPanelOptionLaws(a: Option<PathMatch>, b: Option<PathMatch>, c: Option<PathMatch>)
    ensures Chain(CmpPanelOption(a, b), CmpPanelOption(b, c), CmpPanelOption(a, c))
    ensures CmpPanelOption(b, a) == CmpPanelOption(a, b).Reverse()
  {
    if a.Some? && b.Some? && c.Some? {
      CmpPanelChain(a.value, b.value, c.value);
    }
    if a.Some? && b.Some? {
      CmpPanelAnti(a.value, b.value);
    }
  }

  /** `Match::panel_match`. */
  function PanelMatchOf(m: Match): Option<PathMatch>
  {
    match m
    case History(_, p) => p
    case Search(p) => Some(p)
  }

  /** `Match::path`. */
  function PathOf(m: Match): Path
  {
    match m
    case History(f, _) => f.project.path
    case Search(p) => p.path
  }

  predicate IsOpened(m: Match, current: Option<FoundPath>)
  {
    m.History? && Some(m.found) == current
  }

  /**
   * `Matches::cmp_matches`: `Greater` when `a` should be listed above `b`.
   * The currently current history entry comes first; with separate history,
   * history entries come before search results; otherwise the panel order.
   */
  function CmpMatches(separateHistory: bool, current: Option<FoundPath>, a: Match, b: Match): Ordering
  {
    if IsOpened(a, current) then Greater
    else if IsOpened(b, current) then Less
    else if separateHistory && a.History? && b.Search? then Greater
    else if separateHistory && a.Search? && b.History? then Less
    else CmpPanelOption(PanelMatchOf(a), PanelMatchOf(b))
  }

  function Tier(m: Match): int
  {
    if m.History? then 1 else 0
  }

  /** Away from the current entry, the match order is lexicographic on (tier, panel match). */
  lemma CmpMatchesAsKey(separateHistory: bool, current: Option<FoundPath>, a: Match, b: Match)
    requires !IsOpened(a, current) && !IsOpened(b, current)
    ensures CmpMatches(separateHistory, current, a, b) ==
      (if separateHistory then CmpInt(Tier(a), Tier(b)) else Equal)
        .Then(CmpPanelOption(PanelMatchOf(a), PanelMatchOf(b)))
  {
  }

  /** The ranks `cmp_matches` gives its special cases. */
  lemma CmpMatchesRanks(separateHistory: bool, current: Option<FoundPath>, a: Match, b: Match)
    ensures IsOpened(a, current) ==> CmpMatches(separateHistory, current, a, b) == Greater
    ensures !IsOpened(a, current) && IsOpened(b, current) ==> CmpMatches(separateHistory, current, a, b) == Less
    ensures separateHistory && !IsOpened(a, current) && !IsOpened(b, current) && a.History? && b.Search? ==>
      CmpMatches(separateHistory, current, a, b) == Greater
    ensures !separateHistory && !IsOpened(a, current) && !IsOpened(b, current) ==>
      CmpMatches(separateHistory, current, a, b) == CmpPanelOption(PanelMatchOf(a), PanelMatchOf(b))
  {
  }

  /** The match order chains like a lexicographic order, the current entry included. */
  lemma CmpMatchesChain(separateHistory: bool, current: Option<FoundPath>, a: Match, b: Match, c: Match)
    requires CmpMatches(separateHistory, current, a, b) == Greater
    requires CmpMatches(separateHistory, current, b, c) != Less
    ensures CmpMatches(separateHistory, current, a, c) == Greater
  {
    if !IsOpened(a, current) && !IsOpened(b, current) && !IsOpened(c, current) {
      CmpMatchesAsKey(separateHistory, current, a, b);
      CmpMatchesAsKey(separateHistory, current, b, c);
      CmpMatchesAsKey(separateHistory, current, a, c);
      CmpPanelOptionLaws(PanelMatchOf(a), PanelMatchOf(b), PanelMatchOf(c));
      if separateHistory {
        CmpIntLaws(Tier(a), Tier(b), Tier(c));
        ChainThen(CmpInt(Tier(a), Tier(b)), CmpInt(Tier(b), Tier(c)), CmpInt(Tier(a), Tier(c)),
          CmpPanelOption(PanelMatchOf(a), PanelMatchOf(b)), CmpPanelOption(PanelMatchOf(b), PanelMatchOf(c)),
          CmpPanelOption(PanelMatchOf(a), PanelMatchOf(c)));
      }
    }
  }

  /** An entry ranked below another ranks that other above itself. */
  lemma CmpMatchesFlip(separateHistory: bool, current: Option<FoundPath>, a: Match, b: Match)
    requires CmpMatches(separateHistory, current, a, b) == Less
    ensures CmpMatches(separateHistory, current, b, a) == Greater
  {
    if !IsOpened(a, current) && !IsOpened(b, current) {
      CmpMatchesAsKey(separateHistory, current, a, b);
      CmpMatchesAsKey(separateHistory, current, b, a);
      CmpPanelOptionLaws(PanelMatchOf(a), PanelMatchOf(b), PanelMatchOf(b));
    }
  }

  /** Every entry with a panel match, other than the current one, ties with itself. */
  lemma CmpMatchesSelf(separateHistory: bool, current: Option<FoundPath>, a: Match)
    requires !IsOpened(a, current)
    ensures CmpMatches(separateHistory, current, a, a) == Equal
  {
    CmpPanelOptionLaws(PanelMatchOf(a), PanelMatchOf(a), PanelMatchOf(a));
  }

  // ---------------------------------------------------------------------
  // The sorted list and `position`
  // ---------------------------------------------------------------------

  /** Each entry ranks strictly above every later one: sorted, and no two entries tie. */
  predicate Ranked(separateHistory: bool, current: Option<FoundPath>, ms: seq<Match>)
  {
    forall i, j | 0 <= i < j < |ms| :: CmpMatches(separateHistory, current, ms[i], ms[j]) == Greater
  }

  /** The index `binary_search_by` settles on: the first entry that does not outrank `entry`. */
  function FirstNotAbove(separateHistory: bool, current: Option<FoundPath>, ms: seq<Match>, entry: Match): (r: nat)
    ensures r <= |ms|
  {
    if ms == [] then 0
    else if CmpMatches(separateHistory, current, ms[0], entry) == Greater then
      1 + FirstNotAbove(separateHistory, current, ms[1..], entry)
    else 0
  }

  lemma {:induction false} FirstNotAboveSplits(separateHistory: bool, current: Option<FoundPath>, ms: seq<Match>, entry: Match)
    ensures forall k | 0 <= k < FirstNotAbove(separateHistory, current, ms, entry) ::
      CmpMatches(separateHistory, current, ms[k], entry) == Greater
    ensures FirstNotAbove(separateHistory, current, ms, entry) < |ms| ==>
      CmpMatches(separateHistory, current, ms[FirstNotAbove(separateHistory, current, ms, entry)], entry) != Greater
  {
    if ms != [] && CmpMatches(separateHistory, current, ms[0], entry) == Greater {
      FirstNotAboveSplits(separateHistory, current, ms[1..], entry);
      var r := FirstNotAbove(separateHistory, current, ms, entry);
      forall k | 0 <= k < r
        ensures CmpMatches(separateHistory, current, ms[k], entry) == Greater
      {
        if k > 0 {
          assert ms[k] == ms[1..][k - 1];
        }
      }
    }
  }

  /** The first entry whose path is `path` (`Iterator::position`). */
  function IndexOfPath(ms: seq<Match>, path: Path): (r: Option<nat>)
    ensures r.Some? ==> (r.value < |ms| && PathOf(ms[r.value]) == path
      && forall k | 0 <= k < r.value :: PathOf(ms[k]) != path)
    ensures r.None? ==> forall k | 0 <= k < |ms| :: PathOf(ms[k]) != path
  {
    if ms == [] then None
    else if PathOf(ms[0]) == path then Some(0)
    else match IndexOfPath(ms[1..], path)
      case None => None
      case Some(i) => Some(i + 1)
  }

  /**
   * `Matches::position`: a history entry without a panel match is looked up
   * by path (`Err(0)` when absent); any other entry by binary search in the
   * ranked list, `Ok` at an entry that ties with it, `Err` at its slot.
   */
  function Position(ms: seq<Match>, separateHistory: bool, entry: Match, current: Option<FoundPath>): (r: Result<nat, nat>)
    ensures r.Ok? ==> r.value < |ms|
    ensures r.Err? ==> r.error <= |ms|
  {
    if entry.History? && entry.panelMatch.None? then
      match IndexOfPath(ms, entry.found.project.path)
      case Some(i) => Ok(i)
      case None => Err(0)
    else
      var i := FirstNotAbove(separateHistory, current, ms, entry);
      if i < |ms| && CmpMatches(separateHistory, current, ms[i], entry) == Equal then Ok(i) else Err(i)
  }

  /**
   * On a ranked list, `position` of an entry with a panel match is exact:
   * `Ok(i)` exactly when some entry ties with it, at that one entry; `Err(i)`
   * with every entry before `i` ranked above it and every other below it.
   */
  lemma PositionCorrect(ms: seq<Match>, separateHistory: bool, entry: Match, current: Option<FoundPath>)
    requires Ranked(separateHistory, current, ms)
    requires PanelMatchOf(entry).Some?
    ensures Position(ms, separateHistory, entry, current).Ok? <==>
      exists k | 0 <= k < |ms| :: CmpMatches(separateHistory, current, ms[k], entry) == Equal
    ensures Position(ms, separateHistory, entry, current).Ok? ==>
      var i := Position(ms, separateHistory, entry, current).value;
      && CmpMatches(separateHistory, current, ms[i], entry) == Equal
      && (forall k | 0 <= k < i :: CmpMatches(separateHistory, current, ms[k], entry) == Greater)
      && (forall k | i < k < |ms| :: CmpMatches(separateHistory, current, ms[k], entry) == Less)
    ensures Position(ms, separateHistory, entry, current).Err? ==>
      var i := Position(ms, separateHistory, entry, current).error;
      && (forall k | 0 <= k < i :: CmpMatches(separateHistory, current, ms[k], entry) == Greater)
      && (forall k | i <= k < |ms| :: CmpMatches(separateHistory, current, ms[k], entry) == Less)
  {
    var i := FirstNotAbove(separateHistory, current, ms, entry);
    FirstNotAboveSplits(separateHistory, current, ms, entry);
    forall k | i < k < |ms|
      ensures CmpMatches(separateHistory, current, ms[k], entry) == Less
    {
      if CmpMatches(separateHistory, current, ms[k], entry) != Less {
        CmpMatchesChain(separateHistory, current, ms[i], ms[k], entry);
      }
    }
  }

  /** `Vec::insert`. */
  function InsertAt(ms: seq<Match>, i: nat, m: Match): (r: seq<Match>)
    requires i <= |ms|
    ensures |r| == |ms| + 1
  {
    ms[..i] + [m] + ms[i..]
  }

  lemma InsertAtIndices(ms: seq<Match>, i: nat, m: Match)
    requires i <= |ms|
    ensures InsertAt(ms, i, m)[i] == m
    ensures forall k | 0 <= k < i :: InsertAt(ms, i, m)[k] == ms[k]
    ensures forall k | i < k < |ms| + 1 :: InsertAt(ms, i, m)[k] == ms[k - 1]
    ensures multiset(InsertAt(ms, i, m)) == multiset(ms) + multiset{m}
  {
    assert ms == ms[..i] + ms[i..];
  }

  /** Inserting at the slot `position` reports keeps the list ranked. */
  lemma InsertKeepsRanked(ms: seq<Match>, separateHistory: bool, entry: Match, current: Option<FoundPath>)
    requires Ranked(separateHistory, current, ms)
    requires PanelMatchOf(entry).Some?
    requires Position(ms, separateHistory, entry, current).Err?
    ensures Ranked(separateHistory, current, InsertAt(ms, Position(ms, separateHistory, entry, current).error, entry))
  {
    var i := Position(ms, separateHistory, entry, current).error;
    PositionCorrect(ms, separateHistory, entry, current);
    var r := InsertAt(ms, i, entry);
    InsertAtIndices(ms, i, entry);
    forall a, b | 0 <= a < b < |r|
      ensures CmpMatches(separateHistory, current, r[a], r[b]) == Greater
    {
      if a == i {
        CmpMatchesFlip(separateHistory, current, ms[b - 1], entry);
      }
    }
  }

  // ---------------------------------------------------------------------
  // `push_new_matches`
  // ---------------------------------------------------------------------

  /** With no query: the current path first, then every other history item, none with a panel match. */
  function HistoryRows(historyItems: seq<FoundPath>, current: Option<FoundPath>): (r: seq<Match>)
    ensures |r| <= |historyItems|
    ensures forall m | m in r :: m.History? && m.panelMatch.None? && m.found in historyItems && Some(m.found) != current
    ensures forall h | h in historyItems && Some(h) != current :: History(h, None) in r
  {
    if historyItems == [] then []
    else
      var rest := HistoryRows(historyItems[1..], current);
      if Some(historyItems[0]) != current then [History(historyItems[0], None)] + rest else rest
  }

  function NoQueryMatches(historyItems: seq<FoundPath>, current: Option<FoundPath>): (r: seq<Match>)
    ensures current.Some? ==> |r| > 0 && r[0] == History(current.value, None)
    ensures current.None? ==> r == HistoryRows(historyItems, current)
    ensures current.Some? ==> r[1..] == HistoryRows(historyItems, current)
  {
    (if current.Some? then [History(current.value, None)] else []) + HistoryRows(historyItems, current)
  }

  /** The old entries `retain`ed when the old matches are extended: the search results only. */
  function SearchRowsOf(ms: seq<Match>): (r: seq<Match>)
    ensures forall m | m in r :: m.Search? && m in ms
    ensures forall m | m in ms && m.Search? :: m in r
  {
    if ms == [] then []
    else if ms[0].Search? then [ms[0]] + SearchRowsOf(ms[1..])
    else SearchRowsOf(ms[1..])
  }

  lemma RankedCons(separateHistory: bool, current: Option<FoundPath>, h: Match, t: seq<Match>)
    requires Ranked(separateHistory, current, t)
    requires forall x | x in t :: CmpMatches(separateHistory, current, h, x) == Greater
    ensures Ranked(separateHistory, current, [h] + t)
  {
    var r := [h] + t;
    forall i, j | 0 <= i < j < |r|
      ensures CmpMatches(separateHistory, current, r[i], r[j]) == Greater
    {
      assert r[j] == t[j - 1];
      if i > 0 {
        assert r[i] == t[i - 1];
      }
    }
  }

  lemma RankedTail(separateHistory: bool, current: Option<FoundPath>, ms: seq<Match>)
    requires ms != [] && Ranked(separateHistory, current, ms)
    ensures Ranked(separateHistory, current, ms[1..])
    ensures forall x | x in ms[1..] :: CmpMatches(separateHistory, current, ms[0], x) == Greater
  {
    var t := ms[1..];
    forall i, j | 0 <= i < j < |t|
      ensures CmpMatches(separateHistory, current, t[i], t[j]) == Greater
    {
      assert t[i] == ms[i + 1] && t[j] == ms[j + 1];
    }
    forall x | x in t
      ensures CmpMatches(separateHistory, current, ms[0], x) == Greater
    {
      var k :| 0 <= k < |t| && t[k] == x;
      assert ms[k + 1] == x;
    }
  }

  lemma {:induction false} SearchRowsRanked(separateHistory: bool, current: Option<FoundPath>, ms: seq<Match>)
    requires Ranked(separateHistory, current, ms)
    ensures Ranked(separateHistory, current, SearchRowsOf(ms))
  {
    if ms != [] {
      RankedTail(separateHistory, current, ms);
      SearchRowsRanked(separateHistory, current, ms[1..]);
      if ms[0].Search? {
        RankedCons(separateHistory, current, ms[0], SearchRowsOf(ms[1..]));
      }
    }
  }

  function KeptRows(ms: seq<Match>, extendOldMatches: bool): seq<Match>
  {
    if extendOldMatches then SearchRowsOf(ms) else []
  }

  /** The search results whose path no history match has, as rows. */
  function NewSearchRows(historyMatches: seq<Match>, found: seq<PathMatch>): (r: seq<Match>)
    ensures forall m | m in r ::
      (m.Search? && m.searchMatch in found && forall h | h in historyMatches :: PathOf(h) != m.searchMatch.path)
    ensures forall p | p in found && (forall h | h in historyMatches :: PathOf(h) != p.path) :: Search(p) in r
  {
    if found == [] then []
    else
      var rest := NewSearchRows(historyMatches, found[1..]);
      if forall h | h in historyMatches :: PathOf(h) != found[0].path then [Search(found[0])] + rest else rest
  }

  /**
   * The candidates in turn: insert each at its `position` slot unless it
   * ties with an entry there, and stop as soon as the list holds 100.
   */
  function Inserted(ms: seq<Match>, candidates: seq<Match>, separateHistory: bool, current: Option<FoundPath>): seq<Match>
    decreases |candidates|
  {
    if candidates == [] then ms
    else match Position(ms, separateHistory, candidates[0], current)
      case Ok(_) => Inserted(ms, candidates[1..], separateHistory, current)
      case Err(i) =>
        var grown := InsertAt(ms, i, candidates[0]);
        if |grown| == MaxMatches then grown else Inserted(grown, candidates[1..], separateHistory, current)
  }

  /** Nothing is dropped and nothing but candidates is added. */
  lemma {:induction false} InsertedContents(ms: seq<Match>, candidates: seq<Match>, separateHistory: bool, current: Option<FoundPath>)
    ensures multiset(ms) <= multiset(Inserted(ms, candidates, separateHistory, current))
    ensures multiset(Inserted(ms, candidates, separateHistory, current)) <= multiset(ms) + multiset(candidates)
    decreases |candidates|
  {
    if candidates != [] {
      assert candidates == [candidates[0]] + candidates[1..];
      match Position(ms, separateHistory, candidates[0], current)
      case Ok(_) =>
        InsertedContents(ms, candidates[1..], separateHistory, current);
      case Err(i) =>
        var grown := InsertAt(ms, i, candidates[0]);
        InsertAtIndices(ms, i, candidates[0]);
        if |grown| != MaxMatches {
          InsertedContents(grown, candidates[1..], separateHistory, current);
        }
    }
  }

  /** From a list below the cap the result never exceeds 100 entries. */
  lemma {:induction false} InsertedCapped(ms: seq<Match>, candidates: seq<Match>, separateHistory: bool, current: Option<FoundPath>)
    requires |ms| < MaxMatches
    ensures |Inserted(ms, candidates, separateHistory, current)| <= MaxMatches
    decreases |candidates|
  {
    if candidates != [] {
      match Position(ms, separateHistory, candidates[0], current)
      case Ok(_) =>
        InsertedCapped(ms, candidates[1..], separateHistory, current);
      case Err(i) =>
        var grown := InsertAt(ms, i, candidates[0]);
        if |grown| != MaxMatches {
          InsertedCapped(grown, candidates[1..], separateHistory, current);
        }
    }
  }

  /**
   * The stop is a test for exactly 100: a list that already holds 100 rows
   * when insertion starts grows past the cap.
   */
  lemma InsertedPastCap(ms: seq<Match>, c: Match, separateHistory: bool, current: Option<FoundPath>)
    requires |ms| == MaxMatches
    requires Position(ms, separateHistory, c, current).Err?
    ensures |Inserted(ms, [c], separateHistory, current)| == MaxMatches + 1
  {
    assert [c][1..] == [];
  }

  /** Candidates with panel matches keep a ranked list ranked: sorted, and no two entries tie. */
  lemma {:induction false} InsertedRanked(ms: seq<Match>, candidates: seq<Match>, separateHistory: bool, current: Option<FoundPath>)
    requires Ranked(separateHistory, current, ms)
    requires forall c | c in candidates :: PanelMatchOf(c).Some?
    ensures Ranked(separateHistory, current, Inserted(ms, candidates, separateHistory, current))
    decreases |candidates|
  {
    if candidates != [] {
      assert candidates[0] in candidates;
      assert forall c | c in candidates[1..] :: c in candidates;
      match Position(ms, separateHistory, candidates[0], current)
      case Ok(_) =>
        InsertedRanked(ms, candidates[1..], separateHistory, current);
      case Err(i) =>
        InsertKeepsRanked(ms, separateHistory, candidates[0], current);
        var grown := InsertAt(ms, i, candidates[0]);
        if |grown| != MaxMatches {
          InsertedRanked(grown, candidates[1..], separateHistory, current);
        }
    }
  }

  /** The insertion loop of `push_new_matches`, computing `Inserted`. */
  method InsertAll(start: seq<Match>, candidates: seq<Match>, separateHistory: bool, current: Option<FoundPath>)
    returns (rows: seq<Match>)
    ensures rows == Inserted(start, candidates, separateHistory, current)
  {
    rows := start;
    for k := 0 to |candidates|
      invariant Inserted(rows, candidates[k..], separateHistory, current) == Inserted(start, candidates, separateHistory, current)
    {
      assert candidates[k..][0] == candidates[k] && candidates[k..][1..] == candidates[k + 1..];
      match Position(rows, separateHistory, candidates[k], current) {
        case Ok(_) =>
        case Err(i) =>
          rows := InsertAt(rows, i, candidates[k]);
          if |rows| == MaxMatches {
            return;
          }
      }
    }
  }

  /**
   * The rows `push_new_matches` leaves for a query: the kept old rows, then
   * the history matches and the search results no history match shares a
   * path with, inserted in that order.
   */
  function QueryRows(rows: seq<Match>, extendOldMatches: bool, historyMatches: seq<Match>, newSearchMatches: seq<PathMatch>,
                     separateHistory: bool, current: Option<FoundPath>): seq<Match>
  {
    Inserted(KeptRows(rows, extendOldMatches), historyMatches + NewSearchRows(historyMatches, newSearchMatches),
      separateHistory, current)
  }

  /** `Matches`: the ranked rows and whether history is shown apart. */
  class Matches {
    var separateHistory: bool
    var matches: seq<Match>

    /** `Matches::default()`. */
    constructor ()
      ensures !separateHistory && matches == []
    {
      separateHistory := false;
      matches := [];
    }

    /**
     * `push_new_matches`. With no query the rows become the history rows.
     * Otherwise the old search rows are kept when extending, and the history
     * matches, then the search results not already matched by history, are
     * inserted one by one. `historyMatches` is what fuzzy matching of the
     * history items against the query produced.
     */
    method PushNewMatches(historyItems: seq<FoundPath>, current: Option<FoundPath>, query: Option<FileSearchQuery>,
                          historyMatches: seq<Match>, newSearchMatches: seq<PathMatch>, extendOldMatches: bool)
      modifies this
      ensures separateHistory == old(separateHistory)
      ensures query.None? ==> matches == NoQueryMatches(historyItems, current)
      ensures query.Some? ==> matches == QueryRows(old(matches), extendOldMatches, historyMatches, newSearchMatches,
        separateHistory, current)
    {
      if query.None? {
        matches := NoQueryMatches(historyItems, current);
        return;
      }
      var candidates := historyMatches + NewSearchRows(historyMatches, newSearchMatches);
      matches := InsertAll(KeptRows(matches, extendOldMatches), candidates, separateHistory, current);
    }
  }

  /**
   * What one query round promises about the rows: nothing old but search
   * rows survives, nothing but candidates is added, a ranked start stays
   * ranked, and a start below the cap ends at most 100 long.
   */
  lemma PushedRows(old_: seq<Match>, historyMatches: seq<Match>, newSearchMatches: seq<PathMatch>,
                   extendOldMatches: bool, separateHistory: bool, current: Option<FoundPath>)
    requires Ranked(separateHistory, current, old_)
    requires forall h | h in historyMatches :: PanelMatchOf(h).Some?
    requires |SearchRowsOf(old_)| < MaxMatches
    ensures var candidates := historyMatches + NewSearchRows(historyMatches, newSearchMatches);
      var r := Inserted(KeptRows(old_, extendOldMatches), candidates, separateHistory, current);
      && Ranked(separateHistory, current, r)
      && |r| <= MaxMatches
      && (forall m | m in r :: m in candidates || (extendOldMatches && m in old_ && m.Search?))
      && (extendOldMatches ==> forall m | m in old_ && m.Search? :: m in r)
  {
    var candidates := historyMatches + NewSearchRows(historyMatches, newSearchMatches);
    var kept := KeptRows(old_, extendOldMatches);
    SearchRowsRanked(separateHistory, current, old_);
    InsertedRanked(kept, candidates, separateHistory, current);
    InsertedCapped(kept, candidates, separateHistory, current);
    InsertedContents(kept, candidates, separateHistory, current);
    var r := Inserted(kept, candidates, separateHistory, current);
    forall m | m in r
      ensures m in candidates || (extendOldMatches && m in old_ && m.Search?)
    {
      assert m in multiset(kept) + multiset(candidates);
    }
    forall m | extendOldMatches && m in old_ && m.Search?
      ensures m in r
    {
      assert m in multiset(kept);
    }
  }

  // ---------------------------------------------------------------------
  // Selection, separators, queries
  // ---------------------------------------------------------------------

  /** `calculate_selected_index`: skip the current entry at the top when others follow it. */
  function CalculateSelectedIndex(ms: seq<Match>, current: Option<FoundPath>): (r: nat)
    ensures r == 0 || r == 1
    ensures r == 1 <==> |ms| > 1 && IsOpened(ms[0], current)
    ensures r < |ms| || r == 0
  {
    if |ms| > 0 && IsOpened(ms[0], current) && |ms| - 1 > 0 then 1 else 0
  }

  /** In a ranked list the current entry, if present, is at the top. */
  lemma RankedOpenedFirst(separateHistory: bool, current: Option<FoundPath>, ms: seq<Match>, k: nat)
    requires Ranked(separateHistory, current, ms)
    requires k < |ms| && IsOpened(ms[k], current)
    ensures IsOpened(ms[0], current)
    ensures CalculateSelectedIndex(ms, current) == (if |ms| > 1 then 1 else 0)
  {
  }

  /** With no query, the selection skips the current path exactly when some other history item follows it. */
  lemma NoQuerySelection(historyItems: seq<FoundPath>, current: Option<FoundPath>)
    ensures CalculateSelectedIndex(NoQueryMatches(historyItems, current), current) == 1 <==>
      current.Some? && exists h | h in historyItems :: Some(h) != current
  {
    var ms := NoQueryMatches(historyItems, current);
    if current.Some? {
      if h :| h in historyItems && Some(h) != current {
        assert History(h, None) in ms[1..];
      }
      if |ms| > 1 {
        assert ms[1] in ms[1..];
      }
    }
  }

  /** The first row that is not a history row. */
  function FirstNonHistory(ms: seq<Match>): (r: Option<nat>)
    ensures r.Some? ==> r.value < |ms| && ms[r.value].Search? && forall k | 0 <= k < r.value :: ms[k].History?
    ensures r.None? ==> forall k | 0 <= k < |ms| :: ms[k].History?
  {
    if ms == [] then None
    else if !ms[0].History? then Some(0)
    else match FirstNonHistory(ms[1..])
      case None => None
      case Some(i) => Some(i + 1)
  }

  /**
   * `separators_after_indices`: with separate history, a separator after
   * the last history row when history rows precede a search row; else none.
   */
  function SeparatorsAfterIndices(separateHistory: bool, ms: seq<Match>): (r: seq<nat>)
    ensures |r| <= 1
    ensures |r| == 1 <==> separateHistory && |ms| > 0 && ms[0].History? && exists k | 0 <= k < |ms| :: ms[k].Search?
    ensures |r| == 1 ==> r[0] + 1 < |ms| && ms[r[0] + 1].Search? && forall k | 0 <= k <= r[0] :: ms[k].History?
  {
    if separateHistory then
      match FirstNonHistory(ms)
      case Some(i) => if i > 0 then [i - 1] else []
      case None => []
    else []
  }

  /** In a ranked list with separate history the separator splits history rows from search rows. */
  lemma SeparatorSplitsRanked(current: Option<FoundPath>, ms: seq<Match>)
    requires Ranked(true, current, ms)
    requires |SeparatorsAfterIndices(true, ms)| == 1
    ensures var s := SeparatorsAfterIndices(true, ms)[0];
      forall k | 0 <= k < |ms| :: (ms[k].History? <==> k <= s)
  {
    var s := SeparatorsAfterIndices(true, ms)[0];
    forall k | s + 1 < k < |ms|
      ensures ms[k].Search?
    {
      if ms[k].History? {
        assert CmpMatches(true, current, ms[s + 1], ms[k]) == Greater;
      }
    }
  }

  /** With no query there are only history rows, so no separator. */
  lemma NoQueryNoSeparator(separateHistory: bool, historyItems: seq<FoundPath>, current: Option<FoundPath>)
    ensures SeparatorsAfterIndices(separateHistory, NoQueryMatches(historyItems, current)) == []
  {
    var ms := NoQueryMatches(historyItems, current);
    forall k | 0 <= k < |ms|
      ensures ms[k].History?
    {
      if current.Some? && k > 0 {
        assert ms[k] in ms[1..];
      } else if current.None? {
        assert ms[k] in HistoryRows(historyItems, current);
      }
    }
  }

  predicate QueryOk(q: FileSearchQuery)
  {
    q.fileQueryEnd.Some? ==> q.fileQueryEnd.value <= |q.rawQuery|
  }

  /** `FileSearchQuery::path_query`: the query up to its file part's end, or all of it. */
  function PathQuery(q: FileSearchQuery): (r: string)
    requires QueryOk(q)
    ensures r <= q.rawQuery
    ensures q.fileQueryEnd.None? ==> r == q.rawQuery
    ensures q.fileQueryEnd.Some? ==> |r| == q.fileQueryEnd.value
  {
    match q.fileQueryEnd
    case Some(end) => q.rawQuery[..end]
    case None => q.rawQuery
  }

  predicate QueryChanged(latest: Option<FileSearchQuery>, query: FileSearchQuery)
    requires latest.Some? ==> QueryOk(latest.value)
    requires QueryOk(query)
  {
    latest.None? || PathQuery(latest.value) != PathQuery(query)
  }

  /** The index selected after new matches arrive: the old selection's new place, or the default. */
  function SelectionAfter(selected: Option<Match>, ms: seq<Match>, separateHistory: bool, current: Option<FoundPath>): (r: nat)
    ensures r < |ms| || r == 0
  {
    match selected
    case None => CalculateSelectedIndex(ms, current)
    case Some(m) =>
      match Position(ms, separateHistory, m, current)
      case Ok(i) => i
      case Err(_) => 0
  }

  /** A selected match that is still listed keeps the selection on its row. */
  lemma SelectionFollowsMatch(ms: seq<Match>, separateHistory: bool, current: Option<FoundPath>, k: nat)
    requires Ranked(separateHistory, current, ms)
    requires k < |ms| && PanelMatchOf(ms[k]).Some? && !IsOpened(ms[k], current)
    ensures SelectionAfter(Some(ms[k]), ms, separateHistory, current) == k
  {
    CmpMatchesSelf(separateHistory, current, ms[k]);
    PositionCorrect(ms, separateHistory, ms[k], current);
  }

  /**
   * The rows after a search round is accepted: the old search rows survive
   * only when the last search was cancelled and the path query is the same.
   */
  function RoundRows(rows: seq<Match>, lastCancelled: bool, latest: Option<FileSearchQuery>, query: FileSearchQuery,
                     historyMatches: seq<Match>, newSearchMatches: seq<PathMatch>,
                     separateHistory: bool, current: Option<FoundPath>): seq<Match>
    requires latest.Some? ==> QueryOk(latest.value)
    requires QueryOk(query)
  {
    QueryRows(rows, lastCancelled && !QueryChanged(latest, query), historyMatches, newSearchMatches, separateHistory, current)
  }

  /** The match to keep selected across a round: the selected row, unless the path query changed. */
  function RoundSelection(rows: seq<Match>, selectedIndex: nat, latest: Option<FileSearchQuery>, query: FileSearchQuery): Option<Match>
    requires latest.Some? ==> QueryOk(latest.value)
    requires QueryOk(query)
  {
    if QueryChanged(latest, query) || selectedIndex >= |rows| then None else Some(rows[selectedIndex])
  }

  /** `FileFinderDelegate`: the search bookkeeping around the match list. */
  class FileFinderDelegate {
    var searchCount: nat
    var latestSearchId: nat
    var latestSearchDidCancel: bool
    var latestSearchQuery: Option<FileSearchQuery>
    const currentlyOpenedPath: Option<FoundPath>
    var matches: Matches
    var hasChangedSelectedIndex: bool
    var selectedIndex: nat
    var historyItems: seq<FoundPath>
    const separateHistory: bool
    var firstUpdate: bool

    ghost predicate Valid()
      reads this
    {
      latestSearchQuery.Some? ==> QueryOk(latestSearchQuery.value)
    }

    /** `FileFinderDelegate::new`. */
    constructor (currentlyOpenedPath: Option<FoundPath>, historyItems: seq<FoundPath>, separateHistory: bool)
      ensures Valid() && fresh(matches)
      ensures searchCount == 0 && latestSearchId == 0 && !latestSearchDidCancel && latestSearchQuery == None
      ensures this.currentlyOpenedPath == currentlyOpenedPath && this.historyItems == historyItems
      ensures this.separateHistory == separateHistory && firstUpdate
      ensures selectedIndex == 0 && !hasChangedSelectedIndex
      ensures matches.matches == [] && !matches.separateHistory
    {
      searchCount := 0;
      latestSearchId := 0;
      latestSearchDidCancel := false;
      latestSearchQuery := None;
      this.currentlyOpenedPath := currentlyOpenedPath;
      matches := new Matches();
      hasChangedSelectedIndex := false;
      selectedIndex := 0;
      this.historyItems := historyItems;
      this.separateHistory := separateHistory;
      firstUpdate := true;
    }

    /**
     * `set_search_matches`: results of a search older than the latest are
     * dropped. Otherwise the new matches are pushed, extending the old ones
     * only when the last search was cancelled and the path query is the
     * same, and the selection follows the previously selected match when
     * the query has not changed.
     */
    method SetSearchMatches(searchId: nat, didCancel: bool, query: FileSearchQuery,
                            historyMatches: seq<Match>, newSearchMatches: seq<PathMatch>)
      requires Valid() && QueryOk(query)
      modifies this, matches
      ensures Valid() && matches == old(matches)
      ensures searchCount == old(searchCount) && historyItems == old(historyItems)
      ensures firstUpdate == old(firstUpdate) && hasChangedSelectedIndex == old(hasChangedSelectedIndex)
      ensures searchId < old(latestSearchId) ==> unchanged(this) && unchanged(matches)
      ensures searchId >= old(latestSearchId) ==>
        && latestSearchId == searchId
        && latestSearchQuery == Some(query)
        && latestSearchDidCancel == didCancel
        && matches.separateHistory == old(matches.separateHistory)
        && matches.matches == RoundRows(old(matches.matches), old(latestSearchDidCancel), old(latestSearchQuery), query,
          historyMatches, newSearchMatches, matches.separateHistory, currentlyOpenedPath)
        && selectedIndex == SelectionAfter(RoundSelection(old(matches.matches), old(selectedIndex), old(latestSearchQuery), query),
          matches.matches, matches.separateHistory, currentlyOpenedPath)
    {
      if searchId >= latestSearchId {
        latestSearchId := searchId;
        var rows := matches.matches;
        var queryChanged := QueryChanged(latestSearchQuery, query);
        var extendOldMatches := latestSearchDidCancel && !queryChanged;
        var selectedMatch := if queryChanged || selectedIndex >= |rows| then None else Some(rows[selectedIndex]);
        var current := currentlyOpenedPath;
        matches.PushNewMatches(historyItems, current, Some(query), historyMatches, newSearchMatches, extendOldMatches);
        var pushed := matches.matches;
        assert pushed == RoundRows(rows, latestSearchDidCancel, latestSearchQuery, query,
          historyMatches, newSearchMatches, matches.separateHistory, current);
        selectedIndex := SelectionAfter(selectedMatch, pushed, matches.separateHistory, current);
        latestSearchQuery := Some(query);
        latestSearchDidCancel := didCancel;
      }
    }
  }

  // ---------------------------------------------------------------------
  // Labels
  // ---------------------------------------------------------------------

  function Last(p: Path): string
    requires p != []
  {
    p[|p| - 1]
  }

  /** How many bytes UTF-8 spends on a character. */
  function Utf8Width(c: char): (w: nat)
    ensures 1 <= w <= 4
    ensures w == 1 <==> c as int < 0x80
  {
    if c as int < 0x80 then 1 else if c as int < 0x800 then 2 else if c as int < 0x1_0000 then 3 else 4
  }

  /** `str::len`: the length of a string in UTF-8 bytes. */
  function Utf8Len(s: string): (n: nat)
    ensures |s| <= n <= 4 * |s|
  {
    if s == [] then 0 else Utf8Width(s[0]) + Utf8Len(s[1..])
  }

  /** Only an ASCII string is as long in bytes as in characters. */
  lemma {:induction false} Utf8LenAscii(s: string)
    ensures Utf8Len(s) == |s| <==> forall i | 0 <= i < |s| :: s[i] as int < 0x80
  {
    if s != [] {
      Utf8LenAscii(s[1..]);
      assert forall i | 1 <= i < |s| :: s[i] == s[1..][i - 1];
    }
  }

  lemma {:induction false} Utf8LenConcat(a: string, b: string)
    ensures Utf8Len(a + b) == Utf8Len(a) + Utf8Len(b)
    decreases |a|
  {
    if a == [] {
      assert a + b == b;
    } else {
      assert (a + b)[1..] == a[1..] + b;
      Utf8LenConcat(a[1..], b);
    }
  }

  /** `Path::to_string_lossy`: the components joined by `/`. */
  function JoinPath(p: Path): (r: string)
    ensures p == [] ==> r == []
    ensures p != [] ==> |Last(p)| <= |r|
  {
    if |p| == 0 then []
    else if |p| == 1 then p[0]
    else JoinPath(p[..|p| - 1]) + "/" + p[|p| - 1]
  }

  /** The joined path ends with its last component. */
  lemma JoinPathEndsWithLast(p: Path)
    requires p != []
    ensures JoinPath(p) == JoinPath(p)[..|JoinPath(p)| - |Last(p)|] + Last(p)
  {
    var r := JoinPath(p);
    if |p| > 1 {
      assert r == (JoinPath(p[..|p| - 1]) + "/") + Last(p);
    }
  }

  /** `str::trim_end_matches` with a string pattern: strip the pattern off the end as often as it occurs. */
  function TrimEndMatches(s: string, pattern: string): (r: string)
    ensures r <= s
    ensures pattern != [] ==> !(|r| >= |pattern| && r[|r| - |pattern|..] == pattern)
    decreases |s|
  {
    if pattern != [] && |s| >= |pattern| && s[|s| - |pattern|..] == pattern then
      TrimEndMatches(s[..|s| - |pattern|], pattern)
    else s
  }

  /** The positions at or after `start`, shifted down by it (`filter_map`). */
  function PositionsFrom(positions: seq<nat>, start: nat): (r: seq<nat>)
    ensures forall q: nat :: q in r <==> q + start in positions
  {
    if positions == [] then []
    else
      assert positions == [positions[0]] + positions[1..];
      var rest := PositionsFrom(positions[1..], start);
      if positions[0] >= start then [positions[0] - start] + rest else rest
  }

  /** The positions below `bound` (`retain`). */
  function PositionsBelow(positions: seq<nat>, bound: nat): (r: seq<nat>)
    ensures forall p :: p in r <==> p in positions && p < bound
  {
    if positions == [] then []
    else
      assert positions == [positions[0]] + positions[1..];
      var rest := PositionsBelow(positions[1..], bound);
      if positions[0] < bound then [positions[0]] + rest else rest
  }

  datatype Labels = Labels(fileName: string, fileNamePositions: seq<nat>, fullPath: string, pathPositions: seq<nat>)

  function FileNameOf(m: PathMatch): string
  {
    if m.path == [] then m.pathPrefix else Last(m.path)
  }

  /** The byte offset of the file name in the prefixed path. */
  function FileNameStart(m: PathMatch): (n: nat)
    ensures n + Utf8Len(FileNameOf(m)) == Utf8Len(m.pathPrefix) + Utf8Len(JoinPath(m.path))
  {
    var joined := JoinPath(m.path);
    if m.path != [] then
      JoinPathEndsWithLast(m.path);
      Utf8LenConcat(joined[..|joined| - |Last(m.path)|], Last(m.path));
      Utf8Len(m.pathPrefix) + Utf8Len(joined) - Utf8Len(FileNameOf(m))
    else
      Utf8Len(m.pathPrefix) + Utf8Len(joined) - Utf8Len(FileNameOf(m))
  }

  /**
   * `labels_for_path_match`: the file name with the match positions inside
   * it, and the text before the file name with the positions that fall in it.
   */
  function LabelsForPathMatch(m: PathMatch): (r: Labels)
    ensures r.fileName == FileNameOf(m)
    ensures forall q: nat ::
      q in r.fileNamePositions <==> q + FileNameStart(m) in m.positions
    ensures r.fullPath <= m.pathPrefix + JoinPath(m.path)
    ensures forall p :: p in r.pathPositions <==> p in m.positions && p < Utf8Len(r.fullPath)
  {
    var fullPath := m.pathPrefix + JoinPath(m.path);
    var fileName := FileNameOf(m);
    var trimmed := TrimEndMatches(fullPath, fileName);
    var fromName := PositionsFrom(m.positions, FileNameStart(m));
    var beforeName := PositionsBelow(m.positions, Utf8Len(trimmed));
    Labels(fileName, fromName, trimmed, beforeName)
  }

  predicate NormalComponent(c: string)
  {
    c != [] && '/' !in c
  }

  lemma TrimOnce(t: string, pattern: string)
    requires pattern != [] && pattern[|pattern| - 1] != '/'
    requires t == [] || t[|t| - 1] == '/'
    ensures TrimEndMatches(t + pattern, pattern) == t
  {
    assert (t + pattern)[|t + pattern| - |pattern|..] == pattern;
    assert (t + pattern)[..|t + pattern| - |pattern|] == t;
  }

  lemma JoinPathSplit(p: Path)
    requires |p| > 1
    ensures JoinPath(p) == JoinPath(p[..|p| - 1]) + "/" + p[|p| - 1]
  {
  }

  /**
   * For a path of normal components under a prefix ending in `/` (or none),
   * the labels split the full path exactly into the directory part and the
   * file name, at the file name's start.
   */
  lemma LabelsSplitPath(m: PathMatch)
    requires m.path != [] && forall c | c in m.path :: NormalComponent(c)
    requires m.pathPrefix == [] || m.pathPrefix[|m.pathPrefix| - 1] == '/'
    ensures LabelsForPathMatch(m).fullPath + LabelsForPathMatch(m).fileName == m.pathPrefix + JoinPath(m.path)
    ensures Utf8Len(LabelsForPathMatch(m).fullPath) == FileNameStart(m)
  {
    assert Last(m.path) in m.path;
    var dir := DirectoryPart(m);
    var name := Last(m.path);
    assert LabelsForPathMatch(m).fullPath == dir;
    Utf8LenConcat(dir, name);
    Utf8LenConcat(m.pathPrefix, JoinPath(m.path));
    assert FileNameStart(m) + Utf8Len(name) == Utf8Len(dir) + Utf8Len(name);
  }

  /** The text before the file name, which trimming the name off leaves. */
  lemma DirectoryPart(m: PathMatch) returns (dir: string)
    requires m.path != [] && NormalComponent(Last(m.path))
    requires m.pathPrefix == [] || m.pathPrefix[|m.pathPrefix| - 1] == '/'
    ensures m.pathPrefix + JoinPath(m.path) == dir + Last(m.path)
    ensures TrimEndMatches(dir + Last(m.path), Last(m.path)) == dir
  {
    var name := Last(m.path);
    assert name[|name| - 1] != '/' by {
      assert name[|name| - 1] in name;
    }
    if |m.path| > 1 {
      var parent := JoinPath(m.path[..|m.path| - 1]);
      JoinPathSplit(m.path);
      dir := m.pathPrefix + parent + "/";
      calc {
        m.pathPrefix + JoinPath(m.path);
        m.pathPrefix + (parent + "/" + name);
        { assert parent + "/" + name == (parent + "/") + name; }
        m.pathPrefix + ((parent + "/") + name);
        (m.pathPrefix + (parent + "/")) + name;
        { assert m.pathPrefix + (parent + "/") == m.pathPrefix + parent + "/"; }
        dir + name;
      }
    } else {
      dir := m.pathPrefix;
      assert JoinPath(m.path) == name;
    }
    TrimOnce(dir, name);
  }

  /** Positions are byte offsets: in `é/a.rs` the file name starts at byte 3, and a match on its `a` is position 0 of the name. */
  lemma AccentedDirectoryLabels()
    ensures FileNameStart(PathMatch(0, [3], 0, ["é", "a.rs"], "", 0)) == 3
    ensures LabelsForPathMatch(PathMatch(0, [3], 0, ["é", "a.rs"], "", 0)) == Labels("a.rs", [0], "é/", [])
  {
    var m := PathMatch(0, [3], 0, ["é", "a.rs"], "", 0);
    AccentedPath();
    AccentedLengths();
    assert FileNameOf(m) == "a.rs";
    assert m.pathPrefix + JoinPath(m.path) == "é/a.rs";
    assert TrimEndMatches("é/a.rs", "a.rs") == "é/" by {
      TrimOnce("é/", "a.rs");
    }
    assert PositionsFrom([3], 3) == [0];
    assert PositionsBelow([3], 3) == [];
  }

  lemma AccentedPath()
    ensures JoinPath(["é", "a.rs"]) == "é/a.rs"
  {
    var p := ["é", "a.rs"];
    JoinPathSplit(p);
    assert p[..1] == ["é"];
    assert "é" + "/" + "a.rs" == "é/a.rs";
  }

  /** `é` takes two bytes. */
  lemma AccentedLengths()
    ensures Utf8Len("é/") == 3 && Utf8Len("a.rs") == 4 && Utf8Len("é/a.rs") == 7
  {
    assert Utf8Width('é') == 2;
    assert "é/"[1..] == "/";
    assert "é/a.rs" == "é/" + "a.rs";
    Utf8LenConcat("é/", "a.rs");
  }
}
