/**
 * `split_worktree_update`: an iterator that cuts one large `UpdateWorktree`
 * message into chunks of bounded size. The iterator owns the message and
 * drains its lists chunk by chunk; a `done` flag ends it.
 */
module WorktreeUpdateSplit {
  import opened Wrappers

  /** `MAX_WORKTREE_UPDATE_MAX_CHUNK_SIZE` of a non-test build (a test build uses 2). */
  const MaxChunkSize: nat := 256

  datatype Entry = Entry(id: nat, path: string)
  datatype StatusEntry = StatusEntry(repoPath: string, status: int)

  datatype RepositoryEntry = RepositoryEntry(
    workDirectoryId: nat,
    branch: Option<string>,
    branchSummary: Option<string>,
    updatedStatuses: seq<StatusEntry>,
    removedStatuses: seq<string>,
    currentMergeConflicts: seq<string>)

  datatype UpdateWorktree = UpdateWorktree(
    projectId: nat,
    worktreeId: nat,
    rootName: string,
    absPath: string,
    updatedEntries: seq<Entry>,
    removedEntries: seq<nat>,
    scanId: nat,
    isLastUpdate: bool,
    updatedRepositories: seq<RepositoryEntry>,
    removedRepositories: seq<nat>)

  /** The fields every chunk copies from the message. */
  predicate SameHeader(a: UpdateWorktree, b: UpdateWorktree)
  {
    a.projectId == b.projectId && a.worktreeId == b.worktreeId && a.rootName == b.rootName
    && a.absPath == b.absPath && a.scanId == b.scanId
  }

  /** All updated statuses of a list of repositories, in order. */
  function UpdatedStatuses(repos: seq<RepositoryEntry>): seq<StatusEntry>
  {
    if repos == [] then [] else repos[0].updatedStatuses + UpdatedStatuses(repos[1..])
  }

  /** All removed statuses of a list of repositories, in order. */
  function RemovedStatuses(repos: seq<RepositoryEntry>): seq<string>
  {
    if repos == [] then [] else repos[0].removedStatuses + RemovedStatuses(repos[1..])
  }

  lemma {:induction false} UpdatedStatusesAppend(a: seq<RepositoryEntry>, b: seq<RepositoryEntry>)
    ensures UpdatedStatuses(a + b) == UpdatedStatuses(a) + UpdatedStatuses(b)
    decreases |a|
  {
    if a == [] {
      assert a + b == b;
    } else {
      assert (a + b)[1..] == a[1..] + b;
      UpdatedStatusesAppend(a[1..], b);
    }
  }

  lemma {:induction false} RemovedStatusesAppend(a: seq<RepositoryEntry>, b: seq<RepositoryEntry>)
    ensures RemovedStatuses(a + b) == RemovedStatuses(a) + RemovedStatuses(b)
    decreases |a|
  {
    if a == [] {
      assert a + b == b;
    } else {
      assert (a + b)[1..] == a[1..] + b;
      RemovedStatusesAppend(a[1..], b);
    }
  }

  function Min(a: nat, b: nat): nat { if a < b then a else b }

  /**
   * One step of the repository loop on the first repository: the copy that
   * goes into the chunk, holding the first `min(len, limit)` updated and
   * removed statuses, and what stays behind.
   */
  function DrainRepository(repo: RepositoryEntry, limit: nat): (r: (RepositoryEntry, RepositoryEntry))
    ensures r.0.updatedStatuses + r.1.updatedStatuses == repo.updatedStatuses
    ensures r.0.removedStatuses + r.1.removedStatuses == repo.removedStatuses
    ensures |r.0.updatedStatuses| == Min(|repo.updatedStatuses|, limit)
    ensures |r.0.removedStatuses| == Min(|repo.removedStatuses|, limit)
    ensures r.0.workDirectoryId == repo.workDirectoryId && r.0.branch == repo.branch
    ensures r.0.currentMergeConflicts == repo.currentMergeConflicts
  {
    var u := Min(|repo.updatedStatuses|, limit);
    var v := Min(|repo.removedStatuses|, limit);
    assert repo.updatedStatuses[..u] + repo.updatedStatuses[u..] == repo.updatedStatuses;
    assert repo.removedStatuses[..v] + repo.removedStatuses[v..] == repo.removedStatuses;
    (repo.(updatedStatuses := repo.updatedStatuses[..u], removedStatuses := repo.removedStatuses[..v]),
     repo.(updatedStatuses := repo.updatedStatuses[u..], removedStatuses := repo.removedStatuses[v..]))
  }

  function RepositoriesMeasure(repos: seq<RepositoryEntry>): nat
  {
    |repos| + |UpdatedStatuses(repos)| + |RemovedStatuses(repos)|
  }

  /**
   * One iteration of the repository loop: the copy pushed into the chunk
   * and the repository list left behind (the first repository is dropped
   * once both its status lists are empty). Statuses are neither lost nor
   * duplicated, each kind taken is within `limit`, the list shrinks, and a
   * repository that stays behind used up the whole budget.
   */
  function RepositoryStep(repos: seq<RepositoryEntry>, limit: nat): (r: (RepositoryEntry, seq<RepositoryEntry>))
    requires repos != [] && limit > 0
    ensures r.0.updatedStatuses + UpdatedStatuses(r.1) == UpdatedStatuses(repos)
    ensures r.0.removedStatuses + RemovedStatuses(r.1) == RemovedStatuses(repos)
    ensures |r.0.updatedStatuses| <= limit && |r.0.removedStatuses| <= limit
    ensures RepositoriesMeasure(r.1) < RepositoriesMeasure(repos)
    ensures |r.1| == |repos| ==> |r.0.updatedStatuses| + |r.0.removedStatuses| >= limit
  {
    var parts := DrainRepository(repos[0], limit);
    var copy, rest := parts.0, parts.1;
    ConsStatuses(repos[0], repos[1..]);
    assert repos == [repos[0]] + repos[1..];
    if rest.removedStatuses == [] && rest.updatedStatuses == [] then
      (copy, repos[1..])
    else
      ConsStatuses(rest, repos[1..]);
      (copy, [rest] + repos[1..])
  }

  lemma ConsStatuses(r: RepositoryEntry, rs: seq<RepositoryEntry>)
    ensures UpdatedStatuses([r] + rs) == r.updatedStatuses + UpdatedStatuses(rs)
    ensures RemovedStatuses([r] + rs) == r.removedStatuses + RemovedStatuses(rs)
  {
    assert ([r] + rs)[1..] == rs;
  }

  lemma SingletonStatuses(r: RepositoryEntry)
    ensures UpdatedStatuses([r]) == r.updatedStatuses
    ensures RemovedStatuses([r]) == r.removedStatuses
  {
    assert [r][1..] == [];
  }

  /** Moving one step's copy into the chunk keeps every status, in order. */
  lemma TakeStep(taken: seq<RepositoryEntry>, repos: seq<RepositoryEntry>, limit: nat)
    requires repos != [] && limit > 0
    ensures var step := RepositoryStep(repos, limit);
      && UpdatedStatuses(taken + [step.0]) + UpdatedStatuses(step.1) == UpdatedStatuses(taken) + UpdatedStatuses(repos)
      && RemovedStatuses(taken + [step.0]) + RemovedStatuses(step.1) == RemovedStatuses(taken) + RemovedStatuses(repos)
      && |UpdatedStatuses(taken + [step.0])| == |UpdatedStatuses(taken)| + |step.0.updatedStatuses|
      && |RemovedStatuses(taken + [step.0])| == |RemovedStatuses(taken)| + |step.0.removedStatuses|
  {
    var step := RepositoryStep(repos, limit);
    UpdatedStatusesAppend(taken, [step.0]);
    RemovedStatusesAppend(taken, [step.0]);
    SingletonStatuses(step.0);
  }

  /** The iterator returned by `split_worktree_update`; it owns the message's lists. */
  class WorktreeUpdateSplitter {
    /** The message as given; only its header fields are read after construction. */
    const header: UpdateWorktree
    var updatedEntries: seq<Entry>
    var removedEntries: seq<nat>
    var updatedRepositories: seq<RepositoryEntry>
    var removedRepositories: seq<nat>
    var done: bool

    constructor (message: UpdateWorktree)
      ensures header == message && !done
      ensures updatedEntries == message.updatedEntries && removedEntries == message.removedEntries
      ensures updatedRepositories == message.updatedRepositories
      ensures removedRepositories == message.removedRepositories
    {
      header := message;
      updatedEntries := message.updatedEntries;
      removedEntries := message.removedEntries;
      updatedRepositories := message.updatedRepositories;
      removedRepositories := message.removedRepositories;
      done := false;
    }

    function Measure(): nat
      reads this
    {
      |updatedEntries| + |removedEntries| + RepositoriesMeasure(updatedRepositories) + (if done then 0 else 1)
    }

    /**
     * The `while let` loop over the repositories: with a budget of
     * `MaxChunkSize`, it moves status prefixes into the chunk and drops
     * each repository that becomes empty. The chunk's statuses followed by
     * what is left give back the statuses before; each of the two status
     * kinds in the chunk is within the budget.
     */
    method DrainRepositories() returns (taken: seq<RepositoryEntry>)
      modifies this
      ensures UpdatedStatuses(taken) + UpdatedStatuses(updatedRepositories) == UpdatedStatuses(old(updatedRepositories))
      ensures RemovedStatuses(taken) + RemovedStatuses(updatedRepositories) == RemovedStatuses(old(updatedRepositories))
      ensures |UpdatedStatuses(taken)| <= MaxChunkSize && |RemovedStatuses(taken)| <= MaxChunkSize
      ensures RepositoriesMeasure(updatedRepositories) <= RepositoriesMeasure(old(updatedRepositories))
      ensures old(updatedRepositories) != [] ==>
        RepositoriesMeasure(updatedRepositories) < RepositoriesMeasure(old(updatedRepositories))
      ensures updatedEntries == old(updatedEntries) && removedEntries == old(removedEntries)
      ensures removedRepositories == old(removedRepositories) && done == old(done)
    {
      var repos0 := updatedRepositories;
      taken := [];
      var limit: nat := MaxChunkSize;
      while updatedRepositories != []
        invariant 0 < limit <= MaxChunkSize
        invariant updatedEntries == old(updatedEntries) && removedEntries == old(removedEntries)
        invariant removedRepositories == old(removedRepositories) && done == old(done)
        invariant UpdatedStatuses(taken) + UpdatedStatuses(updatedRepositories) == UpdatedStatuses(repos0)
        invariant RemovedStatuses(taken) + RemovedStatuses(updatedRepositories) == RemovedStatuses(repos0)
        invariant |UpdatedStatuses(taken)| + limit <= MaxChunkSize
        invariant |RemovedStatuses(taken)| + limit <= MaxChunkSize
        invariant RepositoriesMeasure(updatedRepositories) <= RepositoriesMeasure(repos0)
        invariant taken == [] ==> updatedRepositories == repos0
        invariant taken != [] ==> RepositoriesMeasure(updatedRepositories) < RepositoriesMeasure(repos0)
        decreases RepositoriesMeasure(updatedRepositories)
      {
        var step := RepositoryStep(updatedRepositories, limit);
        var copy := step.0;
        TakeStep(taken, updatedRepositories, limit);
        taken := taken + [copy];
        updatedRepositories := step.1;
        var drained := |copy.removedStatuses| + |copy.updatedStatuses|;
        limit := if drained >= limit then 0 else limit - drained;
        if limit == 0 {
          break;
        }
      }
    }

    /**
     * A chunk, when the iterator is not yet done: bounded entry prefixes,
     * drained repositories, and the removed repositories and
     * `is_last_update` only when this chunk sets `done`.
     */
    method NextChunk() returns (chunk: UpdateWorktree)
      requires !done
      modifies this
      ensures SameHeader(chunk, header)
      ensures |chunk.updatedEntries| <= MaxChunkSize && |chunk.removedEntries| <= MaxChunkSize
      ensures |UpdatedStatuses(chunk.updatedRepositories)| <= MaxChunkSize
      ensures |RemovedStatuses(chunk.updatedRepositories)| <= MaxChunkSize
      ensures chunk.updatedEntries + updatedEntries == old(updatedEntries)
      ensures chunk.removedEntries + removedEntries == old(removedEntries)
      ensures UpdatedStatuses(chunk.updatedRepositories) + UpdatedStatuses(updatedRepositories)
        == UpdatedStatuses(old(updatedRepositories))
      ensures RemovedStatuses(chunk.updatedRepositories) + RemovedStatuses(updatedRepositories)
        == RemovedStatuses(old(updatedRepositories))
      ensures done == (updatedEntries == [] && removedEntries == [] && updatedRepositories == [])
      ensures chunk.removedRepositories == (if done then old(removedRepositories) else [])
      ensures removedRepositories == (if done then [] else old(removedRepositories))
      ensures chunk.isLastUpdate == (done && header.isLastUpdate)
      ensures Measure() < old(Measure())
    {
      var updatedEntriesChunkSize := Min(|updatedEntries|, MaxChunkSize);
      var chunkUpdatedEntries := updatedEntries[..updatedEntriesChunkSize];
      assert chunkUpdatedEntries + updatedEntries[updatedEntriesChunkSize..] == updatedEntries;
      updatedEntries := updatedEntries[updatedEntriesChunkSize..];

      var removedEntriesChunkSize := Min(|removedEntries|, MaxChunkSize);
      var chunkRemovedEntries := removedEntries[..removedEntriesChunkSize];
      assert chunkRemovedEntries + removedEntries[removedEntriesChunkSize..] == removedEntries;
      removedEntries := removedEntries[removedEntriesChunkSize..];

      var chunkRepositories := DrainRepositories();

      done := updatedEntries == [] && removedEntries == [] && updatedRepositories == [];

      var chunkRemovedRepositories: seq<nat> := [];
      if done {
        chunkRemovedRepositories := removedRepositories;
        removedRepositories := [];
      }

      chunk := UpdateWorktree(
        header.projectId, header.worktreeId, header.rootName, header.absPath,
        chunkUpdatedEntries, chunkRemovedEntries, header.scanId, done && header.isLastUpdate,
        chunkRepositories, chunkRemovedRepositories);
    }

    /** The iterator's `next`: `None` once `done` is set, otherwise the next chunk. */
    method Next() returns (r: Option<UpdateWorktree>)
      modifies this
      ensures old(done) <==> r == None
      ensures old(done) ==> Measure() == old(Measure()) && done
      ensures !old(done) ==> Measure() < old(Measure())
    {
      if done {
        return None;
      }
      var chunk := NextChunk();
      r := Some(chunk);
    }
  }

  function FlattenUpdatedEntries(chunks: seq<UpdateWorktree>): seq<Entry>
  {
    if chunks == [] then [] else FlattenUpdatedEntries(chunks[..|chunks| - 1]) + chunks[|chunks| - 1].updatedEntries
  }

  function FlattenRemovedEntries(chunks: seq<UpdateWorktree>): seq<nat>
  {
    if chunks == [] then [] else FlattenRemovedEntries(chunks[..|chunks| - 1]) + chunks[|chunks| - 1].removedEntries
  }

  function FlattenUpdatedStatuses(chunks: seq<UpdateWorktree>): seq<StatusEntry>
  {
    if chunks == [] then []
    else FlattenUpdatedStatuses(chunks[..|chunks| - 1]) + UpdatedStatuses(chunks[|chunks| - 1].updatedRepositories)
  }

  function FlattenRemovedStatuses(chunks: seq<UpdateWorktree>): seq<string>
  {
    if chunks == [] then []
    else FlattenRemovedStatuses(chunks[..|chunks| - 1]) + RemovedStatuses(chunks[|chunks| - 1].updatedRepositories)
  }

  /** Appending a chunk appends its lists to the flattened lists. */
  lemma FlattenSnoc(chunks: seq<UpdateWorktree>, c: UpdateWorktree)
    ensures FlattenUpdatedEntries(chunks + [c]) == FlattenUpdatedEntries(chunks) + c.updatedEntries
    ensures FlattenRemovedEntries(chunks + [c]) == FlattenRemovedEntries(chunks) + c.removedEntries
    ensures FlattenUpdatedStatuses(chunks + [c]) == FlattenUpdatedStatuses(chunks) + UpdatedStatuses(c.updatedRepositories)
    ensures FlattenRemovedStatuses(chunks + [c]) == FlattenRemovedStatuses(chunks) + RemovedStatuses(c.updatedRepositories)
  {
    assert (chunks + [c])[..|chunks|] == chunks;
  }

  /** A chunk within the size bounds. */
  predicate Bounded(c: UpdateWorktree)
  {
    |c.updatedEntries| <= MaxChunkSize && |c.removedEntries| <= MaxChunkSize
    && |UpdatedStatuses(c.updatedRepositories)| <= MaxChunkSize
    && |RemovedStatuses(c.updatedRepositories)| <= MaxChunkSize
  }

  /** Every chunk is bounded and carries the message's header. */
  predicate AllBounded(chunks: seq<UpdateWorktree>, message: UpdateWorktree)
  {
    forall i | 0 <= i < |chunks| :: Bounded(chunks[i]) && SameHeader(chunks[i], message)
  }

  /** The chunks so far followed by what is left give back the message's lists. */
  predicate Consumed(chunks: seq<UpdateWorktree>, updatedEntries: seq<Entry>, removedEntries: seq<nat>,
                     updatedRepositories: seq<RepositoryEntry>, message: UpdateWorktree)
  {
    FlattenUpdatedEntries(chunks) + updatedEntries == message.updatedEntries
    && FlattenRemovedEntries(chunks) + removedEntries == message.removedEntries
    && FlattenUpdatedStatuses(chunks) + UpdatedStatuses(updatedRepositories) == UpdatedStatuses(message.updatedRepositories)
    && FlattenRemovedStatuses(chunks) + RemovedStatuses(updatedRepositories) == RemovedStatuses(message.updatedRepositories)
  }

  /** Moving one chunk's worth of the remaining lists into the chunks keeps `Consumed`. */
  lemma ConsumedStep(chunks: seq<UpdateWorktree>, c: UpdateWorktree,
                     ue: seq<Entry>, re: seq<nat>, ur: seq<RepositoryEntry>,
                     ue': seq<Entry>, re': seq<nat>, ur': seq<RepositoryEntry>, message: UpdateWorktree)
    requires Consumed(chunks, ue, re, ur, message)
    requires c.updatedEntries + ue' == ue && c.removedEntries + re' == re
    requires UpdatedStatuses(c.updatedRepositories) + UpdatedStatuses(ur') == UpdatedStatuses(ur)
    requires RemovedStatuses(c.updatedRepositories) + RemovedStatuses(ur') == RemovedStatuses(ur)
    ensures Consumed(chunks + [c], ue', re', ur', message)
  {
    FlattenSnoc(chunks, c);
    Shift(FlattenUpdatedEntries(chunks), c.updatedEntries, ue, ue', message.updatedEntries);
    Shift(FlattenRemovedEntries(chunks), c.removedEntries, re, re', message.removedEntries);
    Shift(FlattenUpdatedStatuses(chunks), UpdatedStatuses(c.updatedRepositories),
          UpdatedStatuses(ur), UpdatedStatuses(ur'), UpdatedStatuses(message.updatedRepositories));
    Shift(FlattenRemovedStatuses(chunks), RemovedStatuses(c.updatedRepositories),
          RemovedStatuses(ur), RemovedStatuses(ur'), RemovedStatuses(message.updatedRepositories));
  }

  /** Moving a prefix of what is left to the end of what is done. */
  lemma Shift<T>(done: seq<T>, piece: seq<T>, rest: seq<T>, rest': seq<T>, total: seq<T>)
    requires done + rest == total && piece + rest' == rest
    ensures (done + piece) + rest' == total
  {
  }

  /** Appending a bounded chunk with the message's header keeps `AllBounded`. */
  lemma AllBoundedStep(chunks: seq<UpdateWorktree>, c: UpdateWorktree, message: UpdateWorktree)
    requires AllBounded(chunks, message) && Bounded(c) && SameHeader(c, message)
    ensures AllBounded(chunks + [c], message)
  {
  }

  /** No chunk before position `n` is marked last or carries removed repositories. */
  predicate LastFlagsClear(chunks: seq<UpdateWorktree>, n: nat)
    requires n <= |chunks|
  {
    forall i | 0 <= i < n :: !chunks[i].isLastUpdate && chunks[i].removedRepositories == []
  }

  /** The last chunk carries the message's removed repositories and last-update flag; no earlier one does. */
  predicate FinalChunkComplete(chunks: seq<UpdateWorktree>, message: UpdateWorktree)
  {
    |chunks| >= 1 && LastFlagsClear(chunks, |chunks| - 1)
    && chunks[|chunks| - 1].removedRepositories == message.removedRepositories
    && chunks[|chunks| - 1].isLastUpdate == message.isLastUpdate
  }

  /** The flag invariants after appending a chunk that is final exactly when `isFinal`. */
  lemma FlagsStep(chunks: seq<UpdateWorktree>, c: UpdateWorktree, isFinal: bool, message: UpdateWorktree)
    requires LastFlagsClear(chunks, |chunks|)
    requires c.removedRepositories == (if isFinal then message.removedRepositories else [])
    requires c.isLastUpdate == (isFinal && message.isLastUpdate)
    ensures !isFinal ==> LastFlagsClear(chunks + [c], |chunks| + 1)
    ensures isFinal ==> FinalChunkComplete(chunks + [c], message)
  {
  }

  /**
   * Runs the iterator to the end, as a caller collecting it would. At least
   * one chunk comes out; every chunk is bounded and carries the message's
   * header; concatenating the chunks' lists in order gives back the
   * message's lists; only the last chunk carries the removed repositories
   * and the message's `is_last_update`.
   */
  method SplitWorktreeUpdate(message: UpdateWorktree) returns (chunks: seq<UpdateWorktree>)
    ensures |chunks| >= 1
    ensures AllBounded(chunks, message)
    ensures FlattenUpdatedEntries(chunks) == message.updatedEntries
    ensures FlattenRemovedEntries(chunks) == message.removedEntries
    ensures FlattenUpdatedStatuses(chunks) == UpdatedStatuses(message.updatedRepositories)
    ensures FlattenRemovedStatuses(chunks) == RemovedStatuses(message.updatedRepositories)
    ensures FinalChunkComplete(chunks, message)
  {
    var splitter := new WorktreeUpdateSplitter(message);
    chunks := [];
    while !splitter.done
      invariant splitter.header == message
      invariant AllBounded(chunks, message)
      invariant Consumed(chunks, splitter.updatedEntries, splitter.removedEntries, splitter.updatedRepositories, message)
      invariant !splitter.done ==> splitter.removedRepositories == message.removedRepositories
      invariant !splitter.done ==> LastFlagsClear(chunks, |chunks|)
      invariant splitter.done ==> FinalChunkComplete(chunks, message)
      invariant splitter.done ==>
        splitter.updatedEntries == [] && splitter.removedEntries == [] && splitter.updatedRepositories == []
      decreases splitter.Measure()
    {
      ghost var ue, re, ur := splitter.updatedEntries, splitter.removedEntries, splitter.updatedRepositories;
      var chunk := splitter.NextChunk();
      ConsumedStep(chunks, chunk, ue, re, ur,
                   splitter.updatedEntries, splitter.removedEntries, splitter.updatedRepositories, message);
      AllBoundedStep(chunks, chunk, message);
      FlagsStep(chunks, chunk, splitter.done, message);
      chunks := chunks + [chunk];
    }
    assert UpdatedStatuses([]) == [] && RemovedStatuses([]) == [];

  }
}
