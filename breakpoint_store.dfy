/**
 * The project's breakpoint store: for every file, given by its absolute
 * path, the breakpoints set in it, each at a text anchor. A breakpoint is
 * standard or a log point; two breakpoints are the same when they sit at
 * the same anchor and are of the same kind, whatever their log messages.
 *
 * Anchors are abstracted to numbers whose order is the buffer's order, and
 * a buffer to its id.
 */
module BreakpointStore {
  import opened Wrappers

  type Path = string
  type Anchor = nat
  type BufferId = nat

  datatype BreakpointKind = Standard | Log(message: string)

  /** `to_int`: the kind's wire number. */
  function KindToInt(k: BreakpointKind): (r: int)
    ensures r == 0 || r == 1
    ensures r == 0 <==> k.Standard?
  {
    match k
    case Standard => 0
    case Log(_) => 1
  }

  /** `log_message`: the message of a log point, nothing for a standard breakpoint. */
  function LogMessage(k: BreakpointKind): (r: Option<string>)
    ensures r.Some? <==> k.Log?
    ensures k.Log? ==> r == Some(k.message)
  {
    match k
    case Standard => None
    case Log(m) => Some(m)
  }

  /** `PartialEq for BreakpointKind`: only the variant counts. */
  predicate SameKind(a: BreakpointKind, b: BreakpointKind)
  {
    a.Standard? == b.Standard?
  }

  datatype Breakpoint = Breakpoint(kind: BreakpointKind)

  datatype Placed = Placed(position: Anchor, breakpoint: Breakpoint)

  /** Equality of `(text::Anchor, Breakpoint)` pairs. */
  predicate Same(a: Placed, b: Placed)
  {
    a.position == b.position && SameKind(a.breakpoint.kind, b.breakpoint.kind)
  }

  /** Two log points at one anchor are the same breakpoint, whatever their messages. */
  lemma LogPointsEqualRegardlessOfMessage(position: Anchor, m1: string, m2: string)
    ensures Same(Placed(position, Breakpoint(Log(m1))), Placed(position, Breakpoint(Log(m2))))
    ensures !Same(Placed(position, Breakpoint(Log(m1))), Placed(position, Breakpoint(Standard)))
  {
  }

  predicate Contains(xs: seq<Placed>, p: Placed)
  {
    exists x | x in xs :: Same(x, p)
  }

  /** `retain(|value| &breakpoint != value)`: every entry the same as `p` goes, the rest stay in order. */
  function Without(xs: seq<Placed>, p: Placed): (r: seq<Placed>)
    ensures |r| <= |xs|
    ensures |r| == |xs| <==> !Contains(xs, p)
    ensures forall x :: x in r <==> x in xs && !Same(x, p)
    ensures !Contains(r, p)
  {
    if xs == [] then []
    else
      assert forall x :: x in xs <==> x == xs[0] || x in xs[1..] by {
        assert xs == [xs[0]] + xs[1..];
      }
      var tail := Without(xs[1..], p);
      if Same(xs[0], p) then tail
      else [xs[0]] + tail
  }

  /** A list with nothing the same as `p` is what `retain` leaves alone. */
  lemma {:induction false} WithoutAbsent(xs: seq<Placed>, p: Placed)
    requires !Contains(xs, p)
    ensures Without(xs, p) == xs
  {
    if xs != [] {
      assert xs[0] in xs;
      assert forall x | x in xs[1..] :: x in xs;
      WithoutAbsent(xs[1..], p);
      assert [xs[0]] + xs[1..] == xs;
    }
  }

  lemma {:induction false} WithoutAppend(xs: seq<Placed>, ys: seq<Placed>, p: Placed)
    ensures Without(xs + ys, p) == Without(xs, p) + Without(ys, p)
  {
    if xs == [] {
      assert xs + ys == ys;
    } else {
      var zs := xs + ys;
      assert zs[0] == xs[0];
      assert zs[1..] == xs[1..] + ys;
      WithoutAppend(xs[1..], ys, p);
      if Same(xs[0], p) {
        assert Without(zs, p) == Without(zs[1..], p);
      } else {
        assert Without(zs, p) == [xs[0]] + Without(zs[1..], p);
      }
    }
  }

  /**
   * `Toggle`: remove every breakpoint the same as `p`; when none was removed,
   * append `p`. Afterwards `p` is present exactly when it was absent before.
   */
  function ToggleIn(xs: seq<Placed>, p: Placed): (r: seq<Placed>)
    ensures Contains(r, p) <==> !Contains(xs, p)
    ensures Contains(xs, p) ==> r == Without(xs, p)
    ensures !Contains(xs, p) ==> r == xs + [p]
  {
    var kept := Without(xs, p);
    if |kept| == |xs| then
      WithoutAbsent(xs, p);
      assert Same((kept + [p])[|kept|], p);
      kept + [p]
    else kept
  }

  /** Toggling a breakpoint that is not there, twice, gives back the list. */
  lemma ToggleTwice(xs: seq<Placed>, p: Placed)
    requires !Contains(xs, p)
    ensures ToggleIn(ToggleIn(xs, p), p) == xs
  {
    WithoutAppend(xs, [p], p);
    WithoutAbsent(xs, p);
    assert Without([p], p) == [];
  }

  datatype BreakpointEditAction = Toggle | EditLogMessage(message: string)

  /** The edit of one file's list that `toggle_breakpoint` performs. */
  function EditBreakpoints(xs: seq<Placed>, p: Placed, action: BreakpointEditAction): (r: seq<Placed>)
    ensures action.Toggle? ==> r == ToggleIn(xs, p)
    ensures action.EditLogMessage? && action.message != "" ==>
              r == ToggleIn(xs, p.(breakpoint := Breakpoint(Log(action.message))))
    ensures action.EditLogMessage? && action.message == "" && p.breakpoint.kind.Log? ==> r == Without(xs, p)
    ensures action.EditLogMessage? && action.message == "" && p.breakpoint.kind.Standard? ==> r == xs
  {
    match action
    case Toggle => ToggleIn(xs, p)
    case EditLogMessage(m) =>
      if m != "" then ToggleIn(xs, p.(breakpoint := Breakpoint(Log(m))))
      else if p.breakpoint.kind.Log? then Without(xs, p)
      else xs
  }

  datatype BreakpointsInFile = BreakpointsInFile(buffer: BufferId, breakpoints: seq<Placed>)

  /** No file is kept with an empty list. */
  predicate NoEmptyFiles(bps: map<Path, BreakpointsInFile>)
  {
    forall path | path in bps :: bps[path].breakpoints != []
  }

  /** The store after `toggle_breakpoint`; a buffer without an absolute path changes nothing. */
  function Toggled(
    bps: map<Path, BreakpointsInFile>, absPath: Option<Path>, buffer: BufferId,
    p: Placed, action: BreakpointEditAction): map<Path, BreakpointsInFile>
  {
    if absPath.None? then bps
    else
      var path := absPath.value;
      var file := if path in bps then bps[path] else BreakpointsInFile(buffer, []);
      var edited := EditBreakpoints(file.breakpoints, p, action);
      if edited == [] then bps - {path} else bps[path := file.(breakpoints := edited)]
  }

  /**
   * A toggle touches at most the file it names, keeps that file's buffer
   * when the file was known, and never leaves a file with no breakpoints.
   */
  lemma ToggledFrame(
    bps: map<Path, BreakpointsInFile>, absPath: Option<Path>, buffer: BufferId,
    p: Placed, action: BreakpointEditAction)
    requires NoEmptyFiles(bps)
    ensures var r := Toggled(bps, absPath, buffer, p, action);
      NoEmptyFiles(r)
      && (absPath.None? ==> r == bps)
      && (forall q | absPath != Some(q) :: (q in r <==> q in bps) && (q in r ==> r[q] == bps[q]))
      && (absPath.Some? && absPath.value in r && absPath.value in bps ==>
            r[absPath.value].buffer == bps[absPath.value].buffer)
  {
  }

  /** After a toggle, the file holds `p` exactly when it did not hold it before. */
  lemma ToggledFlipsPresence(bps: map<Path, BreakpointsInFile>, path: Path, buffer: BufferId, p: Placed)
    ensures var r := Toggled(bps, Some(path), buffer, p, Toggle);
      (path in r && Contains(r[path].breakpoints, p))
      <==> !(path in bps && Contains(bps[path].breakpoints, p))
  {
    var before := if path in bps then bps[path].breakpoints else [];
    assert !Contains([], p);
    var edited := ToggleIn(before, p);
    assert edited == [] ==> !Contains(edited, p);
  }

  /** `on_file_rename`: the old path's entry moves to the new path, replacing what was there. */
  function Renamed(bps: map<Path, BreakpointsInFile>, oldPath: Path, newPath: Path): (r: map<Path, BreakpointsInFile>)
    ensures oldPath !in bps ==> r == bps
    ensures oldPath in bps ==> newPath in r && r[newPath] == bps[oldPath]
    ensures oldPath in bps && oldPath != newPath ==> oldPath !in r
    ensures forall q | q != oldPath && q != newPath :: (q in r <==> q in bps) && (q in r ==> r[q] == bps[q])
    ensures NoEmptyFiles(bps) ==> NoEmptyFiles(r)
  {
    if oldPath in bps then (bps - {oldPath})[newPath := bps[oldPath]] else bps
  }

  class Store {
    var breakpoints: map<Path, BreakpointsInFile>
    var activeStackFrame: Option<(Path, Anchor)>
    /** The project id the store is shared under, if it is shared. */
    var downstreamProjectId: Option<nat>

    predicate Valid()
      reads this
    {
      NoEmptyFiles(breakpoints)
    }

    /** `BreakpointStore::local`. */
    constructor Local()
      ensures Valid()
      ensures breakpoints == map[] && activeStackFrame.None? && downstreamProjectId.None?
    {
      breakpoints := map[];
      activeStackFrame := None;
      downstreamProjectId := None;
    }

    method SetShared(projectId: nat)
      modifies this
      ensures downstreamProjectId == Some(projectId)
      ensures breakpoints == old(breakpoints) && activeStackFrame == old(activeStackFrame)
    {
      downstreamProjectId := Some(projectId);
    }

    method SetUnshared()
      modifies this
      ensures downstreamProjectId.None?
      ensures breakpoints == old(breakpoints) && activeStackFrame == old(activeStackFrame)
    {
      downstreamProjectId := None;
    }

    method ToggleBreakpoint(absPath: Option<Path>, buffer: BufferId, breakpoint: Placed, action: BreakpointEditAction)
      requires Valid()
      modifies this
      ensures Valid()
      ensures breakpoints == Toggled(old(breakpoints), absPath, buffer, breakpoint, action)
      ensures activeStackFrame == old(activeStackFrame) && downstreamProjectId == old(downstreamProjectId)
    {
      ToggledFrame(breakpoints, absPath, buffer, breakpoint, action);
      if absPath.None? {
        return;
      }
      var path := absPath.value;
      if path !in breakpoints {
        breakpoints := breakpoints[path := BreakpointsInFile(buffer, [])];
      }
      var file := breakpoints[path];
      var list := file.breakpoints;
      match action {
        case Toggle =>
          var lenBefore := |list|;
          list := Without(list, breakpoint);
          if lenBefore == |list| {
            list := list + [breakpoint];
          }
        case EditLogMessage(message) =>
          if message != "" {
            var logged := breakpoint.(breakpoint := Breakpoint(Log(message)));
            var lenBefore := |list|;
            list := Without(list, logged);
            if lenBefore == |list| {
              list := list + [logged];
            }
          } else if breakpoint.breakpoint.kind.Log? {
            list := Without(list, breakpoint);
          }
      }
      breakpoints := breakpoints[path := file.(breakpoints := list)];
      if list == [] {
        breakpoints := breakpoints - {path};
      }
    }

    method OnFileRename(oldPath: Path, newPath: Path)
      requires Valid()
      modifies this
      ensures Valid()
      ensures breakpoints == Renamed(old(breakpoints), oldPath, newPath)
      ensures activeStackFrame == old(activeStackFrame) && downstreamProjectId == old(downstreamProjectId)
    {
      if oldPath in breakpoints {
        var entry := breakpoints[oldPath];
        breakpoints := breakpoints - {oldPath};
        breakpoints := breakpoints[newPath := entry];
      }
    }

    method SetActivePosition(position: Option<(Path, Anchor)>)
      modifies this
      ensures activeStackFrame == position
      ensures breakpoints == old(breakpoints) && downstreamProjectId == old(downstreamProjectId)
    {
      activeStackFrame := position;
    }

    /**
     * `breakpoints`: the file's breakpoints whose anchors lie in the closed
     * range, or all of them without a range; nothing for an unknown file.
     */
    function BreakpointsIn(absPath: Option<Path>, range: Option<(Anchor, Anchor)>): (r: seq<Placed>)
      reads this
      ensures absPath.None? || absPath.value !in breakpoints ==> r == []
      ensures forall i | 0 <= i < |r| ::
                range.Some? ==> range.value.0 <= r[i].position <= range.value.1
      ensures absPath.Some? && absPath.value in breakpoints && range.None? ==>
                r == breakpoints[absPath.value].breakpoints
    {
      if absPath.None? || absPath.value !in breakpoints then []
      else InRange(breakpoints[absPath.value].breakpoints, range)
    }
  }

  function InRange(xs: seq<Placed>, range: Option<(Anchor, Anchor)>): (r: seq<Placed>)
    ensures |r| <= |xs|
    ensures forall i | 0 <= i < |r| :: range.Some? ==> range.value.0 <= r[i].position <= range.value.1
    ensures forall x :: x in r <==> x in xs && (range.Some? ==> range.value.0 <= x.position <= range.value.1)
    ensures range.None? ==> r == xs
  {
    if xs == [] then []
    else
      var tail := InRange(xs[1..], range);
      assert forall x :: x in xs <==> x == xs[0] || x in xs[1..] by {
        assert xs == [xs[0]] + xs[1..];
      }
      if range.None? || range.value.0 <= xs[0].position <= range.value.1 then [xs[0]] + tail else tail
  }
}
