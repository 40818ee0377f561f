/**
 * The running session's stack frame list: the frames of the selected
 * thread, shown with every run of consecutive deemphasized frames folded
 * into one collapsed entry that can be expanded in place.
 *
 * The session that answers `stack_frames` is a parameter: the frames it
 * holds for each thread id.
 */
module StackFrameList {
  import opened Wrappers
  import opened DapTypes

  /** The stack frame presentation hint `deemphasize`. */
  predicate IsDeemphasized(f: StackFrame)
  {
    f.presentationHint == Some("deemphasize")
  }

  predicate AllDeemphasized(fs: seq<StackFrame>)
  {
    forall i | 0 <= i < |fs| :: IsDeemphasized(fs[i])
  }

  datatype StackFrameEntry = Normal(frame: StackFrame) | Collapsed(frames: seq<StackFrame>)

  function FramesOf(e: StackFrameEntry): seq<StackFrame>
  {
    match e
    case Normal(f) => [f]
    case Collapsed(fs) => fs
  }

  /** The frames the entries stand for, in order. */
  function Flatten(es: seq<StackFrameEntry>): seq<StackFrame>
  {
    if es == [] then [] else Flatten(es[..|es| - 1]) + FramesOf(es[|es| - 1])
  }

  lemma FlattenAppend(es: seq<StackFrameEntry>, e: StackFrameEntry)
    ensures Flatten(es + [e]) == Flatten(es) + FramesOf(e)
  {
    assert (es + [e])[..|es|] == es;
  }

  /** A frame entry holds the kind of frame it is for; a collapsed entry is never empty. */
  predicate EntryOk(e: StackFrameEntry)
  {
    match e
    case Normal(f) => !IsDeemphasized(f)
    case Collapsed(fs) => fs != [] && AllDeemphasized(fs)
  }

  /**
   * The shape `build_entries` produces: every entry is of the right kind
   * and no two collapsed entries are next to each other, so each collapsed
   * entry is a whole run of deemphasized frames.
   */
  predicate WellFormed(es: seq<StackFrameEntry>)
  {
    && (forall i | 0 <= i < |es| :: EntryOk(es[i]))
    && (forall i | 0 <= i < |es| - 1 :: !(es[i].Collapsed? && es[i + 1].Collapsed?))
  }

  function Normals(fs: seq<StackFrame>): (es: seq<StackFrameEntry>)
    ensures |es| == |fs|
    ensures forall i | 0 <= i < |fs| :: es[i] == StackFrameEntry.Normal(fs[i])
  {
    if fs == [] then [] else [StackFrameEntry.Normal(fs[0])] + Normals(fs[1..])
  }

  lemma {:induction false} FlattenNormals(fs: seq<StackFrame>)
    ensures Flatten(Normals(fs)) == fs
    decreases |fs|
  {
    if fs != [] {
      var init := fs[..|fs| - 1];
      assert Normals(fs) == Normals(init) + [StackFrameEntry.Normal(fs[|fs| - 1])];
      FlattenAppend(Normals(init), StackFrameEntry.Normal(fs[|fs| - 1]));
      FlattenNormals(init);
    }
  }

  lemma {:induction false} FlattenConcat(a: seq<StackFrameEntry>, b: seq<StackFrameEntry>)
    ensures Flatten(a + b) == Flatten(a) + Flatten(b)
    decreases |b|
  {
    if b == [] {
      assert a + b == a;
    } else {
      var init, last := b[..|b| - 1], b[|b| - 1];
      assert b == init + [last];
      assert a + b == (a + init) + [last];
      calc {
        Flatten(a + b);
      == { FlattenAppend(a + init, last); }
        Flatten(a + init) + FramesOf(last);
      == { FlattenConcat(a, init); }
        Flatten(a) + (Flatten(init) + FramesOf(last));
      == { FlattenAppend(init, last); }
        Flatten(a) + Flatten(b);
      }
    }
  }

  /**
   * The frames of a well-formed list that ends in a collapsed entry: the
   * entry holds the longest deemphasized tail of the frames.
   */
  lemma CollapsedIsWholeRun(es: seq<StackFrameEntry>)
    requires WellFormed(es) && es != [] && es[|es| - 1].Collapsed?
    ensures var init := Flatten(es[..|es| - 1]);
      init == [] || !IsDeemphasized(init[|init| - 1])
  {
    var init := es[..|es| - 1];
    if init != [] {
      assert es[|es| - 2].Normal?;
      assert init == init[..|init| - 1] + [es[|es| - 2]];
      FlattenAppend(init[..|init| - 1], es[|es| - 2]);
    }
  }

  /** The length of the frames without their deemphasized tail. */
  function KeptLength(fs: seq<StackFrame>): (n: nat)
    ensures n <= |fs|
  {
    if fs == [] || !IsDeemphasized(fs[|fs| - 1]) then |fs| else KeptLength(fs[..|fs| - 1])
  }

  /** Cutting the frames after a frame that is not deemphasized leaves exactly the deemphasized tail. */
  lemma {:induction false} KeptLengthOfSplit(p: seq<StackFrame>, r: seq<StackFrame>)
    requires AllDeemphasized(r)
    requires p == [] || !IsDeemphasized(p[|p| - 1])
    ensures KeptLength(p + r) == |p|
    decreases |r|
  {
    if r == [] {
      assert p + r == p;
    } else {
      var s := p + r;
      assert s[|s| - 1] == r[|r| - 1];
      assert s[..|s| - 1] == p + r[..|r| - 1];
      KeptLengthOfSplit(p, r[..|r| - 1]);
    }
  }

  /** Two ways to cut a list into a head that does not end deemphasized and a deemphasized tail agree. */
  lemma RunSplitUnique(p1: seq<StackFrame>, r1: seq<StackFrame>, p2: seq<StackFrame>, r2: seq<StackFrame>)
    requires p1 + r1 == p2 + r2
    requires AllDeemphasized(r1) && AllDeemphasized(r2)
    requires p1 == [] || !IsDeemphasized(p1[|p1| - 1])
    requires p2 == [] || !IsDeemphasized(p2[|p2| - 1])
    ensures p1 == p2 && r1 == r2
  {
    var s := p1 + r1;
    KeptLengthOfSplit(p1, r1);
    KeptLengthOfSplit(p2, r2);
    assert p1 == s[..|p1|] == p2;
    assert r1 == s[|p1|..] == r2;
  }

  lemma WellFormedAppend(es: seq<StackFrameEntry>, e: StackFrameEntry)
    requires WellFormed(es) && EntryOk(e)
    requires e.Collapsed? && es != [] ==> es[|es| - 1].Normal?
    ensures WellFormed(es + [e])
  {
  }

  lemma WellFormedPrefix(es: seq<StackFrameEntry>)
    requires WellFormed(es) && es != []
    ensures WellFormed(es[..|es| - 1])
  {
  }

  /** The last frame of well-formed entries tells whether the last entry is normal. */
  lemma LastFrame(es: seq<StackFrameEntry>)
    requires WellFormed(es) && es != []
    ensures Flatten(es) != []
    ensures var s := Flatten(es); es[|es| - 1].Normal? <==> !IsDeemphasized(s[|s| - 1])
    ensures var s := Flatten(es); es[|es| - 1].Normal? ==> es[|es| - 1] == StackFrameEntry.Normal(s[|s| - 1])
    ensures var s := Flatten(es); es[|es| - 1].Normal? ==> Flatten(es[..|es| - 1]) == s[..|s| - 1]
  {
    var e := es[|es| - 1];
    assert EntryOk(e);
    var s := Flatten(es);
    assert s == Flatten(es[..|es| - 1]) + FramesOf(e);
    assert s[|s| - 1] == FramesOf(e)[|FramesOf(e)| - 1];
  }

  /** Two well-formed lists of entries with the same frames end in the same entry. */
  lemma LastEntryAgrees(a: seq<StackFrameEntry>, b: seq<StackFrameEntry>)
    requires WellFormed(a) && WellFormed(b) && Flatten(a) == Flatten(b)
    requires a != [] && b != []
    ensures a[|a| - 1] == b[|b| - 1]
    ensures Flatten(a[..|a| - 1]) == Flatten(b[..|b| - 1])
  {
    LastFrame(a);
    LastFrame(b);
    var ea, eb := a[|a| - 1], b[|b| - 1];
    if ea.Collapsed? {
      LastCollapsedAgrees(a, b);
    }
  }

  lemma LastCollapsedAgrees(a: seq<StackFrameEntry>, b: seq<StackFrameEntry>)
    requires WellFormed(a) && WellFormed(b) && Flatten(a) == Flatten(b)
    requires a != [] && b != [] && a[|a| - 1].Collapsed? && b[|b| - 1].Collapsed?
    ensures a[|a| - 1] == b[|b| - 1]
    ensures Flatten(a[..|a| - 1]) == Flatten(b[..|b| - 1])
  {
    var ia, ib := a[..|a| - 1], b[..|b| - 1];
    var ea, eb := a[|a| - 1], b[|b| - 1];
    assert Flatten(a) == Flatten(ia) + ea.frames && Flatten(b) == Flatten(ib) + eb.frames;
    CollapsedIsWholeRun(a);
    CollapsedIsWholeRun(b);
    RunSplitUnique(Flatten(ia), ea.frames, Flatten(ib), eb.frames);
  }

  /** Well-formed entries are determined by the frames they flatten to. */
  lemma {:induction false} EntriesUnique(a: seq<StackFrameEntry>, b: seq<StackFrameEntry>)
    requires WellFormed(a) && WellFormed(b) && Flatten(a) == Flatten(b)
    ensures a == b
    decreases |a|
  {
    if a == [] || b == [] {
      assert a == [] && b == [];
    } else {
      LastEntryAgrees(a, b);
      var ia, ib := a[..|a| - 1], b[..|b| - 1];
      WellFormedPrefix(a);
      WellFormedPrefix(b);
      EntriesUnique(ia, ib);
      assert a == ia + [a[|a| - 1]] && b == ib + [b[|b| - 1]];
    }
  }

  /**
   * What `build_entries` holds between two frames: the entries so far are
   * well formed and end in a normal frame, and the deemphasized frames
   * gathered since then have not yet been emitted.
   */
  predicate Gathering(es: seq<StackFrameEntry>, collapsed: seq<StackFrame>)
  {
    && WellFormed(es) && AllDeemphasized(collapsed)
    && (es != [] ==> es[|es| - 1].Normal?)
  }

  /** The entries with the gathered frames emitted as one collapsed entry, when there are any. */
  function Close(es: seq<StackFrameEntry>, collapsed: seq<StackFrame>): seq<StackFrameEntry>
  {
    if collapsed == [] then es else es + [Collapsed(collapsed)]
  }

  lemma CloseLast(es: seq<StackFrameEntry>, collapsed: seq<StackFrame>)
    requires Gathering(es, collapsed)
    ensures WellFormed(Close(es, collapsed))
    ensures Flatten(Close(es, collapsed)) == Flatten(es) + collapsed
  {
    if collapsed == [] {
      assert Flatten(es) + collapsed == Flatten(es);
    } else {
      FlattenAppend(es, Collapsed(collapsed));
      WellFormedAppend(es, Collapsed(collapsed));
    }
  }

  lemma GatherStep(es: seq<StackFrameEntry>, collapsed: seq<StackFrame>, f: StackFrame)
    requires Gathering(es, collapsed) && IsDeemphasized(f)
    ensures Gathering(es, collapsed + [f])
    ensures Flatten(es) + (collapsed + [f]) == Flatten(es) + collapsed + [f]
  {
  }

  lemma NormalStep(es: seq<StackFrameEntry>, collapsed: seq<StackFrame>, f: StackFrame)
    requires Gathering(es, collapsed) && !IsDeemphasized(f)
    ensures var es' := Close(es, collapsed) + [StackFrameEntry.Normal(f)];
      Gathering(es', []) && Flatten(es') + [] == Flatten(es) + collapsed + [f]
  {
    CloseLast(es, collapsed);
    var closed := Close(es, collapsed);
    FlattenAppend(closed, StackFrameEntry.Normal(f));
    WellFormedAppend(closed, StackFrameEntry.Normal(f));
    assert Flatten(closed + [StackFrameEntry.Normal(f)]) + [] == Flatten(closed + [StackFrameEntry.Normal(f)]);
  }

  /** `line.saturating_sub(1) as u32`: the 0-based row, cut to 32 bits. */
  function TargetRow(line: nat): (row: nat)
    ensures row < 0x1_0000_0000
    ensures 0 < line <= 0x1_0000_0000 ==> row == line - 1
    ensures line == 0 ==> row == 0
  {
    (if line == 0 then 0 else line - 1) % 0x1_0000_0000
  }

  /**
   * `abs_path_from_stack_frame`: the path of the frame's source, when the
   * frame has a source and that source has a path.
   */
  function FramePath(frame: StackFrame): (p: Option<string>)
    ensures p.Some? <==> frame.source.Some? && frame.source.value.path.Some?
    ensures p.Some? ==> p.value == frame.source.value.path.value
  {
    match frame.source
    case None => None
    case Some(src) => src.path
  }

  /** Where the editor is sent: a path and a 0-based row in it. */
  datatype Location = Location(path: string, row: nat)

  class StackFrameList {
    var threadId: Option<nat>
    var entries: seq<StackFrameEntry>
    var currentStackFrameId: nat

    /** `new`: no thread, no entries, frame id 0. */
    constructor ()
      ensures threadId == None && entries == [] && currentStackFrameId == 0
    {
      threadId := None;
      entries := [];
      currentStackFrameId := 0;
    }

    /** `stack_frames`: the session's frames for the thread, none without a thread. */
    function StackFrames(framesOf: nat -> seq<StackFrame>): (r: seq<StackFrame>)
      reads this`threadId
      ensures threadId == None ==> r == []
      ensures threadId.Some? ==> r == framesOf(threadId.value)
    {
      match threadId
      case None => []
      case Some(t) => framesOf(t)
    }

    /**
     * `build_entries`: one pass over the frames, gathering deemphasized
     * frames and emitting them as one collapsed entry before the next
     * normal frame and at the end.
     */
    method BuildEntries(framesOf: nat -> seq<StackFrame>)
      modifies this
      ensures Flatten(entries) == StackFrames(framesOf)
      ensures WellFormed(entries)
      ensures threadId == old(threadId) && currentStackFrameId == old(currentStackFrameId)
    {
      var frames := StackFrames(framesOf);
      var es: seq<StackFrameEntry> := [];
      var collapsed: seq<StackFrame> := [];
      for i := 0 to |frames|
        invariant Flatten(es) + collapsed == frames[..i]
        invariant Gathering(es, collapsed)
        invariant unchanged(this)
      {
        assert frames[..i + 1] == frames[..i] + [frames[i]];
        if IsDeemphasized(frames[i]) {
          GatherStep(es, collapsed, frames[i]);
          collapsed := collapsed + [frames[i]];
        } else {
          var closed := Close(es, collapsed);
          NormalStep(es, collapsed, frames[i]);
          es := closed + [StackFrameEntry.Normal(frames[i])];
          collapsed := [];
        }
      }
      CloseLast(es, collapsed);
      assert frames[..|frames|] == frames;
      entries := Close(es, collapsed);
    }

    /** `set_thread_id`: the new thread and its entries. */
    method SetThreadId(t: Option<nat>, framesOf: nat -> seq<StackFrame>)
      modifies this
      ensures threadId == t
      ensures Flatten(entries) == StackFrames(framesOf) && WellFormed(entries)
      ensures currentStackFrameId == old(currentStackFrameId)
    {
      threadId := t;
      BuildEntries(framesOf);
    }

    /** `expand_collapsed_entry`: entry `ix` is replaced by one normal entry per frame. */
    method ExpandCollapsedEntry(ix: nat, frames: seq<StackFrame>)
      requires ix < |entries|
      modifies this
      ensures entries == old(entries)[..ix] + Normals(frames) + old(entries)[ix + 1..]
      ensures |entries| == |old(entries)| - 1 + |frames|
      ensures old(entries)[ix] == Collapsed(frames) ==> Flatten(entries) == Flatten(old(entries))
      ensures threadId == old(threadId) && currentStackFrameId == old(currentStackFrameId)
    {
      var before, after := entries[..ix], entries[ix + 1..];
      assert entries == before + [entries[ix]] + after;
      ExpandKeepsFrames(before, frames, after);
      if entries[ix] == Collapsed(frames) {
        FlattenConcat(before + [entries[ix]], after);
        FlattenAppend(before, entries[ix]);
      }
      entries := before + Normals(frames) + after;
    }

    /**
     * `select_stack_frame`: the frame becomes the current one whether or
     * not the editor is to follow. When it is, the result is the frame's
     * path and row, or the error "Project path not found" when the frame
     * has no source path; otherwise there is nowhere to go.
     */
    method SelectStackFrame(frame: StackFrame, goToStackFrame: bool) returns (r: Result<Option<Location>, string>)
      modifies this
      ensures currentStackFrameId == frame.id
      ensures r.Err? <==> goToStackFrame && FramePath(frame).None?
      ensures r.Err? ==> r.error == "Project path not found"
      ensures (r.Ok? && r.value.Some?) <==> goToStackFrame && frame.source.Some? && frame.source.value.path.Some?
      ensures r.Ok? && r.value.Some? ==>
        r.value.value == Location(frame.source.value.path.value, TargetRow(frame.line))
      ensures threadId == old(threadId) && entries == old(entries)
    {
      currentStackFrameId := frame.id;
      if !goToStackFrame {
        return Ok(None);
      }
      var row := TargetRow(frame.line);
      var path := FramePath(frame);
      if path.None? {
        return Err("Project path not found");
      }
      return Ok(Some(Location(path.value, row)));
    }
  }

  /** Replacing a collapsed entry by its frames as normal entries leaves the frames as they were. */
  lemma ExpandKeepsFrames(before: seq<StackFrameEntry>, frames: seq<StackFrame>, after: seq<StackFrameEntry>)
    ensures Flatten(before + Normals(frames) + after) == Flatten(before) + frames + Flatten(after)
  {
    FlattenConcat(before + Normals(frames), after);
    FlattenConcat(before, Normals(frames));
    FlattenNormals(frames);
  }
}
