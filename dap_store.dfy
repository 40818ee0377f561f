/**
 * The project's debug adapter store: the adapter clients it has started
 * (each starting or running), the capabilities each announced, and the
 * breakpoints of every project path, each remembered by the row it was
 * last seen at and, while its buffer is open, by a text anchor.
 *
 * A buffer is abstracted to the two things the code asks of it: the point
 * an anchor stands at, and the anchor placed at a point with a bias.
 * Capability merging and the adapter processes are not modelled; the
 * merge is a parameter.
 */
module DapStore {
  import opened Wrappers
  import D = DapTypes

  type ClientId = nat
  type Anchor = nat

  const U32Limit: nat := 0x1_0000_0000

  datatype ProjectPath = ProjectPath(worktreeId: nat, path: string)

  datatype Point = Point(row: nat, column: nat)

  datatype Bias = Left | Right

  /** What the code asks of an open buffer. */
  datatype Buffer = Buffer(pointOf: Anchor -> Point, anchorAt: (Point, Bias) -> Anchor)

  /** The state of a client: its start task still running, or the running client's handle. */
  datatype ClientState = Starting | Running(handle: nat)

  /** `cache_position` is a `u32` row. */
  datatype Breakpoint = Breakpoint(activePosition: Option<Anchor>, cachePosition: nat)

  /** `position` is a 1-based `u32` line. */
  datatype SerializedBreakpoint = SerializedBreakpoint(position: nat, path: string)

  datatype SourceBreakpoint = SourceBreakpoint(line: nat)

  /** `u32 + 1`, wrapping as a release build does. */
  function IncU32(x: nat): (r: nat)
    requires x < U32Limit
    ensures r < U32Limit
    ensures x + 1 < U32Limit ==> r == x + 1
    ensures x + 1 == U32Limit ==> r == 0
  {
    (x + 1) % U32Limit
  }

  /** `u32::saturating_sub(1)`. */
  function DecSaturating(x: nat): (r: nat)
    ensures x > 0 ==> r + 1 == x
    ensures x == 0 ==> r == 0
  {
    if x == 0 then 0 else x - 1
  }

  /** The row a breakpoint stands at: its anchor's row when it has one, else the cached row. */
  function Row(bp: Breakpoint, buffer: Buffer): nat
  {
    match bp.activePosition
    case Some(a) => buffer.pointOf(a).row
    case None => bp.cachePosition
  }

  /** `point_for_buffer`. */
  function PointForBuffer(bp: Breakpoint, buffer: Buffer): (p: Point)
    ensures p.row == Row(bp, buffer)
    ensures bp.activePosition.None? ==> p == Point(bp.cachePosition, 0)
  {
    match bp.activePosition
    case Some(a) => buffer.pointOf(a)
    case None => Point(bp.cachePosition, 0)
  }

  /** `to_source_breakpoint` and `source_for_snapshot`: adapters count lines from 1. */
  function ToSourceBreakpoint(bp: Breakpoint, buffer: Buffer): (s: SourceBreakpoint)
    ensures s.line == Row(bp, buffer) + 1
    ensures s.line >= 1
  {
    SourceBreakpoint(
      (match bp.activePosition
       case Some(a) => buffer.pointOf(a).row
       case None => bp.cachePosition) + 1)
  }

  /**
   * `set_active_position`: anchors a breakpoint at the start of its cached
   * row, biased right on the first row; a breakpoint already anchored is
   * left as it is.
   */
  function SetActivePosition(bp: Breakpoint, buffer: Buffer): (r: Breakpoint)
    ensures r.activePosition.Some?
    ensures r.cachePosition == bp.cachePosition
    ensures bp.activePosition.Some? ==> r == bp
    ensures bp.activePosition.None? ==>
      r.activePosition == Some(buffer.anchorAt(Point(bp.cachePosition, 0), if bp.cachePosition == 0 then Right else Left))
  {
    if bp.activePosition.None? then
      var bias := if bp.cachePosition == 0 then Right else Left;
      bp.(activePosition := Some(buffer.anchorAt(Point(bp.cachePosition, 0), bias)))
    else bp
  }

  lemma SetActivePositionIdempotent(bp: Breakpoint, buffer: Buffer)
    ensures SetActivePosition(SetActivePosition(bp, buffer), buffer) == SetActivePosition(bp, buffer)
  {
  }

  /** `to_serialized`: the 1-based line, from the anchor when a buffer is given and the breakpoint has one. */
  function ToSerialized(bp: Breakpoint, buffer: Option<Buffer>, path: string): (s: SerializedBreakpoint)
    requires bp.cachePosition < U32Limit
    requires buffer.Some? && bp.activePosition.Some? ==> buffer.value.pointOf(bp.activePosition.value).row < U32Limit
    ensures s.path == path
    ensures s.position < U32Limit
    ensures buffer.None? || bp.activePosition.None? ==> s.position == IncU32(bp.cachePosition)
  {
    match buffer
    case Some(b) =>
      SerializedBreakpoint(
        match bp.activePosition
        case Some(a) => IncU32(b.pointOf(a).row)
        case None => IncU32(bp.cachePosition),
        path)
    case None => SerializedBreakpoint(IncU32(bp.cachePosition), path)
  }

  /** The breakpoint `deserialize_breakpoints` makes of a serialized one. */
  function Deserialize(s: SerializedBreakpoint): (bp: Breakpoint)
    ensures bp.activePosition.None?
    ensures s.position > 0 ==> bp.cachePosition + 1 == s.position
  {
    Breakpoint(None, DecSaturating(s.position))
  }

  /** `SerializedBreakpoint::to_source_breakpoint`: the stored line is already 1-based. */
  function SerializedToSourceBreakpoint(s: SerializedBreakpoint): (sb: SourceBreakpoint)
    ensures sb.line == s.position
    ensures s.position > 0 ==> sb.line == Deserialize(s).cachePosition + 1
  {
    SourceBreakpoint(s.position)
  }

  /** Serializing without a buffer and reading back restores the cached row, below `u32::MAX`. */
  lemma SerializeRoundTrip(bp: Breakpoint, path: string)
    requires bp.cachePosition + 1 < U32Limit
    ensures Deserialize(ToSerialized(bp, None, path)) == bp.(activePosition := None)
  {
  }

  /** At `u32::MAX` the `+ 1` wraps to 0, which reads back as row 0. */
  lemma SerializeWrapsAtMax(path: string)
    ensures var bp := Breakpoint(None, U32Limit - 1);
      ToSerialized(bp, None, path).position == 0 && Deserialize(ToSerialized(bp, None, path)).cachePosition == 0
  {
  }

  /** A saved breakpoint is sent to an adapter on the line a live one would have been sent on. */
  lemma SerializedLineAgrees(bp: Breakpoint, buffer: Option<Buffer>, path: string)
    requires buffer.Some? || bp.activePosition.None?
    requires bp.cachePosition + 1 < U32Limit
    requires buffer.Some? && bp.activePosition.Some? ==> buffer.value.pointOf(bp.activePosition.value).row + 1 < U32Limit
    ensures var b := if buffer.Some? then buffer.value else Buffer((a: Anchor) => Point(0, 0), (p: Point, bias: Bias) => 0);
      SerializedToSourceBreakpoint(ToSerialized(bp, buffer, path)) == ToSourceBreakpoint(bp, b)
  {
  }

  /** A path's set of breakpoints, empty when the path has none. */
  function BreakpointsAt(bps: map<ProjectPath, set<Breakpoint>>, path: ProjectPath): set<Breakpoint>
  {
    if path in bps then bps[path] else {}
  }

  /** `toggle_breakpoint_for_buffer`'s set update: present goes, absent comes. */
  function FlipBreakpoint(s: set<Breakpoint>, bp: Breakpoint): (r: set<Breakpoint>)
    ensures bp in r <==> bp !in s
    ensures forall b | b != bp :: b in r <==> b in s
  {
    if bp in s then s - {bp} else s + {bp}
  }

  /**
   * `send_changed_breakpoints`' map over a set, collected into a `Vec`: one
   * line per breakpoint, so two breakpoints on the same row give that row
   * twice. The set's iteration order is unspecified, so the lines are a
   * multiset.
   */
  ghost function SourceBreakpoints(s: set<Breakpoint>, buffer: Buffer): (r: multiset<SourceBreakpoint>)
    ensures |r| == |s|
    ensures forall b | b in s :: ToSourceBreakpoint(b, buffer) in r
    ensures forall x | x in r :: exists b | b in s :: ToSourceBreakpoint(b, buffer) == x
  {
    if s == {} then multiset{}
    else
      var b :| b in s;
      SourceBreakpoints(s - {b}, buffer) + multiset{ToSourceBreakpoint(b, buffer)}
  }

  /** Toggling the same breakpoint twice restores the set. */
  lemma FlipBreakpointTwice(s: set<Breakpoint>, bp: Breakpoint)
    ensures FlipBreakpoint(FlipBreakpoint(s, bp), bp) == s
  {
  }

  function ActivatedSet(s: set<Breakpoint>, buffer: Buffer): (r: set<Breakpoint>)
    ensures forall b | b in r :: b.activePosition.Some?
  {
    set b | b in s :: SetActivePosition(b, buffer)
  }

  /** Anchoring a set twice anchors it once. */
  lemma ActivatedSetIdempotent(s: set<Breakpoint>, buffer: Buffer)
    ensures ActivatedSet(ActivatedSet(s, buffer), buffer) == ActivatedSet(s, buffer)
  {
    forall b | b in ActivatedSet(s, buffer)
      ensures SetActivePosition(b, buffer) == b
    {
    }
  }

  /** `sync_open_breakpoints_to_closed_breakpoints`'s map over one set: remember the row, drop the anchor. */
  function ClosedSet(s: set<Breakpoint>, buffer: Buffer): (r: set<Breakpoint>)
    ensures forall b | b in r :: b.activePosition.None?
    ensures forall b | b in s :: Breakpoint(None, Row(b, buffer)) in r
  {
    set b | b in s :: Breakpoint(None, PointForBuffer(b, buffer).row)
  }

  /** The breakpoints after `deserialize_breakpoints` has read `ss` into `bps`, one after the other. */
  function Deserialized(
    bps: map<ProjectPath, set<Breakpoint>>, worktreeId: nat, ss: seq<SerializedBreakpoint>)
    : (r: map<ProjectPath, set<Breakpoint>>)
    ensures forall k | k in bps :: k in r && bps[k] <= r[k]
    ensures forall i | 0 <= i < |ss| ::
              ProjectPath(worktreeId, ss[i].path) in r && Deserialize(ss[i]) in r[ProjectPath(worktreeId, ss[i].path)]
    ensures forall k | k in r && k !in bps :: k.worktreeId == worktreeId
    ensures forall k, b | k in r && b in r[k] ::
              (k in bps && b in bps[k]) || Restored(ss, worktreeId, k, b)
  {
    if ss == [] then bps
    else
      var before := Deserialized(bps, worktreeId, ss[..|ss| - 1]);
      var last := ss[|ss| - 1];
      var key := ProjectPath(worktreeId, last.path);
      var r := before[key := BreakpointsAt(before, key) + {Deserialize(last)}];
      assert forall i | 0 <= i < |ss| - 1 :: ss[i] == ss[..|ss| - 1][i];
      assert Restored(ss, worktreeId, key, Deserialize(last));
      r
  }

  /** `b` is what one of the saved breakpoints `ss` reads back as under the path `k`. */
  predicate Restored(ss: seq<SerializedBreakpoint>, worktreeId: nat, k: ProjectPath, b: Breakpoint)
  {
    exists i | 0 <= i < |ss| :: k == ProjectPath(worktreeId, ss[i].path) && b == Deserialize(ss[i])
  }

  class Store {
    var nextClientId: nat
    var clients: map<ClientId, ClientState>
    var breakpoints: map<ProjectPath, set<Breakpoint>>
    var capabilities: map<ClientId, D.Capabilities>

    /** Every id handed out so far is below the counter. */
    predicate Valid()
      reads this
    {
      (forall id | id in clients :: id < nextClientId)
      && (forall id | id in capabilities :: id < nextClientId)
    }

    constructor ()
      ensures Valid()
      ensures nextClientId == 0 && clients == map[] && breakpoints == map[] && capabilities == map[]
    {
      nextClientId := 0;
      clients := map[];
      breakpoints := map[];
      capabilities := map[];
    }

    /** `next_client_id`: the counter's value, which is then incremented. */
    method NextClientId() returns (id: ClientId)
      requires Valid()
      modifies this
      ensures Valid()
      ensures id == old(nextClientId) && nextClientId == id + 1
      ensures id !in clients && id !in capabilities
      ensures clients == old(clients) && breakpoints == old(breakpoints) && capabilities == old(capabilities)
    {
      id := nextClientId;
      nextClientId := nextClientId + 1;
    }

    /** The handles of the clients that are running. */
    function RunningClients(): (r: set<nat>)
      reads this
      ensures forall h :: h in r <==> exists id | id in clients :: clients[id] == Running(h)
    {
      set id | id in clients && clients[id].Running? :: clients[id].handle
    }

    /** `client_by_id`: only a running client is returned. */
    function ClientById(id: ClientId): (r: Option<nat>)
      reads this
      ensures r.Some? <==> id in clients && clients[id].Running?
      ensures r.Some? ==> clients[id] == Running(r.value)
    {
      if id in clients && clients[id].Running? then Some(clients[id].handle) else None
    }

    /** `capabilities_by_id`: the announced capabilities, or the defaults for an unknown client. */
    function CapabilitiesById(id: ClientId): (r: D.Capabilities)
      reads this
      ensures id !in capabilities ==> r == D.DefaultCapabilities
      ensures id in capabilities ==> r == capabilities[id]
    {
      if id in capabilities then capabilities[id] else D.DefaultCapabilities
    }

    /**
     * `initialize`: only a running client can be initialized. The adapter's
     * answer to the initialize request is a parameter; the capabilities
     * it announces are stored for the client, replacing any it had.
     */
    method Initialize(id: ClientId, response: Result<D.Capabilities, string>) returns (r: Result<(), string>)
      requires Valid()
      modifies this
      ensures Valid()
      ensures old(ClientById(id)).None? ==> r == Err("Could not found client") && capabilities == old(capabilities)
      ensures old(ClientById(id)).Some? && response.Err? ==> r == Err(response.error) && capabilities == old(capabilities)
      ensures old(ClientById(id)).Some? && response.Ok? ==> r.Ok? && capabilities == old(capabilities)[id := response.value]
      ensures old(ClientById(id)).Some? && response.Ok? ==> CapabilitiesById(id) == response.value
      ensures clients == old(clients) && breakpoints == old(breakpoints) && nextClientId == old(nextClientId)
    {
      if ClientById(id).None? {
        return Err("Could not found client");
      }
      if response.Err? {
        return Err(response.error);
      }
      capabilities := capabilities[id := response.value];
      return Ok(());
    }

    /** Merges into a known client's capabilities; an unknown client is ignored. */
    method MergeCapabilitiesForClient(id: ClientId, other: D.Capabilities, merge: (D.Capabilities, D.Capabilities) -> D.Capabilities)
      requires Valid()
      modifies this
      ensures Valid()
      ensures id in old(capabilities) ==> capabilities == old(capabilities)[id := merge(old(capabilities)[id], other)]
      ensures id !in old(capabilities) ==> capabilities == old(capabilities)
      ensures clients == old(clients) && breakpoints == old(breakpoints) && nextClientId == old(nextClientId)
    {
      if id in capabilities {
        capabilities := capabilities[id := merge(capabilities[id], other)];
      }
    }

    /** `start_client`: a fresh id, registered as starting. */
    method StartClient() returns (id: ClientId)
      requires Valid()
      modifies this
      ensures Valid()
      ensures id == old(nextClientId) && nextClientId == old(nextClientId) + 1
      ensures id !in old(clients)
      ensures clients == old(clients)[id := Starting]
      ensures breakpoints == old(breakpoints) && capabilities == old(capabilities)
    {
      id := NextClientId();
      clients := clients[id := Starting];
    }

    /** The end of a start task: the starting client becomes running, or the start fails when it is gone. */
    method CompleteStart(id: ClientId, handle: nat) returns (r: Result<(), string>)
      requires Valid()
      modifies this
      ensures Valid()
      ensures id in old(clients) ==> r.Ok? && clients == old(clients)[id := Running(handle)]
      ensures id !in old(clients) ==> r == Err("Failed to find starting debug client") && clients == old(clients)
      ensures breakpoints == old(breakpoints) && capabilities == old(capabilities) && nextClientId == old(nextClientId)
    {
      if id !in clients {
        return Err("Failed to find starting debug client");
      }
      clients := clients[id := Running(handle)];
      return Ok(());
    }

    /** `shutdown_client`: an unknown id is an error; a known one loses its client and its capabilities. */
    method ShutdownClient(id: ClientId) returns (r: Result<ClientState, string>)
      requires Valid()
      modifies this
      ensures Valid()
      ensures id !in old(clients) ==> r == Err("Could not found client") && clients == old(clients) && capabilities == old(capabilities)
      ensures id in old(clients) ==> r == Ok(old(clients)[id]) && clients == old(clients) - {id} && capabilities == old(capabilities) - {id}
      ensures breakpoints == old(breakpoints) && nextClientId == old(nextClientId)
    {
      if id !in clients {
        return Err("Could not found client");
      }
      var state := clients[id];
      clients := clients - {id};
      capabilities := capabilities - {id};
      return Ok(state);
    }

    /** `toggle_breakpoint_for_buffer`: the path's set gains or loses the breakpoint and stays in the map, even empty. */
    method ToggleBreakpointForBuffer(path: ProjectPath, bp: Breakpoint)
      modifies this
      ensures breakpoints == old(breakpoints)[path := FlipBreakpoint(BreakpointsAt(old(breakpoints), path), bp)]
      ensures clients == old(clients) && capabilities == old(capabilities) && nextClientId == old(nextClientId)
    {
      var set_ := BreakpointsAt(breakpoints, path);
      if bp in set_ {
        set_ := set_ - {bp};
      } else {
        set_ := set_ + {bp};
      }
      breakpoints := breakpoints[path := set_];
    }

    /** The lines sent to running adapters after a change, or nothing when none runs or the path has no set. */
    ghost function ChangedBreakpointLines(path: ProjectPath, buffer: Buffer): (r: Option<multiset<SourceBreakpoint>>)
      reads this
      ensures r.Some? <==> RunningClients() != {} && path in breakpoints
      ensures r.Some? ==> |r.value| == |breakpoints[path]|
      ensures r.Some? ==> forall b | b in breakpoints[path] :: ToSourceBreakpoint(b, buffer) in r.value
      ensures r.Some? ==> forall x | x in r.value :: exists b | b in breakpoints[path] :: ToSourceBreakpoint(b, buffer) == x
    {
      if RunningClients() == {} || path !in breakpoints then None
      else Some(SourceBreakpoints(breakpoints[path], buffer))
    }

    /** `set_active_breakpoints`: every breakpoint of the path gets an anchor in the open buffer. */
    method SetActiveBreakpoints(path: ProjectPath, buffer: Buffer)
      modifies this
      ensures breakpoints == old(breakpoints)[path := ActivatedSet(BreakpointsAt(old(breakpoints), path), buffer)]
      ensures clients == old(clients) && capabilities == old(capabilities) && nextClientId == old(nextClientId)
    {
      var entry := BreakpointsAt(breakpoints, path);
      breakpoints := breakpoints - {path};
      var setBp: set<Breakpoint> := {};
      var rest := entry;
      while rest != {}
        invariant rest <= entry
        invariant setBp == ActivatedSet(entry - rest, buffer)
        decreases |rest|
      {
        var bp :| bp in rest;
        assert ActivatedSet(entry - (rest - {bp}), buffer) == ActivatedSet(entry - rest, buffer) + {SetActivePosition(bp, buffer)};
        setBp := setBp + {SetActivePosition(bp, buffer)};
        rest := rest - {bp};
      }
      assert entry - rest == entry;
      breakpoints := breakpoints[path := setBp];
    }

    /** `sync_open_breakpoints_to_closed_breakpoints`: when the buffer closes, its breakpoints keep only their rows. */
    method SyncOpenBreakpointsToClosedBreakpoints(path: ProjectPath, buffer: Buffer)
      modifies this
      ensures path in old(breakpoints) ==> breakpoints == old(breakpoints)[path := ClosedSet(old(breakpoints)[path], buffer)]
      ensures path !in old(breakpoints) ==> breakpoints == old(breakpoints)
      ensures clients == old(clients) && capabilities == old(capabilities) && nextClientId == old(nextClientId)
    {
      if path in breakpoints {
        var set_ := breakpoints[path];
        breakpoints := breakpoints - {path};
        breakpoints := breakpoints[path := ClosedSet(set_, buffer)];
      }
    }

    /** `deserialize_breakpoints`: each saved breakpoint joins its path's set, unanchored, at the row before its line. */
    method DeserializeBreakpoints(worktreeId: nat, serialized: seq<SerializedBreakpoint>)
      modifies this
      ensures breakpoints == Deserialized(old(breakpoints), worktreeId, serialized)
      ensures clients == old(clients) && capabilities == old(capabilities) && nextClientId == old(nextClientId)
    {
      var i := 0;
      while i < |serialized|
        invariant 0 <= i <= |serialized|
        invariant breakpoints == Deserialized(old(breakpoints), worktreeId, serialized[..i])
        invariant clients == old(clients) && capabilities == old(capabilities) && nextClientId == old(nextClientId)
      {
        var s := serialized[i];
        var key := ProjectPath(worktreeId, s.path);
        assert serialized[..i + 1][..i] == serialized[..i];
        breakpoints := breakpoints[key := BreakpointsAt(breakpoints, key) + {Breakpoint(None, DecSaturating(s.position))}];
        i := i + 1;
      }
      assert serialized[..i] == serialized;
    }
  }
}
