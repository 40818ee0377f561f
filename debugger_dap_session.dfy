/**
 * The per-adapter client state of the project's debugger: the modules and
 * loaded sources an adapter reported, the cache of requests in flight, and
 * the commands each user action issues. A debug session owns one such
 * client per adapter id.
 *
 * The asynchronous request tasks are not modelled. Each command a client
 * issues is appended to `issued`; where it goes is the pure function
 * `RouteRequest`.
 */
module DebuggerDapSession {
  import opened Wrappers
  import opened DapTypes
  import C = DapCommand

  // ------------------------------------------------------------ Sequences

  /** `Vec::retain`: the elements satisfying `p`, in their order. */
  function Retain<T>(xs: seq<T>, p: T -> bool): (r: seq<T>)
    ensures |r| <= |xs|
    ensures forall x | x in r :: x in xs && p(x)
    ensures forall x | x in xs && p(x) :: x in r
    ensures (forall x | x in xs :: p(x)) ==> r == xs
  {
    if xs == [] then []
    else if p(xs[0]) then [xs[0]] + Retain(xs[1..], p)
    else Retain(xs[1..], p)
  }

  /** The first index whose element satisfies `p`, as `iter().position` finds it. */
  function FirstIndex<T>(xs: seq<T>, p: T -> bool): (r: Option<nat>)
    ensures r.None? ==> forall j | 0 <= j < |xs| :: !p(xs[j])
    ensures r.Some? ==> r.value < |xs| && p(xs[r.value]) && forall j | 0 <= j < r.value :: !p(xs[j])
  {
    if xs == [] then None
    else if p(xs[0]) then Some(0)
    else match FirstIndex(xs[1..], p)
      case None => None
      case Some(i) => Some(i + 1)
  }

  /** `iter_mut().find(p)` followed by an assignment: the first match becomes `x`. */
  function ReplaceFirst<T>(xs: seq<T>, p: T -> bool, x: T): (r: seq<T>)
    ensures |r| == |xs|
    ensures (forall j | 0 <= j < |xs| :: !p(xs[j])) ==> r == xs
    ensures forall j | 0 <= j < |xs| ::
              r[j] == xs[j] || (r[j] == x && p(xs[j]) && forall k | 0 <= k < j :: !p(xs[k]))
    ensures (exists j | 0 <= j < |xs| :: p(xs[j])) ==> x in r
  {
    match FirstIndex(xs, p)
    case None => xs
    case Some(i) => xs[i := x]
  }

  /** Only the first match is replaced: a later element that also matches is kept. */
  lemma ReplaceFirstKeepsLaterMatches<T>(xs: seq<T>, p: T -> bool, x: T, i: nat, j: nat)
    requires i < j < |xs| && p(xs[i]) && p(xs[j])
    ensures ReplaceFirst(xs, p, x)[j] == xs[j]
  {
  }

  // --------------------------------------------------------------- Events

  datatype EventReason = New | Changed | Removed

  datatype ModuleEvent = ModuleEvent(reason: EventReason, moduleInfo: Module)

  datatype LoadedSourceEvent = LoadedSourceEvent(reason: EventReason, source: Source)

  /** `handle_module_event` on the module list. */
  function ApplyModuleEvent(ms: seq<Module>, e: ModuleEvent): (r: seq<Module>)
    ensures e.reason == New ==> r == ms + [e.moduleInfo]
    ensures e.reason == Changed ==>
      |r| == |ms|
      && (forall j | 0 <= j < |ms| && ms[j].id != e.moduleInfo.id :: r[j] == ms[j])
      && ((forall j | 0 <= j < |ms| :: ms[j].id != e.moduleInfo.id) ==> r == ms)
    ensures e.reason == Removed ==>
      (forall m :: m in r <==> m in ms && m.id != e.moduleInfo.id)
  {
    match e.reason
    case New => ms + [e.moduleInfo]
    case Changed => ReplaceFirst(ms, (m: Module) => m.id == e.moduleInfo.id, e.moduleInfo)
    case Removed => Retain(ms, (m: Module) => m.id != e.moduleInfo.id)
  }

  /** After a Changed event for a known id, the announced module is in the list. */
  lemma ChangedModuleIsListed(ms: seq<Module>, e: ModuleEvent, j: nat)
    requires e.reason == Changed && j < |ms| && ms[j].id == e.moduleInfo.id
    ensures e.moduleInfo in ApplyModuleEvent(ms, e)
  {
  }

  /** After a Removed event no module with that id is left. */
  lemma RemovedModuleIsGone(ms: seq<Module>, e: ModuleEvent)
    requires e.reason == Removed
    ensures forall m | m in ApplyModuleEvent(ms, e) :: m.id != e.moduleInfo.id
  {
  }

  /**
   * Which loaded source a Changed event stands for: the one with the same
   * non-zero source reference, else the one with the same path, else the one
   * with the same name.
   */
  function SourceMatches(event: Source, s: Source): (r: bool)
    ensures event.sourceReference.Some? && event.sourceReference.value != 0 ==>
      (r <==> s.sourceReference == event.sourceReference)
    ensures (event.sourceReference.None? || event.sourceReference.value == 0) && event.path.Some? ==>
      (r <==> s.path == event.path)
    ensures (event.sourceReference.None? || event.sourceReference.value == 0) && event.path.None? ==>
      (r <==> s.name == event.name)
  {
    if event.sourceReference.Some? && event.sourceReference.value != 0 then s.sourceReference == event.sourceReference
    else if event.path.Some? then s.path == event.path
    else s.name == event.name
  }

  /** `handle_loaded_source_event` on the loaded-source list. */
  function ApplyLoadedSourceEvent(ss: seq<Source>, e: LoadedSourceEvent): (r: seq<Source>)
    ensures e.reason == New ==> r == ss + [e.source]
    ensures e.reason == Changed ==>
      |r| == |ss|
      && (forall j | 0 <= j < |ss| && !SourceMatches(e.source, ss[j]) :: r[j] == ss[j])
      && ((exists j | 0 <= j < |ss| :: SourceMatches(e.source, ss[j])) ==> e.source in r)
    ensures e.reason == Removed ==> (forall s :: s in r <==> s in ss && s != e.source)
  {
    match e.reason
    case New => ss + [e.source]
    case Changed => ReplaceFirst(ss, (s: Source) => SourceMatches(e.source, s), e.source)
    case Removed => Retain(ss, (s: Source) => s != e.source)
  }

  /** A non-zero source reference takes precedence: a source with only the same path is not replaced. */
  lemma ReferenceTakesPrecedence(ss: seq<Source>, e: LoadedSourceEvent)
    requires e.reason == Changed
    requires e.source.sourceReference.Some? && e.source.sourceReference.value != 0
    requires forall j | 0 <= j < |ss| :: ss[j].sourceReference != e.source.sourceReference
    ensures ApplyLoadedSourceEvent(ss, e) == ss
  {
  }

  // ------------------------------------------------------------- Requests

  /**
   * `RequestSlot` equality: the erased commands must have the same concrete
   * type and, being of that type, be equal.
   */
  function CommandKind(c: C.DapCommand): nat
  {
    match c
    case NextCommand(_) => 0
    case StepInCommand(_) => 1
    case StepOutCommand(_) => 2
    case StepBackCommand(_) => 3
    case ContinueCommand(_, _) => 4
    case PauseCommand(_) => 5
    case DisconnectCommand(_, _, _) => 6
    case TerminateThreadsCommand(_) => 7
    case TerminateCommand(_) => 8
    case RestartCommand(_) => 9
    case VariablesCommand(_, _, _, _, _) => 10
    case SetVariableValueCommand(_, _, _) => 11
    case RestartStackFrameCommand(_) => 12
    case ModulesCommand => 13
    case LoadedSourcesCommand => 14
    case StackTraceCommand(_, _, _) => 15
    case ScopesCommand(_) => 16
    case CompletionsQuery(_, _, _, _) => 17
    case EvaluateCommand(_, _, _, _) => 18
    case ThreadsCommand => 19
    case Initialize(_) => 20
    case ConfigurationDone => 21
    case Launch(_) => 22
    case SetBreakpoints(_, _) => 23
  }

  function SlotsEqual(a: C.DapCommand, b: C.DapCommand): bool
  {
    CommandKind(a) == CommandKind(b) && a == b
  }

  /** Two slots are equal exactly when their commands are, so the cache holds commands. */
  lemma SlotsEqualIsCommandEquality(a: C.DapCommand, b: C.DapCommand)
    ensures SlotsEqual(a, b) <==> a == b
    ensures a != b && CommandKind(a) == CommandKind(b) ==> !SlotsEqual(a, b)
  {
  }

  /** How a client is connected to its adapter. */
  datatype Mode = Local | Remote(upstreamProjectId: nat)

  /** Where a request goes. */
  datatype Route =
    | ToAdapter(command: C.DapCommand)
    | Refused(command: C.DapCommand)
    | ToUpstream(request: C.ProtoRequest)
    | Unroutable(command: C.DapCommand)

  /**
   * `request_dap`: a local client refuses what the adapter does not support
   * and sends the rest; a remote client forwards the command upstream.
   */
  function RouteRequest(mode: Mode, caps: Capabilities, clientId: nat, c: C.DapCommand): (r: Route)
    ensures mode.Local? ==> (r == ToAdapter(c) <==> C.IsSupported(c, caps)) && (r.Refused? <==> !C.IsSupported(c, caps))
    ensures mode.Remote? && r.ToUpstream? ==>
      C.IsRemote(c) && r.request.projectId == mode.upstreamProjectId && C.ClientIdFromProto(r.request) == clientId
      && C.FromProto(r.request) == C.NormalizeCommand(c)
  {
    match mode
    case Local => if C.IsSupported(c, caps) then ToAdapter(c) else Refused(c)
    case Remote(projectId) =>
      if !C.IsRemote(c) then Unroutable(c)
      else match C.ToProto(c, clientId, projectId)
        case Some(request) => ToUpstream(request)
        case None => Unroutable(c)
  }

  /** A remote client never refuses for lack of a capability: the host decides. */
  lemma RemoteNeverRefuses(projectId: nat, caps: Capabilities, clientId: nat, c: C.DapCommand)
    requires C.IsRemote(c) && !c.EvaluateCommand?
    ensures RouteRequest(Remote(projectId), caps, clientId, c).ToUpstream?
  {
  }

  /** The Disconnect that `restart` and `shutdown` fall back to. */
  const TerminatingDisconnect: C.DapCommand := C.DisconnectCommand(Some(false), Some(true), Some(false))

  /** The arguments every step command carries. */
  function StepArguments(caps: Capabilities, threadId: nat, granularity: SteppingGranularity): (s: C.StepCommand)
    ensures s.threadId == threadId
    ensures s.granularity.Some? <==> Flag(caps.supportsSteppingGranularity)
    ensures s.granularity.Some? ==> s.granularity.value == granularity
    ensures s.singleThread == caps.supportsSingleThreadExecutionRequests
  {
    C.StepCommand(
      threadId,
      if Flag(caps.supportsSteppingGranularity) then Some(granularity) else None,
      caps.supportsSingleThreadExecutionRequests)
  }

  /** `restart`: Restart when the adapter supports it, else a terminating Disconnect. */
  function RestartRequest(caps: Capabilities, args: Option<C.JsonValue>): (c: C.DapCommand)
    ensures c.RestartCommand? <==> Flag(caps.supportsRestartRequest)
    ensures c.RestartCommand? ==> c.raw == args.UnwrapOr(C.Null)
    ensures !c.RestartCommand? ==> c == TerminatingDisconnect
    ensures C.IsSupported(c, caps)
  {
    if Flag(caps.supportsRestartRequest) then C.RestartCommand(args.UnwrapOr(C.Null))
    else TerminatingDisconnect
  }

  /** `shutdown`: Terminate when the adapter supports it, else a terminating Disconnect. */
  function ShutdownRequest(caps: Capabilities): (c: C.DapCommand)
    ensures c.TerminateCommand? <==> Flag(caps.supportsTerminateRequest)
    ensures c.TerminateCommand? ==> c.restart == Some(false)
    ensures !c.TerminateCommand? ==> c == TerminatingDisconnect
    ensures C.IsSupported(c, caps)
  {
    if Flag(caps.supportsTerminateRequest) then C.TerminateCommand(Some(false))
    else TerminatingDisconnect
  }

  /** The request cache and the issued commands, as `fetch` changes them. */
  datatype FetchState = FetchState(requests: set<C.DapCommand>, issued: seq<C.DapCommand>)

  function Fetched(s: FetchState, c: C.DapCommand): (r: FetchState)
    ensures c in r.requests && s.requests <= r.requests && r.requests - s.requests <= {c}
    ensures c in s.requests ==> r == s
    ensures c !in s.requests ==> r.issued == s.issued + [c]
  {
    if c in s.requests then s else FetchState(s.requests + {c}, s.issued + [c])
  }

  /** Fetching the same command again changes nothing. */
  lemma FetchIdempotent(s: FetchState, c: C.DapCommand)
    ensures Fetched(Fetched(s, c), c) == Fetched(s, c)
  {
  }

  // --------------------------------------------------------------- Client

  datatype ThreadState = ThreadState(thread: Thread, stackFrames: seq<StackFrame>)

  class Client {
    const mode: Mode
    const clientId: nat
    var capabilities: Capabilities
    var modules: seq<Module>
    var loadedSources: seq<Source>
    var threads: map<nat, ThreadState>
    var requests: set<C.DapCommand>
    var issued: seq<C.DapCommand>

    /** A fresh client: default capabilities and nothing known yet. */
    constructor (clientId: nat, mode: Mode)
      ensures this.clientId == clientId && this.mode == mode
      ensures capabilities == DefaultCapabilities
      ensures modules == [] && loadedSources == [] && threads == map[] && requests == {} && issued == []
    {
      this.clientId := clientId;
      this.mode := mode;
      capabilities := DefaultCapabilities;
      modules := [];
      loadedSources := [];
      threads := map[];
      requests := {};
      issued := [];
    }

    /** `request`: the command is issued whether or not an equal one is in flight. */
    method Request(c: C.DapCommand)
      modifies this
      ensures issued == old(issued) + [c]
      ensures capabilities == old(capabilities) && modules == old(modules) && loadedSources == old(loadedSources)
      ensures threads == old(threads) && requests == old(requests)
    {
      issued := issued + [c];
    }

    /** `fetch`: the command is cached and issued only when no equal one is cached. */
    method Fetch(c: C.DapCommand)
      modifies this
      ensures FetchState(requests, issued) == Fetched(FetchState(old(requests), old(issued)), c)
      ensures capabilities == old(capabilities) && modules == old(modules) && loadedSources == old(loadedSources)
      ensures threads == old(threads)
    {
      if c !in requests {
        requests := requests + {c};
        issued := issued + [c];
      }
    }

    /** `invalidate`: forget the cache, the modules and the loaded sources; threads stay. */
    method Invalidate()
      modifies this
      ensures requests == {} && modules == [] && loadedSources == []
      ensures threads == old(threads) && capabilities == old(capabilities) && issued == old(issued)
    {
      requests := {};
      modules := [];
      loadedSources := [];
    }

    /** `modules`: asks the adapter again and answers with what is known now. */
    method Modules() returns (ms: seq<Module>)
      modifies this
      ensures ms == old(modules)
      ensures issued == old(issued) + [C.ModulesCommand]
      ensures modules == old(modules) && requests == old(requests) && loadedSources == old(loadedSources)
      ensures threads == old(threads) && capabilities == old(capabilities)
    {
      Request(C.ModulesCommand);
      ms := modules;
    }

    /** `loaded_sources`: as `modules`, for sources. */
    method LoadedSources() returns (ss: seq<Source>)
      modifies this
      ensures ss == old(loadedSources)
      ensures issued == old(issued) + [C.LoadedSourcesCommand]
      ensures modules == old(modules) && requests == old(requests) && loadedSources == old(loadedSources)
      ensures threads == old(threads) && capabilities == old(capabilities)
    {
      Request(C.LoadedSourcesCommand);
      ss := loadedSources;
    }

    method HandleModuleEvent(e: ModuleEvent)
      modifies this
      ensures modules == ApplyModuleEvent(old(modules), e)
      ensures loadedSources == old(loadedSources) && requests == old(requests) && issued == old(issued)
      ensures threads == old(threads) && capabilities == old(capabilities)
    {
      match e.reason
      case New => modules := modules + [e.moduleInfo];
      case Changed => modules := ReplaceFirst(modules, (m: Module) => m.id == e.moduleInfo.id, e.moduleInfo);
      case Removed => modules := Retain(modules, (m: Module) => m.id != e.moduleInfo.id);
    }

    method HandleLoadedSourceEvent(e: LoadedSourceEvent)
      modifies this
      ensures loadedSources == ApplyLoadedSourceEvent(old(loadedSources), e)
      ensures modules == old(modules) && requests == old(requests) && issued == old(issued)
      ensures threads == old(threads) && capabilities == old(capabilities)
    {
      match e.reason
      case New => loadedSources := loadedSources + [e.source];
      case Changed => loadedSources := ReplaceFirst(loadedSources, (s: Source) => SourceMatches(e.source, s), e.source);
      case Removed => loadedSources := Retain(loadedSources, (s: Source) => s != e.source);
    }

    method PauseThread(threadId: nat)
      modifies this
      ensures issued == old(issued) + [C.PauseCommand(threadId)]
      ensures modules == old(modules) && loadedSources == old(loadedSources) && requests == old(requests)
      ensures threads == old(threads) && capabilities == old(capabilities)
    {
      Request(C.PauseCommand(threadId));
    }

    method RestartStackFrame(stackFrameId: nat)
      modifies this
      ensures issued == old(issued) + [C.RestartStackFrameCommand(stackFrameId)]
      ensures modules == old(modules) && loadedSources == old(loadedSources) && requests == old(requests)
      ensures threads == old(threads) && capabilities == old(capabilities)
    {
      Request(C.RestartStackFrameCommand(stackFrameId));
    }

    method Restart(args: Option<C.JsonValue>)
      modifies this
      ensures issued == old(issued) + [RestartRequest(old(capabilities), args)]
      ensures modules == old(modules) && loadedSources == old(loadedSources) && requests == old(requests)
      ensures threads == old(threads) && capabilities == old(capabilities)
    {
      if Flag(capabilities.supportsRestartRequest) {
        Request(C.RestartCommand(args.UnwrapOr(C.Null)));
      } else {
        Request(TerminatingDisconnect);
      }
    }

    method Shutdown()
      modifies this
      ensures issued == old(issued) + [ShutdownRequest(old(capabilities))]
      ensures modules == old(modules) && loadedSources == old(loadedSources) && requests == old(requests)
      ensures threads == old(threads) && capabilities == old(capabilities)
    {
      if Flag(capabilities.supportsTerminateRequest) {
        Request(C.TerminateCommand(Some(false)));
      } else {
        Request(TerminatingDisconnect);
      }
    }

    /** `continue_thread`: always asks for this thread alone. */
    method ContinueThread(threadId: nat)
      modifies this
      ensures issued == old(issued) + [C.ContinueCommand(threadId, Some(true))]
      ensures modules == old(modules) && loadedSources == old(loadedSources) && requests == old(requests)
      ensures threads == old(threads) && capabilities == old(capabilities)
    {
      Request(C.ContinueCommand(threadId, Some(true)));
    }

    method StepOver(threadId: nat, granularity: SteppingGranularity)
      modifies this
      ensures issued == old(issued) + [C.NextCommand(StepArguments(old(capabilities), threadId, granularity))]
      ensures modules == old(modules) && loadedSources == old(loadedSources) && requests == old(requests)
      ensures threads == old(threads) && capabilities == old(capabilities)
    {
      Request(C.NextCommand(StepArguments(capabilities, threadId, granularity)));
    }

    method StepIn(threadId: nat, granularity: SteppingGranularity)
      modifies this
      ensures issued == old(issued) + [C.StepInCommand(StepArguments(old(capabilities), threadId, granularity))]
      ensures modules == old(modules) && loadedSources == old(loadedSources) && requests == old(requests)
      ensures threads == old(threads) && capabilities == old(capabilities)
    {
      Request(C.StepInCommand(StepArguments(capabilities, threadId, granularity)));
    }

    method StepOut(threadId: nat, granularity: SteppingGranularity)
      modifies this
      ensures issued == old(issued) + [C.StepOutCommand(StepArguments(old(capabilities), threadId, granularity))]
      ensures modules == old(modules) && loadedSources == old(loadedSources) && requests == old(requests)
      ensures threads == old(threads) && capabilities == old(capabilities)
    {
      Request(C.StepOutCommand(StepArguments(capabilities, threadId, granularity)));
    }

    method StepBack(threadId: nat, granularity: SteppingGranularity)
      modifies this
      ensures issued == old(issued) + [C.StepBackCommand(StepArguments(old(capabilities), threadId, granularity))]
      ensures modules == old(modules) && loadedSources == old(loadedSources) && requests == old(requests)
      ensures threads == old(threads) && capabilities == old(capabilities)
    {
      Request(C.StepBackCommand(StepArguments(capabilities, threadId, granularity)));
    }

    method DisconnectClient()
      modifies this
      ensures issued == old(issued) + [TerminatingDisconnect]
      ensures modules == old(modules) && loadedSources == old(loadedSources) && requests == old(requests)
      ensures threads == old(threads) && capabilities == old(capabilities)
    {
      Request(TerminatingDisconnect);
    }

    /** `terminate_threads`: issued only when the adapter supports it, else nothing happens. */
    method TerminateThreads(threadIds: Option<seq<nat>>)
      modifies this
      ensures Flag(old(capabilities).supportsTerminateThreadsRequest) ==>
        issued == old(issued) + [C.TerminateThreadsCommand(threadIds)]
      ensures !Flag(old(capabilities).supportsTerminateThreadsRequest) ==> issued == old(issued)
      ensures modules == old(modules) && loadedSources == old(loadedSources) && requests == old(requests)
      ensures threads == old(threads) && capabilities == old(capabilities)
    {
      if Flag(capabilities.supportsTerminateThreadsRequest) {
        Request(C.TerminateThreadsCommand(threadIds));
      }
    }

    /** `stack_frames`: fetches the whole trace and answers with the frames known now. */
    method StackFrames(threadId: nat) returns (frames: seq<StackFrame>)
      modifies this
      ensures frames == (if threadId in old(threads) then old(threads)[threadId].stackFrames else [])
      ensures FetchState(requests, issued)
        == Fetched(FetchState(old(requests), old(issued)), C.StackTraceCommand(threadId, None, None))
      ensures modules == old(modules) && loadedSources == old(loadedSources)
      ensures threads == old(threads) && capabilities == old(capabilities)
    {
      Fetch(C.StackTraceCommand(threadId, None, None));
      frames := if threadId in threads then threads[threadId].stackFrames else [];
    }

    /** The stack-trace response handler: only a known thread takes the frames. */
    method OnStackFrames(threadId: nat, frames: seq<StackFrame>)
      modifies this
      ensures threadId in old(threads) ==> threads == old(threads)[threadId := old(threads)[threadId].(stackFrames := frames)]
      ensures threadId !in old(threads) ==> threads == old(threads)
      ensures modules == old(modules) && loadedSources == old(loadedSources) && requests == old(requests)
      ensures issued == old(issued) && capabilities == old(capabilities)
    {
      if threadId in threads {
        threads := threads[threadId := threads[threadId].(stackFrames := frames)];
      }
    }
  }

  // -------------------------------------------------------------- Session

  datatype SessionMode = LocalSession(configurationLabel: string) | RemoteSession(remoteLabel: string)

  class DebugSession {
    const id: nat
    const mode: SessionMode
    var states: map<nat, Client>
    var ignoreBreakpoints: bool

    constructor NewLocal(id: nat, configurationLabel: string)
      ensures this.id == id && mode == LocalSession(configurationLabel)
      ensures states == map[] && !ignoreBreakpoints
    {
      this.id := id;
      mode := LocalSession(configurationLabel);
      states := map[];
      ignoreBreakpoints := false;
    }

    constructor NewRemote(id: nat, labelText: string, ignoreBreakpoints: bool)
      ensures this.id == id && mode == RemoteSession(labelText)
      ensures states == map[] && this.ignoreBreakpoints == ignoreBreakpoints
    {
      this.id := id;
      mode := RemoteSession(labelText);
      states := map[];
      this.ignoreBreakpoints := ignoreBreakpoints;
    }

    /** The configuration's label for a local session, the stored label for a remote one. */
    function Name(): (r: string)
      ensures mode.LocalSession? ==> r == mode.configurationLabel
      ensures mode.RemoteSession? ==> r == mode.remoteLabel
    {
      match mode
      case LocalSession(l) => l
      case RemoteSession(l) => l
    }

    function ClientById(clientId: nat): (r: Option<Client>)
      reads this
      ensures r.Some? <==> clientId in states
      ensures r.Some? ==> r.value == states[clientId]
    {
      if clientId in states then Some(states[clientId]) else None
    }

    /** `add_client`: a fresh client for an id not seen before; a known id keeps its state. */
    method AddClient(clientMode: Mode, clientId: nat)
      modifies this
      ensures clientId in old(states) ==> states == old(states)
      ensures clientId !in old(states) ==>
        clientId in states && fresh(states[clientId]) && states == old(states)[clientId := states[clientId]]
        && states[clientId].mode == clientMode && states[clientId].clientId == clientId
        && states[clientId].modules == [] && states[clientId].issued == []
      ensures ignoreBreakpoints == old(ignoreBreakpoints)
    {
      if clientId !in states {
        var state := new Client(clientId, clientMode);
        states := states[clientId := state];
      }
    }

    /** `shutdown_client`: the id is dropped and its client, if any, shuts down. */
    method ShutdownClient(clientId: nat)
      modifies this, states.Values
      ensures states == old(states) - {clientId}
      ensures clientId in old(states) ==>
        var c := old(states)[clientId];
        c.issued == old(c.issued) + [ShutdownRequest(old(c.capabilities))] && c.modules == old(c.modules)
      ensures ignoreBreakpoints == old(ignoreBreakpoints)
    {
      if clientId in states {
        var c := states[clientId];
        states := states - {clientId};
        c.Shutdown();
      }
    }
  }
}
