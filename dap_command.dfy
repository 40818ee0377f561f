/**
 * The debugger commands a project sends to an adapter, and the way a guest
 * forwards them to the host: their protobuf requests and responses, which
 * commands an adapter's capabilities allow, and which responses may be
 * cached. Each command struct is one constructor of `DapCommand`.
 *
 * A session id is carried on the wire as the same number.
 */
module DapCommand {
  import opened Wrappers
  import opened DapTypes
  import P = DapProto
  import PC = ProtoConversions

  // ------------------------------------------------------------- Commands

  datatype StepCommand = StepCommand(
    threadId: nat,
    granularity: Option<SteppingGranularity>,
    singleThread: Option<bool>)

  datatype VariablesArgumentsFilter = Indexed | Named

  datatype ValueFormat = ValueFormat(hex: Option<bool>)

  /** A JSON value, kept as its text; `Null` is `serde_json::Value::Null`. */
  datatype JsonValue = Null | JsonText(text: string)

  datatype DapCommand =
    | NextCommand(step: StepCommand)
    | StepInCommand(step: StepCommand)
    | StepOutCommand(step: StepCommand)
    | StepBackCommand(step: StepCommand)
    | ContinueCommand(threadId: nat, singleThread: Option<bool>)
    | PauseCommand(threadId: nat)
    | DisconnectCommand(restart: Option<bool>, terminateDebuggee: Option<bool>, suspendDebuggee: Option<bool>)
    | TerminateThreadsCommand(threadIds: Option<seq<nat>>)
    | TerminateCommand(restart: Option<bool>)
    | RestartCommand(raw: JsonValue)
    | VariablesCommand(
        variablesReference: nat,
        filter: Option<VariablesArgumentsFilter>,
        start: Option<nat>,
        count: Option<nat>,
        format: Option<ValueFormat>)
    | SetVariableValueCommand(name: string, value: string, variablesReference: nat)
    | RestartStackFrameCommand(stackFrameId: nat)
    | ModulesCommand
    | LoadedSourcesCommand
    | StackTraceCommand(threadId: nat, startFrame: Option<nat>, levels: Option<nat>)
    | ScopesCommand(stackFrameId: nat)
    | CompletionsQuery(query: string, frameId: Option<nat>, column: nat, line: Option<nat>)
    | EvaluateCommand(
        expression: string,
        frameId: Option<nat>,
        context: Option<EvaluateArgumentsContext>,
        source: Option<Source>)
    | ThreadsCommand
      /** The commands below only run locally: they have no protobuf form. */
    | Initialize(adapterId: string)
    | ConfigurationDone
    | Launch(raw: JsonValue)
    | SetBreakpoints(breakpointSource: Source, breakpointLines: seq<nat>)

  predicate IsRemote(c: DapCommand)
  {
    !(c.Initialize? || c.ConfigurationDone? || c.Launch? || c.SetBreakpoints?)
  }

  // ---------------------------------------------------------- Capabilities

  /** The commands whose `is_supported` consults a capability flag. */
  predicate NeedsCapability(c: DapCommand)
  {
    c.StepBackCommand? || c.TerminateThreadsCommand? || c.TerminateCommand? || c.RestartCommand?
    || c.SetVariableValueCommand? || c.RestartStackFrameCommand? || c.ModulesCommand?
    || c.LoadedSourcesCommand? || c.CompletionsQuery? || c.ConfigurationDone?
  }

  /**
   * `is_supported`: true unless the command needs a capability, in which
   * case the adapter must have announced that capability as true.
   */
  function IsSupported(c: DapCommand, caps: Capabilities): (r: bool)
    ensures !NeedsCapability(c) ==> r
    ensures NeedsCapability(c) && caps == DefaultCapabilities ==> !r
    ensures c.StepBackCommand? ==> (r <==> caps.supportsStepBack == Some(true))
    ensures c.TerminateThreadsCommand? ==> (r <==> caps.supportsTerminateThreadsRequest == Some(true))
    ensures c.TerminateCommand? ==> (r <==> caps.supportsTerminateRequest == Some(true))
    ensures c.RestartCommand? ==> (r <==> caps.supportsRestartRequest == Some(true))
    ensures c.SetVariableValueCommand? ==> (r <==> caps.supportsSetVariable == Some(true))
    ensures c.RestartStackFrameCommand? ==> (r <==> caps.supportsRestartFrame == Some(true))
    ensures c.ModulesCommand? ==> (r <==> caps.supportsModulesRequest == Some(true))
    ensures c.LoadedSourcesCommand? ==> (r <==> caps.supportsLoadedSourcesRequest == Some(true))
    ensures c.CompletionsQuery? ==> (r <==> caps.supportsCompletionsRequest == Some(true))
    ensures c.ConfigurationDone? ==> (r <==> caps.supportsConfigurationDoneRequest == Some(true))
  {
    match c
    case StepBackCommand(_) => Flag(caps.supportsStepBack)
    case TerminateThreadsCommand(_) => Flag(caps.supportsTerminateThreadsRequest)
    case TerminateCommand(_) => Flag(caps.supportsTerminateRequest)
    case RestartCommand(_) => Flag(caps.supportsRestartRequest)
    case SetVariableValueCommand(_, _, _) => Flag(caps.supportsSetVariable)
    case RestartStackFrameCommand(_) => Flag(caps.supportsRestartFrame)
    case ModulesCommand => Flag(caps.supportsModulesRequest)
    case LoadedSourcesCommand => Flag(caps.supportsLoadedSourcesRequest)
    case CompletionsQuery(_, _, _, _) => Flag(caps.supportsCompletionsRequest)
    case ConfigurationDone => Flag(caps.supportsConfigurationDoneRequest)
    case _ => true
  }

  /** A flag announced as false is as good as an absent one. */
  lemma FalseFlagUnsupported(caps: Capabilities)
    requires caps.supportsStepBack == Some(false)
    ensures forall s: StepCommand :: !IsSupported(StepBackCommand(s), caps)
    ensures forall s: StepCommand :: IsSupported(NextCommand(s), caps)
  {
  }

  /** `CACHEABLE`: the responses a session may keep and reuse. */
  function Cacheable(c: DapCommand): (r: bool)
    ensures r ==> IsRemote(c)
    ensures r <==> (c.VariablesCommand? || c.ModulesCommand? || c.LoadedSourcesCommand?
                    || c.StackTraceCommand? || c.ScopesCommand? || c.CompletionsQuery? || c.ThreadsCommand?)
  {
    match c
    case VariablesCommand(_, _, _, _, _) => true
    case ModulesCommand => true
    case LoadedSourcesCommand => true
    case StackTraceCommand(_, _, _) => true
    case ScopesCommand(_) => true
    case CompletionsQuery(_, _, _, _) => true
    case ThreadsCommand => true
    case _ => false
  }

  /** No command that changes the debuggee's state is cached. */
  lemma CachedCommandsHaveNoEffect(c: DapCommand)
    requires Cacheable(c)
    ensures !(c.NextCommand? || c.StepInCommand? || c.StepOutCommand? || c.StepBackCommand?
              || c.ContinueCommand? || c.PauseCommand? || c.SetVariableValueCommand?
              || c.EvaluateCommand? || c.TerminateCommand? || c.DisconnectCommand?)
  {
  }

  // -------------------------------------------------------------- Requests

  datatype RequestBody =
    | DapNextRequest(threadId: nat, singleThread: Option<bool>, granularity: Option<int>)
    | DapStepInRequest(threadId: nat, singleThread: Option<bool>, granularity: Option<int>, targetId: Option<nat>)
    | DapStepOutRequest(threadId: nat, singleThread: Option<bool>, granularity: Option<int>)
    | DapStepBackRequest(threadId: nat, singleThread: Option<bool>, granularity: Option<int>)
    | DapContinueRequest(threadId: nat, singleThread: Option<bool>)
    | DapPauseRequest(threadId: nat)
    | DapDisconnectRequest(restart: Option<bool>, terminateDebuggee: Option<bool>, suspendDebuggee: Option<bool>)
    | DapTerminateThreadsRequest(threadIds: seq<nat>)
    | DapTerminateRequest(restart: Option<bool>)
    | DapRestartRequest(rawArgs: JsonValue)
    | VariablesRequest(
        variablesReference: nat,
        filter: Option<VariablesArgumentsFilter>,
        start: Option<nat>,
        count: Option<nat>,
        format: Option<ValueFormat>)
    | DapSetVariableValueRequest(variablesReference: nat, value: string, name: string)
    | DapRestartStackFrameRequest(stackFrameId: nat)
    | DapModulesRequest
    | DapLoadedSourcesRequest
    | DapStackTraceRequest(threadId: nat, startFrame: Option<nat>, stackTraceLevels: Option<nat>)
    | DapScopesRequest(stackFrameId: nat)
    | DapCompletionRequest(frameId: Option<nat>, query: string, column: nat, line: Option<nat>)
    | DapEvaluateRequest(expression: string, frameId: Option<nat>, context: Option<P.DapEvaluateContext>)
    | DapThreadsRequest

  /** Every request message starts with the host's project id and the session id. */
  datatype ProtoRequest = ProtoRequest(projectId: nat, clientId: nat, body: RequestBody)

  /** The number written for a stepping granularity. */
  function GranularityNumber(g: SteppingGranularity): int
  {
    P.SteppingGranularityNumber(PC.SteppingGranularityToProto(g))
  }

  /** `StepCommand::from_proto`'s reading of the number: LINE, INSTRUCTION, anything else is `Statement`. */
  function GranularityFromNumber(n: int): (g: SteppingGranularity)
    ensures forall h: SteppingGranularity :: GranularityNumber(h) == n ==> g == h
    ensures (forall h: SteppingGranularity :: GranularityNumber(h) != n) ==> g == Statement
  {
    assert GranularityNumber(Instruction) == P.SteppingGranularityNumber(P.Instruction);
    assert GranularityNumber(Line) == P.SteppingGranularityNumber(P.Line);
    if n == P.SteppingGranularityNumber(P.Line) then Line
    else if n == P.SteppingGranularityNumber(P.Instruction) then Instruction
    else Statement
  }

  function StepToProtoGranularity(g: Option<SteppingGranularity>): (r: Option<int>)
    ensures StepFromProtoGranularity(r) == g
  {
    match g
    case None => None
    case Some(v) =>
      assert GranularityFromNumber(GranularityNumber(v)) == v;
      Some(GranularityNumber(v))
  }

  function StepFromProtoGranularity(n: Option<int>): (g: Option<SteppingGranularity>)
    ensures g.None? <==> n.None?
  {
    match n
    case None => None
    case Some(k) => Some(GranularityFromNumber(k))
  }

  /** The thread and the single-thread flag are copied; a granularity is read exactly when one was sent. */
  function StepFromProto(threadId: nat, singleThread: Option<bool>, granularity: Option<int>): (r: StepCommand)
    ensures r.threadId == threadId && r.singleThread == singleThread
    ensures r.granularity.None? <==> granularity.None?
    ensures forall g: SteppingGranularity :: granularity == StepToProtoGranularity(Some(g)) ==> r.granularity == Some(g)
  {
    StepCommand(threadId, StepFromProtoGranularity(granularity), singleThread)
  }

  function EvaluateContextToProto(c: Option<EvaluateArgumentsContext>): (r: Option<Option<P.DapEvaluateContext>>)
    ensures r.None? <==> c.Some? && c.value.OtherContext?
  {
    match c
    case None => Some(None)
    case Some(ctx) =>
      match PC.EvaluateArgumentsContextToProto(ctx)
      case None => None
      case Some(p) => Some(Some(p))
  }

  /** prost's getter for an unset enum field: the enum's first value. */
  const DefaultEvaluateContext := P.EvaluateVariables

  /**
   * `to_proto`, defined for the commands that can be forwarded. `None` is
   * the `unreachable!()` of an evaluate context outside the listed ones.
   * Read back with `FromProto`, the request gives the command up to the
   * losses `NormalizeCommand` names, and the session id it was sent for.
   */
  function ToProto(c: DapCommand, clientId: nat, projectId: nat): (r: Option<ProtoRequest>)
    requires IsRemote(c)
    ensures r.None? <==> c.EvaluateCommand? && c.context.Some? && c.context.value.OtherContext?
    ensures r.Some? ==> r.value.projectId == projectId && ClientIdFromProto(r.value) == clientId
    ensures r.Some? ==> FromProto(r.value) == NormalizeCommand(c)
  {
    var body := match c
      case NextCommand(s) => Some(DapNextRequest(s.threadId, s.singleThread, StepToProtoGranularity(s.granularity)))
      case StepInCommand(s) => Some(DapStepInRequest(s.threadId, s.singleThread, StepToProtoGranularity(s.granularity), None))
      case StepOutCommand(s) => Some(DapStepOutRequest(s.threadId, s.singleThread, StepToProtoGranularity(s.granularity)))
      case StepBackCommand(s) => Some(DapStepBackRequest(s.threadId, s.singleThread, StepToProtoGranularity(s.granularity)))
      case ContinueCommand(t, single) => Some(DapContinueRequest(t, single))
      case PauseCommand(t) => Some(DapPauseRequest(t))
      case DisconnectCommand(restart, terminate, suspend) => Some(DapDisconnectRequest(restart, terminate, suspend))
      case TerminateThreadsCommand(ids) => Some(DapTerminateThreadsRequest(ids.UnwrapOr([])))
      case TerminateCommand(restart) => Some(DapTerminateRequest(restart))
      case RestartCommand(raw) => Some(DapRestartRequest(raw))
      case VariablesCommand(reference, _, start, count, _) => Some(VariablesRequest(reference, None, start, count, None))
      case SetVariableValueCommand(name, value, reference) => Some(DapSetVariableValueRequest(reference, value, name))
      case RestartStackFrameCommand(id) => Some(DapRestartStackFrameRequest(id))
      case ModulesCommand => Some(DapModulesRequest)
      case LoadedSourcesCommand => Some(DapLoadedSourcesRequest)
      case StackTraceCommand(t, start, levels) => Some(DapStackTraceRequest(t, start, levels))
      case ScopesCommand(id) => Some(DapScopesRequest(id))
      case CompletionsQuery(query, frame, column, line) => Some(DapCompletionRequest(frame, query, column, line))
      case EvaluateCommand(expression, frame, context, _) =>
        (match EvaluateContextToProto(context)
         case None => None
         case Some(pc) => Some(DapEvaluateRequest(expression, frame, pc)))
      case ThreadsCommand => Some(DapThreadsRequest);
    if body.None? then None else Some(ProtoRequest(projectId, clientId, body.value))
  }

  /** `client_id_from_proto`. */
  function ClientIdFromProto(r: ProtoRequest): nat
  {
    r.clientId
  }

  /** `from_proto`: the command a forwarded request stands for. */
  function FromProto(r: ProtoRequest): (c: DapCommand)
    ensures IsRemote(c)
    ensures c.VariablesCommand? ==> c.filter.None? && c.format.None?
    ensures c.TerminateThreadsCommand? ==> c.threadIds != Some([])
    ensures c.EvaluateCommand? ==> c.context.Some? && c.source.None?
  {
    match r.body
    case DapNextRequest(t, single, g) => NextCommand(StepFromProto(t, single, g))
    case DapStepInRequest(t, single, g, _) => StepInCommand(StepFromProto(t, single, g))
    case DapStepOutRequest(t, single, g) => StepOutCommand(StepFromProto(t, single, g))
    case DapStepBackRequest(t, single, g) => StepBackCommand(StepFromProto(t, single, g))
    case DapContinueRequest(t, single) => ContinueCommand(t, single)
    case DapPauseRequest(t) => PauseCommand(t)
    case DapDisconnectRequest(restart, terminate, suspend) => DisconnectCommand(restart, terminate, suspend)
    case DapTerminateThreadsRequest(ids) => TerminateThreadsCommand(if ids == [] then None else Some(ids))
    case DapTerminateRequest(restart) => TerminateCommand(restart)
    case DapRestartRequest(raw) => RestartCommand(raw)
    case VariablesRequest(reference, _, start, count, _) => VariablesCommand(reference, None, start, count, None)
    case DapSetVariableValueRequest(reference, value, name) => SetVariableValueCommand(name, value, reference)
    case DapRestartStackFrameRequest(id) => RestartStackFrameCommand(id)
    case DapModulesRequest => ModulesCommand
    case DapLoadedSourcesRequest => LoadedSourcesCommand
    case DapStackTraceRequest(t, start, levels) => StackTraceCommand(t, start, levels)
    case DapScopesRequest(id) => ScopesCommand(id)
    case DapCompletionRequest(frame, query, column, line) => CompletionsQuery(query, frame, column, line)
    case DapEvaluateRequest(expression, frame, context) =>
      EvaluateCommand(
        expression, frame,
        Some(PC.EvaluateArgumentsContextFromProto(context.UnwrapOr(DefaultEvaluateContext))),
        None)
    case DapThreadsRequest => ThreadsCommand
  }

  /**
   * What a forwarded command loses: an empty thread list becomes no list,
   * the variables filter and format are dropped, and an evaluate command
   * loses its source and, without a context, gets the default one.
   */
  function NormalizeCommand(c: DapCommand): DapCommand
  {
    match c
    case TerminateThreadsCommand(ids) => TerminateThreadsCommand(if ids == Some([]) then None else ids)
    case VariablesCommand(reference, _, start, count, _) => VariablesCommand(reference, None, start, count, None)
    case EvaluateCommand(expression, frame, context, _) =>
      EvaluateCommand(
        expression, frame,
        if context.None? then Some(PC.EvaluateArgumentsContextFromProto(DefaultEvaluateContext)) else context,
        None)
    case _ => c
  }

  /** The four step commands come back exactly, and so does the session id. */
  lemma StepCommandsRoundTrip(c: DapCommand, clientId: nat, projectId: nat)
    requires c.NextCommand? || c.StepInCommand? || c.StepOutCommand? || c.StepBackCommand?
    ensures ToProto(c, clientId, projectId).Some?
    ensures FromProto(ToProto(c, clientId, projectId).value) == c
    ensures ClientIdFromProto(ToProto(c, clientId, projectId).value) == clientId
  {
  }

  /** A non-empty thread list survives; an empty one comes back as no list. */
  lemma TerminateThreadsRoundTrip(ids: Option<seq<nat>>, clientId: nat, projectId: nat)
    ensures var r := ToProto(TerminateThreadsCommand(ids), clientId, projectId);
      r.Some? && FromProto(r.value) == TerminateThreadsCommand(if ids == Some([]) then None else ids)
  {
  }

  /** Filter and format never reach the host, whatever the command held. */
  lemma VariablesDropsFilterAndFormat(c: DapCommand, clientId: nat, projectId: nat)
    requires c.VariablesCommand?
    ensures var r := ToProto(c, clientId, projectId);
      r.Some? && r.value.body.filter.None? && r.value.body.format.None?
      && FromProto(r.value) == c.(filter := None, format := None)
  {
  }

  // ------------------------------------------------------------- Responses

  /** `Vec<T>::from_proto` over elements whose conversion may panic (`None`). */
  function MapAll<A, B>(xs: seq<A>, f: A -> Option<B>): (r: Option<seq<B>>)
    ensures r.None? <==> exists i | 0 <= i < |xs| :: f(xs[i]).None?
    ensures r.Some? ==> |r.value| == |xs| && forall i | 0 <= i < |xs| :: f(xs[i]) == Some(r.value[i])
  {
    if xs == [] then Some([])
    else
      var head := f(xs[0]);
      var tail := MapAll(xs[1..], f);
      assert (exists i | 0 <= i < |xs| :: f(xs[i]).None?)
        <==> head.None? || exists i | 0 <= i < |xs[1..]| :: f(xs[1..][i]).None? by {
        if exists i | 0 <= i < |xs| :: f(xs[i]).None? {
          var i :| 0 <= i < |xs| && f(xs[i]).None?;
          if i > 0 {
            assert xs[1..][i - 1] == xs[i];
          }
        }
        if exists i | 0 <= i < |xs[1..]| :: f(xs[1..][i]).None? {
          var i :| 0 <= i < |xs[1..]| && f(xs[1..][i]).None?;
          assert xs[i + 1] == xs[1..][i];
        }
      }
      if head.None? || tail.None? then None else Some([head.value] + tail.value)
  }

  /** A list whose every element converts and reads back as its normal form reads back whole. */
  lemma MapAllRoundTrip<A, B>(xs: seq<A>, to: A -> B, from: B -> Option<A>, normal: A -> A)
    requires forall i | 0 <= i < |xs| :: from(to(xs[i])) == Some(normal(xs[i]))
    ensures MapAll(PC.MapSeq(xs, to), from) == Some(PC.MapSeq(xs, normal))
  {
    var ps := PC.MapSeq(xs, to);
    assert forall i | 0 <= i < |ps| :: from(ps[i]) == Some(normal(xs[i]));
    var r := MapAll(ps, from);
    assert r.Some?;
    assert r.value == PC.MapSeq(xs, normal);
  }

  datatype ContinueResponse = ContinueResponse(allThreadsContinued: Option<bool>)

  datatype DapContinueResponse = DapContinueResponse(clientId: nat, allThreadsContinued: Option<bool>)

  function ContinueResponseToProto(clientId: nat, r: ContinueResponse): (p: DapContinueResponse)
    ensures p.clientId == clientId
    ensures ContinueResponseFromProto(p) == r
  {
    DapContinueResponse(clientId, r.allThreadsContinued)
  }

  function ContinueResponseFromProto(p: DapContinueResponse): ContinueResponse
  {
    ContinueResponse(p.allThreadsContinued)
  }

  /** A response message comes back unchanged when written for its own client. */
  lemma ContinueResponseProtoRoundTrip(p: DapContinueResponse)
    ensures ContinueResponseToProto(p.clientId, ContinueResponseFromProto(p)) == p
  {
  }

  /** The variables of a `Variables` response, each without its three dropped fields. */
  function VariablesResponseFromProto(ps: seq<P.DapVariable>): (vs: seq<Variable>)
    ensures |vs| == |ps|
    ensures forall i | 0 <= i < |ps| :: PC.VariableToProto(vs[i]) == ps[i]
  {
    PC.MapSeq(ps, PC.VariableFromProto)
  }

  /** The variables come back in order, each without its three dropped fields. */
  function VariablesResponseToProto(vs: seq<Variable>): (r: seq<P.DapVariable>)
    ensures VariablesResponseFromProto(r)
      == PC.MapSeq(vs, (v: Variable) =>
           v.(presentationHint := None, declarationLocationReference := None, valueLocationReference := None))
  {
    PC.MapSeq(vs, PC.VariableToProto)
  }

  datatype SetVariableResponse = SetVariableResponse(
    value: string,
    typeName: Option<string>,
    variablesReference: Option<nat>,
    namedVariables: Option<nat>,
    indexedVariables: Option<nat>,
    memoryReference: Option<string>)

  datatype DapSetVariableValueResponse = DapSetVariableValueResponse(
    clientId: nat,
    value: string,
    variableType: Option<string>,
    namedVariables: Option<nat>,
    variablesReference: Option<nat>,
    indexedVariables: Option<nat>,
    memoryReference: Option<string>)

  function SetVariableResponseToProto(clientId: nat, r: SetVariableResponse): (p: DapSetVariableValueResponse)
    ensures p.clientId == clientId
    ensures SetVariableResponseFromProto(p) == r
  {
    DapSetVariableValueResponse(
      clientId, r.value, r.typeName, r.namedVariables, r.variablesReference,
      r.indexedVariables, r.memoryReference)
  }

  function SetVariableResponseFromProto(p: DapSetVariableValueResponse): SetVariableResponse
  {
    SetVariableResponse(
      p.value, p.variableType, p.variablesReference, p.namedVariables, p.indexedVariables,
      p.memoryReference)
  }

  /** A response message comes back unchanged when written for its own client. */
  lemma SetVariableResponseProtoRoundTrip(p: DapSetVariableValueResponse)
    ensures SetVariableResponseToProto(p.clientId, SetVariableResponseFromProto(p)) == p
  {
  }

  /** `filter_map(Module::from_proto(..).ok())`: a module without its ids is dropped. */
  function ModulesResponseFromProto(ps: seq<P.DapModule>): (ms: seq<Module>)
    ensures |ms| <= |ps|
    ensures |ms| == |ps| <==> forall i | 0 <= i < |ps| :: PC.ModuleFromProto(ps[i]).Ok?
  {
    if ps == [] then []
    else
      var tail := ModulesResponseFromProto(ps[1..]);
      assert (forall i | 0 <= i < |ps| :: PC.ModuleFromProto(ps[i]).Ok?)
        <==> PC.ModuleFromProto(ps[0]).Ok? && forall i | 0 <= i < |ps[1..]| :: PC.ModuleFromProto(ps[1..][i]).Ok? by {
        if PC.ModuleFromProto(ps[0]).Ok? && forall i | 0 <= i < |ps[1..]| :: PC.ModuleFromProto(ps[1..][i]).Ok? {
          forall i | 0 <= i < |ps|
            ensures PC.ModuleFromProto(ps[i]).Ok?
          {
            if i > 0 {
              assert ps[i] == ps[1..][i - 1];
            }
          }
        }
      }
      match PC.ModuleFromProto(ps[0])
      case Err(_) => tail
      case Ok(m) => [m] + tail
  }

  /** The modules that do convert, in their order: the malformed ones are the only ones lost. */
  lemma {:induction false} ModulesResponseKeepsWellFormed(ps: seq<P.DapModule>)
    ensures ModulesResponseFromProto(ps) == WellFormedModules(ps)
  {
    if ps != [] {
      var init := ps[..|ps| - 1];
      ModulesResponseKeepsWellFormed(init);
      ModulesResponseSnoc(init, ps[|ps| - 1]);
      assert init + [ps[|ps| - 1]] == ps;
    }
  }

  lemma {:induction false} ModulesResponseSnoc(ps: seq<P.DapModule>, p: P.DapModule)
    ensures ModulesResponseFromProto(ps + [p])
      == ModulesResponseFromProto(ps) + (if PC.ModuleFromProto(p).Ok? then [PC.ModuleFromProto(p).value] else [])
  {
    if ps != [] {
      ModulesResponseSnoc(ps[1..], p);
      assert (ps + [p])[1..] == ps[1..] + [p];
    } else {
      assert ps + [p] == [p];
    }
  }

  /** The reference reading: every module that converts, in order. */
  function WellFormedModules(ps: seq<P.DapModule>): seq<Module>
  {
    if ps == [] then []
    else if PC.ModuleFromProto(ps[|ps| - 1]).Ok? then
      WellFormedModules(ps[..|ps| - 1]) + [PC.ModuleFromProto(ps[|ps| - 1]).value]
    else WellFormedModules(ps[..|ps| - 1])
  }

  /** Every module is written with its ids, so each one reads back as itself. */
  function ModulesResponseToProto(ms: seq<Module>): (r: seq<P.DapModule>)
    ensures |r| == |ms| && forall i | 0 <= i < |ms| :: PC.ModuleFromProto(r[i]) == Ok(ms[i])
  {
    PC.MapSeq(ms, PC.ModuleToProto)
  }

  /** Modules sent by the host all come back, in order. */
  lemma {:induction false} ModulesResponseRoundTrip(ms: seq<Module>)
    ensures ModulesResponseFromProto(ModulesResponseToProto(ms)) == ms
  {
    if ms != [] {
      ModulesResponseRoundTrip(ms[1..]);
      assert ModulesResponseToProto(ms)[1..] == ModulesResponseToProto(ms[1..]);
      assert [ms[0]] + ms[1..] == ms;
    }
  }

  /** Loaded sources, stack frames and scopes come back as their normal forms. */
  lemma LoadedSourcesResponseRoundTrip(ss: seq<Source>)
    ensures MapAll(PC.MapSeq(ss, PC.SourceToProto), PC.SourceFromProto)
      == Some(PC.MapSeq(ss, PC.NormalizeSource))
  {
    forall i | 0 <= i < |ss|
      ensures PC.SourceFromProto(PC.SourceToProto(ss[i])) == Some(PC.NormalizeSource(ss[i]))
    {
      PC.SourceRoundTrip(ss[i]);
    }
    MapAllRoundTrip(ss, PC.SourceToProto, PC.SourceFromProto, PC.NormalizeSource);
  }

  function NormalizeStackFrame(f: StackFrame): StackFrame
  {
    f.(source := PC.NormalizeOptionSource(f.source), moduleId := None, presentationHint := None)
  }

  lemma StackTraceResponseRoundTrip(fs: seq<StackFrame>)
    ensures MapAll(PC.MapSeq(fs, PC.StackFrameToProto), PC.StackFrameFromProto)
      == Some(PC.MapSeq(fs, NormalizeStackFrame))
  {
    MapAllRoundTrip(fs, PC.StackFrameToProto, PC.StackFrameFromProto, NormalizeStackFrame);
  }

  function ThreadsResponseFromProto(ps: seq<P.DapThread>): (ts: seq<Thread>)
    ensures |ts| == |ps|
    ensures forall i | 0 <= i < |ps| :: ts[i].id == ps[i].id && ts[i].name == ps[i].name
  {
    PC.MapSeq(ps, PC.ThreadFromProto)
  }

  lemma ThreadsResponseRoundTrip(ts: seq<Thread>)
    ensures ThreadsResponseFromProto(PC.MapSeq(ts, PC.ThreadToProto)) == ts
  {
    PC.MapSeqRoundTrip(ts, PC.ThreadToProto, PC.ThreadFromProto);
  }

  /** The scopes response on the wire: it panics, here `None`, when a scope's hint has no wire value. */
  function ScopesResponseToProto(ss: seq<Scope>): (r: Option<seq<P.DapScope>>)
    ensures r.None? <==> exists i | 0 <= i < |ss| ::
      ss[i].presentationHint.Some? && ss[i].presentationHint.value.OtherScopeHint?
  {
    MapAll(ss, PC.ScopeToProto)
  }

  /** Scopes that can be sent come back in order, their sources in normal form. */
  lemma ScopesResponseRoundTrip(ss: seq<Scope>)
    requires ScopesResponseToProto(ss).Some?
    ensures MapAll(ScopesResponseToProto(ss).value, PC.ScopeFromProto)
      == Some(PC.MapSeq(ss, (s: Scope) => s.(source := PC.NormalizeOptionSource(s.source))))
  {
    var ps := ScopesResponseToProto(ss).value;
    var want := PC.MapSeq(ss, (s: Scope) => s.(source := PC.NormalizeOptionSource(s.source)));
    forall i | 0 <= i < |ps|
      ensures PC.ScopeFromProto(ps[i]) == Some(want[i])
    {
      PC.ScopeRoundTrip(ss[i]);
    }
    var back := MapAll(ps, PC.ScopeFromProto);
    assert back.Some?;
    assert back.value == want;
  }

  /** The completions of a `CompletionsQuery`, item by item. */
  function CompletionsResponseFromProto(ps: seq<P.DapCompletionItem>): (cs: seq<CompletionItem>)
    ensures |cs| == |ps|
    ensures forall i | 0 <= i < |ps| :: cs[i] == PC.CompletionItemFromProto(ps[i]) && cs[i].itemType.Some?
  {
    PC.MapSeq(ps, PC.CompletionItemFromProto)
  }

  /** Completions come back in order, each untyped item with the default type filled in. */
  lemma {:induction false} CompletionsResponseRoundTrip(cs: seq<CompletionItem>)
    ensures CompletionsResponseFromProto(PC.MapSeq(cs, PC.CompletionItemToProto))
      == PC.MapSeq(cs, (c: CompletionItem) => c.(itemType := Some(c.itemType.UnwrapOr(Method))))
  {
    var back := CompletionsResponseFromProto(PC.MapSeq(cs, PC.CompletionItemToProto));
    var want := PC.MapSeq(cs, (c: CompletionItem) => c.(itemType := Some(c.itemType.UnwrapOr(Method))));
    forall i | 0 <= i < |cs|
      ensures back[i] == want[i]
    {
      PC.CompletionItemRoundTrip(cs[i]);
    }
  }

  datatype EvaluateResponse = EvaluateResponse(
    result: string,
    typeName: Option<string>,
    /** The variable presentation hint, kept as its text. */
    presentationHint: Option<string>,
    variablesReference: nat,
    namedVariables: Option<nat>,
    indexedVariables: Option<nat>,
    memoryReference: Option<string>)

  datatype DapEvaluateResponse = DapEvaluateResponse(
    result: string,
    evaluateType: Option<string>,
    variableReference: nat,
    namedVariables: Option<nat>,
    indexedVariables: Option<nat>,
    memoryReference: Option<string>)

  /** The response keeps everything except the presentation hint. */
  function EvaluateResponseToProto(r: EvaluateResponse): (p: DapEvaluateResponse)
    ensures EvaluateResponseFromProto(p) == r.(presentationHint := None)
  {
    DapEvaluateResponse(
      r.result, r.typeName, r.variablesReference, r.namedVariables, r.indexedVariables,
      r.memoryReference)
  }

  /** The message has no presentation hint, so none is read. */
  function EvaluateResponseFromProto(p: DapEvaluateResponse): (r: EvaluateResponse)
    ensures r.presentationHint.None?
  {
    EvaluateResponse(
      p.result, p.evaluateType, None, p.variableReference, p.namedVariables,
      p.indexedVariables, p.memoryReference)
  }

  lemma EvaluateResponseProtoRoundTrip(p: DapEvaluateResponse)
    ensures EvaluateResponseToProto(EvaluateResponseFromProto(p)) == p
  {
  }

  // --------------------------------------------------------- Initialize

  datatype PathFormat = Path | Uri

  datatype InitializeRequestArguments = InitializeRequestArguments(
    clientId: Option<string>,
    clientName: Option<string>,
    adapterId: string,
    locale: Option<string>,
    pathFormat: Option<PathFormat>,
    supportsVariableType: Option<bool>,
    supportsVariablePaging: Option<bool>,
    supportsRunInTerminalRequest: Option<bool>,
    supportsMemoryReferences: Option<bool>,
    supportsProgressReporting: Option<bool>,
    supportsInvalidatedEvent: Option<bool>,
    linesStartAt1: Option<bool>,
    columnsStartAt1: Option<bool>,
    supportsMemoryEvent: Option<bool>,
    supportsArgsCanBeInterpretedByShell: Option<bool>,
    supportsStartDebuggingRequest: Option<bool>)

  /**
   * What the editor tells an adapter about itself: it numbers lines and
   * columns from 1, uses paths, runs commands in a terminal and starts
   * child sessions, and does not page variables or report progress.
   */
  function DapClientCapabilities(adapterId: string): (a: InitializeRequestArguments)
    ensures a.adapterId == adapterId
    ensures a.clientId == Some("zed") && a.clientName == Some("Zed") && a.locale == Some("en-US")
    ensures a.linesStartAt1 == Some(true) && a.columnsStartAt1 == Some(true)
    ensures a.pathFormat == Some(Path)
    ensures a.supportsRunInTerminalRequest == Some(true) && a.supportsStartDebuggingRequest == Some(true)
    ensures a.supportsVariablePaging == Some(false) && a.supportsProgressReporting == Some(false)
  {
    InitializeRequestArguments(
      Some("zed"), Some("Zed"), adapterId, Some("en-US"), Some(Path),
      Some(true), Some(false), Some(true), Some(true), Some(false), Some(false),
      Some(true), Some(true), Some(false), Some(false), Some(true))
  }
}
