/**
 * The collaboration protocol's debugger messages (the `Dap*` messages of
 * the `proto` crate), seen from the code that fills and reads them.
 * Enum-typed fields that the code hands over with `.into()` and reads back
 * with `from_i32` are kept as enum values; the fields the code writes and
 * reads as raw `i32` numbers are kept as `int`, with the enum numbering of
 * the schema given by the `...Number` functions below.
 */
module DapProto {
  import opened Wrappers

  datatype DapScopePresentationHint = Locals | Arguments | Registers | ReturnValue | ScopeUnknown

  datatype DapSourcePresentationHint = SourceNormal | Emphasize | Deemphasize | SourceUnknown

  datatype DapChecksumAlgorithm = ChecksumAlgorithmUnspecified | Md5 | Sha1 | Sha256 | Timestamp

  datatype DapChecksum = DapChecksum(algorithm: DapChecksumAlgorithm, checksum: string)

  /** `adapter_data` is left out: the code always writes its default and never reads it. */
  datatype DapSource = DapSource(
    name: Option<string>,
    path: Option<string>,
    sourceReference: Option<int>,
    presentationHint: Option<DapSourcePresentationHint>,
    origin: Option<string>,
    sources: seq<DapSource>,
    checksums: seq<DapChecksum>)

  datatype DapScope = DapScope(
    name: string,
    presentationHint: Option<DapScopePresentationHint>,
    variablesReference: nat,
    namedVariables: Option<nat>,
    indexedVariables: Option<nat>,
    expensive: bool,
    source: Option<DapSource>,
    line: Option<nat>,
    endLine: Option<nat>,
    column: Option<nat>,
    endColumn: Option<nat>)

  datatype DapVariable = DapVariable(
    name: string,
    value: string,
    typeName: Option<string>,
    evaluateName: Option<string>,
    variablesReference: nat,
    namedVariables: Option<nat>,
    indexedVariables: Option<nat>,
    memoryReference: Option<string>)

  /** `module_id` and `presentation_hint` are left out: the code always writes `None` and never reads them. */
  datatype DapStackFrame = DapStackFrame(
    id: nat,
    name: string,
    source: Option<DapSource>,
    line: nat,
    column: nat,
    endLine: Option<nat>,
    endColumn: Option<nat>,
    canRestart: Option<bool>,
    instructionPointerReference: Option<string>)

  /** The `oneof` inside `DapModuleId`. */
  datatype DapModuleIdKind = Number(number: int) | String(text: string)

  datatype DapModuleId = DapModuleId(id: Option<DapModuleIdKind>)

  datatype DapModule = DapModule(
    id: Option<DapModuleId>,
    name: string,
    path: Option<string>,
    isOptimized: Option<bool>,
    isUserCode: Option<bool>,
    version: Option<string>,
    symbolStatus: Option<string>,
    symbolFilePath: Option<string>,
    dateTimeStamp: Option<string>,
    addressRange: Option<string>)

  datatype SteppingGranularity = Statement | Line | Instruction

  datatype DapOutputCategory = ConsoleOutput | Important | Stdout | Stderr | Unknown | Telemetry

  datatype DapOutputEventGroup = Start | StartCollapsed | End

  /** `line` and `column` are `u32` fields. */
  datatype DapOutputEvent = DapOutputEvent(
    category: Option<DapOutputCategory>,
    output: string,
    variablesReference: Option<nat>,
    source: Option<DapSource>,
    line: Option<nat>,
    column: Option<nat>,
    group: Option<DapOutputEventGroup>)

  datatype DapEvaluateContext = EvaluateVariables | Watch | Hover | Repl | Clipboard | EvaluateUnknown

  datatype DapCompletionItemType =
    | Method | Function | Constructor | Field | Variable | Class | Interface | Module
    | Property | Unit | Value | Enum | Keyword | Snippet | Text | Color | CompletionItemFile
    | Reference | Customcolor

  /** The value the `typ()` getter yields for an item without a type: the schema's first value. */
  const DefaultCompletionItemType := Method

  datatype DapCompletionItem = DapCompletionItem(
    itemLabel: string,
    text: Option<string>,
    detail: Option<string>,
    typ: Option<DapCompletionItemType>,
    start: Option<nat>,
    length: Option<nat>,
    selectionStart: Option<nat>,
    selectionLength: Option<nat>,
    sortText: Option<string>)

  datatype DapThread = DapThread(id: nat, name: string)

  datatype ExceptionBreakMode = Never | Always | Unhandled | AlwaysUnhandled

  datatype ExceptionPathSegment = ExceptionPathSegment(negate: Option<bool>, names: seq<string>)

  /** `break_mode` is the raw `i32` of an `ExceptionBreakMode`. */
  datatype ExceptionOptions = ExceptionOptions(path: seq<ExceptionPathSegment>, breakMode: int)

  datatype ExceptionFilterOptions = ExceptionFilterOptions(
    filterId: string,
    condition: Option<string>,
    mode: Option<string>)

  datatype DapBreakpointReason = Pending | Failed

  /**
   * `id` is an `i64`; the positions and `offset` are `u32`; `reason` is the
   * raw `i32` of a `DapBreakpointReason`.
   */
  datatype DapBreakpoint = DapBreakpoint(
    id: Option<int>,
    verified: bool,
    message: Option<string>,
    source: Option<DapSource>,
    line: Option<nat>,
    column: Option<nat>,
    endLine: Option<nat>,
    endColumn: Option<nat>,
    instructionReference: Option<string>,
    offset: Option<nat>,
    reason: Option<int>)

  datatype BreakpointModeApplicability = Source | Exception | Data | InstructionBreakpoint | BreakpointModeUnknown

  /** `applies_to` holds raw `i32`s of `BreakpointModeApplicability`. */
  datatype BreakpointMode = BreakpointMode(
    mode: string,
    labelText: string,
    description: Option<string>,
    appliesTo: seq<int>)

  datatype ExceptionBreakpointsFilter = ExceptionBreakpointsFilter(
    filter: string,
    labelText: string,
    description: Option<string>,
    defaultValue: Option<bool>,
    supportsCondition: Option<bool>,
    conditionDescription: Option<string>)

  /** Repeated fields are plain lists: an empty list is the only way to say "absent". */
  datatype Capabilities = Capabilities(
    supportsConfigurationDoneRequest: Option<bool>,
    supportsStepBack: Option<bool>,
    supportsSetVariable: Option<bool>,
    supportsRestartFrame: Option<bool>,
    supportsCompletionsRequest: Option<bool>,
    supportsModulesRequest: Option<bool>,
    supportsRestartRequest: Option<bool>,
    supportsLoadedSourcesRequest: Option<bool>,
    supportsTerminateThreadsRequest: Option<bool>,
    supportsTerminateRequest: Option<bool>,
    supportsSteppingGranularity: Option<bool>,
    supportsSingleThreadExecutionRequests: Option<bool>,
    exceptionBreakpointFilters: seq<ExceptionBreakpointsFilter>,
    completionTriggerCharacters: seq<string>,
    additionalModuleColumns: seq<string>,
    supportedChecksumAlgorithms: seq<string>,
    breakpointModes: seq<BreakpointMode>)

  /** Schema numbers of `SteppingGranularity`, in declaration order. */
  function SteppingGranularityNumber(g: SteppingGranularity): int
  {
    match g
    case Statement => 0
    case Line => 1
    case Instruction => 2
  }

  /** Schema numbers of `ExceptionBreakMode`, in declaration order. */
  function ExceptionBreakModeNumber(m: ExceptionBreakMode): int
  {
    match m
    case Never => 0
    case Always => 1
    case Unhandled => 2
    case AlwaysUnhandled => 3
  }

  /** Schema numbers of `DapBreakpointReason`, in declaration order. */
  function BreakpointReasonNumber(r: DapBreakpointReason): int
  {
    match r
    case Pending => 0
    case Failed => 1
  }

  /** Schema numbers of `BreakpointModeApplicability`, in declaration order. */
  function ApplicabilityNumber(a: BreakpointModeApplicability): int
  {
    match a
    case Source => 0
    case Exception => 1
    case Data => 2
    case InstructionBreakpoint => 3
    case BreakpointModeUnknown => 4
  }

  /** prost's `BreakpointModeApplicability::from_i32`: the value with that number, if any. */
  function ApplicabilityFromI32(n: int): (r: Option<BreakpointModeApplicability>)
    ensures r.Some? ==> ApplicabilityNumber(r.value) == n
    ensures r.None? ==> forall a: BreakpointModeApplicability :: ApplicabilityNumber(a) != n
  {
    if n == 0 then Some(Source)
    else if n == 1 then Some(Exception)
    else if n == 2 then Some(Data)
    else if n == 3 then Some(InstructionBreakpoint)
    else if n == 4 then Some(BreakpointModeUnknown)
    else None
  }
}
