/**
 * The Debug Adapter Protocol types that the debugger code converts and
 * stores (the `dap_types` crate, seen from its users). Only the fields the
 * conversions and the bookkeeping touch are kept; integers are unbounded,
 * and the places where the code narrows them are written out where they
 * happen.
 */
module DapTypes {
  import opened Wrappers

  datatype ScopePresentationHint =
    | Locals
    | Arguments
    | Registers
    | ReturnValue
    | Unknown
      /** Any hint outside the listed ones. */
    | OtherScopeHint(hint: string)

  datatype SourcePresentationHint = Normal | Emphasize | Deemphasize | Unknown

  datatype ChecksumAlgorithm = Md5 | Sha1 | Sha256 | Timestamp

  datatype Checksum = Checksum(algorithm: ChecksumAlgorithm, checksum: string)

  /**
   * `Option<Vec<Source>>`, the nested sources of a source. It is a datatype
   * of its own so that recursion over a source's children terminates.
   */
  datatype Sources = NoSources | SourcesOf(items: seq<Source>)

  datatype Source = Source(
    name: Option<string>,
    path: Option<string>,
    sourceReference: Option<int>,
    presentationHint: Option<SourcePresentationHint>,
    origin: Option<string>,
    sources: Sources,
    checksums: Option<seq<Checksum>>,
    /** Adapter-specific JSON data, kept as its text. */
    adapterData: Option<string>)

  datatype Scope = Scope(
    name: string,
    presentationHint: Option<ScopePresentationHint>,
    variablesReference: nat,
    namedVariables: Option<nat>,
    indexedVariables: Option<nat>,
    expensive: bool,
    source: Option<Source>,
    line: Option<nat>,
    endLine: Option<nat>,
    column: Option<nat>,
    endColumn: Option<nat>)

  datatype Variable = Variable(
    name: string,
    value: string,
    typeName: Option<string>,
    evaluateName: Option<string>,
    /** The variable presentation hint record, kept as its text. */
    presentationHint: Option<string>,
    variablesReference: nat,
    namedVariables: Option<nat>,
    indexedVariables: Option<nat>,
    memoryReference: Option<string>,
    declarationLocationReference: Option<nat>,
    valueLocationReference: Option<nat>)

  datatype ModuleId = Number(number: int) | String(text: string)

  datatype StackFrame = StackFrame(
    id: nat,
    name: string,
    source: Option<Source>,
    line: nat,
    column: nat,
    endLine: Option<nat>,
    endColumn: Option<nat>,
    canRestart: Option<bool>,
    instructionPointerReference: Option<string>,
    moduleId: Option<ModuleId>,
    /** The stack frame presentation hint, kept as its text. */
    presentationHint: Option<string>)

  datatype Module = Module(
    id: ModuleId,
    name: string,
    path: Option<string>,
    isOptimized: Option<bool>,
    isUserCode: Option<bool>,
    version: Option<string>,
    symbolStatus: Option<string>,
    symbolFilePath: Option<string>,
    dateTimeStamp: Option<string>,
    addressRange: Option<string>)

  datatype SteppingGranularity = Statement | Line | Instruction

  datatype OutputEventCategory =
    | Console
    | Important
    | Stdout
    | Stderr
    | Unknown
    | Telemetry
      /** Any category outside the listed ones. */
    | OtherCategory(category: string)

  datatype OutputEventGroup = Start | StartCollapsed | End

  datatype OutputEvent = OutputEvent(
    category: Option<OutputEventCategory>,
    output: string,
    group: Option<OutputEventGroup>,
    variablesReference: Option<nat>,
    source: Option<Source>,
    line: Option<nat>,
    column: Option<nat>,
    /** Arbitrary JSON data, kept as its text. */
    data: Option<string>,
    locationReference: Option<nat>)

  datatype EvaluateArgumentsContext =
    | Variables
    | Watch
    | Repl
    | Hover
    | Clipboard
    | Unknown
      /** Any context outside the listed ones. */
    | OtherContext(context: string)

  datatype CompletionItemType =
    | Method | Function | Constructor | Field | Variable | Class | Interface | Module
    | Property | Unit | Value | Enum | Keyword | Snippet | Text | Color | File
    | Reference | Customcolor

  datatype CompletionItem = CompletionItem(
    itemLabel: string,
    text: Option<string>,
    sortText: Option<string>,
    detail: Option<string>,
    itemType: Option<CompletionItemType>,
    start: Option<nat>,
    length: Option<nat>,
    selectionStart: Option<nat>,
    selectionLength: Option<nat>)

  datatype Thread = Thread(id: nat, name: string)

  datatype ExceptionBreakMode = Never | Always | Unhandled | UserUnhandled

  datatype ExceptionPathSegment = ExceptionPathSegment(negate: Option<bool>, names: seq<string>)

  datatype ExceptionOptions = ExceptionOptions(
    path: Option<seq<ExceptionPathSegment>>,
    breakMode: ExceptionBreakMode)

  datatype ExceptionFilterOptions = ExceptionFilterOptions(
    filterId: string,
    condition: Option<string>,
    mode: Option<string>)

  datatype BreakpointReason = Pending | Failed

  datatype Breakpoint = Breakpoint(
    id: Option<nat>,
    verified: bool,
    message: Option<string>,
    source: Option<Source>,
    line: Option<nat>,
    column: Option<nat>,
    endLine: Option<nat>,
    endColumn: Option<nat>,
    instructionReference: Option<string>,
    offset: Option<nat>,
    reason: Option<BreakpointReason>)

  datatype BreakpointModeApplicability =
    | SourceBreakpoints
    | ExceptionBreakpoints
    | DataBreakpoints
    | InstructionBreakpoints
    | UnknownApplicability
      /** Any applicability outside the listed ones. */
    | OtherApplicability(applicability: string)

  datatype BreakpointMode = BreakpointMode(
    mode: string,
    labelText: string,
    description: Option<string>,
    appliesTo: seq<BreakpointModeApplicability>)

  datatype ExceptionBreakpointsFilter = ExceptionBreakpointsFilter(
    filter: string,
    labelText: string,
    description: Option<string>,
    default: Option<bool>,
    supportsCondition: Option<bool>,
    conditionDescription: Option<string>)

  datatype ColumnDescriptor = ColumnDescriptor(
    attributeName: string,
    labelText: string,
    format: Option<string>,
    /** The column type, kept as its text. */
    typeName: Option<string>,
    width: Option<nat>)

  /**
   * The capabilities an adapter announces. The boolean flags the debugger
   * consults are named; the list-valued fields are those whose conversion
   * does more than copy.
   */
  datatype Capabilities = Capabilities(
    supportsConfigurationDoneRequest: Option<bool>,
    supportsStepBack: Option<bool>,
    supportsSetVariable: Option<bool>,
    supportsRestartFrame: Option<bool>,
    supportsCompletionsRequest: Option<bool>,
    supportsModulesRequest: Option<bool>,
    supportsRestartRequest: Option<bool>,
    supportsLoadedSourcesRequest: Option<bool>,
    supportsTerminateThreadsRequest: Option<bool>,
    supportsTerminateRequest: Option<bool>,
    supportsSteppingGranularity: Option<bool>,
    supportsSingleThreadExecutionRequests: Option<bool>,
    exceptionBreakpointFilters: Option<seq<ExceptionBreakpointsFilter>>,
    completionTriggerCharacters: Option<seq<string>>,
    additionalModuleColumns: Option<seq<ColumnDescriptor>>,
    supportedChecksumAlgorithms: Option<seq<ChecksumAlgorithm>>,
    breakpointModes: Option<seq<BreakpointMode>>)

  /** `Capabilities::default()`: every field absent. */
  const DefaultCapabilities := Capabilities(
    None, None, None, None, None, None, None, None, None, None, None, None,
    None, None, None, None, None)

  /** `unwrap_or_default` on an optional flag. */
  function Flag(b: Option<bool>): bool
  {
    b.UnwrapOr(false)
  }
}
