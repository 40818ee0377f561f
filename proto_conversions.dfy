/**
 * The `ProtoConversion` implementations between Debug Adapter Protocol
 * types and the collaboration protocol's messages
 * (crates/dap/src/proto_conversions.rs). Every conversion is a total
 * mapping except where the code calls `unreachable!()`: those conversions
 * return an `Option`, with `None` standing for the panic.
 */
module ProtoConversions {
  import opened Wrappers
  import opened DapTypes
  import P = DapProto

  const TwoTo32: nat := 0x1_0000_0000
  const TwoTo63: nat := 0x8000_0000_0000_0000
  const TwoTo64: nat := 0x1_0000_0000_0000_0000

  // ---------------------------------------------------------------- Vec<T>

  /** The `Vec<T>` conversion: element by element, in order. */
  function MapSeq<A, B>(xs: seq<A>, f: A -> B): (ys: seq<B>)
    ensures |ys| == |xs|
    ensures forall i | 0 <= i < |xs| :: ys[i] == f(xs[i])
  {
    if xs == [] then [] else [f(xs[0])] + MapSeq(xs[1..], f)
  }

  /** Converting a list there and back is the identity when it is for each element. */
  lemma MapSeqRoundTrip<A, B>(xs: seq<A>, to: A -> B, from: B -> A)
    requires forall i | 0 <= i < |xs| :: from(to(xs[i])) == xs[i]
    ensures MapSeq(MapSeq(xs, to), from) == xs
  {
  }

  // ------------------------------------------------- ScopePresentationHint

  function ScopePresentationHintToProto(h: ScopePresentationHint): (r: Option<P.DapScopePresentationHint>)
    ensures r.None? <==> h.OtherScopeHint?
    ensures r.Some? ==> ScopePresentationHintFromProto(r.value) == h
  {
    match h
    case Locals => Some(P.Locals)
    case Arguments => Some(P.Arguments)
    case Registers => Some(P.Registers)
    case ReturnValue => Some(P.ReturnValue)
    case Unknown => Some(P.ScopeUnknown)
    case OtherScopeHint(_) => None
  }

  /** The message knows only the listed hints, so no free-form hint is ever read. */
  function ScopePresentationHintFromProto(p: P.DapScopePresentationHint): (r: ScopePresentationHint)
    ensures !r.OtherScopeHint?
  {
    match p
    case Locals => Locals
    case Arguments => Arguments
    case Registers => Registers
    case ReturnValue => ReturnValue
    case ScopeUnknown => ScopePresentationHint.Unknown
  }

  lemma ScopePresentationHintProtoRoundTrip(p: P.DapScopePresentationHint)
    ensures ScopePresentationHintToProto(ScopePresentationHintFromProto(p)) == Some(p)
  {
  }

  // ------------------------------------------------ SourcePresentationHint

  function SourcePresentationHintToProto(h: SourcePresentationHint): (r: P.DapSourcePresentationHint)
    ensures SourcePresentationHintFromProto(r) == h
  {
    match h
    case Normal => P.SourceNormal
    case Emphasize => P.Emphasize
    case Deemphasize => P.Deemphasize
    case Unknown => P.SourceUnknown
  }

  function SourcePresentationHintFromProto(p: P.DapSourcePresentationHint): SourcePresentationHint
  {
    match p
    case SourceNormal => Normal
    case Emphasize => Emphasize
    case Deemphasize => Deemphasize
    case SourceUnknown => SourcePresentationHint.Unknown
  }

  lemma SourcePresentationHintProtoRoundTrip(p: P.DapSourcePresentationHint)
    ensures SourcePresentationHintToProto(SourcePresentationHintFromProto(p)) == p
  {
  }

  // ------------------------------------------------------ Checksums

  function ChecksumAlgorithmToProto(a: ChecksumAlgorithm): (r: P.DapChecksumAlgorithm)
    ensures r != P.ChecksumAlgorithmUnspecified
    ensures ChecksumAlgorithmFromProto(r) == Some(a)
  {
    match a
    case Md5 => P.Md5
    case Sha1 => P.Sha1
    case Sha256 => P.Sha256
    case Timestamp => P.Timestamp
  }

  /** `None` is the `unreachable!()` on `ChecksumAlgorithmUnspecified`. */
  function ChecksumAlgorithmFromProto(p: P.DapChecksumAlgorithm): (r: Option<ChecksumAlgorithm>)
    ensures r.None? <==> p == P.ChecksumAlgorithmUnspecified
  {
    match p
    case Md5 => Some(Md5)
    case Sha1 => Some(Sha1)
    case Sha256 => Some(Sha256)
    case Timestamp => Some(Timestamp)
    case ChecksumAlgorithmUnspecified => None
  }

  function ChecksumToProto(c: Checksum): (r: P.DapChecksum)
    ensures ChecksumFromProto(r) == Some(c)
  {
    P.DapChecksum(ChecksumAlgorithmToProto(c.algorithm), c.checksum)
  }

  function ChecksumFromProto(p: P.DapChecksum): (r: Option<Checksum>)
    ensures r.None? <==> p.algorithm == P.ChecksumAlgorithmUnspecified
    ensures r.Some? ==> r.value.checksum == p.checksum
  {
    match ChecksumAlgorithmFromProto(p.algorithm)
    case None => None
    case Some(a) => Some(Checksum(a, p.checksum))
  }

  lemma ChecksumProtoRoundTrip(p: P.DapChecksum)
    requires ChecksumFromProto(p).Some?
    ensures ChecksumToProto(ChecksumFromProto(p).value) == p
  {
  }

  /** Some checksum in the list has no algorithm. */
  predicate HasUnspecified(ps: seq<P.DapChecksum>)
  {
    exists i | 0 <= i < |ps| :: ps[i].algorithm == P.ChecksumAlgorithmUnspecified
  }

  /** `Vec<Checksum>::from_proto`: fails exactly when one element does. */
  function ChecksumsFromProto(ps: seq<P.DapChecksum>): (r: Option<seq<Checksum>>)
    ensures r.None? <==> HasUnspecified(ps)
    ensures r.Some? ==> |r.value| == |ps| && forall i | 0 <= i < |ps| :: ChecksumFromProto(ps[i]) == Some(r.value[i])
  {
    if ps == [] then Some([])
    else
      var head := ChecksumFromProto(ps[0]);
      var tail := ChecksumsFromProto(ps[1..]);
      assert HasUnspecified(ps) <==> head.None? || HasUnspecified(ps[1..]) by {
        if HasUnspecified(ps[1..]) {
          var i :| 0 <= i < |ps[1..]| && ps[1..][i].algorithm == P.ChecksumAlgorithmUnspecified;
          assert ps[i + 1] == ps[1..][i];
        }
        if HasUnspecified(ps) && head.Some? {
          var i :| 0 <= i < |ps| && ps[i].algorithm == P.ChecksumAlgorithmUnspecified;
          assert ps[1..][i - 1] == ps[i];
        }
      }
      if head.None? || tail.None? then None else Some([head.value] + tail.value)
  }

  lemma ChecksumsRoundTrip(cs: seq<Checksum>)
    ensures ChecksumsFromProto(MapSeq(cs, ChecksumToProto)) == Some(cs)
  {
    var ps := MapSeq(cs, ChecksumToProto);
    assert !HasUnspecified(ps) by {
      forall i | 0 <= i < |ps|
        ensures ps[i].algorithm != P.ChecksumAlgorithmUnspecified
      {
        assert ps[i] == ChecksumToProto(cs[i]);
      }
    }
    var r := ChecksumsFromProto(ps);
    forall i | 0 <= i < |cs|
      ensures r.value[i] == cs[i]
    {
      assert ps[i] == ChecksumToProto(cs[i]);
      assert ChecksumFromProto(ps[i]) == Some(r.value[i]);
    }
    assert r.value == cs;
  }

  // --------------------------------------------------------------- Source

  /** Names, path, reference and origin are copied; every nested source and every checksum is written. */
  function SourceToProto(s: Source): (r: P.DapSource)
    ensures r.name == s.name && r.path == s.path && r.sourceReference == s.sourceReference && r.origin == s.origin
    ensures r.presentationHint.Some? <==> s.presentationHint.Some?
    ensures |r.sources| == (if s.sources.SourcesOf? then |s.sources.items| else 0)
    ensures |r.checksums| == |s.checksums.UnwrapOr([])|
    decreases s
  {
    var children := match s.sources
      case NoSources => []
      case SourcesOf(items) => seq(|items|, i requires 0 <= i < |items| => SourceToProto(items[i]));
    P.DapSource(
      s.name, s.path, s.sourceReference,
      match s.presentationHint
      case None => None
      case Some(h) => Some(SourcePresentationHintToProto(h)),
      s.origin,
      children,
      MapSeq(s.checksums.UnwrapOr([]), ChecksumToProto))
  }

  /** `None` when some checksum in the tree has no algorithm (the `unreachable!()`). */
  function SourceFromProto(p: P.DapSource): (r: Option<Source>)
    ensures r.None? <==>
              ChecksumsFromProto(p.checksums).None? || exists i | 0 <= i < |p.sources| :: SourceFromProto(p.sources[i]).None?
    ensures r.Some? ==>
              && r.value.name == p.name && r.value.path == p.path
              && r.value.sourceReference == p.sourceReference && r.value.origin == p.origin
              && r.value.sources.SourcesOf? && |r.value.sources.items| == |p.sources|
              && r.value.checksums.Some? && r.value.adapterData.None?
    decreases p
  {
    var children := seq(|p.sources|, i requires 0 <= i < |p.sources| => SourceFromProto(p.sources[i]));
    var checksums := ChecksumsFromProto(p.checksums);
    if checksums.None? || exists i | 0 <= i < |p.sources| :: SourceFromProto(p.sources[i]).None? then None
    else
      Some(Source(
        p.name, p.path, p.sourceReference,
        match p.presentationHint
        case None => None
        case Some(h) => Some(SourcePresentationHintFromProto(h)),
        p.origin,
        SourcesOf(seq(|children|, i requires 0 <= i < |children| => children[i].value)),
        Some(checksums.value),
        None))
  }

  /**
   * What survives the trip through the message: absent nested sources and
   * absent checksums come back as empty lists, and adapter data is dropped,
   * at every level of the tree.
   */
  function NormalizeSource(s: Source): (r: Source)
    decreases s
  {
    var items := match s.sources
      case NoSources => []
      case SourcesOf(items) => seq(|items|, i requires 0 <= i < |items| => NormalizeSource(items[i]));
    s.(sources := SourcesOf(items), checksums := Some(s.checksums.UnwrapOr([])), adapterData := None)
  }

  lemma {:induction false} SourceRoundTrip(s: Source)
    ensures SourceFromProto(SourceToProto(s)) == Some(NormalizeSource(s))
    decreases s
  {
    var items := if s.sources.NoSources? then [] else s.sources.items;
    forall i | 0 <= i < |items|
      ensures SourceFromProto(SourceToProto(items[i])) == Some(NormalizeSource(items[i]))
    {
      SourceRoundTrip(items[i]);
    }
    ChecksumsRoundTrip(s.checksums.UnwrapOr([]));
    var p := SourceToProto(s);
    assert |p.sources| == |items|;
    var children := seq(|p.sources|, i requires 0 <= i < |p.sources| => SourceFromProto(p.sources[i]));
    assert forall i | 0 <= i < |children| :: children[i] == Some(NormalizeSource(items[i]));
    var n := NormalizeSource(s);
    assert n.sources.items == seq(|children|, i requires 0 <= i < |children| => children[i].value);
  }

  /** A source whose checksums all have an algorithm converts back to the same message. */
  lemma {:induction false} SourceProtoRoundTrip(p: P.DapSource)
    requires SourceFromProto(p).Some?
    ensures SourceToProto(SourceFromProto(p).value) == p
    decreases p
  {
    var children := seq(|p.sources|, i requires 0 <= i < |p.sources| => SourceFromProto(p.sources[i]));
    forall i | 0 <= i < |p.sources|
      ensures SourceFromProto(p.sources[i]).Some? && SourceToProto(SourceFromProto(p.sources[i]).value) == p.sources[i]
    {
      assert children[i].Some?;
      SourceProtoRoundTrip(p.sources[i]);
    }
    forall i | 0 <= i < |p.checksums|
      ensures ChecksumToProto(ChecksumsFromProto(p.checksums).value[i]) == p.checksums[i]
    {
      ChecksumProtoRoundTrip(p.checksums[i]);
    }
    var s := SourceFromProto(p).value;
    var cs := ChecksumsFromProto(p.checksums).value;
    assert MapSeq(cs, ChecksumToProto) == p.checksums;
    assert SourceToProto(s).sources == p.sources;
    assert s.presentationHint.Some? ==> SourcePresentationHintToProto(s.presentationHint.value) == p.presentationHint.value;
  }

  function OptionSourceToProto(s: Option<Source>): Option<P.DapSource>
  {
    match s
    case None => None
    case Some(v) => Some(SourceToProto(v))
  }

  /** The outer `None` is the panic of a checksum without an algorithm. */
  function OptionSourceFromProto(p: Option<P.DapSource>): Option<Option<Source>>
  {
    match p
    case None => Some(None)
    case Some(v) =>
      match SourceFromProto(v)
      case None => None
      case Some(s) => Some(Some(s))
  }

  function NormalizeOptionSource(s: Option<Source>): Option<Source>
  {
    match s
    case None => None
    case Some(v) => Some(NormalizeSource(v))
  }

  lemma OptionSourceRoundTrip(s: Option<Source>)
    ensures OptionSourceFromProto(OptionSourceToProto(s)) == Some(NormalizeOptionSource(s))
  {
    if s.Some? {
      SourceRoundTrip(s.value);
    }
  }

  // ---------------------------------------------------------------- Scope

  /** `None` is the `unreachable!()` on a presentation hint outside the listed ones. */
  function ScopeToProto(s: Scope): (r: Option<P.DapScope>)
    ensures r.None? <==> s.presentationHint.Some? && s.presentationHint.value.OtherScopeHint?
  {
    var hint := match s.presentationHint
      case None => Some(None)
      case Some(h) =>
        match ScopePresentationHintToProto(h)
        case None => None
        case Some(ph) => Some(Some(ph));
    if hint.None? then None
    else
      Some(P.DapScope(
        s.name, hint.value, s.variablesReference, s.namedVariables, s.indexedVariables,
        s.expensive, OptionSourceToProto(s.source), s.line, s.endLine, s.column, s.endColumn))
  }

  function ScopeFromProto(p: P.DapScope): (r: Option<Scope>)
    ensures r.None? <==> OptionSourceFromProto(p.source).None?
  {
    var source := OptionSourceFromProto(p.source);
    if source.None? then None
    else
      Some(Scope(
        p.name,
        match p.presentationHint
        case None => None
        case Some(h) => Some(ScopePresentationHintFromProto(h)),
        p.variablesReference, p.namedVariables, p.indexedVariables, p.expensive,
        source.value, p.line, p.endLine, p.column, p.endColumn))
  }

  /** A scope that converts comes back unchanged, up to its source's normal form. */
  lemma ScopeRoundTrip(s: Scope)
    requires ScopeToProto(s).Some?
    ensures ScopeFromProto(ScopeToProto(s).value) == Some(s.(source := NormalizeOptionSource(s.source)))
  {
    OptionSourceRoundTrip(s.source);
  }

  // ------------------------------------------------------------- Variable

  /**
   * The message has no presentation hint and no location references, so
   * those three fields come back absent; everything else survives.
   */
  function VariableToProto(v: Variable): (r: P.DapVariable)
    ensures VariableFromProto(r)
      == v.(presentationHint := None, declarationLocationReference := None, valueLocationReference := None)
  {
    P.DapVariable(
      v.name, v.value, v.typeName, v.evaluateName, v.variablesReference,
      v.namedVariables, v.indexedVariables, v.memoryReference)
  }

  /** What the message cannot carry comes back absent. */
  function VariableFromProto(p: P.DapVariable): (r: Variable)
    ensures r.presentationHint.None? && r.declarationLocationReference.None? && r.valueLocationReference.None?
  {
    Variable.Variable(
      p.name, p.value, p.typeName, p.evaluateName, None, p.variablesReference,
      p.namedVariables, p.indexedVariables, p.memoryReference, None, None)
  }

  lemma VariableProtoRoundTrip(p: P.DapVariable)
    ensures VariableToProto(VariableFromProto(p)) == p
  {
  }

  // ----------------------------------------------------------- StackFrame

  /** Module id and presentation hint are dropped; the rest survives up to the source's normal form. */
  function StackFrameToProto(f: StackFrame): (r: P.DapStackFrame)
    ensures StackFrameFromProto(r)
      == Some(f.(source := NormalizeOptionSource(f.source), moduleId := None, presentationHint := None))
  {
    OptionSourceRoundTrip(f.source);
    P.DapStackFrame(
      f.id, f.name, OptionSourceToProto(f.source), f.line, f.column, f.endLine, f.endColumn,
      f.canRestart, f.instructionPointerReference)
  }

  function StackFrameFromProto(p: P.DapStackFrame): (r: Option<StackFrame>)
    ensures r.None? <==> OptionSourceFromProto(p.source).None?
    ensures r.Some? ==> r.value.moduleId.None? && r.value.presentationHint.None?
  {
    var source := OptionSourceFromProto(p.source);
    if source.None? then None
    else
      Some(StackFrame(
        p.id, p.name, source.value, p.line, p.column, p.endLine, p.endColumn,
        p.canRestart, p.instructionPointerReference, None, None))
  }

  // --------------------------------------------------------------- Module

  const MissingModuleId := "All DapModule proto messages must have an id"
  const MissingModuleIdKind := "All DapModuleID proto messages must have an id"

  function ModuleToProto(m: Module): (r: P.DapModule)
    ensures r.id.Some? && r.id.value.id.Some?
    ensures ModuleFromProto(r) == Ok(m)
  {
    var id := match m.id
      case Number(n) => P.Number(n)
      case String(t) => P.String(t);
    P.DapModule(
      Some(P.DapModuleId(Some(id))), m.name, m.path, m.isOptimized, m.isUserCode, m.version,
      m.symbolStatus, m.symbolFilePath, m.dateTimeStamp, m.addressRange)
  }

  /** Fails when the outer or the inner id is missing. */
  function ModuleFromProto(p: P.DapModule): (r: Result<Module, string>)
    ensures p.id.None? ==> r == Err(MissingModuleId)
    ensures p.id.Some? && p.id.value.id.None? ==> r == Err(MissingModuleIdKind)
    ensures r.Ok? <==> p.id.Some? && p.id.value.id.Some?
    ensures r.Ok? ==> r.value.name == p.name && r.value.path == p.path
  {
    match p.id
    case None => Err(MissingModuleId)
    case Some(moduleId) =>
      match moduleId.id
      case None => Err(MissingModuleIdKind)
      case Some(kind) =>
        var id := match kind
          case String(t) => ModuleId.String(t)
          case Number(n) => ModuleId.Number(n);
        Ok(Module.Module(
          id, p.name, p.path, p.isOptimized, p.isUserCode, p.version, p.symbolStatus,
          p.symbolFilePath, p.dateTimeStamp, p.addressRange))
  }

  lemma ModuleProtoRoundTrip(p: P.DapModule)
    requires ModuleFromProto(p).Ok?
    ensures ModuleToProto(ModuleFromProto(p).value) == p
  {
  }

  // -------------------------------------------------- SteppingGranularity

  function SteppingGranularityToProto(g: SteppingGranularity): (r: P.SteppingGranularity)
    ensures SteppingGranularityFromProto(r) == g
  {
    match g
    case Statement => P.Statement
    case Line => P.Line
    case Instruction => P.Instruction
  }

  function SteppingGranularityFromProto(p: P.SteppingGranularity): SteppingGranularity
  {
    match p
    case Line => Line
    case Instruction => Instruction
    case Statement => Statement
  }

  lemma SteppingGranularityProtoRoundTrip(p: P.SteppingGranularity)
    ensures SteppingGranularityToProto(SteppingGranularityFromProto(p)) == p
  {
  }

  // ------------------------------------------------------------ Output

  /** `None` is the `unreachable!()` on a category outside the listed ones. */
  function OutputEventCategoryToProto(c: OutputEventCategory): (r: Option<P.DapOutputCategory>)
    ensures r.None? <==> c.OtherCategory?
    ensures r.Some? ==> OutputEventCategoryFromProto(r.value) == c
  {
    match c
    case Console => Some(P.ConsoleOutput)
    case Important => Some(P.Important)
    case Stdout => Some(P.Stdout)
    case Stderr => Some(P.Stderr)
    case Unknown => Some(P.Unknown)
    case Telemetry => Some(P.Telemetry)
    case OtherCategory(_) => None
  }

  /** The message knows only the listed categories, so no free-form category is ever read. */
  function OutputEventCategoryFromProto(p: P.DapOutputCategory): (r: OutputEventCategory)
    ensures !r.OtherCategory?
  {
    match p
    case ConsoleOutput => Console
    case Important => Important
    case Stdout => Stdout
    case Stderr => Stderr
    case Unknown => OutputEventCategory.Unknown
    case Telemetry => Telemetry
  }

  lemma OutputEventCategoryProtoRoundTrip(p: P.DapOutputCategory)
    ensures OutputEventCategoryToProto(OutputEventCategoryFromProto(p)) == Some(p)
  {
  }

  function OutputEventGroupToProto(g: OutputEventGroup): (r: P.DapOutputEventGroup)
    ensures OutputEventGroupFromProto(r) == g
  {
    match g
    case Start => P.Start
    case StartCollapsed => P.StartCollapsed
    case End => P.End
  }

  function OutputEventGroupFromProto(p: P.DapOutputEventGroup): OutputEventGroup
  {
    match p
    case Start => Start
    case StartCollapsed => StartCollapsed
    case End => End
  }

  lemma OutputEventGroupProtoRoundTrip(p: P.DapOutputEventGroup)
    ensures OutputEventGroupToProto(OutputEventGroupFromProto(p)) == p
  {
  }

  /** Rust's `as u32`: keeps the low 32 bits. */
  function AsU32(x: nat): (r: nat)
    ensures r < TwoTo32
    ensures x < TwoTo32 ==> r == x
  {
    x % TwoTo32
  }

  function MapAsU32(x: Option<nat>): (r: Option<nat>)
    ensures r.None? <==> x.None?
    ensures x.Some? ==> r.value == AsU32(x.value)
  {
    match x
    case None => None
    case Some(v) => Some(AsU32(v))
  }

  /** `None` is the `unreachable!()` on a category outside the listed ones. */
  function OutputEventToProto(e: OutputEvent): (r: Option<P.DapOutputEvent>)
    ensures r.None? <==> e.category.Some? && e.category.value.OtherCategory?
  {
    var category := match e.category
      case None => Some(None)
      case Some(c) =>
        match OutputEventCategoryToProto(c)
        case None => None
        case Some(pc) => Some(Some(pc));
    if category.None? then None
    else
      Some(P.DapOutputEvent(
        category.value, e.output, e.variablesReference, OptionSourceToProto(e.source),
        MapAsU32(e.line), MapAsU32(e.column),
        match e.group
        case None => None
        case Some(g) => Some(OutputEventGroupToProto(g))))
  }

  function OutputEventFromProto(p: P.DapOutputEvent): (r: Option<OutputEvent>)
    ensures r.None? <==> OptionSourceFromProto(p.source).None?
    ensures r.Some? ==> r.value.data.None? && r.value.locationReference.None?
  {
    var source := OptionSourceFromProto(p.source);
    if source.None? then None
    else
      Some(OutputEvent(
        match p.category
        case None => None
        case Some(c) => Some(OutputEventCategoryFromProto(c)),
        p.output,
        match p.group
        case None => None
        case Some(g) => Some(OutputEventGroupFromProto(g)),
        p.variablesReference, source.value, p.line, p.column, None, None))
  }

  /**
   * Through the message, line and column keep only their low 32 bits, data
   * and location reference are dropped, and the source takes its normal
   * form; nothing else changes.
   */
  lemma OutputEventRoundTrip(e: OutputEvent)
    requires OutputEventToProto(e).Some?
    ensures OutputEventFromProto(OutputEventToProto(e).value)
      == Some(e.(source := NormalizeOptionSource(e.source), line := MapAsU32(e.line),
                 column := MapAsU32(e.column), data := None, locationReference := None))
  {
    OptionSourceRoundTrip(e.source);
  }

  /** A line that fits in 32 bits survives the trip. */
  lemma OutputEventLineKept(e: OutputEvent)
    requires OutputEventToProto(e).Some?
    requires e.line.Some? && e.line.value < TwoTo32
    ensures OutputEventFromProto(OutputEventToProto(e).value).Some?
    ensures OutputEventFromProto(OutputEventToProto(e).value).value.line == e.line
  {
    OutputEventRoundTrip(e);
  }

  // ------------------------------------------------ EvaluateArgumentsContext

  /** `None` is the `unreachable!()` on a context outside the listed ones. */
  function EvaluateArgumentsContextToProto(c: EvaluateArgumentsContext): (r: Option<P.DapEvaluateContext>)
    ensures r.None? <==> c.OtherContext?
    ensures r.Some? ==> EvaluateArgumentsContextFromProto(r.value) == c
  {
    match c
    case Variables => Some(P.EvaluateVariables)
    case Watch => Some(P.Watch)
    case Hover => Some(P.Hover)
    case Repl => Some(P.Repl)
    case Clipboard => Some(P.Clipboard)
    case Unknown => Some(P.EvaluateUnknown)
    case OtherContext(_) => None
  }

  /** The message knows only the listed contexts, so no free-form context is ever read. */
  function EvaluateArgumentsContextFromProto(p: P.DapEvaluateContext): (r: EvaluateArgumentsContext)
    ensures !r.OtherContext?
  {
    match p
    case EvaluateVariables => Variables
    case Watch => Watch
    case Hover => Hover
    case Repl => Repl
    case Clipboard => Clipboard
    case EvaluateUnknown => EvaluateArgumentsContext.Unknown
  }

  lemma EvaluateArgumentsContextProtoRoundTrip(p: P.DapEvaluateContext)
    ensures EvaluateArgumentsContextToProto(EvaluateArgumentsContextFromProto(p)) == Some(p)
  {
  }

  // ---------------------------------------------------- CompletionItemType

  function CompletionItemTypeToProto(t: CompletionItemType): (r: P.DapCompletionItemType)
    ensures CompletionItemTypeFromProto(r) == t
  {
    match t
    case Class => P.Class
    case Color => P.Color
    case Constructor => P.Constructor
    case Customcolor => P.Customcolor
    case Enum => P.Enum
    case Field => P.Field
    case File => P.CompletionItemFile
    case Function => P.Function
    case Interface => P.Interface
    case Keyword => P.Keyword
    case Method => P.Method
    case Module => P.Module
    case Property => P.Property
    case Reference => P.Reference
    case Snippet => P.Snippet
    case Text => P.Text
    case Unit => P.Unit
    case Value => P.Value
    case Variable => P.Variable
  }

  function CompletionItemTypeFromProto(p: P.DapCompletionItemType): CompletionItemType
  {
    match p
    case Class => Class
    case Color => Color
    case CompletionItemFile => File
    case Constructor => Constructor
    case Customcolor => Customcolor
    case Enum => Enum
    case Field => Field
    case Function => Function
    case Interface => Interface
    case Keyword => Keyword
    case Method => Method
    case Module => CompletionItemType.Module
    case Property => Property
    case Reference => Reference
    case Snippet => Snippet
    case Text => Text
    case Unit => Unit
    case Value => Value
    case Variable => CompletionItemType.Variable
  }

  lemma CompletionItemTypeProtoRoundTrip(p: P.DapCompletionItemType)
    ensures CompletionItemTypeToProto(CompletionItemTypeFromProto(p)) == p
  {
  }

  // ------------------------------------------------------- CompletionItem

  function CompletionItemToProto(c: CompletionItem): (r: P.DapCompletionItem)
    ensures r.itemLabel == c.itemLabel && r.text == c.text && r.detail == c.detail && r.sortText == c.sortText
    ensures r.start == c.start && r.length == c.length
    ensures r.selectionStart == c.selectionStart && r.selectionLength == c.selectionLength
    ensures r.typ.Some? <==> c.itemType.Some?
    ensures r.typ.Some? ==> CompletionItemTypeFromProto(r.typ.value) == c.itemType.value
  {
    P.DapCompletionItem(
      c.itemLabel, c.text, c.detail,
      match c.itemType
      case None => None
      case Some(t) => Some(CompletionItemTypeToProto(t)),
      c.start, c.length, c.selectionStart, c.selectionLength, c.sortText)
  }

  /** The `typ()` getter reads a missing type as the schema's default, so every item comes back typed. */
  function CompletionItemFromProto(p: P.DapCompletionItem): (r: CompletionItem)
    ensures r.itemLabel == p.itemLabel && r.text == p.text && r.detail == p.detail && r.sortText == p.sortText
    ensures r.start == p.start && r.length == p.length
    ensures r.selectionStart == p.selectionStart && r.selectionLength == p.selectionLength
    ensures r.itemType.Some?
    ensures p.typ.Some? ==> CompletionItemTypeToProto(r.itemType.value) == p.typ.value
    ensures p.typ.None? ==> r.itemType == Some(Method)
  {
    CompletionItem(
      p.itemLabel, p.text, p.sortText, p.detail,
      Some(CompletionItemTypeFromProto(p.typ.UnwrapOr(P.DefaultCompletionItemType))),
      p.start, p.length, p.selectionStart, p.selectionLength)
  }

  /** A typed item survives the trip; an untyped one comes back as a `Method` item, otherwise unchanged. */
  lemma CompletionItemRoundTrip(c: CompletionItem)
    ensures CompletionItemFromProto(CompletionItemToProto(c)) == c <==> c.itemType.Some?
    ensures CompletionItemFromProto(CompletionItemToProto(c)) == c.(itemType := Some(c.itemType.UnwrapOr(Method)))
  {
  }

  /** Wire items come back as themselves once a missing type is filled in with the default. */
  lemma CompletionItemProtoRoundTrip(p: P.DapCompletionItem)
    ensures CompletionItemToProto(CompletionItemFromProto(p)) == p.(typ := Some(p.typ.UnwrapOr(P.DefaultCompletionItemType)))
  {
    CompletionItemTypeProtoRoundTrip(p.typ.UnwrapOr(P.DefaultCompletionItemType));
  }

  // --------------------------------------------------------------- Thread

  function ThreadToProto(t: Thread): (r: P.DapThread)
    ensures ThreadFromProto(r) == t
  {
    P.DapThread(t.id, t.name)
  }

  function ThreadFromProto(p: P.DapThread): Thread
  {
    Thread(p.id, p.name)
  }

  lemma ThreadProtoRoundTrip(p: P.DapThread)
    ensures ThreadToProto(ThreadFromProto(p)) == p
  {
  }

  // ----------------------------------------------------------- Exceptions

  function ExceptionBreakModeToProto(m: ExceptionBreakMode): (r: P.ExceptionBreakMode)
    ensures ExceptionBreakModeFromProto(r) == m
  {
    match m
    case Never => P.Never
    case Always => P.Always
    case Unhandled => P.Unhandled
    case UserUnhandled => P.AlwaysUnhandled
  }

  function ExceptionBreakModeFromProto(p: P.ExceptionBreakMode): ExceptionBreakMode
  {
    match p
    case Never => Never
    case Always => Always
    case Unhandled => Unhandled
    case AlwaysUnhandled => UserUnhandled
  }

  lemma ExceptionBreakModeProtoRoundTrip(p: P.ExceptionBreakMode)
    ensures ExceptionBreakModeToProto(ExceptionBreakModeFromProto(p)) == p
  {
  }

  function ExceptionPathSegmentToProto(s: ExceptionPathSegment): (r: P.ExceptionPathSegment)
    ensures ExceptionPathSegmentFromProto(r) == s
  {
    P.ExceptionPathSegment(s.negate, s.names)
  }

  function ExceptionPathSegmentFromProto(p: P.ExceptionPathSegment): ExceptionPathSegment
  {
    ExceptionPathSegment(p.negate, p.names)
  }

  lemma ExceptionPathSegmentProtoRoundTrip(p: P.ExceptionPathSegment)
    ensures ExceptionPathSegmentToProto(ExceptionPathSegmentFromProto(p)) == p
  {
  }

  /** The break mode number read back by `ExceptionOptions::from_proto`: 0..3, anything else is `Never`. */
  function BreakModeFromNumber(n: int): (m: ExceptionBreakMode)
    ensures (n < 0 || n > 3) ==> m == Never
    ensures forall pm: P.ExceptionBreakMode :: n == P.ExceptionBreakModeNumber(pm) ==> m == ExceptionBreakModeFromProto(pm)
  {
    if n == 0 then Never
    else if n == 1 then Always
    else if n == 2 then Unhandled
    else if n == 3 then UserUnhandled
    else Never
  }

  function ExceptionOptionsToProto(o: ExceptionOptions): (r: P.ExceptionOptions)
    ensures ExceptionOptionsFromProto(r)
      == o.(path := if o.path == Some([]) then None else o.path)
  {
    MapSeqRoundTrip(o.path.UnwrapOr([]), ExceptionPathSegmentToProto, ExceptionPathSegmentFromProto);
    P.ExceptionOptions(
      MapSeq(o.path.UnwrapOr([]), ExceptionPathSegmentToProto),
      P.ExceptionBreakModeNumber(ExceptionBreakModeToProto(o.breakMode)))
  }

  /** An empty path means no path; an unknown break mode number means `Never`. */
  function ExceptionOptionsFromProto(p: P.ExceptionOptions): (r: ExceptionOptions)
    ensures r.path.None? <==> p.path == []
    ensures r.path.Some? ==> r.path.value == MapSeq(p.path, ExceptionPathSegmentFromProto)
    ensures r.breakMode == BreakModeFromNumber(p.breakMode)
  {
    ExceptionOptions(
      if p.path == [] then None else Some(MapSeq(p.path, ExceptionPathSegmentFromProto)),
      BreakModeFromNumber(p.breakMode))
  }

  function ExceptionFilterOptionsToProto(o: ExceptionFilterOptions): (r: P.ExceptionFilterOptions)
    ensures ExceptionFilterOptionsFromProto(r) == o
  {
    P.ExceptionFilterOptions(o.filterId, o.condition, o.mode)
  }

  function ExceptionFilterOptionsFromProto(p: P.ExceptionFilterOptions): ExceptionFilterOptions
  {
    ExceptionFilterOptions(p.filterId, p.condition, p.mode)
  }

  lemma ExceptionFilterOptionsProtoRoundTrip(p: P.ExceptionFilterOptions)
    ensures ExceptionFilterOptionsToProto(ExceptionFilterOptionsFromProto(p)) == p
  {
  }

  // ----------------------------------------------------------- Breakpoint

  function BreakpointReasonToProto(r: BreakpointReason): (p: P.DapBreakpointReason)
    ensures BreakpointReasonFromProto(p) == r
  {
    match r
    case Pending => P.Pending
    case Failed => P.Failed
  }

  function BreakpointReasonFromProto(p: P.DapBreakpointReason): BreakpointReason
  {
    match p
    case Pending => Pending
    case Failed => Failed
  }

  lemma BreakpointReasonProtoRoundTrip(p: P.DapBreakpointReason)
    ensures BreakpointReasonToProto(BreakpointReasonFromProto(p)) == p
  {
  }

  /** The reason number read back by `Breakpoint::from_proto`: 0 and 1, anything else is no reason. */
  function ReasonFromNumber(n: int): (r: Option<BreakpointReason>)
    ensures r.Some? <==> n == 0 || n == 1
    ensures r.Some? ==> P.BreakpointReasonNumber(BreakpointReasonToProto(r.value)) == n
  {
    if n == 0 then Some(Pending)
    else if n == 1 then Some(Failed)
    else None
  }

  /** Rust's `u64 as i64`: the same 64 bits read as two's complement. */
  function AsI64(x: nat): (r: int)
    ensures -(TwoTo63 as int) <= r < TwoTo63
    ensures r % TwoTo64 == x % TwoTo64
  {
    var w := x % TwoTo64;
    if w < TwoTo63 then w else w - TwoTo64
  }

  /** Rust's `i64 as u64`. */
  function AsU64(y: int): (r: nat)
    ensures r < TwoTo64
    ensures r % TwoTo64 == y % TwoTo64
  {
    y % TwoTo64
  }

  /** Every `u64` id survives the cast to `i64` and back. */
  lemma IdCastRoundTrip(x: nat)
    requires x < TwoTo64
    ensures AsU64(AsI64(x)) == x
  {
  }

  /**
   * Through the message, the id keeps its 64 bits, the four positions and
   * the offset keep their low 32 bits, the reason survives, and the source
   * takes its normal form.
   */
  function BreakpointToProto(b: Breakpoint): (r: P.DapBreakpoint)
    ensures BreakpointFromProto(r)
      == Some(b.(id := MapAsU64(b.id), source := NormalizeOptionSource(b.source),
                 line := MapAsU32(b.line), column := MapAsU32(b.column),
                 endLine := MapAsU32(b.endLine), endColumn := MapAsU32(b.endColumn),
                 offset := MapAsU32(b.offset)))
  {
    OptionSourceRoundTrip(b.source);
    assert b.reason.Some? ==> ReasonFromNumber(P.BreakpointReasonNumber(BreakpointReasonToProto(b.reason.value))) == b.reason;
    P.DapBreakpoint(
      match b.id
      case None => None
      case Some(i) => Some(AsI64(i)),
      b.verified, b.message, OptionSourceToProto(b.source),
      MapAsU32(b.line), MapAsU32(b.column), MapAsU32(b.endLine), MapAsU32(b.endColumn),
      b.instructionReference, MapAsU32(b.offset),
      match b.reason
      case None => None
      case Some(r) => Some(P.BreakpointReasonNumber(BreakpointReasonToProto(r))))
  }

  function BreakpointFromProto(p: P.DapBreakpoint): (r: Option<Breakpoint>)
    ensures r.None? <==> OptionSourceFromProto(p.source).None?
    ensures r.Some? ==> (r.value.reason.Some? <==> p.reason.Some? && (p.reason.value == 0 || p.reason.value == 1))
  {
    var source := OptionSourceFromProto(p.source);
    if source.None? then None
    else
      Some(Breakpoint(
        match p.id
        case None => None
        case Some(i) => Some(AsU64(i)),
        p.verified, p.message, source.value, p.line, p.column, p.endLine, p.endColumn,
        p.instructionReference, p.offset,
        match p.reason
        case None => None
        case Some(n) => ReasonFromNumber(n)))
  }

  function MapAsU64(x: Option<nat>): Option<nat>
  {
    match x
    case None => None
    case Some(v) => Some(v % TwoTo64)
  }

  // ------------------------------------------------------ Breakpoint modes

  /** `None` is the `unreachable!()` on an applicability outside the listed ones. */
  function ApplicabilityToProto(a: BreakpointModeApplicability): (r: Option<P.BreakpointModeApplicability>)
    ensures r.None? <==> a.OtherApplicability?
    ensures r.Some? ==> ApplicabilityFromProto(r.value) == a
  {
    match a
    case SourceBreakpoints => Some(P.Source)
    case ExceptionBreakpoints => Some(P.Exception)
    case DataBreakpoints => Some(P.Data)
    case InstructionBreakpoints => Some(P.InstructionBreakpoint)
    case UnknownApplicability => Some(P.BreakpointModeUnknown)
    case OtherApplicability(_) => None
  }

  /** The message knows only the listed applicabilities, so no free-form one is ever read. */
  function ApplicabilityFromProto(p: P.BreakpointModeApplicability): (r: BreakpointModeApplicability)
    ensures !r.OtherApplicability?
  {
    match p
    case Source => SourceBreakpoints
    case Exception => ExceptionBreakpoints
    case Data => DataBreakpoints
    case InstructionBreakpoint => InstructionBreakpoints
    case BreakpointModeUnknown => UnknownApplicability
  }

  /** `applies_to` written as numbers; `None` when one of them is outside the listed ones. */
  function ApplicabilitiesToProto(xs: seq<BreakpointModeApplicability>): (r: Option<seq<int>>)
    ensures r.None? <==> exists i | 0 <= i < |xs| :: xs[i].OtherApplicability?
    ensures r.Some? ==> |r.value| == |xs|
  {
    if xs == [] then Some([])
    else
      var head := ApplicabilityToProto(xs[0]);
      var tail := ApplicabilitiesToProto(xs[1..]);
      assert (exists i | 0 <= i < |xs| :: xs[i].OtherApplicability?)
        <==> head.None? || exists i | 0 <= i < |xs[1..]| :: xs[1..][i].OtherApplicability? by {
        if exists i | 0 <= i < |xs| :: xs[i].OtherApplicability? {
          var i :| 0 <= i < |xs| && xs[i].OtherApplicability?;
          if i > 0 {
            assert xs[1..][i - 1] == xs[i];
          }
        }
        if exists i | 0 <= i < |xs[1..]| :: xs[1..][i].OtherApplicability? {
          var i :| 0 <= i < |xs[1..]| && xs[1..][i].OtherApplicability?;
          assert xs[i + 1] == xs[1..][i];
        }
      }
      if head.None? || tail.None? then None
      else Some([P.ApplicabilityNumber(head.value)] + tail.value)
  }

  /** `filter_map(from_i32).map(from_proto)`: numbers with no applicability are dropped. */
  function ApplicabilitiesFromProto(ns: seq<int>): (r: seq<BreakpointModeApplicability>)
    ensures |r| <= |ns|
    ensures forall i | 0 <= i < |r| :: !r[i].OtherApplicability?
  {
    if ns == [] then []
    else
      var tail := ApplicabilitiesFromProto(ns[1..]);
      match P.ApplicabilityFromI32(ns[0])
      case None => tail
      case Some(a) => [ApplicabilityFromProto(a)] + tail
  }

  lemma {:induction false} ApplicabilitiesRoundTrip(xs: seq<BreakpointModeApplicability>)
    requires ApplicabilitiesToProto(xs).Some?
    ensures ApplicabilitiesFromProto(ApplicabilitiesToProto(xs).value) == xs
  {
    if xs != [] {
      ApplicabilitiesRoundTrip(xs[1..]);
      var a := ApplicabilityToProto(xs[0]).value;
      assert P.ApplicabilityFromI32(P.ApplicabilityNumber(a)) == Some(a);
      assert ApplicabilitiesToProto(xs).value[1..] == ApplicabilitiesToProto(xs[1..]).value;
      assert [xs[0]] + xs[1..] == xs;
    }
  }

  function BreakpointModeToProto(m: BreakpointMode): (r: Option<P.BreakpointMode>)
    ensures r.None? <==> exists i | 0 <= i < |m.appliesTo| :: m.appliesTo[i].OtherApplicability?
  {
    match ApplicabilitiesToProto(m.appliesTo)
    case None => None
    case Some(ns) => Some(P.BreakpointMode(m.mode, m.labelText, m.description, ns))
  }

  /** The mode's texts are copied; applicability numbers with no listed value are dropped. */
  function BreakpointModeFromProto(p: P.BreakpointMode): (r: BreakpointMode)
    ensures r.mode == p.mode && r.labelText == p.labelText && r.description == p.description
    ensures |r.appliesTo| <= |p.appliesTo|
    ensures forall i | 0 <= i < |r.appliesTo| :: !r.appliesTo[i].OtherApplicability?
  {
    BreakpointMode(p.mode, p.labelText, p.description, ApplicabilitiesFromProto(p.appliesTo))
  }

  lemma BreakpointModeRoundTrip(m: BreakpointMode)
    requires BreakpointModeToProto(m).Some?
    ensures BreakpointModeFromProto(BreakpointModeToProto(m).value) == m
  {
    ApplicabilitiesRoundTrip(m.appliesTo);
  }

  /** `Vec<BreakpointMode>::to_proto`; `None` when one mode panics. */
  function BreakpointModesToProto(ms: seq<BreakpointMode>): (r: Option<seq<P.BreakpointMode>>)
    ensures r.None? <==> exists i | 0 <= i < |ms| :: BreakpointModeToProto(ms[i]).None?
    ensures r.Some? ==> |r.value| == |ms| && forall i | 0 <= i < |ms| :: BreakpointModeToProto(ms[i]) == Some(r.value[i])
  {
    if ms == [] then Some([])
    else
      var head := BreakpointModeToProto(ms[0]);
      var tail := BreakpointModesToProto(ms[1..]);
      assert (exists i | 0 <= i < |ms| :: BreakpointModeToProto(ms[i]).None?)
        <==> head.None? || exists i | 0 <= i < |ms[1..]| :: BreakpointModeToProto(ms[1..][i]).None? by {
        if exists i | 0 <= i < |ms| :: BreakpointModeToProto(ms[i]).None? {
          var i :| 0 <= i < |ms| && BreakpointModeToProto(ms[i]).None?;
          if i > 0 {
            assert ms[1..][i - 1] == ms[i];
          }
        }
        if exists i | 0 <= i < |ms[1..]| :: BreakpointModeToProto(ms[1..][i]).None? {
          var i :| 0 <= i < |ms[1..]| && BreakpointModeToProto(ms[1..][i]).None?;
          assert ms[i + 1] == ms[1..][i];
        }
      }
      if head.None? || tail.None? then None else Some([head.value] + tail.value)
  }

  lemma BreakpointModesRoundTrip(ms: seq<BreakpointMode>)
    requires BreakpointModesToProto(ms).Some?
    ensures MapSeq(BreakpointModesToProto(ms).value, BreakpointModeFromProto) == ms
  {
    var ps := BreakpointModesToProto(ms).value;
    forall i | 0 <= i < |ms|
      ensures BreakpointModeFromProto(ps[i]) == ms[i]
    {
      BreakpointModeRoundTrip(ms[i]);
    }
  }

  // ------------------------------------------------- Exception filters

  function ExceptionBreakpointsFilterToProto(f: ExceptionBreakpointsFilter): (r: P.ExceptionBreakpointsFilter)
    ensures ExceptionBreakpointsFilterFromProto(r) == f
  {
    P.ExceptionBreakpointsFilter(
      f.filter, f.labelText, f.description, f.default, f.supportsCondition, f.conditionDescription)
  }

  function ExceptionBreakpointsFilterFromProto(p: P.ExceptionBreakpointsFilter): ExceptionBreakpointsFilter
  {
    ExceptionBreakpointsFilter(
      p.filter, p.labelText, p.description, p.defaultValue, p.supportsCondition, p.conditionDescription)
  }

  lemma ExceptionBreakpointsFilterProtoRoundTrip(p: P.ExceptionBreakpointsFilter)
    ensures ExceptionBreakpointsFilterToProto(ExceptionBreakpointsFilterFromProto(p)) == p
  {
  }

  // --------------------------------------------------------- Capabilities

  /** `format!("{:?}", alg)`: the variant's name. */
  function ChecksumAlgorithmName(a: ChecksumAlgorithm): string
  {
    match a
    case Md5 => "Md5"
    case Sha1 => "Sha1"
    case Sha256 => "Sha256"
    case Timestamp => "Timestamp"
  }

  /** The algorithm whose name is `name`, if any. */
  function ChecksumAlgorithmNamed(name: string): (r: Option<ChecksumAlgorithm>)
    ensures r.Some? ==> ChecksumAlgorithmName(r.value) == name
  {
    if name == "Md5" then Some(Md5)
    else if name == "Sha1" then Some(Sha1)
    else if name == "Sha256" then Some(Sha256)
    else if name == "Timestamp" then Some(Timestamp)
    else None
  }

  lemma ChecksumAlgorithmNameRoundTrip(a: ChecksumAlgorithm)
    ensures ChecksumAlgorithmNamed(ChecksumAlgorithmName(a)) == Some(a)
  {
  }

  /** The `filter_map` over checksum names: names other than the four variants are dropped. */
  function ChecksumNamesFromProto(names: seq<string>): (r: seq<ChecksumAlgorithm>)
    ensures |r| <= |names|
    ensures forall i | 0 <= i < |r| :: ChecksumAlgorithmName(r[i]) in names
  {
    if names == [] then []
    else
      var tail := ChecksumNamesFromProto(names[1..]);
      match ChecksumAlgorithmNamed(names[0])
      case None => tail
      case Some(a) => [a] + tail
  }

  lemma {:induction false} ChecksumNamesRoundTrip(algorithms: seq<ChecksumAlgorithm>)
    ensures ChecksumNamesFromProto(MapSeq(algorithms, ChecksumAlgorithmName)) == algorithms
  {
    if algorithms != [] {
      var names := MapSeq(algorithms, ChecksumAlgorithmName);
      ChecksumNamesRoundTrip(algorithms[1..]);
      ChecksumAlgorithmNameRoundTrip(algorithms[0]);
      assert names[1..] == MapSeq(algorithms[1..], ChecksumAlgorithmName);
      assert names[0] == ChecksumAlgorithmName(algorithms[0]);
      assert [algorithms[0]] + algorithms[1..] == algorithms;
    }
  }

  /** The entry of an additional module column, rebuilt from its attribute name alone. */
  function ColumnFromName(name: string): ColumnDescriptor
  {
    ColumnDescriptor(name, "", None, None, None)
  }

  function ColumnName(c: ColumnDescriptor): string
  {
    c.attributeName
  }

  /** An empty repeated field reads back as an absent list. */
  function NonEmpty<T>(xs: seq<T>): (r: Option<seq<T>>)
    ensures r.None? <==> xs == []
    ensures r.Some? ==> r.value == xs
  {
    if xs == [] then None else Some(xs)
  }

  /** `None` is the `unreachable!()` of a breakpoint mode's applicability. */
  function CapabilitiesToProto(c: Capabilities): (r: Option<P.Capabilities>)
    ensures r.None? <==> BreakpointModesToProto(c.breakpointModes.UnwrapOr([])).None?
  {
    var modes := BreakpointModesToProto(c.breakpointModes.UnwrapOr([]));
    if modes.None? then None
    else
      Some(P.Capabilities(
        c.supportsConfigurationDoneRequest, c.supportsStepBack, c.supportsSetVariable,
        c.supportsRestartFrame, c.supportsCompletionsRequest, c.supportsModulesRequest,
        c.supportsRestartRequest, c.supportsLoadedSourcesRequest,
        c.supportsTerminateThreadsRequest, c.supportsTerminateRequest,
        c.supportsSteppingGranularity, c.supportsSingleThreadExecutionRequests,
        MapSeq(c.exceptionBreakpointFilters.UnwrapOr([]), ExceptionBreakpointsFilterToProto),
        c.completionTriggerCharacters.UnwrapOr([]),
        MapSeq(c.additionalModuleColumns.UnwrapOr([]), ColumnName),
        MapSeq(c.supportedChecksumAlgorithms.UnwrapOr([]), ChecksumAlgorithmName),
        modes.value))
  }

  function CapabilitiesFromProto(p: P.Capabilities): (r: Capabilities)
    ensures r.exceptionBreakpointFilters.None? <==> p.exceptionBreakpointFilters == []
    ensures r.completionTriggerCharacters == NonEmpty(p.completionTriggerCharacters)
    ensures r.supportedChecksumAlgorithms.None? <==> p.supportedChecksumAlgorithms == []
    ensures r.breakpointModes.None? <==> p.breakpointModes == []
  {
    Capabilities(
      p.supportsConfigurationDoneRequest, p.supportsStepBack, p.supportsSetVariable,
      p.supportsRestartFrame, p.supportsCompletionsRequest, p.supportsModulesRequest,
      p.supportsRestartRequest, p.supportsLoadedSourcesRequest,
      p.supportsTerminateThreadsRequest, p.supportsTerminateRequest,
      p.supportsSteppingGranularity, p.supportsSingleThreadExecutionRequests,
      if p.exceptionBreakpointFilters == [] then None
      else Some(MapSeq(p.exceptionBreakpointFilters, ExceptionBreakpointsFilterFromProto)),
      NonEmpty(p.completionTriggerCharacters),
      if p.additionalModuleColumns == [] then None
      else Some(MapSeq(p.additionalModuleColumns, ColumnFromName)),
      if p.supportedChecksumAlgorithms == [] then None
      else Some(ChecksumNamesFromProto(p.supportedChecksumAlgorithms)),
      if p.breakpointModes == [] then None
      else Some(MapSeq(p.breakpointModes, BreakpointModeFromProto)))
  }

  /** `Some([])` reads back as `None`; any other value is kept. */
  function Collapse<T>(xs: Option<seq<T>>): Option<seq<T>>
  {
    if xs == Some([]) then None else xs
  }

  /**
   * Through the message, every empty list comes back absent, additional
   * module columns keep only their attribute names, and every flag and every
   * non-empty list survives.
   */
  lemma CapabilitiesRoundTrip(c: Capabilities)
    requires CapabilitiesToProto(c).Some?
    ensures CapabilitiesFromProto(CapabilitiesToProto(c).value)
      == c.(exceptionBreakpointFilters := Collapse(c.exceptionBreakpointFilters),
            completionTriggerCharacters := Collapse(c.completionTriggerCharacters),
            additionalModuleColumns :=
              match Collapse(c.additionalModuleColumns)
              case None => None
              case Some(cols) => Some(MapSeq(cols, (col: ColumnDescriptor) => ColumnFromName(col.attributeName))),
            supportedChecksumAlgorithms := Collapse(c.supportedChecksumAlgorithms),
            breakpointModes := Collapse(c.breakpointModes))
  {
    var p := CapabilitiesToProto(c).value;
    var filters := c.exceptionBreakpointFilters.UnwrapOr([]);
    MapSeqRoundTrip(filters, ExceptionBreakpointsFilterToProto, ExceptionBreakpointsFilterFromProto);
    ChecksumNamesRoundTrip(c.supportedChecksumAlgorithms.UnwrapOr([]));
    BreakpointModesRoundTrip(c.breakpointModes.UnwrapOr([]));
    var cols := c.additionalModuleColumns.UnwrapOr([]);
    assert MapSeq(MapSeq(cols, ColumnName), ColumnFromName)
      == MapSeq(cols, (col: ColumnDescriptor) => ColumnFromName(col.attributeName));
  }

  /** `Some([])` does not survive: it comes back as `None`. */
  lemma EmptyTriggerCharactersLost(c: Capabilities)
    requires CapabilitiesToProto(c).Some?
    requires c.completionTriggerCharacters == Some([])
    ensures CapabilitiesFromProto(CapabilitiesToProto(c).value).completionTriggerCharacters == None
  {
  }
}
