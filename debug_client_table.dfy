/**
 * The `debug_client` table row of the collaboration server: eight Debug
 * Adapter Protocol capability flags packed into bits 0..7 of a `u32` column.
 */
module DebugClientTable {

  /** Bit positions of the eight capability flags. */
  const LoadedSourcesRequestBit: bv32 := 0
  const ModulesRequestBit: bv32 := 1
  const RestartRequestBit: bv32 := 2
  const SetExpressionBit: bv32 := 3
  const SingleThreadExecutionRequestsBit: bv32 := 4
  const StepBackBit: bv32 := 5
  const SteppingGranularityBit: bv32 := 6
  const TerminateThreadsRequestBit: bv32 := 7

  /** The eight flags, as `DebugClientCapabilities`. */
  datatype DebugClientCapabilities = DebugClientCapabilities(
    supportsLoadedSourcesRequest: bool,
    supportsModulesRequest: bool,
    supportsRestartRequest: bool,
    supportsSetExpression: bool,
    supportsSingleThreadExecutionRequests: bool,
    supportsStepBack: bool,
    supportsSteppingGranularity: bool,
    supportsTerminateThreadsRequest: bool)

  /** The protobuf message `SetDebugClientCapabilities`: the flags plus the row's ids. */
  datatype SetDebugClientCapabilities = SetDebugClientCapabilities(
    sessionId: nat,
    clientId: nat,
    projectId: nat,
    supportsLoadedSourcesRequest: bool,
    supportsModulesRequest: bool,
    supportsRestartRequest: bool,
    supportsSetExpression: bool,
    supportsSingleThreadExecutionRequests: bool,
    supportsStepBack: bool,
    supportsSteppingGranularity: bool,
    supportsTerminateThreadsRequest: bool)

  /** Bit `k` of a 32-bit word, as `value & (1 << k) != 0`. */
  predicate BitSet(v: bv32, k: bv32)
    requires k < 32
  {
    v & (1 << k) != 0
  }

  /** The flag stored at bit position `k`. */
  function Flag(c: DebugClientCapabilities, k: bv32): bool
    requires k < 8
  {
    if k == LoadedSourcesRequestBit then c.supportsLoadedSourcesRequest
    else if k == ModulesRequestBit then c.supportsModulesRequest
    else if k == RestartRequestBit then c.supportsRestartRequest
    else if k == SetExpressionBit then c.supportsSetExpression
    else if k == SingleThreadExecutionRequestsBit then c.supportsSingleThreadExecutionRequests
    else if k == StepBackBit then c.supportsStepBack
    else if k == SteppingGranularityBit then c.supportsSteppingGranularity
    else c.supportsTerminateThreadsRequest
  }

  /** The flags of a `SetDebugClientCapabilities` message. */
  function FlagsOf(p: SetDebugClientCapabilities): DebugClientCapabilities
  {
    DebugClientCapabilities(
      p.supportsLoadedSourcesRequest, p.supportsModulesRequest, p.supportsRestartRequest,
      p.supportsSetExpression, p.supportsSingleThreadExecutionRequests, p.supportsStepBack,
      p.supportsSteppingGranularity, p.supportsTerminateThreadsRequest)
  }

  /** `b as u32`. */
  function BoolAsU32(b: bool): bv32
  {
    if b then 1 else 0
  }

  /**
   * The mask `to_u32` builds: bit k holds flag k for k < 8, every higher bit
   * is clear, so the value is below 256.
   */
  function ToMask(c: DebugClientCapabilities): (m: bv32)
    ensures m < 256
    ensures forall k: bv32 | k < 8 :: BitSet(m, k) == Flag(c, k)
  {
    MaskBits(c);
    OrOfShifts(c)
  }

  /** The `|` of every flag shifted to its position. */
  function OrOfShifts(c: DebugClientCapabilities): bv32
  {
    (BoolAsU32(c.supportsLoadedSourcesRequest) << LoadedSourcesRequestBit)
      | (BoolAsU32(c.supportsModulesRequest) << ModulesRequestBit)
      | (BoolAsU32(c.supportsRestartRequest) << RestartRequestBit)
      | (BoolAsU32(c.supportsSetExpression) << SetExpressionBit)
      | (BoolAsU32(c.supportsSingleThreadExecutionRequests) << SingleThreadExecutionRequestsBit)
      | (BoolAsU32(c.supportsStepBack) << StepBackBit)
      | (BoolAsU32(c.supportsSteppingGranularity) << SteppingGranularityBit)
      | (BoolAsU32(c.supportsTerminateThreadsRequest) << TerminateThreadsRequestBit)
  }

  lemma MaskBits(c: DebugClientCapabilities)
    ensures OrOfShifts(c) < 256
    ensures forall k: bv32 | k < 8 :: BitSet(OrOfShifts(c), k) == Flag(c, k)
  {
    MaskBits0(c);
    MaskBits2(c);
    MaskBits4(c);
    MaskBits6(c);
    MaskBelow256(c);
  }

  lemma MaskBelow256(c: DebugClientCapabilities)
    ensures OrOfShifts(c) < 256
  {
  }

  lemma MaskBits0(c: DebugClientCapabilities)
    ensures forall k: bv32 | 0 <= k < 2 :: BitSet(OrOfShifts(c), k) == Flag(c, k)
  {
    forall k: bv32 | 0 <= k < 2
      ensures BitSet(OrOfShifts(c), k) == Flag(c, k)
    {
      if k == 0 {} else {}
    }
  }

  lemma MaskBits2(c: DebugClientCapabilities)
    ensures forall k: bv32 | 2 <= k < 4 :: BitSet(OrOfShifts(c), k) == Flag(c, k)
  {
    forall k: bv32 | 2 <= k < 4
      ensures BitSet(OrOfShifts(c), k) == Flag(c, k)
    {
      if k == 2 {} else {}
    }
  }

  lemma MaskBits4(c: DebugClientCapabilities)
    ensures forall k: bv32 | 4 <= k < 6 :: BitSet(OrOfShifts(c), k) == Flag(c, k)
  {
    forall k: bv32 | 4 <= k < 6
      ensures BitSet(OrOfShifts(c), k) == Flag(c, k)
    {
      if k == 4 {} else {}
    }
  }

  lemma MaskBits6(c: DebugClientCapabilities)
    ensures forall k: bv32 | 6 <= k < 8 :: BitSet(OrOfShifts(c), k) == Flag(c, k)
  {
    forall k: bv32 | 6 <= k < 8
      ensures BitSet(OrOfShifts(c), k) == Flag(c, k)
    {
      if k == 6 {} else {}
    }
  }

  /** `DebugClientCapabilities::to_u32`: the mask accumulated with `|=`. */
  method ToU32(c: DebugClientCapabilities) returns (result: bv32)
    ensures result == ToMask(c)
  {
    result := 0;
    result := result | (BoolAsU32(c.supportsLoadedSourcesRequest) << LoadedSourcesRequestBit);
    result := result | (BoolAsU32(c.supportsModulesRequest) << ModulesRequestBit);
    result := result | (BoolAsU32(c.supportsRestartRequest) << RestartRequestBit);
    result := result | (BoolAsU32(c.supportsSetExpression) << SetExpressionBit);
    result := result | (BoolAsU32(c.supportsSingleThreadExecutionRequests) << SingleThreadExecutionRequestsBit);
    result := result | (BoolAsU32(c.supportsStepBack) << StepBackBit);
    result := result | (BoolAsU32(c.supportsSteppingGranularity) << SteppingGranularityBit);
    result := result | (BoolAsU32(c.supportsTerminateThreadsRequest) << TerminateThreadsRequestBit);
  }

  /** `DebugClientCapabilities::from_u32`: flag k is bit k of the word. */
  function FromU32(value: bv32): (c: DebugClientCapabilities)
    ensures forall k: bv32 | k < 8 :: Flag(c, k) == BitSet(value, k)
  {
    DebugClientCapabilities(
      BitSet(value, LoadedSourcesRequestBit),
      BitSet(value, ModulesRequestBit),
      BitSet(value, RestartRequestBit),
      BitSet(value, SetExpressionBit),
      BitSet(value, SingleThreadExecutionRequestsBit),
      BitSet(value, StepBackBit),
      BitSet(value, SteppingGranularityBit),
      BitSet(value, TerminateThreadsRequestBit))
  }

  /** Two capability records with the same flag at every position are equal. */
  lemma FlagsDetermine(a: DebugClientCapabilities, b: DebugClientCapabilities)
    requires forall k: bv32 | k < 8 :: Flag(a, k) == Flag(b, k)
    ensures a == b
  {
    assert Flag(a, 0) == Flag(b, 0) && Flag(a, 1) == Flag(b, 1);
    assert Flag(a, 2) == Flag(b, 2) && Flag(a, 3) == Flag(b, 3);
    assert Flag(a, 4) == Flag(b, 4) && Flag(a, 5) == Flag(b, 5);
    assert Flag(a, 6) == Flag(b, 6) && Flag(a, 7) == Flag(b, 7);
  }

  /** Decoding an encoded record gives it back. */
  lemma FromToRoundTrip(c: DebugClientCapabilities)
    ensures FromU32(ToMask(c)) == c
  {
    FlagsDetermine(FromU32(ToMask(c)), c);
  }

  /** Encoding a decoded word keeps bits 0..7 and drops every higher bit. */
  lemma ToFromKeepsLowByte(value: bv32)
    ensures ToMask(FromU32(value)) == value & 0xFF
  {
    var m := ToMask(FromU32(value));
    forall k: bv32 | k < 8
      ensures BitSet(m, k) == BitSet(value & 0xFF, k)
    {
      if k == 0 {} else if k == 1 {} else if k == 2 {} else if k == 3 {}
      else if k == 4 {} else if k == 5 {} else if k == 6 {} else {}
    }
    SameLowBits(m, value & 0xFF);
  }

  /** Two words below 256 that agree on bits 0..7 are equal. */
  lemma SameLowBits(x: bv32, y: bv32)
    requires x < 256 && y < 256
    requires forall k: bv32 | k < 8 :: BitSet(x, k) == BitSet(y, k)
    ensures x == y
  {
    assert BitSet(x, 0) == BitSet(y, 0) && BitSet(x, 1) == BitSet(y, 1);
    assert BitSet(x, 2) == BitSet(y, 2) && BitSet(x, 3) == BitSet(y, 3);
    assert BitSet(x, 4) == BitSet(y, 4) && BitSet(x, 5) == BitSet(y, 5);
    assert BitSet(x, 6) == BitSet(y, 6) && BitSet(x, 7) == BitSet(y, 7);
  }

  /** A `debug_client` row. `set_capabilities` updates it in place. */
  class Model {
    var id: nat
    var projectId: nat
    var sessionId: nat
    var capabilities: bv32
    var panelItem: seq<bv8>

    constructor (id: nat, projectId: nat, sessionId: nat, capabilities: bv32, panelItem: seq<bv8>)
      ensures this.id == id && this.projectId == projectId && this.sessionId == sessionId
      ensures this.capabilities == capabilities && this.panelItem == panelItem
    {
      this.id := id;
      this.projectId := projectId;
      this.sessionId := sessionId;
      this.capabilities := capabilities;
      this.panelItem := panelItem;
    }

    /**
     * `Model::capabilities`: the row's ids are copied and each flag is the
     * corresponding bit of the stored word.
     */
    function Capabilities(): (p: SetDebugClientCapabilities)
      reads this
      ensures p.sessionId == sessionId && p.clientId == id && p.projectId == projectId
      ensures FlagsOf(p) == FromU32(capabilities)
    {
      SetDebugClientCapabilities(
        sessionId, id, projectId,
        BitSet(capabilities, LoadedSourcesRequestBit),
        BitSet(capabilities, ModulesRequestBit),
        BitSet(capabilities, RestartRequestBit),
        BitSet(capabilities, SetExpressionBit),
        BitSet(capabilities, SingleThreadExecutionRequestsBit),
        BitSet(capabilities, StepBackBit),
        BitSet(capabilities, SteppingGranularityBit),
        BitSet(capabilities, TerminateThreadsRequestBit))
    }

    /**
     * `Model::set_capabilities`: writes the mask of `p`'s flags into the
     * `capabilities` column and nothing else; reading the capabilities back
     * gives `p`'s flags.
     */
    method SetCapabilities(p: SetDebugClientCapabilities)
      modifies this
      ensures capabilities == ToMask(FlagsOf(p))
      ensures id == old(id) && projectId == old(projectId)
      ensures sessionId == old(sessionId) && panelItem == old(panelItem)
      ensures FlagsOf(Capabilities()) == FlagsOf(p)
    {
      var mask: bv32 := 0;
      mask := mask | (BoolAsU32(p.supportsLoadedSourcesRequest) << LoadedSourcesRequestBit);
      mask := mask | (BoolAsU32(p.supportsModulesRequest) << ModulesRequestBit);
      mask := mask | (BoolAsU32(p.supportsRestartRequest) << RestartRequestBit);
      mask := mask | (BoolAsU32(p.supportsSetExpression) << SetExpressionBit);
      mask := mask | (BoolAsU32(p.supportsSingleThreadExecutionRequests) << SingleThreadExecutionRequestsBit);
      mask := mask | (BoolAsU32(p.supportsStepBack) << StepBackBit);
      mask := mask | (BoolAsU32(p.supportsSteppingGranularity) << SteppingGranularityBit);
      mask := mask | (BoolAsU32(p.supportsTerminateThreadsRequest) << TerminateThreadsRequestBit);
      capabilities := mask;
      FromToRoundTrip(FlagsOf(p));
    }
  }
}
