/**
 * The `debug_session` table row of the collaboration server. It keeps its
 * own copy of the capability record and bit layout; the lemmas at the end
 * show that the layout agrees with the `debug_client` table's.
 */
module DebugSessionTable {
  import Client = DebugClientTable

  const LoadedSourcesRequestBit: bv32 := 0
  const ModulesRequestBit: bv32 := 1
  const RestartRequestBit: bv32 := 2
  const SetExpressionBit: bv32 := 3
  const SingleThreadExecutionRequestsBit: bv32 := 4
  const StepBackBit: bv32 := 5
  const SteppingGranularityBit: bv32 := 6
  const TerminateThreadsRequestBit: bv32 := 7

  datatype DebugClientCapabilities = DebugClientCapabilities(
    supportsLoadedSourcesRequest: bool,
    supportsModulesRequest: bool,
    supportsRestartRequest: bool,
    supportsSetExpression: bool,
    supportsSingleThreadExecutionRequests: bool,
    supportsStepBack: bool,
    supportsSteppingGranularity: bool,
    supportsTerminateThreadsRequest: bool)

  predicate BitSet(v: bv32, k: bv32)
    requires k < 32
  {
    v & (1 << k) != 0
  }

  function Flag(c: DebugClientCapabilities, k: bv32): bool
    requires k < 8
  {
    if k == LoadedSourcesRequestBit then c.supportsLoadedSourcesRequest
    else if k == ModulesRequestBit then c.supportsModulesRequest
    else if k == RestartRequestBit then c.supportsRestartRequest
    else if k == SetExpressionBit then c.supportsSetExpression
    else if k == SingleThreadExecutionRequestsBit then c.supportsSingleThreadExecutionRequests
    else if k == StepBackBit then c.supportsStepBack
    else if k == SteppingGranularityBit then c.supportsSteppingGranularity
    else c.supportsTerminateThreadsRequest
  }

  function BoolAsU32(b: bool): bv32
  {
    if b then 1 else 0
  }

  function OrOfShifts(c: DebugClientCapabilities): bv32
  {
    (BoolAsU32(c.supportsLoadedSourcesRequest) << LoadedSourcesRequestBit)
      | (BoolAsU32(c.supportsModulesRequest) << ModulesRequestBit)
      | (BoolAsU32(c.supportsRestartRequest) << RestartRequestBit)
      | (BoolAsU32(c.supportsSetExpression) << SetExpressionBit)
      | (BoolAsU32(c.supportsSingleThreadExecutionRequests) << SingleThreadExecutionRequestsBit)
      | (BoolAsU32(c.supportsStepBack) << StepBackBit)
      | (BoolAsU32(c.supportsSteppingGranularity) << SteppingGranularityBit)
      | (BoolAsU32(c.supportsTerminateThreadsRequest) << TerminateThreadsRequestBit)
  }

  lemma MaskBits(c: DebugClientCapabilities)
    ensures OrOfShifts(c) < 256
    ensures forall k: bv32 | k < 8 :: BitSet(OrOfShifts(c), k) == Flag(c, k)
  {
    MaskBits0(c);
    MaskBits2(c);
    MaskBits4(c);
    MaskBits6(c);
    MaskBelow256(c);
  }

  lemma MaskBelow256(c: DebugClientCapabilities)
    ensures OrOfShifts(c) < 256
  {
  }

  lemma MaskBits0(c: DebugClientCapabilities)
    ensures forall k: bv32 | 0 <= k < 2 :: BitSet(OrOfShifts(c), k) == Flag(c, k)
  {
    forall k: bv32 | 0 <= k < 2
      ensures BitSet(OrOfShifts(c), k) == Flag(c, k)
    {
      if k == 0 {} else {}
    }
  }

  lemma MaskBits2(c: DebugClientCapabilities)
    ensures forall k: bv32 | 2 <= k < 4 :: BitSet(OrOfShifts(c), k) == Flag(c, k)
  {
    forall k: bv32 | 2 <= k < 4
      ensures BitSet(OrOfShifts(c), k) == Flag(c, k)
    {
      if k == 2 {} else {}
    }
  }

  lemma MaskBits4(c: DebugClientCapabilities)
    ensures forall k: bv32 | 4 <= k < 6 :: BitSet(OrOfShifts(c), k) == Flag(c, k)
  {
    forall k: bv32 | 4 <= k < 6
      ensures BitSet(OrOfShifts(c), k) == Flag(c, k)
    {
      if k == 4 {} else {}
    }
  }

  lemma MaskBits6(c: DebugClientCapabilities)
    ensures forall k: bv32 | 6 <= k < 8 :: BitSet(OrOfShifts(c), k) == Flag(c, k)
  {
    forall k: bv32 | 6 <= k < 8
      ensures BitSet(OrOfShifts(c), k) == Flag(c, k)
    {
      if k == 6 {} else {}
    }
  }

  /** The mask `to_u32` builds: bit k holds flag k, the value is below 256. */
  function ToMask(c: DebugClientCapabilities): (m: bv32)
    ensures m < 256
    ensures forall k: bv32 | k < 8 :: BitSet(m, k) == Flag(c, k)
  {
    MaskBits(c);
    OrOfShifts(c)
  }

  /** `DebugClientCapabilities::to_u32`, accumulating a `mut result`. */
  method ToU32(c: DebugClientCapabilities) returns (result: bv32)
    ensures result == ToMask(c)
  {
    result := 0;
    result := result | (BoolAsU32(c.supportsLoadedSourcesRequest) << LoadedSourcesRequestBit);
    result := result | (BoolAsU32(c.supportsModulesRequest) << ModulesRequestBit);
    result := result | (BoolAsU32(c.supportsRestartRequest) << RestartRequestBit);
    result := result | (BoolAsU32(c.supportsSetExpression) << SetExpressionBit);
    result := result | (BoolAsU32(c.supportsSingleThreadExecutionRequests) << SingleThreadExecutionRequestsBit);
    result := result | (BoolAsU32(c.supportsStepBack) << StepBackBit);
    result := result | (BoolAsU32(c.supportsSteppingGranularity) << SteppingGranularityBit);
    result := result | (BoolAsU32(c.supportsTerminateThreadsRequest) << TerminateThreadsRequestBit);
  }

  /** `DebugClientCapabilities::from_u32`: flag k is bit k of the word. */
  function FromU32(value: bv32): (c: DebugClientCapabilities)
    ensures forall k: bv32 | k < 8 :: Flag(c, k) == BitSet(value, k)
  {
    DebugClientCapabilities(
      BitSet(value, LoadedSourcesRequestBit),
      BitSet(value, ModulesRequestBit),
      BitSet(value, RestartRequestBit),
      BitSet(value, SetExpressionBit),
      BitSet(value, SingleThreadExecutionRequestsBit),
      BitSet(value, StepBackBit),
      BitSet(value, SteppingGranularityBit),
      BitSet(value, TerminateThreadsRequestBit))
  }

  lemma FlagsDetermine(a: DebugClientCapabilities, b: DebugClientCapabilities)
    requires forall k: bv32 | k < 8 :: Flag(a, k) == Flag(b, k)
    ensures a == b
  {
    assert Flag(a, 0) == Flag(b, 0) && Flag(a, 1) == Flag(b, 1);
    assert Flag(a, 2) == Flag(b, 2) && Flag(a, 3) == Flag(b, 3);
    assert Flag(a, 4) == Flag(b, 4) && Flag(a, 5) == Flag(b, 5);
    assert Flag(a, 6) == Flag(b, 6) && Flag(a, 7) == Flag(b, 7);
  }

  /** Decoding an encoded record gives it back. */
  lemma FromToRoundTrip(c: DebugClientCapabilities)
    ensures FromU32(ToMask(c)) == c
  {
    FlagsDetermine(FromU32(ToMask(c)), c);
  }

  /** A `debug_session` row. */
  class Model {
    var id: int
    var projectId: nat
    var capabilities: bv32

    constructor (id: int, projectId: nat, capabilities: bv32)
      requires -0x8000_0000 <= id < 0x8000_0000
      ensures this.id == id && this.projectId == projectId && this.capabilities == capabilities
    {
      this.id := id;
      this.projectId := projectId;
      this.capabilities := capabilities;
    }

    /** `Model::capabilities`: the flags decoded from the stored word. */
    function Capabilities(): (c: DebugClientCapabilities)
      reads this
      ensures forall k: bv32 | k < 8 :: Flag(c, k) == BitSet(capabilities, k)
    {
      FromU32(capabilities)
    }

    /**
     * `Model::set_capabilities`: stores the mask of `c` and nothing else, so
     * that `Capabilities()` afterwards returns `c`.
     */
    method SetCapabilities(c: DebugClientCapabilities)
      modifies this
      ensures capabilities == ToMask(c)
      ensures id == old(id) && projectId == old(projectId)
      ensures Capabilities() == c
    {
      capabilities := ToU32(c);
      FromToRoundTrip(c);
    }
  }

  /** The field-by-field correspondence between the two tables' records. */
  function FromClientRecord(c: Client.DebugClientCapabilities): DebugClientCapabilities
  {
    DebugClientCapabilities(
      c.supportsLoadedSourcesRequest, c.supportsModulesRequest, c.supportsRestartRequest,
      c.supportsSetExpression, c.supportsSingleThreadExecutionRequests, c.supportsStepBack,
      c.supportsSteppingGranularity, c.supportsTerminateThreadsRequest)
  }

  function ToClientRecord(c: DebugClientCapabilities): Client.DebugClientCapabilities
  {
    Client.DebugClientCapabilities(
      c.supportsLoadedSourcesRequest, c.supportsModulesRequest, c.supportsRestartRequest,
      c.supportsSetExpression, c.supportsSingleThreadExecutionRequests, c.supportsStepBack,
      c.supportsSteppingGranularity, c.supportsTerminateThreadsRequest)
  }

  /** Same bit positions in both tables, flag by flag. */
  lemma SameFlagPositions(c: Client.DebugClientCapabilities, k: bv32)
    requires k < 8
    ensures Flag(FromClientRecord(c), k) == Client.Flag(c, k)
  {
  }

  /** Any 32-bit word decodes to the same flags in both tables. */
  lemma SameDecoding(value: bv32)
    ensures FromU32(value) == FromClientRecord(Client.FromU32(value))
  {
    var a := FromU32(value);
    var b := FromClientRecord(Client.FromU32(value));
    forall k: bv32 | k < 8
      ensures Flag(a, k) == Flag(b, k)
    {
      SameFlagPositions(Client.FromU32(value), k);
    }
    FlagsDetermine(a, b);
  }

  /** A record written by either table is read back identically by the other. */
  lemma MasksInterchangeable(c: DebugClientCapabilities)
    ensures ToMask(c) == Client.ToMask(ToClientRecord(c))
    ensures Client.FromU32(ToMask(c)) == ToClientRecord(c)
    ensures FromU32(Client.ToMask(ToClientRecord(c))) == c
  {
    assert ToMask(c) == Client.ToMask(ToClientRecord(c));
    Client.FromToRoundTrip(ToClientRecord(c));
    FromToRoundTrip(c);
  }
}
