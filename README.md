# A verified model of Zed's debugger core

This project models, in Dafny, the logic at the heart of the debugger of
the Zed editor. Zed talks to debug adapters over the Debug Adapter Protocol
(DAP) and forwards debugging to collaborators over its own protobuf RPC.
The repository holds snapshots of several revisions of this work, so two
variable lists and three debug sessions exist side by side. Each file is
modelled on its own terms; where they differ, the model follows each
file's code. The one exception is a finding (below): the older variable
list's opening of the first scope is modelled as written and, beside
it, as corrected, and the rest of that model uses the corrected form.

The model covers five groups of code.

- **Wire and storage encodings.** The collaboration server packs capability
  flags into bits 0..7 of a `u32` (`debug_client` and `debug_session`
  tables). `PeerId` and `Nonce` split into integer halves, and
  `split_worktree_update` cuts a large worktree update into bounded chunks.
  The `ProtoConversion` implementations move DAP values to and from
  protobuf. Every debugger command has a wire form, a capability test and a
  cacheability flag.
- **Breakpoint and session bookkeeping.** The breakpoint store and the DAP
  store toggle breakpoints and serialise them with 1-based lines. The
  session and client states track modules, loaded sources, a deduplicated
  request cache and clients by id. The adapter session merges capabilities.
- **Base-protocol framing.** The transport writes and parses the
  `Content-Length` header of the DAP base protocol (section "Base Protocol"
  of the Debug Adapter Protocol specification). It moves response senders
  between the map of requests being sent and the map of requests sent.
- **View models.** The stack frame list collapses runs of deemphasized
  frames. The running variable list walks the variable tree depth first and
  moves the selection. The older variable list keeps a sorted list of open
  entries. The file finder orders, deduplicates and caps its matches.
- **Panel state machines.** The debugger panel keeps a thread state per
  (client, thread) and opens a tab per stopped thread. Each panel item has
  inner tabs, toolbar rules and event filters. A session tab moves through
  inert, starting, running and failed.

Pure code (the conversions, the command table, the id encodings) is
written as datatypes, functions and lemmas. Code that updates state in
place (stores, sessions, the transport delegate, the list views and the
panels) is written as classes whose methods state their whole new state.
Those methods are proved against specification functions, and the
functions' laws are proved as lemmas. Effects the code sends elsewhere, to
the DAP store, the project, the workspace or a terminal, are recorded in
an outbox sequence, in the order they are sent.

Integers are unbounded. Where the code narrows or wraps them (`u32` casts
in the protobuf conversions, the `u32` increment when breakpoints are
serialised, `saturating_sub`, thread id `u64::MAX` in the panel), this is
written out.

## Model

| member | source | states |
|---|---|---|
| DebugClientTable.ToMask | crates/collab/src/db/tables/debug_client.rs:5-12 | the capability mask has flag k at bit k for the eight bit constants, every higher bit clear, so it is below 256 |
| DebugClientTable.ToU32 | crates/collab/src/db/tables/debug_client.rs:107-121 | the `|=` accumulation over the eight flags yields exactly that mask |
| DebugClientTable.FromU32 | crates/collab/src/db/tables/debug_client.rs:123-139 | each decoded flag is the corresponding bit of the stored word |
| DebugClientTable.FromToRoundTrip | crates/collab/src/db/tables/debug_client.rs:107-139 | decoding an encoded record gives the record back |
| DebugClientTable.ToFromKeepsLowByte | crates/collab/src/db/tables/debug_client.rs:107-139 | encoding a decoded word keeps bits 0..7 and clears every higher bit |
| DebugClientTable.FlagsDetermine | crates/collab/src/db/tables/debug_client.rs:94-104 | two capability records with equal flags at all eight positions are equal |
| DebugClientTable.Model.Capabilities | crates/collab/src/db/tables/debug_client.rs:28-52 | the message copies session, client and project ids and carries the decoded flags of the stored word |
| DebugClientTable.Model.SetCapabilities | crates/collab/src/db/tables/debug_client.rs:54-73 | the column becomes the mask of the message's flags; id, project, session and panel item are unchanged |
| DebugSessionTable.ToMask | crates/collab/src/db/tables/debug_session.rs:55-62 | same bit layout: flag k at bit k, value below 256 |
| DebugSessionTable.ToU32 | crates/collab/src/db/tables/debug_session.rs:65-79 | the `mut result` accumulation yields exactly that mask |
| DebugSessionTable.FromU32 | crates/collab/src/db/tables/debug_session.rs:81-97 | each decoded flag is the corresponding bit |
| DebugSessionTable.FromToRoundTrip | crates/collab/src/db/tables/debug_session.rs:64-97 | `from_u32(to_u32(c)) == c` for every record |
| DebugSessionTable.Model.Capabilities | crates/collab/src/db/tables/debug_session.rs:16-18 | the flags decoded from the stored word |
| DebugSessionTable.Model.SetCapabilities | crates/collab/src/db/tables/debug_session.rs:20-22 | stores the mask, leaves id and project unchanged, and reading the capabilities back returns the record written |
| DebugSessionTable.SameFlagPositions | crates/collab/src/db/tables/debug_session.rs:55-62 | each flag sits at the same bit position as in the debug_client table |
| DebugSessionTable.SameDecoding | crates/collab/src/db/tables/debug_session.rs:81-97 | every word decodes to the same flags in both tables |
| DebugSessionTable.MasksInterchangeable | crates/collab/src/db/tables/debug_session.rs:64-97 | a mask written by either table is read back identically by the other |
| ProtoIds.PeerIdFromU64 | crates/proto/src/proto.rs:99-103 | the owner id is the high 32 bits and the id the low 32 bits of the packed value |
| ProtoIds.AsU64 | crates/proto/src/proto.rs:105-107 | the packed value's quotient by 2^32 is the owner id and its remainder the id |
| ProtoIds.PeerIdRoundTrip | crates/proto/src/proto.rs:99-107 | `from_u64(p.as_u64()) == p` for every peer id, halves equal to `u32::MAX` included |
| ProtoIds.U64RoundTrip | crates/proto/src/proto.rs:99-107 | `from_u64(x).as_u64() == x` for every `u64` |
| ProtoIds.PeerIdRoundTripCases | crates/proto/src/proto.rs:923-945 | the four round trips the conversion test asserts |
| ProtoIds.Cmp | crates/proto/src/proto.rs:114-120 | Equal exactly on equal ids; Less exactly when the owner is smaller, or the owner is the same and the id is smaller |
| ProtoIds.CmpMatchesU64 | crates/proto/src/proto.rs:114-120 | comparing owner id then id agrees with comparing the packed `u64` values |
| ProtoIds.CmpIsTotalOrder | crates/proto/src/proto.rs:114-126 | the order is antisymmetric, transitive and Equal exactly on equal ids |
| ProtoIds.NonceFromU128 | crates/proto/src/proto.rs:815-824 | the nonce halves are the high and low 64 bits |
| ProtoIds.NonceToU128 | crates/proto/src/proto.rs:826-832 | the packed value's quotient by 2^64 is the upper half and its remainder the lower half |
| ProtoIds.NonceRoundTrip | crates/proto/src/proto.rs:815-832 | `u128 -> Nonce -> u128` is the identity |
| ProtoIds.NonceHalvesRoundTrip | crates/proto/src/proto.rs:815-832 | `Nonce -> u128 -> Nonce` is the identity |
| WorktreeUpdateSplit.DrainRepository | crates/proto/src/proto.rs:868-884 | the chunk's copy of a repository takes the first `min(len, limit)` statuses of each list; copy and remainder concatenate to the original lists |
| WorktreeUpdateSplit.RepositoryStep | crates/proto/src/proto.rs:866-892 | one loop step keeps every status in order, stays within the budget, and drops the repository once both its lists are empty |
| WorktreeUpdateSplit.WorktreeUpdateSplitter.constructor | crates/proto/src/proto.rs:839-840 | the iterator starts on the whole message with `done` clear |
| WorktreeUpdateSplit.WorktreeUpdateSplitter.DrainRepositories | crates/proto/src/proto.rs:865-892 | the `while let` loop moves status prefixes into the chunk within `MAX_WORKTREE_UPDATE_MAX_CHUNK_SIZE`; taken and left-over statuses concatenate to the original ones |
| WorktreeUpdateSplit.WorktreeUpdateSplitter.NextChunk | crates/proto/src/proto.rs:847-914 | a chunk has the message's header, entry prefixes of at most the chunk size, drained repositories, and removed repositories and `is_last_update` only when it sets `done` |
| WorktreeUpdateSplit.WorktreeUpdateSplitter.Next | crates/proto/src/proto.rs:842-846 | `None` exactly once `done` is set; otherwise a chunk, and the amount left strictly shrinks |
| WorktreeUpdateSplit.SplitWorktreeUpdate | crates/proto/src/proto.rs:839-916 | running the iterator to the end yields at least one chunk, each bounded and with the message's header, whose lists concatenate in order to the message's lists; only the last chunk carries the removed repositories and the last-update flag |
| ProtoConversions.MapSeq | crates/dap/src/proto_conversions.rs:17-34 | a list converts element by element: same length, the i-th result is the conversion of the i-th element |
| ProtoConversions.MapSeqRoundTrip | crates/dap/src/proto_conversions.rs:17-34 | converting a list there and back is the identity whenever it is for every element |
| ProtoConversions.ScopePresentationHintToProto | crates/dap/src/proto_conversions.rs:113-126 | the conversion fails (the unreachable arm) exactly for a hint outside the listed ones, and otherwise converts back to the same hint |
| ProtoConversions.ScopePresentationHintFromProto | crates/dap/src/proto_conversions.rs:128-137 | a hint read off the wire is always one of the listed ones, never the catch-all; `ProtoConversions.ScopePresentationHintProtoRoundTrip` states the round trip |
| ProtoConversions.ScopePresentationHintProtoRoundTrip | crates/dap/src/proto_conversions.rs:113-137 | every message hint converts to a hint and back to itself |
| ProtoConversions.SourcePresentationHintToProto | crates/dap/src/proto_conversions.rs:139-164 | every source presentation hint survives the trip through the message |
| ProtoConversions.SourcePresentationHintFromProto | crates/dap/src/proto_conversions.rs:154-164 | reads each wire hint as its hint; `ProtoConversions.SourcePresentationHintToProto` and `ProtoConversions.SourcePresentationHintProtoRoundTrip` state the round trips either way |
| ProtoConversions.SourcePresentationHintProtoRoundTrip | crates/dap/src/proto_conversions.rs:139-164 | every message hint comes back unchanged |
| ProtoConversions.ChecksumAlgorithmToProto | crates/dap/src/proto_conversions.rs:185-197 | no algorithm is written as the unspecified value, and each reads back as itself |
| ProtoConversions.ChecksumAlgorithmFromProto | crates/dap/src/proto_conversions.rs:198-207 | reading an algorithm fails (the unreachable arm) exactly on the unspecified value |
| ProtoConversions.ChecksumToProto | crates/dap/src/proto_conversions.rs:166-183 | a checksum survives the trip through the message |
| ProtoConversions.ChecksumFromProto | crates/dap/src/proto_conversions.rs:166-183 | reading fails exactly when the algorithm is unspecified, and keeps the checksum text |
| ProtoConversions.ChecksumProtoRoundTrip | crates/dap/src/proto_conversions.rs:166-183 | a message checksum that reads back is written again unchanged |
| ProtoConversions.ChecksumsFromProto | crates/dap/src/proto_conversions.rs:17-34 | a list of checksums fails to read exactly when one element has an unspecified algorithm; otherwise element i is element i read |
| ProtoConversions.ChecksumsRoundTrip | crates/dap/src/proto_conversions.rs:17-34 | a list of checksums survives the trip through the message |
| ProtoConversions.SourceToProto | crates/dap/src/proto_conversions.rs:213-233 | name, path, source reference and origin are copied, a hint is written exactly when there is one, and every nested source and checksum is written |
| ProtoConversions.SourceFromProto | crates/dap/src/proto_conversions.rs:234-249 | reading fails exactly when a checksum has an unspecified algorithm or a nested source fails; a source read keeps name, path, reference and origin, has its nested sources (as many as the wire) and checksums, and no adapter data |
| ProtoConversions.SourceRoundTrip | crates/dap/src/proto_conversions.rs:209-249 | a source comes back from the message in its normal form |
| ProtoConversions.SourceProtoRoundTrip | crates/dap/src/proto_conversions.rs:209-249 | a source message whose checksums all read back is written again unchanged |
| ProtoConversions.OptionSourceRoundTrip | crates/dap/src/proto_conversions.rs:209-249 | an optional source comes back in its normal form |
| ProtoConversions.ScopeToProto | crates/dap/src/proto_conversions.rs:36-58 | writing a scope fails exactly when its presentation hint is outside the listed ones |
| ProtoConversions.ScopeFromProto | crates/dap/src/proto_conversions.rs:59-77 | reading a scope fails exactly when its source does |
| ProtoConversions.ScopeRoundTrip | crates/dap/src/proto_conversions.rs:36-77 | a scope that can be written comes back unchanged up to its source's normal form |
| ProtoConversions.VariableToProto | crates/dap/src/proto_conversions.rs:79-111 | a variable loses its presentation hint and location references through the message and keeps everything else |
| ProtoConversions.VariableProtoRoundTrip | crates/dap/src/proto_conversions.rs:79-111 | a variable message comes back unchanged |
| ProtoConversions.VariableFromProto | crates/dap/src/proto_conversions.rs:96-111 | a variable read off the wire has no presentation hint and no location references |
| ProtoConversions.StackFrameFromProto | crates/dap/src/proto_conversions.rs:271-286 | reading fails exactly when the source does; a frame read has no module id and no presentation hint |
| ProtoConversions.StackFrameToProto | crates/dap/src/proto_conversions.rs:251-286 | a stack frame written to the wire reads back, losing only its module id and presentation hint, with its source in normal form |
| ProtoConversions.ModuleToProto | crates/dap/src/proto_conversions.rs:292-311 | a module is written with both ids present and reads back as itself |
| ProtoConversions.ModuleFromProto | crates/dap/src/proto_conversions.rs:312-336 | reading fails with the missing-id error when the outer id is absent, with the missing-kind error when the inner one is, and succeeds otherwise |
| ProtoConversions.ModuleProtoRoundTrip | crates/dap/src/proto_conversions.rs:288-336 | a module message that reads back is written again unchanged |
| ProtoConversions.SteppingGranularityToProto | crates/dap/src/proto_conversions.rs:338-357 | every stepping granularity survives the trip |
| ProtoConversions.SteppingGranularityFromProto | crates/dap/src/proto_conversions.rs:350-357 | reads each wire granularity as its granularity; `ProtoConversions.SteppingGranularityToProto` and `ProtoConversions.SteppingGranularityProtoRoundTrip` state the round trips either way |
| ProtoConversions.SteppingGranularityProtoRoundTrip | crates/dap/src/proto_conversions.rs:338-357 | every message granularity comes back unchanged |
| ProtoConversions.OutputEventCategoryToProto | crates/dap/src/proto_conversions.rs:359-374 | writing fails (the unreachable arm) exactly for an unlisted category, and otherwise reads back as itself |
| ProtoConversions.OutputEventCategoryFromProto | crates/dap/src/proto_conversions.rs:375-385 | a category read off the wire is always a listed one, never the catch-all; `ProtoConversions.OutputEventCategoryProtoRoundTrip` states the round trip |
| ProtoConversions.OutputEventCategoryProtoRoundTrip | crates/dap/src/proto_conversions.rs:359-385 | every message category comes back unchanged |
| ProtoConversions.OutputEventGroupToProto | crates/dap/src/proto_conversions.rs:427-448 | every output group survives the trip |
| ProtoConversions.OutputEventGroupFromProto | crates/dap/src/proto_conversions.rs:441-448 | reads each wire group as its group; `ProtoConversions.OutputEventGroupToProto` and `ProtoConversions.OutputEventGroupProtoRoundTrip` state the round trips either way |
| ProtoConversions.OutputEventGroupProtoRoundTrip | crates/dap/src/proto_conversions.rs:427-448 | every message group comes back unchanged |
| ProtoConversions.AsU32 | crates/dap/src/proto_conversions.rs:400-401 | the `as u32` cast gives a value below 2^32 and leaves any value below 2^32 alone |
| ProtoConversions.OutputEventToProto | crates/dap/src/proto_conversions.rs:391-405 | writing an output event fails exactly when its category is an unlisted one |
| ProtoConversions.OutputEventFromProto | crates/dap/src/proto_conversions.rs:406-425 | reading fails exactly when the source does; an event read has no data and no location reference |
| ProtoConversions.OutputEventRoundTrip | crates/dap/src/proto_conversions.rs:387-425 | through the message line and column keep their low 32 bits, data and location reference are dropped, the source takes its normal form, nothing else changes |
| ProtoConversions.OutputEventLineKept | crates/dap/src/proto_conversions.rs:400-416 | a line below 2^32 survives the trip |
| ProtoConversions.EvaluateArgumentsContextToProto | crates/dap/src/proto_conversions.rs:489-508 | writing fails exactly for an unlisted context, and otherwise reads back as itself |
| ProtoConversions.EvaluateArgumentsContextFromProto | crates/dap/src/proto_conversions.rs:509-523 | a context read off the wire is always a listed one, never the catch-all; `ProtoConversions.EvaluateArgumentsContextProtoRoundTrip` states the round trip |
| ProtoConversions.EvaluateArgumentsContextProtoRoundTrip | crates/dap/src/proto_conversions.rs:489-523 | every message context comes back unchanged |
| ProtoConversions.CompletionItemTypeToProto | crates/dap/src/proto_conversions.rs:525-576 | every completion item type survives the trip |
| ProtoConversions.CompletionItemTypeFromProto | crates/dap/src/proto_conversions.rs:553-576 | reads each wire item type as its type; `ProtoConversions.CompletionItemTypeToProto` and `ProtoConversions.CompletionItemTypeProtoRoundTrip` state the round trips either way |
| ProtoConversions.CompletionItemTypeProtoRoundTrip | crates/dap/src/proto_conversions.rs:525-576 | every message item type comes back unchanged |
| ProtoConversions.ThreadToProto | crates/dap/src/proto_conversions.rs:578-595 | a thread survives the trip |
| ProtoConversions.ThreadFromProto | crates/dap/src/proto_conversions.rs:589-595 | copies id and name; `ProtoConversions.ThreadToProto` and `ProtoConversions.ThreadProtoRoundTrip` state the round trips either way |
| ProtoConversions.ThreadProtoRoundTrip | crates/dap/src/proto_conversions.rs:578-595 | a wire thread comes back unchanged |
| ProtoConversions.ExceptionBreakModeToProto | crates/dap/src/proto_conversions.rs:597-622 | every exception break mode survives the trip |
| ProtoConversions.ExceptionBreakModeFromProto | crates/dap/src/proto_conversions.rs:612-622 | reads each wire break mode as its mode; `ProtoConversions.ExceptionBreakModeToProto` and `ProtoConversions.ExceptionBreakModeProtoRoundTrip` state the round trips either way |
| ProtoConversions.ExceptionBreakModeProtoRoundTrip | crates/dap/src/proto_conversions.rs:597-622 | every message break mode comes back unchanged |
| ProtoConversions.ExceptionPathSegmentToProto | crates/dap/src/proto_conversions.rs:624-641 | a path segment survives the trip |
| ProtoConversions.ExceptionPathSegmentFromProto | crates/dap/src/proto_conversions.rs:635-641 | copies the negation flag and the names; `ProtoConversions.ExceptionPathSegmentToProto` and `ProtoConversions.ExceptionPathSegmentProtoRoundTrip` state the round trips either way |
| ProtoConversions.ExceptionPathSegmentProtoRoundTrip | crates/dap/src/proto_conversions.rs:624-641 | a wire path segment comes back unchanged |
| ProtoConversions.BreakModeFromNumber | crates/dap/src/proto_conversions.rs:654-676 | a break mode number outside 0..3 reads as Never; a listed number reads as its mode |
| ProtoConversions.ExceptionOptionsToProto | crates/dap/src/proto_conversions.rs:643-676 | exception options survive the trip |
| ProtoConversions.ExceptionOptionsFromProto | crates/dap/src/proto_conversions.rs:654-676 | an empty path reads as no path, a non-empty one element by element, and the break mode by its number |
| ProtoConversions.ExceptionFilterOptionsToProto | crates/dap/src/proto_conversions.rs:678-697 | exception filter options survive the trip |
| ProtoConversions.ExceptionFilterOptionsFromProto | crates/dap/src/proto_conversions.rs:690-697 | copies the filter id, condition and mode; `ProtoConversions.ExceptionFilterOptionsToProto` and `ProtoConversions.ExceptionFilterOptionsProtoRoundTrip` state the round trips either way |
| ProtoConversions.ExceptionFilterOptionsProtoRoundTrip | crates/dap/src/proto_conversions.rs:678-697 | wire exception filter options come back unchanged |
| ProtoConversions.BreakpointReasonToProto | crates/dap/src/proto_conversions.rs:699-716 | every breakpoint reason survives the trip |
| ProtoConversions.BreakpointReasonFromProto | crates/dap/src/proto_conversions.rs:710-716 | reads each wire reason as its reason; `ProtoConversions.BreakpointReasonToProto` and `ProtoConversions.BreakpointReasonProtoRoundTrip` state the round trips either way |
| ProtoConversions.BreakpointReasonProtoRoundTrip | crates/dap/src/proto_conversions.rs:699-716 | every message reason comes back unchanged |
| ProtoConversions.ReasonFromNumber | crates/dap/src/proto_conversions.rs:738-757 | a reason number reads as a reason exactly when it is 0 or 1, and that reason is written back as the same number |
| ProtoConversions.AsI64 | crates/dap/src/proto_conversions.rs:724 | the `as i64` cast lands in the signed 64-bit range with the same bits modulo 2^64 |
| ProtoConversions.AsU64 | crates/dap/src/proto_conversions.rs:740 | the `as u64` cast lands below 2^64 with the same bits modulo 2^64 |
| ProtoConversions.IdCastRoundTrip | crates/dap/src/proto_conversions.rs:724-740 | every u64 breakpoint id survives the cast to i64 and back |
| ProtoConversions.BreakpointFromProto | crates/dap/src/proto_conversions.rs:738-757 | reading fails exactly when the source does; the reason is present exactly when the number is 0 or 1 |
| ProtoConversions.BreakpointToProto | crates/dap/src/proto_conversions.rs:718-757 | a breakpoint written to the wire reads back with its id kept to 64 bits, its positions and offset to their low 32 bits and its source in normal form; the reason and everything else survive |
| ProtoConversions.ApplicabilityToProto | crates/dap/src/proto_conversions.rs:759-779 | writing fails exactly for an unlisted applicability, and otherwise reads back as itself |
| ProtoConversions.ApplicabilityFromProto | crates/dap/src/proto_conversions.rs:780-795 | an applicability read off the wire is always a listed one, never the catch-all |
| ProtoConversions.ApplicabilitiesToProto | crates/dap/src/proto_conversions.rs:801-813 | a list of applicabilities fails to write exactly when one element is unlisted, and keeps its length otherwise |
| ProtoConversions.ApplicabilitiesFromProto | crates/dap/src/proto_conversions.rs:814-827 | numbers with no applicability are dropped: the result is no longer than the input and holds only listed values |
| ProtoConversions.ApplicabilitiesRoundTrip | crates/dap/src/proto_conversions.rs:797-827 | a list of listed applicabilities survives the trip |
| ProtoConversions.BreakpointModeToProto | crates/dap/src/proto_conversions.rs:801-813 | writing a mode fails exactly when one of its applicabilities is unlisted |
| ProtoConversions.BreakpointModeFromProto | crates/dap/src/proto_conversions.rs:814-827 | mode, label and description are copied; applicabilities come back no more than were sent, each a listed one |
| ProtoConversions.BreakpointModeRoundTrip | crates/dap/src/proto_conversions.rs:797-827 | a mode that can be written comes back unchanged |
| ProtoConversions.BreakpointModesToProto | crates/dap/src/proto_conversions.rs:17-34 | a list of modes fails to write exactly when one does; otherwise element i is mode i written |
| ProtoConversions.BreakpointModesRoundTrip | crates/dap/src/proto_conversions.rs:17-34 | a list of modes that can be written comes back unchanged |
| ProtoConversions.ExceptionBreakpointsFilterToProto | crates/dap/src/proto_conversions.rs:829-854 | an exception breakpoints filter survives the trip |
| ProtoConversions.ExceptionBreakpointsFilterFromProto | crates/dap/src/proto_conversions.rs:844-854 | copies every field; `ProtoConversions.ExceptionBreakpointsFilterToProto` and `ProtoConversions.ExceptionBreakpointsFilterProtoRoundTrip` state the round trips either way |
| ProtoConversions.ExceptionBreakpointsFilterProtoRoundTrip | crates/dap/src/proto_conversions.rs:829-854 | a wire exception breakpoints filter comes back unchanged |
| ProtoConversions.ChecksumAlgorithmNamed | crates/dap/src/proto_conversions.rs:975-990 | a name reads as an algorithm only if it is that algorithm's name |
| ProtoConversions.ChecksumAlgorithmNameRoundTrip | crates/dap/src/proto_conversions.rs:893-990 | every algorithm's name reads back as that algorithm |
| ProtoConversions.ChecksumNamesFromProto | crates/dap/src/proto_conversions.rs:975-990 | names other than the four algorithms are dropped: the result is no longer than the input and every algorithm in it was named |
| ProtoConversions.ChecksumNamesRoundTrip | crates/dap/src/proto_conversions.rs:893-990 | a list of algorithms written as names reads back unchanged |
| ProtoConversions.NonEmpty | crates/dap/src/proto_conversions.rs:939-960 | an empty repeated field reads as an absent list, a non-empty one as itself |
| ProtoConversions.CapabilitiesToProto | crates/dap/src/proto_conversions.rs:860-931 | writing fails exactly when a breakpoint mode has an unlisted applicability |
| ProtoConversions.CapabilitiesFromProto | crates/dap/src/proto_conversions.rs:932-1027 | an empty repeated field reads as absent, a non-empty one as the list; checksum names are filtered |
| ProtoConversions.CapabilitiesRoundTrip | crates/dap/src/proto_conversions.rs:856-1027 | every flag and non-empty list survives the trip; an empty list comes back absent; module columns keep only their attribute names |
| ProtoConversions.EmptyTriggerCharactersLost | crates/dap/src/proto_conversions.rs:952-957 | an empty list of completion trigger characters does not survive: it comes back absent |
| ProtoConversions.CompletionItemToProto | crates/dap/src/proto_conversions.rs:454-470 | every field of a completion item is copied to the wire, and the wire has a type exactly when the item has one, the same type |
| ProtoConversions.CompletionItemFromProto | crates/dap/src/proto_conversions.rs:472-486 | every field is copied back, and the item always comes back typed: a missing wire type is read as the schema's default, Method |
| ProtoConversions.CompletionItemRoundTrip | crates/dap/src/proto_conversions.rs:450-487 | an item survives the trip exactly when it has a type; an untyped item comes back as a Method item and is otherwise unchanged |
| ProtoConversions.CompletionItemProtoRoundTrip | crates/dap/src/proto_conversions.rs:450-487 | a wire item comes back as itself once a missing type is filled in with the default |
| DapCommand.IsSupported | crates/project/src/debugger/dap_command.rs:18-24 | a command that needs no capability is always supported; each of the ten capability-gated commands is supported exactly when the adapter announced its own flag as true, so absent or false means unsupported |
| DapCommand.FalseFlagUnsupported | crates/project/src/debugger/dap_command.rs:350-357 | with step-back announced as false, step back is unsupported while next stays supported |
| DapCommand.Cacheable | crates/project/src/debugger/dap_command.rs:844-847 | the cached commands are exactly variables, modules, loaded sources, stack trace, scopes, completions and threads, and only forwardable ones |
| DapCommand.CachedCommandsHaveNoEffect | crates/project/src/debugger/dap_command.rs:137-141 | no stepping, continuing, pausing, terminating, restarting or value-setting command is cached |
| DapCommand.GranularityFromNumber | crates/project/src/debugger/dap_command.rs:113-135 | a granularity number reads as the granularity it numbers, and any other number reads as statement |
| DapCommand.StepToProtoGranularity | crates/project/src/debugger/dap_command.rs:176-189 | a step command's granularity survives the trip through the request |
| DapCommand.StepFromProtoGranularity | crates/project/src/debugger/dap_command.rs:113-135 | a step request without a granularity reads as a command without one |
| DapCommand.StepFromProto | crates/project/src/debugger/dap_command.rs:113-135 | a step request reads as a command with its thread id and single-thread flag; it has a granularity exactly when the request has one, and a granularity written by the command's own conversion reads back as itself |
| DapCommand.ClientIdFromProto | crates/project/src/debugger/dap_command.rs:159-161 | the session id of a request; `DapCommand.ToProto` states that it reads back the id the request was written with |
| DapCommand.EvaluateContextToProto | crates/project/src/debugger/dap_command.rs:1451-1479 | writing an evaluate context fails exactly for an unlisted one |
| DapCommand.ToProto | crates/project/src/debugger/dap_command.rs:42-43 | writing a forwardable command fails only for an unlisted evaluate context; the request carries the project and session ids and reads back as the command's normal form |
| DapCommand.FromProto | crates/project/src/debugger/dap_command.rs:40-41 | every request reads back as a forwardable command; a variables command read has no filter and no format, and an empty thread list reads as none |
| DapCommand.StepCommandsRoundTrip | crates/project/src/debugger/dap_command.rs:156-345 | the four step commands come back exactly, with their session id |
| DapCommand.TerminateThreadsRoundTrip | crates/project/src/debugger/dap_command.rs:654-682 | a non-empty thread list survives the trip, an empty one comes back as no list |
| DapCommand.VariablesDropsFilterAndFormat | crates/project/src/debugger/dap_command.rs:874-895 | filter and format never reach the host |
| DapCommand.MapAll | crates/project/src/debugger/dap_command.rs:1163-1216 | a list of conversions that may panic fails exactly when one element does, and otherwise element i is element i converted |
| DapCommand.MapAllRoundTrip | crates/project/src/debugger/dap_command.rs:1163-1216 | a list whose every element reads back as its normal form reads back whole |
| DapCommand.ContinueResponseToProto | crates/project/src/debugger/dap_command.rs:472-496 | the continue response carries the session id and reads back as itself |
| DapCommand.ContinueResponseFromProto | crates/project/src/debugger/dap_command.rs:472-479 | whether all threads continued; `DapCommand.ContinueResponseToProto` and `DapCommand.ContinueResponseProtoRoundTrip` state the round trips either way |
| DapCommand.ContinueResponseProtoRoundTrip | crates/project/src/debugger/dap_command.rs:472-496 | a continue response on the wire is read and written back, under its own session id, as itself |
| DapCommand.VariablesResponseFromProto | crates/project/src/debugger/dap_command.rs:896-918 | each variable read writes back as its message, so the lists have the same length |
| DapCommand.VariablesResponseToProto | crates/project/src/debugger/dap_command.rs:896-918 | variables written to the wire read back without their presentation hint and location references, and otherwise unchanged, in order |
| DapCommand.SetVariableResponseToProto | crates/project/src/debugger/dap_command.rs:967-1000 | the set-variable response carries the session id and reads back as itself |
| DapCommand.SetVariableResponseFromProto | crates/project/src/debugger/dap_command.rs:982-1000 | the set-variable response read off the wire; `DapCommand.SetVariableResponseToProto` and `DapCommand.SetVariableResponseProtoRoundTrip` state the round trips either way |
| DapCommand.SetVariableResponseProtoRoundTrip | crates/project/src/debugger/dap_command.rs:967-1000 | a set-variable response on the wire is read and written back, under its own session id, as itself |
| DapCommand.ModulesResponseFromProto | crates/project/src/debugger/dap_command.rs:1126-1138 | a module without its ids is dropped: the result is no longer than the input, and as long exactly when every module reads |
| DapCommand.ModulesResponseKeepsWellFormed | crates/project/src/debugger/dap_command.rs:1126-1138 | the result is exactly the modules that read, in their order |
| DapCommand.ModulesResponseSnoc | crates/project/src/debugger/dap_command.rs:1126-1138 | reading one more module appends it when it reads and changes nothing otherwise |
| DapCommand.ModulesResponseRoundTrip | crates/project/src/debugger/dap_command.rs:1091-1138 | modules sent by the host all come back, in order |
| DapCommand.ModulesResponseToProto | crates/project/src/debugger/dap_command.rs:1113-1125 | one wire module per module, in order, each of which reads back as that module |
| DapCommand.LoadedSourcesResponseRoundTrip | crates/project/src/debugger/dap_command.rs:1163-1216 | loaded sources come back in their normal forms |
| DapCommand.StackTraceResponseRoundTrip | crates/project/src/debugger/dap_command.rs:1239-1289 | stack frames come back in their normal forms |
| DapCommand.ThreadsResponseFromProto | crates/project/src/debugger/dap_command.rs:1548-1560 | each thread read keeps its id and name, in order |
| DapCommand.ThreadsResponseRoundTrip | crates/project/src/debugger/dap_command.rs:1530-1565 | threads survive the trip |
| DapCommand.EvaluateResponseToProto | crates/project/src/debugger/dap_command.rs:1480-1512 | an evaluate response keeps everything but its presentation hint |
| DapCommand.EvaluateResponseFromProto | crates/project/src/debugger/dap_command.rs:1480-1494 | an evaluate response read off the wire has no presentation hint |
| DapCommand.EvaluateResponseProtoRoundTrip | crates/project/src/debugger/dap_command.rs:1480-1512 | an evaluate response on the wire is read and written back as itself |
| DapCommand.DapClientCapabilities | crates/project/src/debugger/dap_command.rs:1570-1590 | the editor names itself, numbers lines and columns from 1, uses paths, runs in a terminal and starts child sessions, and does not page variables or report progress |
| DapCommand.CompletionsResponseFromProto | crates/project/src/debugger/dap_command.rs:1400-1407 | the completions response converts the wire items one by one, in order, and each comes back typed |
| DapCommand.CompletionsResponseRoundTrip | crates/project/src/debugger/dap_command.rs:1400-1418 | completions sent over the wire come back in order, each untyped item with the default type filled in |
| DapCommand.ScopesResponseToProto | crates/project/src/debugger/dap_command.rs:1337-1344 | sending a scopes response fails exactly when some scope carries a presentation hint that has no wire value |
| DapCommand.ScopesResponseRoundTrip | crates/project/src/debugger/dap_command.rs:1330-1344 | scopes that can be sent come back in order, each with its source in normal form |
| DapProto.ApplicabilityFromI32 | crates/dap/src/proto_conversions.rs:820-823 | a number reads as the applicability it numbers, and as none when no applicability has that number |
| BreakpointStore.KindToInt | crates/project/src/debugger/breakpoint_store.rs:229-236 | the wire number is 0 or 1, and 0 exactly for a standard breakpoint |
| BreakpointStore.LogMessage | crates/project/src/debugger/breakpoint_store.rs:237-243 | a kind has a log message exactly when it is a log point, and it is that point's message |
| BreakpointStore.LogPointsEqualRegardlessOfMessage | crates/project/src/debugger/breakpoint_store.rs:245-258 | two log points at one anchor are the same breakpoint whatever their messages, and a log point is never a standard breakpoint |
| BreakpointStore.Without | crates/project/src/debugger/breakpoint_store.rs:101-103 | retaining removes exactly the entries equal to the breakpoint and keeps the rest; the list shrinks exactly when one was there |
| BreakpointStore.WithoutAbsent | crates/project/src/debugger/breakpoint_store.rs:101-103 | retaining leaves a list without the breakpoint unchanged |
| BreakpointStore.WithoutAppend | crates/project/src/debugger/breakpoint_store.rs:101-103 | retaining distributes over concatenation |
| BreakpointStore.ToggleIn | crates/project/src/debugger/breakpoint_store.rs:99-108 | a toggle removes every equal breakpoint, or appends it when none was removed; afterwards it is present exactly when it was absent |
| BreakpointStore.ToggleTwice | crates/project/src/debugger/breakpoint_store.rs:99-108 | toggling an absent breakpoint twice gives back the list |
| BreakpointStore.EditBreakpoints | crates/project/src/debugger/breakpoint_store.rs:98-125 | a toggle is the toggle above; a non-empty log message toggles a log point with that message; an empty message removes a log point and leaves a standard one alone |
| BreakpointStore.ToggledFrame | crates/project/src/debugger/breakpoint_store.rs:79-132 | a toggle touches at most its file, keeps a known file's buffer, does nothing without a path, and never leaves a file with no breakpoints |
| BreakpointStore.ToggledFlipsPresence | crates/project/src/debugger/breakpoint_store.rs:79-132 | after a toggle the file holds the breakpoint exactly when it did not before |
| BreakpointStore.Renamed | crates/project/src/debugger/breakpoint_store.rs:135-146 | a rename moves the old path's entry to the new path, replacing what was there, and changes nothing when the old path is unknown |
| BreakpointStore.Store.Local | crates/project/src/debugger/breakpoint_store.rs:38-46 | a local store starts with no breakpoints, no active frame and no downstream project |
| BreakpointStore.Store.SetShared | crates/project/src/debugger/breakpoint_store.rs:59-62 | sharing records the downstream project and changes nothing else |
| BreakpointStore.Store.SetUnshared | crates/project/src/debugger/breakpoint_store.rs:63-67 | unsharing forgets the downstream project and changes nothing else |
| BreakpointStore.Store.ToggleBreakpoint | crates/project/src/debugger/breakpoint_store.rs:79-132 | the new breakpoints are the toggle of the old ones, the store stays free of empty files, and nothing else changes |
| BreakpointStore.Store.OnFileRename | crates/project/src/debugger/breakpoint_store.rs:135-146 | the new breakpoints are the rename of the old ones, and nothing else changes |
| BreakpointStore.Store.SetActivePosition | crates/project/src/debugger/breakpoint_store.rs:179-181 | the active position is the one given, and nothing else changes |
| BreakpointStore.Store.BreakpointsIn | crates/project/src/debugger/breakpoint_store.rs:148-173 | nothing for an unknown file; otherwise the file's breakpoints whose anchors lie in the closed range, or all of them without a range |
| BreakpointStore.InRange | crates/project/src/debugger/breakpoint_store.rs:158-170 | the filter keeps exactly the breakpoints whose anchors lie in the closed range |
| DapStore.IncU32 | crates/project/src/dap_store.rs:680-685 | the `u32 + 1` is below 2^32, adds one when that fits, and wraps to 0 at `u32::MAX` |
| DapStore.DecSaturating | crates/project/src/dap_store.rs:147 | `saturating_sub(1)` subtracts one from a positive value and leaves 0 at 0 |
| DapStore.PointForBuffer | crates/project/src/dap_store.rs:646-650 | the point's row is the breakpoint's row, and an unanchored breakpoint is at the start of its cached row |
| DapStore.ToSourceBreakpoint | crates/project/src/dap_store.rs:617-632 | the line sent to an adapter is the breakpoint's row plus one, so at least 1 |
| DapStore.SetActivePosition | crates/project/src/dap_store.rs:634-644 | afterwards the breakpoint is anchored and keeps its cached row; one already anchored is left as it is |
| DapStore.SetActivePositionIdempotent | crates/project/src/dap_store.rs:634-644 | anchoring twice is anchoring once |
| DapStore.ToSerialized | crates/project/src/dap_store.rs:675-690 | the saved line keeps the path, is a u32, and without a buffer or an anchor is the wrapped cached row plus one |
| DapStore.Deserialize | crates/project/src/dap_store.rs:141-148 | a saved breakpoint reads back unanchored, one row before a positive saved line |
| DapStore.SerializedToSourceBreakpoint | crates/project/src/dap_store.rs:699-708 | the saved line goes to the adapter unchanged, which is the 1-based form of the row it reads back as |
| DapStore.SerializeRoundTrip | crates/project/src/dap_store.rs:133-150 | saving without a buffer and reading back restores the cached row |
| DapStore.SerializeWrapsAtMax | crates/project/src/dap_store.rs:685 | at `u32::MAX` the saved line wraps to 0, which reads back as row 0 |
| DapStore.SerializedLineAgrees | crates/project/src/dap_store.rs:698-709 | a saved breakpoint is sent on the line the live one would be sent on |
| DapStore.FlipBreakpoint | crates/project/src/dap_store.rs:564-566 | a breakpoint present in the set leaves it, an absent one joins it, and no other breakpoint changes |
| DapStore.FlipBreakpointTwice | crates/project/src/dap_store.rs:564-566 | toggling the same breakpoint twice restores the set |
| DapStore.ActivatedSet | crates/project/src/dap_store.rs:121-131 | every breakpoint of the rebuilt set is anchored |
| DapStore.ActivatedSetIdempotent | crates/project/src/dap_store.rs:121-131 | anchoring a set twice anchors it once |
| DapStore.ClosedSet | crates/project/src/dap_store.rs:157-168 | every breakpoint of the closed set is unanchored, and each old breakpoint is remembered at its current row |
| DapStore.Deserialized | crates/project/src/dap_store.rs:133-150 | reading saved breakpoints only adds: every old set grows, each saved one joins its path's set unanchored, new paths are in the given worktree; and conversely every breakpoint of the result was already there or is one of the saved ones read under its path |
| DapStore.SourceBreakpoints | crates/project/src/dap_store.rs:571-613 | one line per breakpoint of the set: as many lines as breakpoints, each breakpoint's line among them, and no other line |
| DapStore.Store.constructor | crates/project/src/dap_store.rs:71-80 | a new store has no clients, capabilities or breakpoints and a counter at 0 |
| DapStore.Store.NextClientId | crates/project/src/dap_store.rs:82-84 | the counter's value is returned and then incremented, and is not yet a client's id |
| DapStore.Store.RunningClients | crates/project/src/dap_store.rs:86-91 | exactly the handles of the running clients |
| DapStore.Store.ClientById | crates/project/src/dap_store.rs:93-98 | a client is returned exactly when it is known and running |
| DapStore.Store.CapabilitiesById | crates/project/src/dap_store.rs:100-105 | the announced capabilities of a known client, the defaults otherwise |
| DapStore.Store.Initialize | crates/project/src/dap_store.rs:214-248 | a client that is not running is refused with "Could not found client"; a failed initialize request passes its error on; otherwise the announced capabilities are stored for the client, replacing any it had, and nothing else changes |
| DapStore.Store.MergeCapabilitiesForClient | crates/project/src/dap_store.rs:107-115 | a known client's capabilities are merged with the new ones; an unknown client is ignored |
| DapStore.Store.StartClient | crates/project/src/dap_store.rs:171-211 | a fresh id is taken from the counter and registered as starting |
| DapStore.Store.CompleteStart | crates/project/src/dap_store.rs:191-203 | a starting client becomes running; when it is gone the start fails with the error text and nothing changes |
| DapStore.Store.ShutdownClient | crates/project/src/dap_store.rs:525-552 | an unknown id is an error and changes nothing; a known one loses its client and its capabilities |
| DapStore.Store.ToggleBreakpointForBuffer | crates/project/src/dap_store.rs:554-569 | the path's set gains or loses the breakpoint and stays in the map even when empty; nothing else changes |
| DapStore.Store.ChangedBreakpointLines | crates/project/src/dap_store.rs:571-613 | lines are sent exactly when some client runs and the path has a set; they are a multiset with one line per breakpoint of the set, every breakpoint's line among them and nothing else, so two breakpoints on one row send that row twice |
| DapStore.Store.SetActiveBreakpoints | crates/project/src/dap_store.rs:121-131 | every breakpoint of the path is anchored in the open buffer; nothing else changes |
| DapStore.Store.SyncOpenBreakpointsToClosedBreakpoints | crates/project/src/dap_store.rs:152-169 | a known path's breakpoints keep only their current rows; an unknown path changes nothing |
| DapStore.Store.DeserializeBreakpoints | crates/project/src/dap_store.rs:133-150 | the breakpoints become the saved ones read into the old ones; nothing else changes |
| DebuggerDapSession.Retain | crates/project/src/debugger/dap_session.rs:373 | `retain` keeps exactly the elements that satisfy the predicate |
| DebuggerDapSession.FirstIndex | crates/project/src/debugger/dap_session.rs:369 | `find` picks the first element that satisfies the predicate, or none when no element does |
| DebuggerDapSession.ReplaceFirst | crates/project/src/debugger/dap_session.rs:369-371 | the first match is replaced and every other element stays; without a match the list is unchanged |
| DebuggerDapSession.ReplaceFirstKeepsLaterMatches | crates/project/src/debugger/dap_session.rs:369-371 | a later element that also matches is kept |
| DebuggerDapSession.ApplyModuleEvent | crates/project/src/debugger/dap_session.rs:365-376 | New appends the module, Changed replaces the first module with its id, Removed drops every module with its id |
| DebuggerDapSession.ChangedModuleIsListed | crates/project/src/debugger/dap_session.rs:368-372 | after Changed for a known id the announced module is listed |
| DebuggerDapSession.RemovedModuleIsGone | crates/project/src/debugger/dap_session.rs:373 | after Removed no module with that id is left |
| DebuggerDapSession.SourceMatches | crates/project/src/debugger/dap_session.rs:562-577 | a changed source is found by a non-zero source reference, else by path, else by name |
| DebuggerDapSession.ApplyLoadedSourceEvent | crates/project/src/debugger/dap_session.rs:556-588 | New appends the source, Changed replaces the first match, Removed drops every equal source |
| DebuggerDapSession.ReferenceTakesPrecedence | crates/project/src/debugger/dap_session.rs:562-577 | with a non-zero source reference a source that shares only the path is not replaced |
| DebuggerDapSession.SlotsEqualIsCommandEquality | crates/project/src/debugger/dap_session.rs:263-276 | two cache slots are equal exactly when their commands are |
| DebuggerDapSession.RouteRequest | crates/project/src/debugger/dap_session.rs:160-212 | a local client refuses an unsupported command and sends the rest to the adapter; a remote client forwards it upstream with the project and client ids |
| DebuggerDapSession.RemoteNeverRefuses | crates/project/src/debugger/dap_session.rs:205-208 | a remote client never refuses for lack of a capability |
| DebuggerDapSession.StepArguments | crates/project/src/debugger/dap_session.rs:461-483 | a step carries its thread, and a granularity exactly when the adapter supports one |
| DebuggerDapSession.RestartRequest | crates/project/src/debugger/dap_session.rs:403-419 | Restart with the arguments, or null, when the adapter supports it, else a terminating Disconnect |
| DebuggerDapSession.ShutdownRequest | crates/project/src/debugger/dap_session.rs:421-445 | Terminate without restart when the adapter supports it, else a terminating Disconnect |
| DebuggerDapSession.Fetched | crates/project/src/debugger/dap_session.rs:288-309 | a fetch caches the command and issues it only when no equal one is cached |
| DebuggerDapSession.FetchIdempotent | crates/project/src/debugger/dap_session.rs:288-309 | fetching the same command again changes nothing |
| DebuggerDapSession.Client.constructor | crates/project/src/debugger/dap_session.rs:837-845 | a fresh client has default capabilities and knows nothing yet |
| DebuggerDapSession.Client.Request | crates/project/src/debugger/dap_session.rs:330-344 | a request is issued whether or not an equal one is in flight, and changes nothing else |
| DebuggerDapSession.Client.Fetch | crates/project/src/debugger/dap_session.rs:288-309 | the cache and the issued commands become those of the fetch above |
| DebuggerDapSession.Client.Invalidate | crates/project/src/debugger/dap_session.rs:346-352 | the cache, the modules and the loaded sources are cleared; threads stay |
| DebuggerDapSession.Client.Modules | crates/project/src/debugger/dap_session.rs:354-363 | asks the adapter again and answers with the modules known now |
| DebuggerDapSession.Client.LoadedSources | crates/project/src/debugger/dap_session.rs:378-387 | asks the adapter again and answers with the sources known now |
| DebuggerDapSession.Client.HandleModuleEvent | crates/project/src/debugger/dap_session.rs:365-376 | the modules become the event applied to them; nothing else changes |
| DebuggerDapSession.Client.HandleLoadedSourceEvent | crates/project/src/debugger/dap_session.rs:556-588 | the loaded sources become the event applied to them; nothing else changes |
| DebuggerDapSession.Client.PauseThread | crates/project/src/debugger/dap_session.rs:391-393 | issues Pause for the thread and changes nothing else |
| DebuggerDapSession.Client.RestartStackFrame | crates/project/src/debugger/dap_session.rs:395-401 | issues RestartFrame for the frame and changes nothing else |
| DebuggerDapSession.Client.Restart | crates/project/src/debugger/dap_session.rs:403-419 | issues the restart request chosen by the capabilities |
| DebuggerDapSession.Client.Shutdown | crates/project/src/debugger/dap_session.rs:421-445 | issues the shutdown request chosen by the capabilities |
| DebuggerDapSession.Client.ContinueThread | crates/project/src/debugger/dap_session.rs:447-459 | issues Continue for this thread alone |
| DebuggerDapSession.Client.StepOver | crates/project/src/debugger/dap_session.rs:461-483 | issues Next with the step arguments |
| DebuggerDapSession.Client.StepIn | crates/project/src/debugger/dap_session.rs:484-507 | issues StepIn with the step arguments |
| DebuggerDapSession.Client.StepOut | crates/project/src/debugger/dap_session.rs:508-531 | issues StepOut with the step arguments |
| DebuggerDapSession.Client.StepBack | crates/project/src/debugger/dap_session.rs:532-555 | issues StepBack with the step arguments |
| DebuggerDapSession.Client.DisconnectClient | crates/project/src/debugger/dap_session.rs:705-713 | issues a terminating Disconnect |
| DebuggerDapSession.Client.TerminateThreads | crates/project/src/debugger/dap_session.rs:715-745 | issues TerminateThreads only when the adapter supports it, else nothing happens |
| DebuggerDapSession.Client.StackFrames | crates/project/src/debugger/dap_session.rs:590-613 | fetches the trace and answers with the frames known for the thread, none for an unknown one |
| DebuggerDapSession.Client.OnStackFrames | crates/project/src/debugger/dap_session.rs:590-613 | only a known thread takes the frames of the response |
| DebuggerDapSession.DebugSession.NewLocal | crates/project/src/debugger/dap_session.rs:772-779 | a local session starts with no clients and breakpoints not ignored |
| DebuggerDapSession.DebugSession.NewRemote | crates/project/src/debugger/dap_session.rs:795-802 | a remote session starts with no clients, its label and its ignore flag |
| DebuggerDapSession.DebugSession.Name | crates/project/src/debugger/dap_session.rs:808-813 | the configuration's label for a local session, the stored label for a remote one |
| DebuggerDapSession.DebugSession.ClientById | crates/project/src/debugger/dap_session.rs:850-855 | a client is returned exactly when its id is known |
| DebuggerDapSession.DebugSession.AddClient | crates/project/src/debugger/dap_session.rs:828-848 | a fresh client for a new id; a known id keeps its state |
| DebuggerDapSession.DebugSession.ShutdownClient | crates/project/src/debugger/dap_session.rs:857-864 | the id is dropped and its client, if any, shuts down |
| ProjectDapSession.ClientState.constructor | crates/project/src/dap_session.rs:67-74 | a client state starts with no modules, nothing cached and nothing issued |
| ProjectDapSession.ClientState.Modules | crates/project/src/dap_session.rs:130-154 | the store is asked for the modules only when no Modules request is cached and the store is still there, and the request is then cached; the answer is the modules known now |
| ProjectDapSession.ClientState.HandleModuleEvent | crates/project/src/dap_session.rs:156-166 | the modules become the event applied to them: New appends, Changed replaces the first with that id, Removed drops all with that id |
| ProjectDapSession.LocalDebugSession.constructor | crates/project/src/dap_session.rs:242-252 | a local part starts with its configuration's label and no clients |
| ProjectDapSession.LocalDebugSession.UpdateConfiguration | crates/project/src/dap_session.rs:191-198 | the configuration becomes the function applied to it; the clients stay |
| ProjectDapSession.LocalDebugSession.AddClient | crates/project/src/dap_session.rs:200-203 | the client is stored under its own id, replacing an earlier one; the count grows only for a new id |
| ProjectDapSession.LocalDebugSession.RemoveClient | crates/project/src/dap_session.rs:205-214 | the client that was there is returned and the id is gone afterwards |
| ProjectDapSession.LocalDebugSession.ClientById | crates/project/src/dap_session.rs:216-221 | a client is returned exactly when its id is known |
| ProjectDapSession.LocalDebugSession.ClientsLen | crates/project/src/dap_session.rs:223-226 | the number of ids with a client, 0 exactly when there are none |
| ProjectDapSession.DebugSession.NewLocal | crates/project/src/dap_session.rs:242-252 | a local session has no client states, honours breakpoints, and its local part has no clients |
| ProjectDapSession.DebugSession.NewRemote | crates/project/src/dap_session.rs:268-275 | a remote session has no client states, its label and the flag it is given |
| ProjectDapSession.DebugSession.AsLocal | crates/project/src/dap_session.rs:254-259 | the local part exactly for a local session |
| ProjectDapSession.DebugSession.Name | crates/project/src/dap_session.rs:281-286 | the configuration's label for a local session, the stored label for a remote one |
| ProjectDapSession.DebugSession.SetIgnoreBreakpoints | crates/project/src/dap_session.rs:292-295 | the flag is set and the client states stay |
| ProjectDapSession.DebugSession.ClientStateById | crates/project/src/dap_session.rs:297-303 | a client state is returned exactly when its id is known |
| AdapterSession.DebugSession.constructor | crates/dap/src/session.rs:32-39 | a new session has no clients and no capabilities |
| AdapterSession.DebugSession.Name | crates/dap/src/session.rs:45-47 | the configuration's label |
| AdapterSession.DebugSession.UpdateConfiguration | crates/dap/src/session.rs:53-55 | the configuration, and so the name, becomes the function applied to it; nothing else changes |
| AdapterSession.DebugSession.CapabilitiesOf | crates/dap/src/session.rs:57-62 | what the client announced, or the defaults for an unknown client |
| AdapterSession.DebugSession.UpdateCapabilities | crates/dap/src/session.rs:64-74 | merged into a known client's capabilities, stored as they are for a new one; no other id changes |
| AdapterSession.DebugSession.AddClient | crates/dap/src/session.rs:76-78 | the client is stored under its own id; nothing else changes |
| AdapterSession.DebugSession.RemoveClient | crates/dap/src/session.rs:80-85 | the client that was there is returned and the id is gone afterwards |
| AdapterSession.DebugSession.ClientById | crates/dap/src/session.rs:87-92 | a client is returned exactly when its id is known |
| AdapterSession.DebugSession.ClientsToShutDown | crates/dap/src/session.rs:98-112 | every client the session holds is shut down |
| Transport.Utf8Width | crates/dap/src/transport.rs:376 | the width of the UTF-8 sequence starting the bytes is at most 4 and fits them, and an ASCII byte has width 1 |
| Transport.AsciiIsUtf8 | crates/dap/src/transport.rs:376 | ASCII text is valid UTF-8 |
| Transport.TrimEndLength | crates/dap/src/transport.rs:362 | trimming the end strips every trailing White_Space character, as `str::trim` does: the ASCII ones, U+0085 and U+00A0 in two bytes and the three-byte ones, up to a prefix that ends in none of them |
| Transport.TrimStartIndex | crates/dap/src/transport.rs:362 | trimming the start skips every leading White_Space character, ASCII or not, to the first byte that starts none of them, or to the end |
| Transport.SpaceEndingAt | crates/dap/src/transport.rs:362 | a White_Space character ending at a position (one byte for ASCII, two for U+0085 and U+00A0, three for the others) lies wholly before it |
| Transport.SpaceStartingAt | crates/dap/src/transport.rs:362 | a White_Space character starting at a position lies wholly within the text |
| Transport.Trim | crates/dap/src/transport.rs:362 | `str::trim` removes leading and trailing Unicode White_Space, not just ASCII: the result is no longer than the line and neither starts nor ends with a White_Space character |
| Transport.Utf8Concat | crates/dap/src/transport.rs:376 | two UTF-8 texts joined are UTF-8 |
| Transport.ColonSpaceFrom | crates/dap/src/transport.rs:362 | a match is a position at or after the start where the two bytes colon and space stand |
| Transport.SplitOnce | crates/dap/src/transport.rs:362 | a split is a key and a value that rejoin with the separator into the line |
| Transport.ColonSpaceFromSkips | crates/dap/src/transport.rs:362 | the search goes past positions without the separator to the first one with it |
| Transport.SplitAfterKey | crates/dap/src/transport.rs:362 | a key without a colon splits off at the separator after it |
| Transport.ParseUsize | crates/dap/src/transport.rs:366 | a parsed length is a 64-bit value, and an empty value does not parse |
| Transport.Decimal | crates/dap/src/transport.rs:228 | `format!` writes a length as a non-empty run of digits |
| Transport.DecimalValue | crates/dap/src/transport.rs:228 | the digits written denote the length |
| Transport.DecimalParses | crates/dap/src/transport.rs:228-366 | a length written by `format!` parses back as itself |
| Transport.ReadHeaderLine | crates/dap/src/transport.rs:346-369 | the headers end exactly at a UTF-8 line that is the bare line ending; any other line is the field its `trim` leaves, and a line that changes the length sets it to a 64-bit value |
| Transport.HeaderField | crates/dap/src/transport.rs:362-368 | a trimmed field never ends the headers, and a field that changes the length sets it to a value below 2^64 |
| Transport.ContentLengthField | crates/dap/src/transport.rs:362-366 | the field `Content-Length: ` and a number sets the length to it |
| Transport.TrimmedLineRead | crates/dap/src/transport.rs:346-368 | a UTF-8 line other than the line ending that trims to `Content-Length: ` and a number sets the length to it, whatever whitespace surrounds it |
| Transport.NoBreakSpaceLineIsUtf8 | crates/dap/src/transport.rs:346-358 | the line `Content-Length: 5` followed by a no-break space and the line ending is valid UTF-8 |
| Transport.NoBreakSpaceLineTrims | crates/dap/src/transport.rs:362 | trimming that line removes the no-break space along with the line ending |
| Transport.FiveParses | crates/dap/src/transport.rs:366 | the digit 5 parses as five |
| Transport.NoBreakSpaceTrimmed | crates/dap/src/transport.rs:346-368 | a Content-Length value followed by a no-break space still sets the length, because the trim removes every White_Space character |
| Transport.Headers | crates/dap/src/transport.rs:346-369 | the header loop ends at a bare line ending, which is the last line it read |
| Transport.ReceiveMessage | crates/dap/src/transport.rs:337-389 | a message is the announced number of UTF-8 bytes that follow the headers |
| Transport.Frame | crates/dap/src/transport.rs:226-230 | the frame is the header, a blank line and the text, and its length is their lengths' sum |
| Transport.HeaderLineIsAscii | crates/dap/src/transport.rs:228 | the header line is ASCII and has no line feed before its end |
| Transport.TrimHeaderLine | crates/dap/src/transport.rs:228-362 | trimming the header line leaves the key, the separator and the digits, and no byte of them is taken for whitespace |
| Transport.HeaderLineRead | crates/dap/src/transport.rs:228-366 | the header line sets the length whatever was seen before |
| Transport.LineEndingEndsHeaders | crates/dap/src/transport.rs:358-360 | the bare line ending ends the headers |
| Transport.ContentLengthLineRead | crates/dap/src/transport.rs:228-366 | the Content-Length line is a line of its own and sets the length |
| Transport.FrameLines | crates/dap/src/transport.rs:226-230 | a frame is the Content-Length line, the bare line ending and the text, each line ending in a line feed |
| Transport.BodyAfterHeaders | crates/dap/src/transport.rs:370-377 | headers that announce n bytes followed by n bytes of UTF-8 make a message of those bytes |
| Transport.FrameHeaders | crates/dap/src/transport.rs:346-369 | reading a Content-Length line and then the bare line ending ends the headers after two lines with that length |
| Transport.FrameRoundTrip | crates/dap/src/transport.rs:226-389 | reading back a framed message gives its text after exactly two lines |
| Transport.LastContentLengthWins | crates/dap/src/transport.rs:364-368 | when two lines set the length the last one counts |
| Transport.NoBlankLineIsError | crates/dap/src/transport.rs:350-356 | headers read to the end of the stream are an error |
| Transport.HeaderErrors | crates/dap/src/transport.rs:350-370 | no Content-Length is the missing-length error and a stream that ends first is the closed-stream error |
| Transport.ShortBodyIsError | crates/dap/src/transport.rs:372-376 | a body shorter than announced is an error |
| Transport.ReceiveServerMessage | crates/dap/src/transport.rs:337-389 | the line-by-line loop computes the message the header reading defines |
| Transport.ProcessResponse | crates/dap/src/transport.rs:321-335 | a response succeeds exactly when the adapter says so; a failed one is an error with the adapter's message when it has one |
| Transport.OnSend | crates/dap/src/transport.rs:209-213 | a request's sender moves from the current map to the pending one under the same sequence number; nothing else moves |
| Transport.OnReceive | crates/dap/src/transport.rs:262-275 | a response to a pending request goes to its sender, which is removed; anything else is forwarded |
| Transport.RequestAnswered | crates/dap/src/transport.rs:209-270 | a registered request that is sent and answered reaches its sender, and no sender is left for it |
| Transport.AnsweredOnce | crates/dap/src/transport.rs:262-270 | a second response to an answered request is forwarded, not delivered again |
| Transport.TransportDelegate.constructor | crates/dap/src/transport.rs:80-88 | a new delegate has no requests, no sender and nothing sent |
| Transport.TransportDelegate.Start | crates/dap/src/transport.rs:133-138 | the sender towards the adapter is stored, so sending works from then on; nothing else changes |
| Transport.TransportDelegate.RegisterRequest | crates/dap/src/client.rs:205-209 | the request's sender is registered as current under its sequence number; nothing else changes |
| Transport.TransportDelegate.RequestExchange | crates/dap/src/client.rs:205-213 | a registered request, once written and answered, delivers the processed response to its own sender; its text is framed onto the output and neither request map keeps its number |
| Transport.TransportDelegate.AddPendingRequest | crates/dap/src/transport.rs:141-148 | the sender is registered under the sequence number; nothing else changes |
| Transport.TransportDelegate.CancelPendingRequest | crates/dap/src/transport.rs:150-153 | only that sequence number goes |
| Transport.TransportDelegate.SendMessage | crates/dap/src/transport.rs:155-164 | the message is queued for the adapter, or the sender-dropped error once it is gone |
| Transport.TransportDelegate.HandleInput | crates/dap/src/transport.rs:199-248 | the request maps take the send step and the framed text is written |
| Transport.TransportDelegate.HandleOutput | crates/dap/src/transport.rs:251-288 | the request maps take the receive step and the message reaches its destination |
| Transport.TransportDelegate.Shutdown | crates/dap/src/transport.rs:391-412 | the sender is dropped and both request maps are cleared |
| StackFrameList.FlattenAppend | crates/debugger_ui/src/session/running/stack_frame_list.rs:35-38 | the frames of a list with one more entry are the list's frames followed by that entry's |
| StackFrameList.Normals | crates/debugger_ui/src/session/running/stack_frame_list.rs:409-412 | each frame becomes one normal entry, in order |
| StackFrameList.FlattenNormals | crates/debugger_ui/src/session/running/stack_frame_list.rs:409-412 | the normal entries of frames flatten back to those frames |
| StackFrameList.FlattenConcat | crates/debugger_ui/src/session/running/stack_frame_list.rs:35-38 | the frames of joined lists are the joined frames |
| StackFrameList.CollapsedIsWholeRun | crates/debugger_ui/src/session/running/stack_frame_list.rs:122-146 | in a well-formed list a final collapsed entry holds the longest deemphasized tail of the frames |
| StackFrameList.KeptLength | crates/debugger_ui/src/session/running/stack_frame_list.rs:122-146 | the frames without their deemphasized tail are a prefix of them |
| StackFrameList.KeptLengthOfSplit | crates/debugger_ui/src/session/running/stack_frame_list.rs:122-146 | cutting after a frame that is not deemphasized leaves exactly the deemphasized tail |
| StackFrameList.RunSplitUnique | crates/debugger_ui/src/session/running/stack_frame_list.rs:122-146 | there is only one way to cut frames into a head not ending deemphasized and a deemphasized tail |
| StackFrameList.WellFormedAppend | crates/debugger_ui/src/session/running/stack_frame_list.rs:122-146 | appending an entry the loop would append keeps the list well formed |
| StackFrameList.WellFormedPrefix | crates/debugger_ui/src/session/running/stack_frame_list.rs:122-146 | a well-formed list without its last entry is well formed |
| StackFrameList.LastFrame | crates/debugger_ui/src/session/running/stack_frame_list.rs:122-146 | the last entry is normal exactly when the last frame is not deemphasized, and then it is that frame |
| StackFrameList.LastEntryAgrees | crates/debugger_ui/src/session/running/stack_frame_list.rs:122-146 | two well-formed lists with the same frames end in the same entry |
| StackFrameList.LastCollapsedAgrees | crates/debugger_ui/src/session/running/stack_frame_list.rs:122-146 | two well-formed lists with the same frames ending in collapsed entries end alike |
| StackFrameList.EntriesUnique | crates/debugger_ui/src/session/running/stack_frame_list.rs:122-146 | well-formed entries are determined by the frames they flatten to, so the grouping is the only one |
| StackFrameList.CloseLast | crates/debugger_ui/src/session/running/stack_frame_list.rs:138-141 | pushing the gathered frames as a collapsed entry, when there are any, keeps the list well formed and the frames in order |
| StackFrameList.GatherStep | crates/debugger_ui/src/session/running/stack_frame_list.rs:127-129 | a deemphasized frame joins the gathered ones |
| StackFrameList.NormalStep | crates/debugger_ui/src/session/running/stack_frame_list.rs:130-136 | a normal frame closes the gathered ones and follows as a normal entry |
| StackFrameList.TargetRow | crates/debugger_ui/src/session/running/stack_frame_list.rs:213 | the editor row is the line minus one, saturating at 0 and cut to 32 bits |
| StackFrameList.StackFrameList.constructor | crates/debugger_ui/src/session/running/stack_frame_list.rs:41-78 | a new list has no thread, no entries and frame id 0 |
| StackFrameList.StackFrameList.StackFrames | crates/debugger_ui/src/session/running/stack_frame_list.rs:90-98 | the session's frames for the thread, none without a thread |
| StackFrameList.StackFrameList.BuildEntries | crates/debugger_ui/src/session/running/stack_frame_list.rs:122-146 | the entries flatten to the thread's frames, in order, with each maximal deemphasized run as one collapsed entry |
| StackFrameList.StackFrameList.SetThreadId | crates/debugger_ui/src/session/running/stack_frame_list.rs:80-83 | the thread is set and the entries are rebuilt for it |
| StackFrameList.StackFrameList.ExpandCollapsedEntry | crates/debugger_ui/src/session/running/stack_frame_list.rs:402-416 | the entry at the index is replaced by one normal entry per frame; expanding a collapsed entry by its own frames keeps the frames |
| StackFrameList.FramePath | crates/debugger_ui/src/session/running/stack_frame_list.rs:266-276 | a path is found exactly when the frame has a source and the source has a path, and it is that path |
| StackFrameList.StackFrameList.SelectStackFrame | crates/debugger_ui/src/session/running/stack_frame_list.rs:195-219 | the frame becomes current in every case; without following there is nowhere to go; when following, the error "Project path not found" comes exactly when the frame has no source path, and otherwise the location is that path at the frame's row |
| StackFrameList.ExpandKeepsFrames | crates/debugger_ui/src/session/running/stack_frame_list.rs:402-416 | replacing a collapsed entry by its frames as normal entries leaves the frames as they were |
| RunningVariableList.PathLaws | crates/debugger_ui/src/session/running/variable_list.rs:29-64 | a scope's path is its reference alone; naming keeps the indices; a child's path extends the parent's by one reference, which is its parent reference |
| RunningVariableList.Lowercase | crates/debugger_ui/src/session/running/variable_list.rs:229 | `to_lowercase` on ASCII text, character by character |
| RunningVariableList.Named | crates/debugger_ui/src/session/running/variable_list.rs:223-225 | a variable is recorded under its path with its name; a scope under its path as it is |
| RunningVariableList.NewState | crates/debugger_ui/src/session/running/variable_list.rs:227-237 | a path first met gets its depth, and starts expanded only for a scope that is the only one, is marked Locals, or with no hint is named locals |
| RunningVariableList.OrInsert | crates/debugger_ui/src/session/running/variable_list.rs:227 | `or_insert` keeps a known path's state and adds the new state otherwise |
| RunningVariableList.Children | crates/debugger_ui/src/session/running/variable_list.rs:244-256 | the children of an expanded entry, in the session's order, each at the child path of the entry |
| RunningVariableList.Visit | crates/debugger_ui/src/session/running/variable_list.rs:222-257 | an item's walk lists the item first, gives its path a state if it has none, and when that state is expanded continues with its children |
| RunningVariableList.Walk | crates/debugger_ui/src/session/running/variable_list.rs:222-257 | the walk of a list is each item's walk in turn with the states carried along |
| RunningVariableList.VisitExtends | crates/debugger_ui/src/session/running/variable_list.rs:227-237 | an item's walk keeps the states it finds and only adds new ones |
| RunningVariableList.WalkExtends | crates/debugger_ui/src/session/running/variable_list.rs:227-237 | a walk keeps the states it finds and only adds new ones |
| RunningVariableList.WalkConcat | crates/debugger_ui/src/session/running/variable_list.rs:222-257 | walking two lists one after the other is walking their concatenation |
| RunningVariableList.PopWalk | crates/debugger_ui/src/session/running/variable_list.rs:222 | the walk of the stack read from the top is the top item's walk and then the rest |
| RunningVariableList.StackStep | crates/debugger_ui/src/session/running/variable_list.rs:222-257 | one turn of the loop lists the top entry and leaves the walk of the next stack |
| RunningVariableList.LoopStep | crates/debugger_ui/src/session/running/variable_list.rs:222-257 | the loop invariant survives one turn |
| RunningVariableList.VisitExpanded | crates/debugger_ui/src/session/running/variable_list.rs:244-256 | the walk of an expanded item is the item and then the walk of its children |
| RunningVariableList.ScopeItems | crates/debugger_ui/src/session/running/variable_list.rs:212-221 | the loop starts from the scopes with variables, in order, each at its own reference's path |
| RunningVariableList.ScopeItemsSound | crates/debugger_ui/src/session/running/variable_list.rs:212-221 | every starting item is one of the scopes and has variables |
| RunningVariableList.ScopeItemsComplete | crates/debugger_ui/src/session/running/variable_list.rs:212-221 | every scope with variables is a starting item |
| RunningVariableList.WalkScopeEntries | crates/debugger_ui/src/session/running/variable_list.rs:222-257 | every scope entry of a walk is one of the items walked |
| RunningVariableList.WalkListsItems | crates/debugger_ui/src/session/running/variable_list.rs:222-257 | every item walked is listed |
| RunningVariableList.BuildListsScopesWithVariables | crates/debugger_ui/src/session/running/variable_list.rs:203-268 | the entries list a scope exactly when it is one of the frame's scopes and has variables |
| RunningVariableList.Flip | crates/debugger_ui/src/session/running/variable_list.rs:317-325 | one path's expansion is set and every other state stays |
| RunningVariableList.VariableList.constructor | crates/debugger_ui/src/session/running/variable_list.rs:152-193 | a new list has no entries, no states, no frame, no selection and no edit |
| RunningVariableList.VariableList.BuildEntries | crates/debugger_ui/src/session/running/variable_list.rs:203-268 | nothing happens without a selected frame; otherwise the entries and states become the walk of its scopes |
| RunningVariableList.VariableList.ToggleEntry | crates/debugger_ui/src/session/running/variable_list.rs:317-325 | a known path's expansion flips and the list is rebuilt; an unknown path changes nothing |
| RunningVariableList.VariableList.SetSelectedExpanded | crates/debugger_ui/src/session/running/variable_list.rs:421-453 | the selected path's expansion is set and the list rebuilt, when it has a state; nothing happens otherwise |
| RunningVariableList.VariableList.OnStopped | crates/debugger_ui/src/session/running/variable_list.rs:162-170 | a stopped session forgets every entry state before the rebuild |
| RunningVariableList.VariableList.OnSelectedStackFrameChanged | crates/debugger_ui/src/session/running/variable_list.rs:270-284 | the frame becomes the selected one and the list is rebuilt for it |
| RunningVariableList.VariableList.SelectFirst | crates/debugger_ui/src/session/running/variable_list.rs:327-333 | any edit ends and the first entry is selected, if there is one |
| RunningVariableList.VariableList.SelectLast | crates/debugger_ui/src/session/running/variable_list.rs:335-341 | any edit ends and the last entry is selected, if there is one |
| RunningVariableList.VariableList.IndexOf | crates/debugger_ui/src/session/running/variable_list.rs:346-352 | the first index whose entry has the path, or none when no entry has it |
| RunningVariableList.VariableList.SelectPrev | crates/debugger_ui/src/session/running/variable_list.rs:343-363 | the entry before the selected one, staying on the first; no selection selects the first; a selection not listed stays |
| RunningVariableList.VariableList.SelectNext | crates/debugger_ui/src/session/running/variable_list.rs:365-385 | the entry after the selected one, the first after the last; no selection selects the first; a selection not listed stays |
| RunningVariableList.VariableList.EditVariable | crates/debugger_ui/src/session/running/variable_list.rs:462-487 | a variable's edit starts on its path with its value as the text; a scope is refused and the edit stays as it was; nothing else changes |
| RunningVariableList.VariableList.ConfirmVariableEdit | crates/debugger_ui/src/session/running/variable_list.rs:398-419 | the edit ends; a variable's edit asks to set its parent reference's variable of that name to the editor's text; a scope's edit sends nothing |
| RunningVariableList.VariableList.CompletionVariables | crates/debugger_ui/src/session/running/variable_list.rs:286-294 | the variables listed and no scope; in order and with duplicates: the variable of each variable entry sits at the position that counts the variable entries before it |
| RunningVariableList.FirstWithPath | crates/debugger_ui/src/session/running/variable_list.rs:346-352 | the first index whose entry has the path, or none when no entry has it |
| RunningVariableList.VariablesOf | crates/debugger_ui/src/session/running/variable_list.rs:548-558 | exactly the variables of the entries, no more than there are entries |
| RunningVariableList.VariablesOfConcat | crates/debugger_ui/src/session/running/variable_list.rs:548-558 | the `filter_map` keeps order: the variables of two lists joined are the variables of each, joined |
| RunningVariableList.VariablesOfPositions | crates/debugger_ui/src/session/running/variable_list.rs:548-558 | every variable entry, duplicates included, gives its variable at the position counting the variable entries before it |
| VariableList.DecimalText | crates/debugger_ui/src/variable_list.rs:542-551 | `format!` writes a number as a non-empty run of digits |
| VariableList.DecimalRoundTrip | crates/debugger_ui/src/variable_list.rs:542-551 | the digits written denote the number |
| VariableList.ParseScopeEntryId | crates/debugger_ui/src/variable_list.rs:549-551 | a scope id read back starts with `scope-` |
| VariableList.SplitAtDash | crates/debugger_ui/src/variable_list.rs:542-547 | the two parts rejoin with the dash into the text |
| VariableList.ParseVariableEntryId | crates/debugger_ui/src/variable_list.rs:542-547 | a variable id read back starts with `variable-` |
| VariableList.ScopeEntryIdRoundTrip | crates/debugger_ui/src/variable_list.rs:549-551 | a scope's id reads back as its reference |
| VariableList.VariableEntryIdRoundTrip | crates/debugger_ui/src/variable_list.rs:542-547 | a variable's id reads back as its depth, its scope's reference and its name |
| VariableList.EntryIdsDistinct | crates/debugger_ui/src/variable_list.rs:542-551 | two scopes share an id exactly when their references agree, two variables exactly when depth, scope reference and name agree, and a scope id is never a variable id |
| VariableList.LessIrreflexive | crates/debugger_ui/src/variable_list.rs:124 | no id sorts below itself |
| VariableList.LessTransitive | crates/debugger_ui/src/variable_list.rs:124 | the order of ids is transitive |
| VariableList.LessTotal | crates/debugger_ui/src/variable_list.rs:124 | any two different ids are ordered one way |
| VariableList.LessAsymmetric | crates/debugger_ui/src/variable_list.rs:124 | of two ordered ids the second does not sort below the first |
| VariableList.LessCommonPrefix | crates/debugger_ui/src/variable_list.rs:124 | a shared prefix does not change the order |
| VariableList.LowerBound | crates/debugger_ui/src/variable_list.rs:124 | bisection ends within the list |
| VariableList.LowerBoundSplits | crates/debugger_ui/src/variable_list.rs:124 | every id before the bound sorts below the one sought, and the one at it does not |
| VariableList.LowerBoundAbove | crates/debugger_ui/src/variable_list.rs:124 | in an ascending list every id from the bound on is the one sought or above it |
| VariableList.BinarySearch | crates/debugger_ui/src/variable_list.rs:124-131 | a found index holds the id, and any index is within the list |
| VariableList.BinarySearchCorrect | crates/debugger_ui/src/variable_list.rs:124-131 | on an ascending list the search finds exactly the ids that are there, and otherwise names the slot between smaller and larger ones |
| VariableList.InsertSorted | crates/debugger_ui/src/variable_list.rs:128-130 | inserting at the slot the search names keeps the list ascending |
| VariableList.RemoveSorted | crates/debugger_ui/src/variable_list.rs:125-127 | removing an id keeps the list ascending |
| VariableList.ToggleSorted | crates/debugger_ui/src/variable_list.rs:123-131 | toggling keeps the list ascending |
| VariableList.ScopeEntryId | crates/debugger_ui/src/variable_list.rs:549-551 | `scope-` and the reference in decimal; `VariableList.ScopeEntryIdRoundTrip` and `VariableList.EntryIdsDistinct` state that it reads back and collides with no other id |
| VariableList.VariableEntryId | crates/debugger_ui/src/variable_list.rs:542-547 | `variable-`, the depth, the scope reference and the name, dash-separated; `VariableList.VariableEntryIdRoundTrip` and `VariableList.EntryIdsDistinct` state that it reads back and collides with no other id |
| VariableList.Toggle | crates/debugger_ui/src/variable_list.rs:123-131 | removes an open id, inserts a closed one at its bisection slot; `VariableList.ToggleSorted`, `VariableList.ToggleMembership` and `VariableList.ToggleTwice` state its laws |
| VariableList.ToggleMembership | crates/debugger_ui/src/variable_list.rs:123-131 | toggling flips whether the id is open and leaves every other id as it was |
| VariableList.ToggleTwice | crates/debugger_ui/src/variable_list.rs:123-131 | toggling the same id twice restores the open entries |
| VariableList.OpenFirstScopeOpens | crates/debugger_ui/src/variable_list.rs:153-155 | opening the first scope, corrected to insert in order, keeps the list ascending and adds exactly that scope |
| VariableList.OpenFirstScope | crates/debugger_ui/src/variable_list.rs:153-155 | the corrected opening of the first scope: the id is inserted at its bisection slot unless already open; `VariableList.OpenFirstScopeOpens` states that the list stays ascending and gains exactly that id |
| VariableList.OpenFirstScopeAsWritten | crates/debugger_ui/src/variable_list.rs:153-155 | the push appends the scope's id at the end |
| VariableList.OpenFirstScopeAsWrittenBreaksOrder | crates/debugger_ui/src/variable_list.rs:153-155 | the push leaves `scope-1` after an open `scope-5`, out of order, and lists an open scope twice so that one toggle does not close it |
| VariableList.VariableRows | crates/debugger_ui/src/variable_list.rs:192-211 | a variable gets its own row, preceded by the editor row when it is the variable being edited |
| VariableList.DepthCheckOfListed | crates/debugger_ui/src/variable_list.rs:181-189 | for a listed variable a collapsed one starts a skip at its own depth, an open one skips nothing |
| VariableList.VarEntriesStep | crates/debugger_ui/src/variable_list.rs:169-211 | one step of the variables loop either skips the variable or lists its rows first |
| VariableList.EntriesStep | crates/debugger_ui/src/variable_list.rs:147-212 | one step of the scopes loop appends that scope's rows |
| VariableList.ScopeRowsOfNonEmpty | crates/debugger_ui/src/variable_list.rs:157-165 | a scope with variables gets its own row, and its variables' rows only when it is open |
| VariableList.OpenedAtFirst | crates/debugger_ui/src/variable_list.rs:153-155 | the scope the loop reaches first with variables is the one opened |
| VariableList.OpenedSorted | crates/debugger_ui/src/variable_list.rs:153-155 | the open entries stay ascending after the first scope is opened, with the corrected in-order insert rather than the `push` as written |
| VariableList.EntriesListScopes | crates/debugger_ui/src/variable_list.rs:147-165 | every scope with variables gets exactly one row, in order, open or not; a scope without variables gets none |
| VariableList.EntriesEditorsPrecede | crates/debugger_ui/src/variable_list.rs:192-211 | an editor row is always followed by its variable's row |
| VariableList.SkipsDeeperRun | crates/debugger_ui/src/variable_list.rs:169-172 | below a collapsed variable the deeper ones are skipped |
| VariableList.ListsShallower | crates/debugger_ui/src/variable_list.rs:174-176 | a variable no deeper than the skipped subtree's root is listed again |
| VariableList.CollapsedStartsSkip | crates/debugger_ui/src/variable_list.rs:181-189 | a collapsed variable starts skipping at its own depth; an expanded one skips nothing |
| VariableList.OpenScopeRows | crates/debugger_ui/src/variable_list.rs:167-211 | the inner loop produces the rows of an open scope's variables |
| VariableList.FrameRows | crates/debugger_ui/src/variable_list.rs:141-216 | the scopes loop produces the rows of the frame from the open entries, and the open entries once the first scope is opened, still ascending (the first scope is opened with the corrected in-order insert rather than the `push` as written) |
| VariableList.VariableList.constructor | crates/debugger_ui/src/variable_list.rs:49-89 | nothing open, no edit in progress, no rows yet |
| VariableList.VariableList.BuildEntries | crates/debugger_ui/src/variable_list.rs:141-216 | nothing changes when the frame's variables are unknown; otherwise its rows are recomputed from them and the open entries; with `open_first_scope` it runs the corrected in-order insert, not the `push` as written |
| VariableList.VariableList.ToggleEntryCollapsed | crates/debugger_ui/src/variable_list.rs:123-139 | the id's open state flips and the rows are rebuilt |
| VariableList.VariableList.StartSetVariable | crates/debugger_ui/src/variable_list.rs:255-279 | the edit starts from the variable's current value |
| VariableList.VariableList.OnEditorBlurred | crates/debugger_ui/src/variable_list.rs:62-75 | losing focus abandons the edit and rebuilds the rows |
| VariableList.VariableList.SetVariableValue | crates/debugger_ui/src/variable_list.rs:299-342 | the editor is emptied and the edit ends; a request goes out and the rows are rebuilt only when the text differs from the value the edit started from |
| FileFinder.ThenReverse | crates/file_finder/src/file_finder.rs:304-319 | reversing a chained comparison reverses each part |
| FileFinder.CmpStringLaws | crates/file_finder/src/file_finder.rs:318 | the path comparison is transitive, antisymmetric, and ties only equal paths |
| FileFinder.CmpPathLaws | crates/file_finder/src/file_finder.rs:318 | the comparison of paths by components is transitive, antisymmetric, and ties only equal paths |
| FileFinder.CmpPanelChain | crates/file_finder/src/file_finder.rs:304-319 | the panel order chains like a lexicographic order |
| FileFinder.CmpPanelAnti | crates/file_finder/src/file_finder.rs:304-319 | swapping the arguments of the panel order reverses it |
| FileFinder.CmpPanel | crates/file_finder/src/file_finder.rs:304-319 | a higher score wins, then the larger worktree id, then the smaller distance to the relative ancestor, then the earlier path; `FileFinder.CmpPanelChain`, `FileFinder.CmpPanelAnti` and `FileFinder.PanelRanking` state its laws |
| FileFinder.PanelRanking | crates/file_finder/src/file_finder.rs:304-319 | a higher score wins; on a tie the larger worktree id, then the smaller distance, then the earlier path; two matches tie only when all four agree |
| FileFinder.CmpPanelOptionLaws | crates/file_finder/src/file_finder.rs:481 | comparing optional panel matches, no match lowest, chains and reverses like the panel order |
| FileFinder.CmpMatchesAsKey | crates/file_finder/src/file_finder.rs:460-482 | away from the current entry the match order is lexicographic on its tier and its panel match |
| FileFinder.CmpMatches | crates/file_finder/src/file_finder.rs:460-482 | the current entry first, then history before search when history is separate, then the panel match; `FileFinder.CmpMatchesAsKey`, `FileFinder.CmpMatchesRanks`, `FileFinder.CmpMatchesChain`, `FileFinder.CmpMatchesFlip` and `FileFinder.CmpMatchesSelf` state its laws |
| FileFinder.CmpMatchesRanks | crates/file_finder/src/file_finder.rs:467-479 | the current entry ranks above everything; with separate history a history entry ranks above a search entry |
| FileFinder.CmpMatchesChain | crates/file_finder/src/file_finder.rs:460-482 | the match order chains, the current entry included |
| FileFinder.CmpMatchesFlip | crates/file_finder/src/file_finder.rs:460-482 | an entry ranked below another ranks that other above itself |
| FileFinder.CmpMatchesSelf | crates/file_finder/src/file_finder.rs:460-482 | every entry with a panel match, other than the current one, ties with itself |
| FileFinder.FirstNotAbove | crates/file_finder/src/file_finder.rs:387-390 | bisection settles within the list |
| FileFinder.FirstNotAboveSplits | crates/file_finder/src/file_finder.rs:387-390 | every entry before the settled index outranks the one sought, and the one at it does not |
| FileFinder.IndexOfPath | crates/file_finder/src/file_finder.rs:381-384 | the first entry with the path, or none when no entry has it |
| FileFinder.Position | crates/file_finder/src/file_finder.rs:367-392 | a history entry without a panel match is looked up by path, absent meaning slot 0; any other by bisection; a found index is in the list and a slot is at most its length |
| FileFinder.PositionCorrect | crates/file_finder/src/file_finder.rs:367-392 | on a ranked list the position of an entry with a panel match is found exactly when some entry ties with it, at that entry; otherwise the slot between better and worse entries |
| FileFinder.InsertAt | crates/file_finder/src/file_finder.rs:450 | `insert` grows the list by one |
| FileFinder.InsertAtIndices | crates/file_finder/src/file_finder.rs:450 | the new entry is at the index, earlier entries keep their places and later ones move up by one |
| FileFinder.InsertKeepsRanked | crates/file_finder/src/file_finder.rs:447-451 | inserting at the slot the position reports keeps the list ranked |
| FileFinder.HistoryRows | crates/file_finder/src/file_finder.rs:415-421 | with no query every history item other than the current path is a row, with no panel match |
| FileFinder.NoQueryMatches | crates/file_finder/src/file_finder.rs:403-422 | with no query the current path comes first, then the other history rows |
| FileFinder.SearchRowsOf | crates/file_finder/src/file_finder.rs:430-434 | extending keeps exactly the old search rows |
| FileFinder.SearchRowsRanked | crates/file_finder/src/file_finder.rs:430-434 | the kept search rows of a ranked list are ranked |
| FileFinder.NewSearchRows | crates/file_finder/src/file_finder.rs:424-428 | the search results whose path no history match has become rows, and only those |
| FileFinder.InsertedContents | crates/file_finder/src/file_finder.rs:444-456 | inserting drops nothing and adds only candidates |
| FileFinder.Inserted | crates/file_finder/src/file_finder.rs:444-456 | each candidate is put at the slot the ranking gives it, skipped when an entry there ties with it, and the loop stops as soon as the list holds 100 rows; `FileFinder.InsertedContents`, `FileFinder.InsertedCapped`, `FileFinder.InsertedPastCap` and `FileFinder.InsertedRanked` state what it keeps |
| FileFinder.InsertedCapped | crates/file_finder/src/file_finder.rs:450-453 | from a list below 100 rows the result never exceeds 100 |
| FileFinder.InsertedPastCap | crates/file_finder/src/file_finder.rs:450-453 | the stop tests for exactly 100, so a list that already holds 100 rows grows past it |
| FileFinder.InsertedRanked | crates/file_finder/src/file_finder.rs:444-456 | candidates with panel matches keep a ranked list ranked: sorted, with no two entries tied |
| FileFinder.InsertAll | crates/file_finder/src/file_finder.rs:444-456 | the insertion loop computes the inserted rows |
| FileFinder.Matches.constructor | crates/file_finder/src/file_finder.rs:327-331 | the default holds no rows and does not separate history |
| FileFinder.Matches.PushNewMatches | crates/file_finder/src/file_finder.rs:394-457 | with no query the rows become the history rows; otherwise the old search rows are kept when extending, and the history matches, then the new search results, are inserted in rank order |
| FileFinder.PushedRows | crates/file_finder/src/file_finder.rs:394-457 | one query round keeps no old row but search rows, adds only candidates, keeps a ranked start ranked, and keeps a start below 100 rows at most 100 |
| FileFinder.CalculateSelectedIndex | crates/file_finder/src/file_finder.rs:921-933 | the selection skips the first row exactly when it is the current path's history row and others follow |
| FileFinder.RankedOpenedFirst | crates/file_finder/src/file_finder.rs:467-469 | in a ranked list the current entry, if present, is at the top |
| FileFinder.NoQuerySelection | crates/file_finder/src/file_finder.rs:921-933 | with no query the selection skips the current path exactly when another history item follows it |
| FileFinder.FirstNonHistory | crates/file_finder/src/file_finder.rs:968-974 | the first row that is not a history row, or none |
| FileFinder.SeparatorsAfterIndices | crates/file_finder/src/file_finder.rs:966-982 | with separate history, one separator after the last history row exactly when history rows precede a search row; otherwise none |
| FileFinder.SeparatorSplitsRanked | crates/file_finder/src/file_finder.rs:966-982 | in a ranked list with separate history the separator splits the history rows from the search rows |
| FileFinder.NoQueryNoSeparator | crates/file_finder/src/file_finder.rs:966-982 | with no query there are only history rows, so no separator |
| FileFinder.PathQuery | crates/file_finder/src/file_finder.rs:584-591 | the query up to the end of its file part, or all of it |
| FileFinder.SelectionAfter | crates/file_finder/src/file_finder.rs:726-733 | the new selection is the old match's new place, or the default; within the list or 0 |
| FileFinder.SelectionFollowsMatch | crates/file_finder/src/file_finder.rs:726-733 | a selected match still listed keeps the selection on its row |
| FileFinder.FileFinderDelegate.constructor | crates/file_finder/src/file_finder.rs:594-623 | no search yet, nothing cancelled, no query, with the current path and history given |
| FileFinder.FileFinderDelegate.SetSearchMatches | crates/file_finder/src/file_finder.rs:697-742 | results older than the latest search are dropped; otherwise the matches are pushed, extending the old ones only when the last search was cancelled and the path query is the same, and the selection follows |
| FileFinder.JoinPath | crates/file_finder/src/file_finder.rs:836 | the components joined by slashes, nothing for no components |
| FileFinder.TrimEndMatches | crates/file_finder/src/file_finder.rs:856 | the pattern is stripped off the end as often as it occurs, leaving a prefix that does not end with it |
| FileFinder.PositionsFrom | crates/file_finder/src/file_finder.rs:845-852 | the positions at or after the file name's byte offset, shifted down by it |
| FileFinder.PositionsBelow | crates/file_finder/src/file_finder.rs:857 | the positions below the byte length of the directory part |
| FileFinder.LabelsForPathMatch | crates/file_finder/src/file_finder.rs:831-860 | the file name with the match positions inside it, counted in UTF-8 bytes from the file name's start, and the text before the file name with the positions below its byte length |
| FileFinder.TrimOnce | crates/file_finder/src/file_finder.rs:853 | text followed once by the pattern, and not ending in it, trims back to the text |
| FileFinder.Utf8Width | crates/file_finder/src/file_finder.rs:844 | a character takes one to four UTF-8 bytes, and one exactly when it is ASCII |
| FileFinder.Utf8Len | crates/file_finder/src/file_finder.rs:844 | `str::len` counts UTF-8 bytes: at least one and at most four per character |
| FileFinder.Utf8LenAscii | crates/file_finder/src/file_finder.rs:844 | a string is as long in bytes as in characters exactly when it is ASCII |
| FileFinder.Utf8LenConcat | crates/file_finder/src/file_finder.rs:844 | the byte length of two strings joined is the sum of theirs |
| FileFinder.FileNameStart | crates/file_finder/src/file_finder.rs:844 | the file name's start plus its byte length is the byte length of the prefix and the joined path together |
| FileFinder.JoinPathEndsWithLast | crates/file_finder/src/file_finder.rs:836 | the joined path ends with its last component |
| FileFinder.DirectoryPart | crates/file_finder/src/file_finder.rs:837-857 | for normal components under a prefix ending in a slash, the full path is a directory part followed by the file name, and trimming the name off leaves that part |
| FileFinder.AccentedPath | crates/file_finder/src/file_finder.rs:836 | the components `é` and `a.rs` join as `é/a.rs` |
| FileFinder.AccentedLengths | crates/file_finder/src/file_finder.rs:844 | `é/` is three bytes long, `a.rs` four and `é/a.rs` seven |
| FileFinder.AccentedDirectoryLabels | crates/file_finder/src/file_finder.rs:831-860 | for `é/a.rs` the file name starts at byte 3, so a match at byte 3 lands at the file name's first character |
| FileFinder.LabelsSplitPath | crates/file_finder/src/file_finder.rs:831-860 | for normal components under a prefix ending in a slash, the labels split the full path exactly at the file name, whose start is the byte length of the directory part |
| DebuggerPanelItem.ToProto | crates/debugger_ui/src/debugger_panel_item.rs:44-54 | mapping a tab to its wire value and back gives the same tab |
| DebuggerPanelItem.ProtoRoundTrip | crates/debugger_ui/src/debugger_panel_item.rs:55-64 | mapping a wire value to a tab and back gives the same wire value, so the two maps are inverse bijections |
| DebuggerPanelItem.FromProto | crates/debugger_ui/src/debugger_panel_item.rs:55-64 | reads each wire tab as its tab; `DebuggerPanelItem.ToProto` and `DebuggerPanelItem.ProtoRoundTrip` state the round trips either way |
| DebuggerPanelItem.ClearsHighlights | crates/debugger_ui/src/debugger_panel_item.rs:228-240 | the debug-line highlights are cleared for every thread status except Running |
| DebuggerPanelItem.ToolbarFor | crates/debugger_ui/src/debugger_panel_item.rs:723-848 | Pause is shown exactly while the thread runs. Continue is enabled exactly when it is stopped. The three step buttons are enabled exactly when it is stopped. Restart follows the adapter's capability. Stop is enabled while the thread runs or is stopped. Disconnect and ignore-breakpoints are enabled unless the thread has exited or ended |
| DebuggerPanelItem.ToolbarConsistent | crates/debugger_ui/src/debugger_panel_item.rs:723-848 | a step or continue button is enabled only where Stop is, and Stop is enabled exactly where Disconnect is |
| DebuggerPanelItem.TrimEnd | crates/debugger_ui/src/debugger_panel_item.rs:318 | trim_end gives the longest prefix of the text that does not end in whitespace; everything it removes is whitespace |
| DebuggerPanelItem.TrimEndIdempotent | crates/debugger_ui/src/debugger_panel_item.rs:318 | trimming twice gives the same text as trimming once |
| DebuggerPanelItem.OutputLine | crates/debugger_ui/src/debugger_panel_item.rs:314-320 | a non-console output line is the trimmed output followed by exactly one newline |
| DebuggerPanelItem.DebugPanelItem.constructor | crates/debugger_ui/src/debugger_panel_item.rs:88-202 | a new item keeps its client, thread and name, opens on the Variables tab and starts with no console indicator, no output and no requests |
| DebuggerPanelItem.DebugPanelItem.ShouldSkipEvent | crates/debugger_ui/src/debugger_panel_item.rs:243-245 | an event is skipped exactly when its client or its thread differs from the item's |
| DebuggerPanelItem.DebugPanelItem.DedupWith | crates/debugger_ui/src/debugger_panel_item.rs:709-715 | an opened item is dropped for an existing one exactly when they share client and thread, which is exactly when neither would skip the other's events |
| DebuggerPanelItem.DedupSymmetric | crates/debugger_ui/src/debugger_panel_item.rs:709-715 | two items dedup against each other in both directions or in neither |
| DebuggerPanelItem.DebugPanelItem.SetFromProto | crates/debugger_ui/src/debugger_panel_item.rs:204-226 | adopting a leader's state changes the active tab to the leader's and nothing else of the item |
| DebuggerPanelItem.DebugPanelItem.UpdateThreadStateStatus | crates/debugger_ui/src/debugger_panel_item.rs:228-241 | sets the thread status, and clears the highlights exactly when the new status is not Running |
| DebuggerPanelItem.DebugPanelItem.SelectTab | crates/debugger_ui/src/debugger_panel_item.rs:452-485 | clicking a tab makes it active; clicking the console also clears its indicator; nothing else changes |
| DebuggerPanelItem.DebugPanelItem.OnStackFrameListEvent | crates/debugger_ui/src/debugger_panel_item.rs:160-167 | a selected or refreshed stack frame clears the highlights once and changes nothing else |
| DebuggerPanelItem.DebugPanelItem.HandleThreadContinuedEvent | crates/debugger_ui/src/debugger_panel_item.rs:247-258 | a continued event for another client or thread changes nothing; one for this item marks the thread Running |
| DebuggerPanelItem.DebugPanelItem.HandleStoppedEvent | crates/debugger_ui/src/debugger_panel_item.rs:260-272 | a stopped event that names no thread counts as one for this item's thread; if the event is not for this item nothing changes, otherwise one Stopped event is passed on with the event's go-to-frame flag |
| DebuggerPanelItem.DebugPanelItem.HandleThreadEvent | crates/debugger_ui/src/debugger_panel_item.rs:274-285 | a thread event for this item marks the thread Running, whatever its reason; any other thread event changes nothing |
| DebuggerPanelItem.DebugPanelItem.HandleOutputEvent | crates/debugger_ui/src/debugger_panel_item.rs:287-323 | output from another client changes nothing. Output with no category, or the console category, goes to the console and lights the indicator unless the console tab is active. Any other output appends the trimmed line and a newline to the output editor |
| DebuggerPanelItem.DebugPanelItem.HandleListEvent | crates/debugger_ui/src/debugger_panel_item.rs:325-354 | module and loaded-source events for this client are forwarded to their list in order; events for other clients change nothing |
| DebuggerPanelItem.DebugPanelItem.HandleClientStoppedEvent | crates/debugger_ui/src/debugger_panel_item.rs:356-372 | for this item's client the thread becomes Stopped, the highlights are cleared, the client's active debug line is removed and the item closes; other clients change nothing |
| DebuggerPanelItem.DebugPanelItem.HandleClientExitedAndTerminatedEvent | crates/debugger_ui/src/debugger_panel_item.rs:374-390 | as for a stopped client, but the thread becomes Exited |
| DebuggerPanelItem.DebugPanelItem.HandleEvent | crates/debugger_ui/src/debugger_panel_item.rs:123-157 | each panel event has the effect of its own handler: a stop of this thread (or an unnamed one of this client) emits the stop; a thread or continued event of this thread marks it running; console output goes to the console and may light its dot, other output becomes a trimmed line; module and loaded-source events of this client are forwarded; a client stop marks the thread stopped, removes the debug line and closes the item; an exit or termination does the same but marks it exited; a capabilities change, and any non-thread event from another client, changes nothing |
| DebuggerPanelItem.DebugPanelItem.ContinueThreadAction | crates/debugger_ui/src/debugger_panel_item.rs:487-495 | marks the thread Running, then queues exactly one continue request for this client and thread |
| DebuggerPanelItem.DebugPanelItem.StepOverAction | crates/debugger_ui/src/debugger_panel_item.rs:497-507 | marks the thread Running, then queues exactly one step-over request with the configured granularity |
| DebuggerPanelItem.DebugPanelItem.StepInAction | crates/debugger_ui/src/debugger_panel_item.rs:509-519 | marks the thread Running, then queues exactly one step-in request with the configured granularity |
| DebuggerPanelItem.DebugPanelItem.StepOutAction | crates/debugger_ui/src/debugger_panel_item.rs:521-531 | marks the thread Running, then queues exactly one step-out request with the configured granularity |
| DebuggerPanelItem.DebugPanelItem.RestartClientAction | crates/debugger_ui/src/debugger_panel_item.rs:533-539 | queues exactly one restart of this client and leaves the status alone |
| DebuggerPanelItem.DebugPanelItem.PauseThreadAction | crates/debugger_ui/src/debugger_panel_item.rs:541-547 | queues exactly one pause of this client and thread and leaves the status alone |
| DebuggerPanelItem.DebugPanelItem.StopThreadAction | crates/debugger_ui/src/debugger_panel_item.rs:549-555 | queues one terminate-threads request whose only thread is this item's |
| DebuggerPanelItem.DebugPanelItem.DisconnectClientAction | crates/debugger_ui/src/debugger_panel_item.rs:557-563 | queues exactly one disconnect of this client |
| DebuggerPanelItem.DebugPanelItem.ToggleIgnoreBreakpointsAction | crates/debugger_ui/src/debugger_panel_item.rs:565-576 | queues exactly one ignore-breakpoints toggle for this client |
| UiSession.ModeSessionId | crates/debugger_ui/src/session.rs:120-127 | only the starting and running states carry a session id; the inert and failed states have none |
| UiSession.TabContentOf | crates/debugger_ui/src/session.rs:203-227 | the tab is coloured as an error exactly when the session failed, and shows a spinner exactly while it is starting |
| UiSession.LabelNamesState | crates/debugger_ui/src/session.rs:204-209 | two tab labels are equal exactly when the two states are the same kind of state, whatever their session ids |
| UiSession.DebugSession.InertSession | crates/debugger_ui/src/session.rs:68-97 | a new form tab is inert, listens to the inert form and has shut nothing down |
| UiSession.DebugSession.RunningSession | crates/debugger_ui/src/session.rs:99-118 | a tab made for a running session is running with that id and listens to the running state |
| UiSession.DebugSession.SessionId | crates/debugger_ui/src/session.rs:120-127 | the tab's session id is present exactly when the tab is starting or running, and is then that state's id |
| UiSession.DebugSession.Shutdown | crates/debugger_ui/src/session.rs:129-137 | only a running session is asked to shut down, once; an inert, starting or failed tab records no shutdown; the state does not change |
| UiSession.DebugSession.OnInertEvent | crates/debugger_ui/src/session.rs:143-168 | once the form spawns a session, the tab starts the store's new session id and listens to the starting state; if the store is gone nothing changes |
| UiSession.DebugSession.OnStartingEvent | crates/debugger_ui/src/session.rs:170-188 | a finished start makes the tab run the new session; a failed start makes it failed; the subscription stays |
| UiSession.DebugSession.DedupWith | crates/debugger_ui/src/session.rs:283-289 | an opened tab is dropped for an existing one exactly when both have the same session id or neither has one |
| UiSession.DedupWithoutSessions | crates/debugger_ui/src/session.rs:283-289 | any two tabs without a session, inert or failed in any combination, dedup |
| UiSession.DedupNeedsBothOrNeither | crates/debugger_ui/src/session.rs:283-289 | a tab with a session never dedups against a tab without one |
| UiSession.DedupEquivalence | crates/debugger_ui/src/session.rs:283-289 | dedup is reflexive, symmetric and transitive |
| DebuggerPanel.TerminatedRangeIsClientThreads | crates/debugger_ui/src/debugger_panel.rs:556-568 | the key range the terminated handler walks holds exactly the client's threads below u64::MAX; no other client's thread is in it, and neither is thread u64::MAX |
| DebuggerPanel.SplitCommand | crates/debugger_ui/src/debugger_panel.rs:283-295 | with more than one argument the first is the command and the rest its arguments; with one or none there is no command and the arguments are unchanged |
| DebuggerPanel.SplitCommandRoundTrip | crates/debugger_ui/src/debugger_panel.rs:283-295 | putting the command back in front of its arguments gives the original argument list |
| DebuggerPanel.TerminalOutcome | crates/debugger_ui/src/debugger_panel.rs:320-326 | the response reports success exactly when the terminal spawned, with its pid; a failure carries no pid |
| DebuggerPanel.Without | crates/debugger_ui/src/debugger_panel.rs:172-185 | removing a key keeps every other key, in order, and keeps the keys distinct |
| DebuggerPanel.DebugPanel.constructor | crates/debugger_ui/src/debugger_panel.rs:133-142 | a new panel has no thread states, no items, no warning and nothing sent |
| DebuggerPanel.DebugPanel.HandleDebugClientStopped | crates/debugger_ui/src/debugger_panel.rs:120-127 | the stop is published to the items, and exactly the thread states of other clients are kept |
| DebuggerPanel.DebugPanel.HandleRemovedItem | crates/debugger_ui/src/debugger_panel.rs:172-185 | the removed item's key leaves the pane and the thread states, and exactly that thread of that client is terminated |
| DebuggerPanel.DebugPanel.HandleStoppedEvent | crates/debugger_ui/src/debugger_panel.rs:417-514 | nothing happens without a thread id or for an unknown client. Otherwise the thread's state becomes stopped, and a tab is opened and activated unless the thread has one. The stop is published, asking to go to the stack frame when the thread's tab is active or no tab is. The pane never holds two tabs for one thread, and every item of the stopped thread then reads Stopped through the state it shares with the panel |
| DebuggerPanel.DebugPanel.MarkStopped | crates/debugger_ui/src/debugger_panel.rs:443-450 | the thread's state model is looked up or created with the defaults and marked stopped; every other model stays the same object, and the items still hold their models |
| DebuggerPanel.DebugPanel.SetStopped | crates/debugger_ui/src/debugger_panel.rs:449-450 | one thread's state model becomes Stopped with its stopped flag set; no other state changes |
| DebuggerPanel.DebugPanel.OpenItem | crates/debugger_ui/src/debugger_panel.rs:470-482 | a fresh item for the thread, holding the panel's state model of that thread, is appended to the pane with its initial state |
| DebuggerPanel.DebugPanel.StopContinueStop | crates/debugger_ui/src/debugger_panel.rs:443-482 | after a stop, a Continue from the thread's item and a second stop the item reads Stopped, Running and Stopped: the item and the panel share one state |
| DebuggerPanel.DebugPanel.HandleThreadEvent | crates/debugger_ui/src/debugger_panel.rs:516-540 | the did-not-stop warning comes on exactly when a known thread exits without ever having stopped. A started thread gets a fresh running state, replacing any earlier one. The event is published |
| DebuggerPanel.DebugPanel.ResetThreadState | crates/debugger_ui/src/debugger_panel.rs:531-536 | a fresh default state model replaces the thread's; an item already open for the thread keeps its old model |
| DebuggerPanel.DebugPanel.HandleTerminatedEvent | crates/debugger_ui/src/debugger_panel.rs:550-580 | every thread state of the client in the range is marked ended, and no other state changes. The client is restarted with the event's restart data when there is any, and shut down otherwise. The event is published |
| DebuggerPanel.DebugPanel.EndRange | crates/debugger_ui/src/debugger_panel.rs:556-568 | the loop over the client's key range marks exactly those state models ended and leaves every stopped flag and every other status as it was |
| DebuggerPanel.DebugPanel.MarkEnded | crates/debugger_ui/src/debugger_panel.rs:563 | one state model becomes Ended; every other model is untouched |
| DebuggerPanel.DebugPanel.HandleInitializedEvent | crates/debugger_ui/src/debugger_panel.rs:375-406 | capabilities that come with the event are merged and announced. Then the breakpoints are sent and the configuration is declared done, in that order |
| DebuggerPanel.DebugPanel.HandleCapabilitiesChangedEvent | crates/debugger_ui/src/debugger_panel.rs:609-620 | the new capabilities are merged into the store's and the change is published |
| DebuggerPanel.DebugPanel.HandlePublishedEvent | crates/debugger_ui/src/debugger_panel.rs:408-415 | continued, exited, output, module and loaded-source events are published to the items unchanged, and nothing else changes |
| DebuggerPanel.DebugPanel.DismissDidNotStopWarning | crates/debugger_ui/src/debugger_panel.rs:653-658 | dismissing hides the warning and changes nothing else |
| DebuggerPanel.DebugPanel.HandleRunInTerminalRequest | crates/debugger_ui/src/debugger_panel.rs:235-343 | a request without arguments is refused at once. Otherwise a terminal is spawned with the split command line, and the reply reports whether it came up, with its pid. Only the outbox changes |

## Left out

- Asynchronous tasks, `cx.notify`, entity updates, subscriptions and focus handling are gpui scheduling and are not modelled. Where a task's effect matters, it is modelled as happening at once, as an entry in an outbox, or as a parameter carrying its outcome.
- crates/dap/src/client.rs, the request loop with its atomic sequence counter, is concurrency and is not part of this model. Only its `ThreadStatus` values and the registration of a request among the transport's current requests (`Transport.TransportDelegate.RegisterRequest`) are used.
- DapStore.Store.Initialize: the launch or attach request that follows the initialize request (crates/project/src/dap_store.rs:250-269) goes to the adapter and is not modelled, so the result says only whether the capabilities were stored.
- Transport.TransportDelegate.Start: the adapter start-up and the spawning of the reader, writer and log tasks (crates/dap/src/transport.rs:95-131) are I/O; only the stored sender is modelled.
- RunningVariableList.VariableList.EditVariable also stands for the double click on a variable's value (crates/debugger_ui/src/session/running/variable_list.rs:772-781); the click count and the editor widget are not modelled, only the path and the starting text.
- Adapter processes, TCP and stdio start-up, stderr and log handlers, and adapter downloads (crates/dap/src/adapters.rs, crates/dap_adapters) are I/O and are not part of this model.
- JSON (serde_json) is not modelled. A message carries its encoded text, and the restart command's raw arguments are an opaque value.
- The environment unescaping of run-in-terminal requests (crates/debugger_ui/src/debugger_panel.rs:257-274) is JSON work, so the modelled request has no environment.
- Protobuf byte encoding (prost) is not modelled; wire messages are datatypes. The protobuf schema is not part of this model, so its enum numbers are taken from the order in which the code lists the variants.
- The missing-value defaults of the prost getters come from that schema as well. They are taken to be `Method` for a completion item's type and `Variables` for an evaluate context.
- `Capabilities::merge` comes from the DAP types crate, whose code is not part of this model, so it is a parameter of the members that merge.
- The fuzzy matcher, history matching, `update_matches`, `confirm` and the picker's rendering are not modelled. Their results are parameters of the file finder's members.
- The `f64` match score is an integer key, so NaN scores have no counterpart.
- The `~` substitution of the home directory in file-finder labels (crates/file_finder/src/file_finder.rs:807-821) reads the environment and is left out.
- Text anchors are numbers in buffer order, and a buffer is reduced to its point lookups, because the text crate is not part of this model.
- Rendering is left out except the toolbar enable rules, the panel item's inner-tab click and the session tab's label, colour and spinner. This covers the panel item's tab content and tooltips, and the text of the did-not-stop warning.
- DebuggerPanelItem.DebugPanelItem.SetFromProto: the follower's stack-frame, variable and module lists are not modelled, only the adopted tab. The source can adopt the Console tab while the console dot is lit, so this method does not promise `Valid()`.
- The panel item's protobuf view state and follow events (crates/debugger_ui/src/debugger_panel_item.rs:612-707) are collaboration view plumbing and are left out.
- The panel item's capabilities-changed handler only repaints, so the model leaves the item unchanged.
- `go_to_current_stack_frame` and the workspace's `focus_panel` are editor navigation and are left out.
- UiSession.DebugSession.OnInertEvent: requires a worktree, because the source panics on a project without one.
- The inert form's default working directory, taken from the first worktree, is not modelled.
- DebuggerPanel.DebugPanel.HandleStoppedEvent: the store lookup of the client is the parameter `clientName`, the adapter's name when the store knows the client, the pane's active item is a parameter, and the rest of the adapter configuration handed to the new item is left out.
- The panel's `thread_states` and each item share one `Model<ThreadState>`: the model is the class `DebuggerPanelItem.ThreadStateModel`, and `DebuggerPanel.DebugPanel.Linked` says every item of a thread holds the panel's object for that thread. A thread that is started again gets a fresh model while an already open item keeps the old one, as in the code, so that invariant is not promised after such a restart.
- VariableList.OpenedSorted, VariableList.FrameRows and VariableList.VariableList.BuildEntries run the corrected `VariableList.OpenFirstScope` (an in-order insert), not the `push` at crates/debugger_ui/src/variable_list.rs:153-155; `VariableList.OpenFirstScopeAsWritten` models the `push`. The difference is latent in this revision, because every caller (crates/debugger_ui/src/variable_list.rs:71, 137, 276 and 340) passes `open_first_scope` as false.
- Several wire readers of closed enumerations and plain records (`ProtoConversions.SourcePresentationHintFromProto`, `SteppingGranularityFromProto`, `OutputEventGroupFromProto`, `CompletionItemTypeFromProto`, `ExceptionBreakModeFromProto`, `BreakpointReasonFromProto`, `ThreadFromProto`, `ExceptionPathSegmentFromProto`, `ExceptionFilterOptionsFromProto`, `ExceptionBreakpointsFilterFromProto`, `DebuggerPanelItem.FromProto`, `DapCommand.ContinueResponseFromProto`, `SetVariableResponseFromProto` and `ClientIdFromProto`) carry no contract of their own: the writer's contract states the round trip through them, and a lemma beside each states the other direction. Their contracts cannot also name the writer, because two functions whose contracts call each other do not terminate.
- The response conversions of commands whose DAP response is empty (steps, pause, disconnect, terminate and the like) carry no data and are not modelled.
- crates/debugger_ui/src/module_list.rs and crates/debugger_ui/src/stack_frame_list.rs only forward data over the network or fetch it asynchronously, so they are not part of this model.
- The test files are read as evidence for properties only; the fake adapters they drive are not modelled.

## Findings

| source | as written | input that shows it | evidently intended | confidence | as-written member | corrected member |
|---|---|---|---|---|---|---|
| crates/debugger_ui/src/variable_list.rs:153-155 | with `open_first_scope`, the first scope's entry id is appended to the sorted `open_entries` with `push` | open entries `["scope-5"]` and first scope `scope-1` give `["scope-5", "scope-1"]`, which is not ascending, so the later bisection has no defined answer; open entries `["scope-1"]` list `scope-1` twice, and one toggle leaves it open | insert the id at its bisection position unless it is already open, as `toggle_entry_collapsed` does | medium, not executed | VariableList.OpenFirstScopeAsWritten, VariableList.OpenFirstScopeAsWrittenBreaksOrder | VariableList.OpenFirstScope, VariableList.OpenFirstScopeOpens |
