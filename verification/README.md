# review-protocol: a verified model of its stream loops and codecs

review-protocol is a wire protocol between agents and a manager.  This project
models the parts of it that consume streams and decode frames across releases,
and proves what they guarantee on every run:

* the agent's request loops `handle` and `handle_node`, including the install
  exchange in which the loop leaves request framing and hands an arbitrary
  handler a bounded reader over the same stream;
* the `AgentInfo` frame of the handshake, whose conditional tail lets peers of
  different releases read each other;
* the server's two authorization loops and the adapter between them;
* the two-party handshake built on the codec;
* the unidirectional event stream.

## How it is modelled

A stream is the sequence of bytes its peer will ever send together with the
error reported once they run out; `UnexpectedEof` stands for a clean finish.  A
frame is a 4-byte big-endian length and a payload; a request is a frame holding
a little-endian `u32` code and a body.  A send stream accepts a given number of
frames and then fails, so every theorem covers failing sends unless it says
otherwise.

A handler is any deterministic program: its answers are functions of the trace
of everything it has seen.  An install routine may call `next_chunk` as often
as it likes; the only thing asked of it is that it stops calling once calls
bring nothing new, since a routine that never returns makes the source's loop
never return either.  Authorizers and event handlers are functions of their
history in the same way.

Each stateful function of the source is an imperative method (`AgentLoops`,
`ServerLoops`, `Payload.PackageReader`, `EventStream.ProcessEventStream`,
`Handshake`, `PackageSender`) proved equal to a function of the stream, and the
theorems are about those functions.

| file | contents |
|---|---|
| `Wire.dfy` | bytes, fixed-width integers, frames, requests, streams |
| `Errors.dfy` | error categories |
| `Payload.dfy` | `PackageReader`: one read, the drain, where a transfer ends |
| `Agent.dfy`, `AgentLoops.dfy` | the agent's loops as functions and as loops |
| `InstallExchange.dfy` | the install exchange against arbitrary handlers |
| `Alignment.dfy` | conversations laid end to end on one stream |
| `Pairing.dfy` | frames and the requests they answer; `handle_node` and `handle` |
| `Answers.dfy` | the calls each request makes and the contents of its answer, per request and per run |
| `CleanEnd.dfy` | what the end of a loop without an error means |
| `Migration.dfy` | legacy requests and their node forms |
| `PackageSender.dfy` | the manager's side of a transfer |
| `Codecs.dfy`, `Bincode.dfy` | bincode's `standard()` encodings and their laws |
| `Unicode.dfy` | well-formed UTF-8 as encoded scalar values |
| `ConditionalTail.dfy` | the conditional tail over any list of field codecs |
| `AgentInfoCodec.dfy` | the real `AgentInfo` frame |
| `Layout.dfy` | that frame byte by byte, and the field a cut falls in |
| `Handshake.dfy` | manager and agent together |
| `Authorization.dfy`, `ServerTables.dfy` | identities; codes, services and the arms of the two dispatch matches |
| `Server.dfy`, `ServerLoops.dfy` | the server's loops as functions and as loops |
| `Mediation.dfy` | no call escapes the authorizer |
| `ServerAnswers.dfy` | what the server's loops answer, per request and per run, and how they end |
| `EventStream.dfy` | the event stream |

## Assumptions about foreign code

* `oinq` reads a frame whole or fails having consumed what was there; its
  `parse_args` ignores bytes after the arguments; a frame shorter than four
  bytes has no request code, and the error kind this gives is a parameter.
* The decoders of request arguments are parameters, except those of
  `NodePowerRequest` and `NodeObservationRequest`, which are spelled out.
* A failed argument decode is `InvalidData`, as the tests of the source pin it.
* `semver` parsing, matching, ordering and printing are parameters.
* A `SocketAddrV6` travels as address and port: flow information and scope are
  not part of serde's binary form, so they are not part of the model's address.

## Findings

Each is a place where the code does not do what its documentation says.  The
model follows the code, and the lemmas named give an input on which the
documented behaviour fails and the exact condition under which it holds.

* An argument decode failure reads as `InvalidArgs` if and only if the code is
  `ReloadTi` or `NodePower`; for every other code it reads as `NotSupported`,
  because an unclassified `InvalidData` maps there (`Pairing.DecodeErrorKind`;
  `Pairing.MalformedReadsAsUnsupported`).
* `on_stream_end` is documented for a graceful close, but a stream that
  finishes inside a frame ends the same way and the partial frame is in no
  call (`EventStream.PartialFrameIsDropped`).  The loop succeeds with nothing
  dropped if and only if the stream ends cleanly, the handler agrees to every
  delivery, and no partial frame is left over
  (`EventStream.NothingDroppedIff`).
* `on_error` is documented for network errors too, but it is called for exactly
  the frames that do not decode (`EventStream.ProblemsAreUndecodable`;
  `EventStream.ResetIsNotReported`).
* The documentation of `handle` says legacy flat codes call the flat methods
  directly; the code calls `node_power` and `node_observation`, whose defaults
  call the flat methods.  A legacy request is answered as its flat method would
  answer if and only if the grouped method answers as its default would
  (`Migration.DetourIff`; `Migration.OverrideIsSeen`).
* A request stream that finishes inside a frame ends `handle` and `handle_node`
  with `Ok` (`CleanEnd.PartialFrameEndsWell`).  The loop ends without an error
  and without dropping a byte if and only if it reads to the end of a cleanly
  finished stream that has no partial frame, or whose partial frame an install
  was waiting for and reports (`CleanEnd.NothingDroppedIff`).
* The bound on `PackageReader` is documented to keep the dispatch loop aligned.
  It does so for what the sender announced: after any list of chunks the loop
  goes on behind the list if and only if the list is a chunking of `size` bytes,
  its last chunk overruns, or it falls short and nothing follows
  (`Alignment.ResumesAfterListIff`).  After an earlier overrun the next chunk is
  taken for a request (`Alignment.ChunkTakenForRequest`).
* Moving a manager to the node requests keeps every conversation's meaning
  unless the legacy one runs out of send room at or after a power request,
  whose node form needs none (`Migration.MigrationIff`;
  `Migration.RebootNeedsRoom`).

## Model

| member | source | states |
|---|---|---|
| `Wire.FrameRoundTrip` | src/server/stream.rs:14-18 | reading a written frame gives its payload and leaves exactly what follows |
| `Wire.FrameExtends` | src/server/stream.rs:14-18 | a whole frame is read the same whatever follows it |
| `Wire.ByteOrders` | src/server/stream.rs:14-18 | lengths are big-endian and codes little-endian |
| `Wire.StreamSplits` | src/server/stream.rs:14-18 | every stream is its whole frames followed by a rest that holds none |
| `Wire.PayloadsOfFrames` | src/server/stream.rs:14-18 | and is so in one way only |
| `Wire.RecvRequest` | src/request.rs:1200-1208 | one request is received as the code and body at the front of the stream, or the error of a stream that has none |
| `Wire.NoRequestThere` | src/request.rs:1200-1208 | a frame too short for a code is a failure of its own kind and leaves the rest of the stream; a stream without a whole frame is used up |
| `Errors.Categories` | src/protocol_error.rs:176-205 | an embedded category is the one an error is read as and leaves its kind alone; three unclassified kinds have one of their own; a failing send is `Other` |
| `Payload.PackageReader.constructor` | src/request.rs:136-143 | a new reader expects exactly `size` bytes and has not failed |
| `Payload.PackageReader.NextChunk` | src/request.rs:178-196 | a call returns the next chunk, the end, or an error; bytes taken plus bytes remaining stay `size` |
| `Payload.PackageReader.ReadChunk` | src/request.rs:199-216 | a chunk is accounted for; an overrun and a short stream fail without changing `remaining` |
| `Payload.PackageReader.DrainRest` | src/request.rs:224-228 | draining terminates on every stream and succeeds only when all `size` bytes were taken |
| `Payload.CallsConserve` | src/request.rs:178-216 | after any number of calls, remaining plus the bytes of all successful chunks is `size` |
| `Payload.CallsSettle` | src/request.rs:178-196 | the first error and the first end are final for every later call |
| `Payload.FailureIsFinal` | src/request.rs:178-184 | once failed, no call moves the stream, and each reports invalid data |
| `Payload.FailureCause` | src/request.rs:178-243 | a first failure is `InvalidData` exactly on an overrun, naming what came and what was expected, and `UnexpectedEof` exactly when no whole chunk arrived, keeping what the transport said |
| `Payload.EmptyChunkIsNoProgress` | src/request.rs:199-228 | an empty chunk leaves `remaining` unchanged, so only the stream measures progress |
| `Payload.ReadKeepsSettled` | src/request.rs:178-196 | a read does not move the point where the transfer will end |
| `Payload.DrainVerdict` | src/request.rs:218-228 | a drain fails exactly when the reader ends up failed, otherwise nothing is outstanding |
| `Payload.TransferOfChunking` | src/request.rs:178-228 | any chunking of `size` bytes that does not end in an empty chunk is consumed to its last byte and no further |
| `Payload.TransferCompletesIff` | src/request.rs:178-228 | a transfer completes if and only if the stream starts with a chunking of exactly `size` bytes |
| `Payload.SettlesAfterListIff` | src/request.rs:178-228 | any list of chunks, chunking or not, is consumed exactly if and only if it is a chunking, overruns on its last chunk, or falls short at the end of the stream |
| `Agent.RoutesAgree` | src/request.rs:1210-1303 | the two routing tables agree exactly on the node family and on codes `handle` does not assign |
| `Answers.FullRouteShapes` | src/request.rs:1355-1671 | which codes take no arguments, which the raw body, which are echoed, legacy, grouped or unassigned, and which classify a decode failure |
| `AgentLoops.NodePackageInstallRoutine` | src/request.rs:945-951 | an arbitrary install routine run against the real reader behaves as its abstract run |
| `AgentLoops.DispatchNodePackage` | src/request.rs:1081-1125 | the three-step exchange computes verdict frame, calls, drained stream and terminal frame |
| `AgentLoops.RejectArgs` | src/request.rs:1149-1168 | undecodable arguments send one frame naming the code if they can, then give the decode error |
| `AgentLoops.ServeNodeCode` | src/request.rs:1210-1304 | every arm of `handle_node` computes its step |
| `AgentLoops.ServeFlatCode` | src/request.rs:1355-1671 | every arm of `handle` outside the node family, unknown codes included, computes its step; the node arms of `handle`, which repeat those of `handle_node`, are served by `ServeNodeCode` |
| `AgentLoops.HandleNode` | src/request.rs:1193-1308 | the loop ends on every stream with the calls, frames and result of its specification |
| `AgentLoops.Handle` | src/request.rs:1338-1671 | the loop ends on every stream with the calls, frames and result of its specification |
| `InstallExchange.RoutineKeepsSettled` | src/request.rs:1113-1117 | no install routine, however it reads, moves the point where the transfer ends |
| `InstallExchange.HandlerIndependence` | src/request.rs:1112-1121 | two handlers accepting an install of the same size on the same bytes leave stream and reader in the same state, in failing transfers too, whatever error their streams end with |
| `InstallExchange.TerminalFrame` | src/request.rs:1113-1124 | the routine's own value is sent exactly when it succeeded and the whole payload was consumed, its own error whenever it failed, and otherwise the reason the payload did not arrive |
| `InstallExchange.ReadToEnd` | src/request.rs:178-196 | a read-to-end routine receives the concatenation of the chunks and leaves the stream just after them |
| `InstallExchange.ChunkingInvariance` | src/request.rs:178-228 | two chunkings of the same bytes give the same frames, with the routine's answer to those bytes in the second, and the same place to resume |
| `InstallExchange.ReadToEndHandlerExists` | src/request.rs:945-951 | every way of answering from a payload is some handler's |
| `PackageSender.SendPackage` | src/server/api.rs:1593-1619 | whatever the source's read sizes, success puts a chunking of exactly the first `size` bytes on the wire and leaves the source the rest |
| `Alignment.RequestRoundTrip` | src/server/api.rs:1535-1549 | a sent request is read back with what follows it |
| `Alignment.RoutineIsLocal` | src/request.rs:178-216 | a routine reading a payload that arrives whole sees nothing of what follows it |
| `Alignment.OneExchange` | src/request.rs:1098-1125 | a complete exchange in front of any bytes is served as on its own stream, and the loop resumes at those bytes |
| `Alignment.LoopAlignment` | src/request.rs:1338-1671 | a conversation on one stream makes the calls and frames of its exchanges served in turn, for any routing table, up to and including a failing one |
| `Alignment.ResumesAfterListIff` | src/request.rs:118-126 | whatever chunks follow an accepted install, the loop resumes behind them if and only if they are a chunking, overrun on the last, or fall short with nothing behind |
| `Alignment.ChunkTakenForRequest` | src/request.rs:199-216 | after an overrun before the last chunk, the next chunk is read as a request |
| `CleanEnd.WholeIsFrames` | src/server/stream.rs:14-18 | a stream without the partial frame at its end is the framing of its payloads |
| `CleanEnd.PartialFrameIsInvisible` | src/request.rs:1199-1208 | on every run of either loop a partial frame at the end of the stream changes no call, no frame and no result |
| `CleanEnd.RunEnds` | src/request.rs:1199-1208 | a run succeeds exactly if its last receive meets an end of file and fails with any other error that meets; the receive finds what is after the last whole frame unless a transfer took it |
| `CleanEnd.NothingDroppedIff` | src/request.rs:1199-1208 | the loop ends without an error and drops no byte if and only if it exhausts a cleanly finished stream that has no partial frame or whose partial frame a transfer was waiting for |
| `CleanEnd.PartialFrameEndsWell` | src/request.rs:1199-1208 | a stream of three bytes ends both loops without an error |
| `Pairing.ServeWritesBlock` | src/request.rs:1199-1306 | each request writes a block of the length its sender expects; a shorter one only when sending fails |
| `Pairing.ResponsePairing` | src/request.rs:1199-1306 | on every run the output is the concatenation of the blocks in request order, only the last of a failing run being short |
| `Pairing.FramesIdentifyRequests` | src/request.rs:1101-1124 | knowing the requests, the frames of any run determine which answer which |
| `Pairing.StopReason` | src/request.rs:1149-1168 | the loop stops inside a request with a receive error if and only if its arguments do not decode, then without a call; any other stop is an exhausted send stream |
| `Answers.ServeAnswers` | src/request.rs:1210-1304 | for every table and route: the call a request makes and with what arguments, the frames it is sent and with what in them, where the stream is left, and when the loop stops |
| `Answers.RunAnswers` | src/request.rs:1338-1671 | over every run the handler sees exactly the calls, and the peer is sent exactly the frames, of the answers to the requests served, in order |
| `Answers.VariantsDecode` | src/types.rs:1077-1086 | each power operation and each query is decoded from its own encoding |
| `Answers.OnlyVariantsDecode` | src/types.rs:1077-1124 | and nothing else is |
| `Pairing.DecodeErrorKind` | src/request.rs:105-110 | undecodable arguments always stop the loop, as `InvalidArgs` for two codes and as `NotSupported` for every other |
| `Pairing.MalformedReadsAsUnsupported` | src/request.rs:105-110 | a malformed `NodeHostname` request reads as not supported |
| `Pairing.BlanketReturns` | src/request.rs:978-1064 | the blanket implementation of a handler is a handler |
| `Pairing.NodeRefinesFull` | src/request.rs:978-1064 | on runs that meet only node-family or unassigned codes, `handle_node` on the blanket implementation equals `handle` |
| `Migration.PowerForms` | src/request.rs:1369-1377 | a legacy power request that can be answered and its node form make the same call; the node form sends no frame |
| `Migration.ObservationForms` | src/request.rs:1402-1416 | a legacy observation and its node form make the same call and answer with corresponding frames, or both with none |
| `Migration.ServeMoves` | src/request.rs:1338-1671 | how a request is served depends neither on the frames sent before it nor on room it does not use |
| `Migration.MigrationIff` | src/request.rs:1369-1602 | exchange by exchange, a conversation and its migrated form make the same calls, end alike and exchange corresponding frames if and only if the legacy one does not run out of send room at or after a power request |
| `Migration.FullRouteMigrates` | src/request.rs:1369-1602 | the table of `handle` serves the four legacy requests and their node forms, which is all the migration theorems ask of a table |
| `Migration.MigrationPreservesMeaning` | src/request.rs:1369-1602 | under that condition, over whole streams with anything behind the rewritten requests and any end, calls and result are unchanged and the frames are translated |
| `Migration.RebootNeedsRoom` | src/request.rs:1369-1377 | with no send room left a legacy `Reboot` fails the loop and its node form does not |
| `Migration.DetourIff` | src/request.rs:1314-1319 | a legacy request calls the grouped method alone and is answered as its flat method would answer if and only if the grouped method answers as its default would |
| `Migration.LegacyDetourIsIdentity` | src/request.rs:834-880 | an agent that implements only the flat methods answers legacy requests with exactly what they returned |
| `Migration.DefaultsRefuse` | src/request.rs:834-880 | and refuses graceful power operations and uptime queries |
| `Migration.OverrideIsSeen` | src/request.rs:1369-1377 | an agent that overrides `node_power` answers a legacy `Reboot` with it |
| `Codecs.DecodeThen` | src/lib.rs:506-510 | a lawful codec reads a value back whatever follows it |
| `Codecs.CutIsMalformed` | src/lib.rs:496-512 | lawful encodings are prefix-free: no cut inside one decodes |
| `Codecs.VarIntLawful` | src/lib.rs:459-461 | variable-length integers of 2, 4 and 8 bytes are lawful |
| `Codecs.VarIntBytes` | src/lib.rs:459-461 | the bytes of an integer of each size |
| `Codecs.VarIntReadings` | src/lib.rs:459-461 | what any buffer reads as: wider markers than needed are accepted, wider than the type or unknown ones are not |
| `Codecs.PairLawful` | src/lib.rs:420-428 | one lawful value after another is lawful |
| `Codecs.OptionalLawful` | src/lib.rs:377-401 | tagged options are lawful and never empty |
| `Codecs.OneOfLawful` | src/client.rs:454-463 | two-variant enumerations are lawful and never empty |
| `Bincode.TextLawful` | src/lib.rs:325-343 | length-prefixed UTF-8 strings are lawful, ill-formed ones rejected |
| `Unicode.Utf8Iff` | src/lib.rs:325-343 | a byte string is accepted as text if and only if it encodes a sequence of Unicode scalar values |
| `Bincode.ListLawful` | src/lib.rs:371 | length-prefixed lists are lawful |
| `Bincode.CollectOfSorted` | src/types.rs:462-468 | entries that arrive in key order are the map |
| `Bincode.CollectSorts` | src/types.rs:462-468 | entries in any order, with duplicates, are collected into an ordered map |
| `Bincode.CollectKeepsLast` | src/types.rs:462-468 | and every key keeps the value that arrived last |
| `Bincode.OrderedMapLawful` | src/lib.rs:371 | ordered sets and maps are lawful and never empty |
| `ConditionalTail.VersionSkew` | src/lib.rs:458-512 | for any lawful, non-empty fields, a peer sending the first `i` and a reader knowing the first `j` agree on the common ones; the rest are unknown or ignored |
| `ConditionalTail.FrameVersionSkew` | src/lib.rs:458-512 | the same on whole frames, base included |
| `ConditionalTail.FrameTruncation` | src/lib.rs:458-512 | every prefix of a full frame is cut in the base, at a boundary or inside one field, and decodes or fails accordingly |
| `ConditionalTail.TruncationIff` | src/lib.rs:458-512 | a prefix decodes if and only if it is cut at a boundary |
| `ConditionalTail.BoundariesAscend` | src/lib.rs:458-512 | field boundaries are strictly in field order |
| `ConditionalTail.TailIsSound` | src/lib.rs:496-512 | on any buffer the offset never falls or passes the end, and a field is absent only when no byte is left |
| `ConditionalTail.DecodeTailField` | src/lib.rs:496-512 | one field is read at the offset, which advances by exactly its bytes |
| `ConditionalTail.DecodeFiveFields` | src/lib.rs:464-469 | five fields in order, each from where the last one ended, stopping at the first that is corrupt |
| `AgentInfoCodec.BaseLawful` | src/lib.rs:420-428 | the base struct's encoding is lawful and never empty |
| `AgentInfoCodec.TailFieldsLawful` | src/lib.rs:371-405 | the five real tail fields are lawful and never empty |
| `AgentInfoCodec.InfoVersionSkew` | src/lib.rs:458-512 | whatever prefix of the tail an agent sends is read as that prefix and unknowns; bytes after the known fields are ignored |
| `AgentInfoCodec.OlderManagerReads` | src/lib.rs:458-512 | a manager knowing fewer fields reads the base and those fields from a full frame |
| `AgentInfoCodec.InfoRoundTrip` | src/lib.rs:322-405 | decoding undoes encoding for every `AgentInfo` |
| `AgentInfoCodec.EmptyTailIsNoTail` | src/lib.rs:464-469 | a full tail of empty values reads as no tail at all |
| `AgentInfoCodec.TruncationIsNotAbsence` | src/lib.rs:458-512 | a strict prefix decodes if and only if cut at a boundary; any other cut is a base error or the error of the field it falls in |
| `Layout.ValidIff` | src/lib.rs:322-405 | the values the frame theorems are about are exactly those the fields can hold: strings in UTF-8, addresses of their length, integers of their width, ordered collections |
| `Layout.FrameLayout` | src/lib.rs:322-405 | the whole frame byte by byte: lengths, tags, variant indices and the order of the fields |
| `Layout.CutNamesField` | src/lib.rs:464-469 | a cut among the bytes of each field is an error with that field's name |
| `AgentInfoCodec.DecodeIsSound` | src/lib.rs:458-483 | a successful decode of any bytes yields a value the type can hold |
| `AgentInfoCodec.DecodeAgentInfo` | src/lib.rs:458-483 | the decoder with its moving offset computes the specification |
| `Handshake.JudgeIntroduction` | src/server.rs:576-596 | the manager decodes, replaces the address and accepts or refuses |
| `Handshake.ManagerHandshake` | src/server.rs:549-597 | the manager's whole exchange, with argument, receive, decode and send errors |
| `Handshake.AgentHandshake` | src/client.rs:450-463 | the agent's send and its reading of the reply |
| `Handshake.AcceptsIff` | src/server.rs:576-596 | the manager accepts if and only if what it received decodes and its version parses, meets the requirement and is at most the highest; only a decoded introduction is answered |
| `Handshake.LostIntroduction` | src/lib.rs:274-280 | a failing receive is an invalid message, a closed connection or a read error, by its kind |
| `Handshake.RepliesAre` | src/server.rs:582-591 | an accepted agent is sent the highest version, a refused one the range |
| `Handshake.ReplyBytes` | src/client.rs:454-463 | the bytes of the two replies |
| `Handshake.BrokenReply` | src/client.rs:454 | an agent without a readable reply is not connected and reports why |
| `Handshake.HandshakeAgreement` | src/server.rs:573-596 | for agents older and newer than the manager: within the window the manager holds every field as sent but the address and the agent is connected; outside it both hold the requirement and the upper bound |
| `Handshake.HandshakeOverTheWire` | src/client.rs:450-463 | the same with both messages framed on streams and anything after them |
| `Handshake.TruncatedIntroduction` | src/server.rs:573-576 | an introduction cut inside a field is invalid, never accepted as one claiming less |
| `Authorization.ToPeerContext` | src/auth.rs:574-583 | rebuilding the peer from a context gives the peer the context is about |
| `Authorization.InputsAreKept` | src/auth.rs:518-572 | a context keeps the peer and the metadata it was built from |
| `ServerTables.TablesAgree` | src/server/handler.rs:605-802 | the two separately written matches have the same arm at every code: method, argument type, error category, peer name, refusal and hand-back |
| `ServerTables.TablesGate` | src/service_id.rs:664-703 | in both, every code that can be served has a service, each arm calls its own method only, and no two codes share a service |
| `ServerTables.CodeRoundTrip` | src/server.rs:245-289 | every request code is read back from its number |
| `Server.DispatchBisimilar` | src/server/handler.rs:350-543 | where the two tables agree, the two matches do the same apart from the identity recorded |
| `Server.LoopsBisimilar` | src/server/handler.rs:567-805 | loops over agreeing tables ask, call, write and end alike |
| `Server.Bisimilar` | src/server/handler.rs:567-805 | for every stream, handler, legacy authorizer and context the two loops, each over its own table, ask, call, write and end alike |
| `Server.MetadataIsInvisible` | src/auth.rs:518-583 | the same for a context built from a peer with any metadata |
| `ServerAnswers.ContextDoes` | src/server/handler.rs:326-543 | each request to the context loop does what is due: one question, then refusal, hand-back, failure or the call with the decoded arguments, answered with the handler's own result |
| `ServerAnswers.AuthorizedDoes` | src/server/handler.rs:579-802 | the same for the legacy loop |
| `ServerAnswers.ContextReplies` | src/server/handler.rs:314-546 | over every run the frames are the handler's answers to the calls made, in order, then at most one refusal, of a denial exactly if the run ends on one |
| `ServerAnswers.AuthorizedReplies` | src/server/handler.rs:567-805 | the same for the legacy loop |
| `ServerAnswers.ContextEnds` | src/server/handler.rs:326-331 | a run ends with the stream if and only if its last receive meets an end of file, and fails with any other error that meets |
| `ServerAnswers.AuthorizedEnds` | src/server/handler.rs:579-584 | the same for the legacy loop |
| `ServerAnswers.SeenIsAnonymous` | src/server/handler.rs:350-543 | a handler sees every event of the connection but who was asked about |
| `ServerLoops.AuthorizedArms` | src/server/handler.rs:605-802 | the arms of the legacy loop compute their step |
| `ServerLoops.ContextArms` | src/server/handler.rs:350-543 | the arms of the context loop compute their step |
| `ServerLoops.HandleAuthorized` | src/server/handler.rs:567-805 | the legacy loop computes its specification |
| `ServerLoops.HandleAuthorizedWithContext` | src/server/handler.rs:314-546 | the context loop computes its specification |
| `Mediation.ServeAddsEvents` | src/server/handler.rs:334-350 | one request adds one question and at most one call or hand-back after it |
| `Mediation.DenialPrecedesParsing` | src/server/handler.rs:334-350 | the step of a denied request depends on neither decoders, body nor handler |
| `Mediation.CompleteMediation` | src/server/handler.rs:314-546 | on every run each call and hand-back follows permission for its own service; the questions are exactly the services of the requests taken off the stream, once each and in order, only an unknown last one having none; nothing follows a denial |
| `Mediation.LegacyMediation` | src/server/handler.rs:579-804 | the same for the legacy loop |
| `Mediation.BothLoopsMediate` | src/server/handler.rs:314-805 | both hold of the two loops over their own tables |
| `Mediation.DenialIsReported` | src/server/handler.rs:336-348 | a run that ends on a denial answered it and fails as forbidden |
| `Mediation.PermissiveNeverDenies` | src/server/handler.rs:274-285 | `handle` denies nothing |
| `EventStream.StreamRefinesSequence` | src/server/stream.rs:36-76 | the loop makes the calls due, one per frame and in order, up to and including the first the handler objects to |
| `EventStream.StreamEndCalledOnce` | src/server/stream.rs:51-61 | the end is reported at most once, last, only on a clean end after every frame, and always on success |
| `EventStream.SuccessIff` | src/server/stream.rs:51-61 | success is reported exactly on a clean end after deliveries the handler all agreed to |
| `EventStream.HeaderIsRequired` | src/server/stream.rs:40-43 | a stream that ends inside its header fails as it ends, with no call |
| `EventStream.NothingDroppedIff` | src/server/stream.rs:51-73 | the loop succeeds with calls that account for every byte if and only if, besides, no partial frame is left over |
| `EventStream.PartialFrameIsDropped` | src/server/stream.rs:54-58 | a stream that finishes three bytes into a frame succeeds with those bytes in no call |
| `EventStream.ProblemsAreUndecodable` | src/server/stream.rs:63-72 | `on_error` is called for exactly the frames that do not decode, with what was wrong with them, and never for the error the stream ends with; events are handed over as decoded |
| `EventStream.ResetIsNotReported` | src/server/stream.rs:54-60 | a reset right after the header is returned and put to no handler method |
| `EventStream.FramedEventsAreDelivered` | src/server/stream.rs:63-73 | the framing of any list of events delivers that list and then the end, whatever partial frame trails it |
| `EventStream.ProcessEventStream` | src/server/stream.rs:36-76 | the loop computes its specification and ends on every stream |

## Left out

- QUIC, TLS, endpoints and certificates: foreign libraries and I/O.
- Async scheduling, timeouts and cancellation of a read in mid-frame: every loop is sequential here.
- The contents of most request and response payloads: they are opaque bytes.
- On the agent's side, handler methods that differ only in their argument types are one method here, named by the request code that selects it; on the server's side each method, argument type and use of the peer's name is told apart.
- Which bytes a clean end of the server's loops may drop: it would repeat `CleanEnd.dfy` without transfers.
- The texts of errors are constructors rather than formatted strings, and the reason of a denial is not carried into the loop's error.
- `send_response` failing to encode a response is not told apart from a failing send.
- Trust-epoch clamping, registrar behaviour and preflight policy: documented but not implemented by the crate.
- The per-method unary client wrappers, accessors, `Display` and `Debug`: they would only add easy members.
- `from_client_request_code` and the numbering of codes as goals in themselves: finite tables.
- The human-readable serde form of addresses, and bincode's 128-bit and signed integers: no modelled field uses them.
