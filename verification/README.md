# A model of dsh-fleet

dsh-fleet connects many machines ("nodes") to one control plane. Each node keeps
a single WebSocket open, the uplink, and every browser request and every bridged
browser socket for that machine travels over it. This project models that
protocol and what stands around it, and proves what it is for.

| modules | what they model |
|---|---|
| `Utf8`, `Base64`, `Payload`, `Ids`, `FrameSize`, `JsonText`, `CloseReason` | the byte layer: text and base64 payloads on both ends, correlation ids, the size of a frame, trimmed close reasons |
| `Request`, `RequestEffects`, `Multiplex`, `ConnectionEffects`, `Panics`, `Failures`, `Teardown`, `Lifecycle`, `Conn` | the control plane's end of one connection: one request by itself, all of them with the read loop, the tables and the shutdown as interleaved steps, what those steps bring about, runs in which the read loop panics and why it does, what an uninterrupted teardown leaves, the handler around it, and the object they share |
| `NodeStream`, `Backpressure`, `Reconnect`, `Retries` | the node's end: cutting a body into chunks, waiting for the socket to drain, reconnecting and when it does |
| `EndToEnd`, `Delivery`, `WholeResponse`, `Statuses`, `BridgeStream` | node, wire and control plane together, for the bodies and statuses of responses and for bridged sockets |
| `Credentials`, `CredentialEffects`, `Stores`, `Admission`, `AdmissionEffects`, `Registry` | machines, accounts and their secrets, the handshake, the registry of live connections |
| `Audit`, `Prune`, `Accounts` | the audit queue, the batched purge of telemetry, the guard of the last administrator |

The main results are `EndToEnd.BodyArrivesWhole`,
`Delivery.ResponseArrivesWhole`, `WholeResponse.ResponseCanArrive`,
`Statuses.StatusIsTheNodes`,
`Multiplex.RequestsAreIndependent`, `Multiplex.ReadersSeeWholeBodies`,
`Multiplex.PanicsExactlyOnClosedQueue`, `Failures.WhyItPanics`,
`Multiplex.NothingSlipsPastShutdown`,
`Lifecycle.ReturnedIsClosedExactlyWhenWelcomed`,
`BridgeStream.MessagesArriveInOrder`,
`CloseReason.TrimsToLongestPrefix`, `Payload.EncodePayloadCarries`,
`FrameSize.FramesAreReadExactly`, `Backpressure.BufferedIsBounded`,
`Reconnect.StoppedForGood`, `Retries.BackoffStartsAtTheOpen`,
`Admission.OnlineIsEarned`, `Admission.SpentSecretsNeverAdmit`,
`AdmissionEffects.LastSecretAdmits`, `Audit.LostExactly`,
`Accounts.AnAdminRemains` and `Accounts.RefusedExactly`.

How it is built: a machine is a datatype of states, a datatype of steps, and a
function from one to the next, where a step is one critical section or one
channel operation; a run is any sequence of enabled steps. `Request` is the
machine of one request, and `Multiplex` shows that the machine of the whole
connection, seen from one request, is that machine. Objects that the program
changes in place are classes, whose methods are proved against functions over
values; the results about runs are about those functions. `Conn` carries the
machine's state beside its fields and keeps the two equal, so each of its methods
is a step of the machine. Beside what must never happen, the `Effects` modules,
`Retries`, `Delivery`, `Statuses` and `WholeResponse` say what does happen: what
each step brings about, that a good credential gets in, and that a response can
arrive.

## Where the code and its documentation differ

The model follows the code.

- `docs/envelope.md:190` says that a chunk's payload never exceeds
  `maxChunkBytes` after encoding. The node limits the raw bytes before they are
  encoded: `FrameSize.EncodedLength` says when the promise holds, and
  `FrameSize.LargestChunkExceedsLimit` gives a chunk for which it does not. The
  frame is still read when the stream began after `welcome`. The control plane
  registers a connection before it writes `welcome`
  (`internal/uplink/handler.go:133-155`), so a request can come first, and then the
  configured limit holds, which has no upper bound: `FrameSize.FramesAreReadExactly`
  and `FrameSize.UnwelcomedFrameIsNotRead`.
- `docs/envelope.md:162` says that the answer to a `cancel` frees the slot. A
  request cancelled before its head has nobody left to read that answer:
  `Request.AbandonedKeepsSlot` and `Request.CancelledKeepsSlot`.
- `internal/uplink/conn.go:359-361` lets a failure that finds an earlier one unread close
  the chunk queue and leaves the slot, where the next chunk then panics the read loop
  and ends the connection: `Panics.SecondFailurePanics` and `Failures.WhyItPanics`.
- `internal/audit/audit.go:68-69` says that a clean shutdown does not lose the
  decisions that led up to it. One that the drain takes or still writes when `stop`
  is called is lost: `Audit.LostExactly` and `Audit.CleanStopLoses`.
- `docs/envelope.md:214` says that an `err` after `head` ends the browser's
  response. The first one is only buffered: `Request.FailureClosesQueue` and
  `Request.FirstFailureEndsNothing`.
- `dsh/src/uplink.ts:139` says that `stop` clears every timer. It does so exactly
  when no connection was welcomed twice: `Reconnect.StopClearsEveryTimer` and
  `Reconnect.SecondWelcomeLeavesATimer`.
- `internal/users/store.go:335-340` says that a deleted account leaves its machines
  behind. Setting their owner to null breaks the constraint that gives each machine
  one credential, so the database refuses that delete: `Credentials.DeleteVerdict`.
- `dsh/src/protocol.ts:23` reads close code 4002 as an unknown node. A database
  failure while a person is looked up travels as the same code, and the node then
  gives up for good: `Admission.FailedLookupIsFatal`.
- `internal/nodes/store.go:283` withdraws a machine, which for a self-enrolled one
  lasts until its owner's next handshake: `Credentials.ClaimLiftsRevocation`.
- `internal/console/people.go:157-158` promises never to lose the last
  administrator. A failing read of the account list lets it happen, and so do two
  updates at once: `Accounts.LockoutExactly`, `Accounts.LastAdminCanLeave` and
  `Accounts.TwoAtOnce`.

## Model

| member | source | states |
|---|---|---|
| `EndToEnd.BodyArrivesWhole` | dsh/src/uplink.ts:433-466 | Over every run of any number of requests and bridges on one connection, the bytes a reader has seen are a prefix of the node's body as it is carried, and a clean end of the pipe means the node ended the stream, cut the body as its limit demands, and the reader has all of it: it is the body itself if and only if no chunk of valid text begins with a byte order mark |
| `EndToEnd.InvStep` | internal/uplink/conn.go:297-432 | Every step of node, wire or control plane keeps: what a request has accepted followed by what is on the wire for it is what the node sent for it |
| `EndToEnd.InvRun` | internal/uplink/conn.go:277-295 | The same over every run |
| `EndToEnd.HonestNodeIsNeverRefused` | internal/uplink/conn.go:309-345 | The read loop never gives up on a frame of a node that follows the protocol, an err for a bridge it could not dial included: sequence numbers and chunk counts are always the expected ones, whatever else is interleaved |
| `EndToEnd.ReaderFollowsStream` | internal/uplink/conn.go:259-274 | In every reachable state the reader's bytes are a prefix of the sent chunks as they arrive, and equal to all of them on a clean end, for any chunks |
| `EndToEnd.NothingBeforeTheStream` | internal/uplink/conn.go:205-257 | Before the node takes a request up, its reader has seen nothing and has no clean end |
| `EndToEnd.CarriesUnchanged` | dsh/src/protocol.ts:248-258 | The chunks of a stream arrive with the bytes sent if and only if none of them is valid text with a leading byte order mark |
| `EndToEnd.StreamGoodStep` | dsh/src/uplink.ts:448-457 | At every step the chunks sent and the bytes left make up the buffers read, cut where the loop cuts them |
| `EndToEnd.EndedAsTheLoopDoes` | dsh/src/uplink.ts:433-466 | A stream ended in an interleaved run has sent exactly the data and end items that the node's loop sends for the same body on its own |
| `Multiplex.RequestsAreIndependent` | internal/uplink/conn.go:297-432 | Over every run, a request's counter, queues, pipe and slot end exactly as if it had run alone on its own frames and steps and the end of the connection |
| `Multiplex.StepAgrees` | internal/uplink/conn.go:297-432 | Each step of the connection moves each request as the request alone would move on what it sees of the step, or not at all |
| `Multiplex.SeesItsOwnFrames` | internal/uplink/conn.go:297-362 | What a request sees of a run contains every frame with its id, in order, and no other |
| `Multiplex.ReadersSeeWholeBodies` | internal/uplink/conn.go:259-345 | Against any node whatever, a reader has a prefix of what one stretch of the frames sent under its own id carries, and a cleanly ended pipe means that this stretch carried chunks 0 to n-1, which the reader has, and then an end counting n |
| `Multiplex.AcceptsAStretch` | internal/uplink/conn.go:297-345 | From when it is enlisted a request accepts its frames in order and without a gap, so its history is what one stretch of the frames sent under its id carries |
| `Multiplex.InvStep` | internal/uplink/conn.go:139-545 | Every step keeps ids minted by the counter, tables consistent with the shutdown, each request's order and accounting, and each bridge in exactly one of: in the table, owed a close, closed |
| `Multiplex.ReachableIsInv` | internal/uplink/conn.go:99-110 | So does every state a fresh connection can reach |
| `Multiplex.BridgeGoodStep` | internal/uplink/conn.go:185-195 | A bridge's messages are taken in the order they were accepted, none lost while the read loop lives, at most 32 queued, and its queue is closed at most once |
| `Multiplex.NextIdIsNew` | internal/uplink/conn.go:205-219 | The id that Do or OpenWS mints next stands in neither table, so no insert overwrites an entry |
| `Multiplex.PanicsExactlyOnClosedQueue` | internal/uplink/conn.go:313-345 | A step panics if and only if it is the read loop sending to a queue that is closed; the panic ends the loop, which loses what it held, and no channel is ever closed twice |
| `Failures.WhyItPanics` | internal/uplink/conn.go:347-362 | Against any node whatever, a queue the read loop panics on belongs to a request or bridge that is out of its table, or to a request of which a failure was taken while an earlier one was unread |
| `Failures.HonestPanicsAreLate` | internal/uplink/conn.go:313-328 | Against a node that follows the protocol, the read loop panics only on a late send: the request or bridge has left its table since it was looked up |
| `Failures.ClosedByFailure` | internal/uplink/conn.go:356-362 | A slot in the table gets a closed queue by a second failure frame and by nothing else |
| `Failures.OneFailureStep` | dsh/src/uplink.ts:316-333 | At most one failure of a stream is ever on the wire or unread |
| `Teardown.PanicEndsInShutdown` | internal/uplink/conn.go:277-295 | A panic unwinds through the deferred shutdown, so the connection ends by a run of it |
| `Multiplex.NeverClosedTwice` | internal/uplink/conn.go:506-545 | Settling, dropping, sweeping and closing done never close a channel twice, in any interleaving |
| `Multiplex.ClosedIsForever` | internal/uplink/conn.go:516-534 | From a closed state every run stays closed with both tables empty and adds no request or bridge |
| `Multiplex.ClosedStep` | internal/uplink/conn.go:516-534 | One step of that |
| `Panics.LateMessagePanics` | internal/uplink/conn.go:399-410 | A run from a fresh connection that panics: a bridge is dropped while the read loop holds a message for it |
| `Panics.DepartedReaderPanics` | internal/uplink/conn.go:313-328 | A run from a fresh connection that panics: the reader of a response leaves while the read loop holds its next chunk |
| `Panics.SecondFailurePanics` | internal/uplink/conn.go:356-362 | A run from a fresh connection that panics although nobody leaves: a second failure closes the queue of a slot that stays in the table, and the next chunk is sent to it |
| `Lifecycle.ReturnedIsClosedExactlyWhenWelcomed` | internal/uplink/handler.go:132-170 | After a handler has returned, its connection is closed with both tables empty if and only if welcome was written |
| `Lifecycle.EarlyRequestIsStuck` | internal/uplink/handler.go:155-158 | A request that came in before a welcome that fails waits in its slot for good, whatever is done afterwards |
| `Lifecycle.EarlyIsReached` | internal/uplink/conn.go:205-257 | A run of the handler that leads there |
| `Lifecycle.StuckForGood` | internal/uplink/handler.go:155-158 | No step frees such a slot or wakes its caller |
| `BridgeStream.MessagesArriveInOrder` | dsh/src/uplink.ts:356-364 | Over every run, the browser's end of a bridge takes a prefix of the messages the local socket gave the node, as they are carried, and has taken or queued all of them while the bridge stands and nothing is in flight; they are the messages themselves if and only if none begins with a byte order mark |
| `BridgeStream.ToldCarriesGiven` | dsh/src/uplink.ts:363-363 | What the node's frames for a bridge carry is each message given, less a leading byte order mark |
| `BridgeStream.MessageIsReadExactly` | dsh/src/uplink.ts:363-363 | A message, which is never cut, is read by the control plane if and only if its escaped text and the bridge's id together have at most 2097104 bytes; otherwise it ends the connection |
| `BridgeStream.LongMessageIsNotRead` | internal/uplink/conn.go:29-31 | A concrete message that ends the connection |
| `BridgeStream.FollowsStep` | dsh/src/uplink.ts:354-364 | Every step keeps: what a bridge has accepted followed by what is on the wire for it is what the node sent on it |
| `Multiplex.NothingSlipsPastShutdown` | internal/uplink/conn.go:516-545 | When done closes, once, every request ever enlisted has its chunk queue closed or its owner about to close it, and every bridge is closed once or owed that close by one goroutine |
| `Request.GoodStep` | internal/uplink/conn.go:200-274 | Order, pipe contents and slot accounting of one request hold after each of its steps |
| `Request.GoodRun` | internal/uplink/conn.go:200-274 | And after every run of them |
| `Request.FaithfulStep` | internal/uplink/conn.go:309-345 | Accepted items are, in order, those taken, queued, held by the read loop or given up when its context ended; chunks are numbered from 0 and end marks carry the count |
| `Request.PipedStep` | internal/uplink/conn.go:259-274 | The pipe's bytes are those of the chunks taken, and it ends cleanly only on an end mark after chunks alone |
| `Request.AccountedStep` | internal/uplink/conn.go:506-545 | Somebody always owes the chunk queue its close, and a slot leaves the table only by settling or by the shutdown |
| `Request.DeliveredIsPrefix` | internal/uplink/conn.go:259-274 | The reader's bytes are a prefix of the accepted chunks put together |
| `Request.CleanEofIsComplete` | internal/uplink/conn.go:331-345 | A clean end means that chunks 0 to n-1 and an end counting n were accepted and exactly those chunks read |
| `Request.Pump` | internal/uplink/conn.go:259-274 | The pump's loop: it passes on whole chunks up to the first end mark, reports a clean end only there, and otherwise breaks the pipe when the queue closes or the reader leaves, having delivered exactly the chunks before and the part read |
| `Request.AbandonedKeepsSlot` | internal/uplink/conn.go:234-238 | A request cancelled before its head keeps its slot until the connection shuts down, whatever the node answers |
| `Request.CancelledKeepsSlot` | internal/uplink/conn.go:234-238 | A concrete run in which the node's answer to a cancel arrives and the slot stays |
| `Request.AcceptedFrames` | internal/uplink/conn.go:297-362 | Every frame of a request is accepted in order and without a gap up to the one at which its slot is gone or the read loop gives up |
| `Request.FailureClosesQueue` | internal/uplink/conn.go:347-362 | A failure frame closes the chunk queue exactly when an earlier failure is still unread |
| `Request.FirstFailureEndsNothing` | internal/uplink/conn.go:356-362 | A concrete run in which a stream that fails after its head leaves pump, pipe and slot as they were |
| `Request.OnlyFramesAreAccepted` | internal/uplink/conn.go:297-362 | No step but a frame adds to what was accepted, puts a slot back or restarts the read loop |
| `Request.AcceptedItem` | internal/uplink/conn.go:313-345 | A chunk or end is accepted when it carries the number the counter asks for |
| `Conn.Pending.Accept` | internal/uplink/conn.go:301-362 | One frame updates counter, failure buffer and queue flag in place as the request machine does |
| `Conn.Pending.Send` | internal/uplink/conn.go:324-328 | The channel send appends what was held, and is only made to an open queue with room |
| `Conn.Pending.CloseChunks` | internal/uplink/conn.go:71-71 | Closing the queue takes effect at most once |
| `Conn.Conn.constructor` | internal/uplink/conn.go:99-110 | A fresh connection has the machine's initial state |
| `Conn.Conn.Enlist` | internal/uplink/conn.go:205-219 | Refused exactly when closed; otherwise the machine's Enlist step, in place: a fresh slot under the next id, which no entry has |
| `Conn.Conn.OpenBridge` | internal/uplink/conn.go:152-162 | The same for bridges, with a bridge that is not up and has no messages |
| `Conn.Conn.DispatchRequest` | internal/uplink/conn.go:301-362 | The machine's step for the frame, in place: an unknown id does nothing, and a known one changes that request as the request machine does and no other |
| `Conn.Conn.DispatchWsUp` | internal/uplink/conn.go:379-392 | The machine's step in place: the bridge it names, if any, is up |
| `Conn.Conn.DispatchWsMsg` | internal/uplink/conn.go:394-410 | The machine's step: a message for an unknown bridge is dropped, one that does not decode ends the connection |
| `Conn.Conn.Settle` | internal/uplink/conn.go:506-514 | The slot leaves the table and its queue is closed, as the machine's two steps do; a second call changes nothing |
| `Conn.Conn.DropBridge` | internal/uplink/conn.go:185-195 | The bridge leaves the table and only the caller that found it closes its queue, once, as the machine's two steps do |
| `Conn.Conn.Sweep` | internal/uplink/conn.go:516-532 | The machine's locked step: both tables are emptied into the two lists |
| `Conn.Conn.CloseBridges` | internal/uplink/conn.go:535-537 | Every swept bridge is closed exactly once |
| `Conn.Conn.CloseQueues` | internal/uplink/conn.go:541-543 | Every swept request has its queue closed and is otherwise as it was |
| `Conn.Conn.EndOnce` | internal/uplink/conn.go:522-545 | The first shutdown of a connection |
| `Conn.Conn.Shutdown` | internal/uplink/conn.go:516-545 | Closed, both tables empty, every queue that was in them closed once, done closed once, as a run of the machine; a second call changes nothing |
| `Conn.Conn.Deliver` | internal/uplink/conn.go:324-328 | The channel send of a held head or chunk is the machine's delivery |
| `Conn.Conn.DeliverMessage` | internal/uplink/conn.go:407-410 | So for a bridge's message |
| `Teardown.SettleIsARun` | internal/uplink/conn.go:506-514 | What Settle leaves is where the machine's two steps lead |
| `Teardown.DropIsARun` | internal/uplink/conn.go:185-195 | What DropBridge leaves is where the machine's two steps lead, without a panic |
| `Teardown.ShutdownIsARun` | internal/uplink/conn.go:516-545 | What Shutdown leaves is where a run of the machine leads that sweeps both tables, closes every queue in them and then done |
| `Ids.NumberOfDecimal` | internal/uplink/conn.go:211-212 | Decimal printing of the counter can be read back, so it is injective |
| `Ids.MintedIdsCollide` | internal/uplink/conn.go:152-162 | Two mints of one connection, of either kind, give the same id if and only if they are of one kind and a multiple of 2^64 apart |
| `Ids.MintedIdsAreFresh` | internal/uplink/conn.go:205-219 | The first 2^64 ids of a connection are pairwise distinct |
| `NodeStream.Uplink.Stream` | dsh/src/uplink.ts:433-466 | The loops say head, then every slice of every buffer read as a data frame with consecutive numbers, then an end with their count, or an err when the signal was aborted or the body broke; nothing from the chunk on before which the connection was lost; and what the socket takes is what it had and then all of that, up to the frame at which it stops being open |
| `NodeStream.Uplink.SendSlices` | dsh/src/uplink.ts:453-457 | The loop over one buffer sends its slices numbered from the given counter, up to the one before which the wait for the socket fails, and the socket takes them while it is open |
| `NodeStream.SlicesRejoin` | dsh/src/uplink.ts:453-457 | The slices of a buffer put together are the buffer, and each has between one and limit bytes |
| `NodeStream.AllSlicesRejoin` | dsh/src/uplink.ts:448-457 | The same for the whole body however the reader splits it |
| `Backpressure.BufferedIsBounded` | dsh/src/uplink.ts:469-477 | In every run, data bytes buffered plus one largest frame for each stream past drain are at most eight limits plus one largest frame for each of the streams there were at once |
| `Backpressure.InvStep` | dsh/src/uplink.ts:453-457 | Every start, wait, send, end, foreign frame and flush keeps that bound |
| `Backpressure.SendCommits` | dsh/src/uplink.ts:455-455 | A frame takes at most the room set aside for it, counted in its encoded bytes |
| `Backpressure.AllSendAtOnce` | dsh/src/uplink.ts:469-477 | Streams that all find the buffer at the mark can all send before any of them looks again, so the term for the number of streams is needed |
| `Backpressure.Drain` | dsh/src/uplink.ts:469-477 | The wait ends at the first look at or below eight limits, fails at the first look above it with the socket not open, and fails at once without a socket |
| `FrameSize.FramesAreReadExactly` | dsh/src/uplink.ts:439-439 | Every data frame a stream can send, as JSON with base64 or escapes and all envelope fields, is within the 2 MiB the control plane reads if and only if the limit in force, welcomed or not, is at most 349510 bytes |
| `FrameSize.DataFrameFitsReadLimit` | internal/uplink/conn.go:22-31 | With the limit adopted from welcome that is so, whatever the node is configured with |
| `FrameSize.UnwelcomedFrameIsNotRead` | dsh/src/index.ts:123-123 | Before welcome, a node configured with 2 MiB chunks answers its first request with a frame that is not read |
| `FrameSize.LargestFrameIsReached` | dsh/src/uplink.ts:453-457 | The bound on a frame is reached: a chunk of NUL text under the last id and sequence number takes exactly that |
| `FrameSize.DataFrameSize` | dsh/src/uplink.ts:453-457 | A data frame takes at most six times its chunk and 89 bytes |
| `FrameSize.EscapeBound` | dsh/src/uplink.ts:483-487 | A JSON string (section 7 of RFC 8259) takes at most six times the UTF-8 bytes of its text |
| `FrameSize.PayloadSize` | dsh/src/protocol.ts:248-258 | The bound for what the node puts in a payload, text or base64 |
| `FrameSize.EncodedLength` | dsh/src/uplink.ts:286-286 | Text stays within its chunk's length; base64 stays within the limit exactly for chunks of at most three quarters of it |
| `FrameSize.LargestChunkExceedsLimit` | internal/uplink/conn.go:22-22 | The largest chunk, when it is not text, is over the limit once encoded |
| `Payload.NewPayloadRoundTrips` | pkg/envelope/envelope.go:91-112 | Go and the node both read back exactly what Go encoded, and text is chosen exactly for valid UTF-8 of textual bodies |
| `Payload.EncodePayloadCarries` | dsh/src/protocol.ts:248-269 | Both sides read back what the node encoded, up to a leading byte order mark of valid text: equal if and only if there is none |
| `Payload.LoneMarkIsLost` | dsh/src/protocol.ts:251-251 | A chunk that is only a byte order mark arrives empty |
| `Payload.TextDecodesToValidUtf8` | pkg/envelope/envelope.go:91-95 | A payload marked u always decodes, and to valid UTF-8 |
| `Payload.ValidWithoutBom` | dsh/src/protocol.ts:249-252 | Dropping a byte order mark does not change whether the bytes are valid UTF-8 |
| `Utf8.DecodeOfEncode` | dsh/src/protocol.ts:267-267 | Encoding scalar values (section 3 of RFC 3629) and decoding them gives them back |
| `Utf8.EncodeOfDecode` | pkg/envelope/envelope.go:108-109 | Valid bytes (section 4 of RFC 3629) decode to text that encodes to the same bytes |
| `Utf8.EncodeOneOfNext` | pkg/envelope/envelope.go:108-108 | The decoder accepts a sequence only if it is the encoding of the scalar it reports, so overlong forms and surrogates are refused |
| `Base64.DecodeGoOfEncode` | pkg/envelope/envelope.go:96-111 | Go's strict decoder inverts standard base64 (section 4 of RFC 4648) on all bytes |
| `Base64.DecodeNodeOfEncode` | dsh/src/protocol.ts:268-268 | So does the node's lenient decoder |
| `CloseReason.CloseIsAccepted` | dsh/src/uplink.ts:74-86 | The code sent is 1000 or 3000 to 4999, kept if it was, and the reason is at most 123 bytes, kept if it was (sections 5.5 and 7.4.2 of RFC 6455) |
| `CloseReason.TrimsToLongestPrefix` | dsh/src/uplink.ts:78-78 | A longer reason becomes its longest code-point prefix that fits, if and only if it has no leading U+FEFF and no U+FFFD of its own ends at a clean cut |
| `CloseReason.FittingIsLongest` | dsh/src/uplink.ts:78-78 | The prefix so named is the longest that fits |
| `CloseReason.DecodeOfCut` | dsh/src/uplink.ts:78-78 | Decoding bytes cut anywhere gives the code points that fit and one replacement character when the cut went through a code point |
| `CloseReason.SafeReasonOfLong` | dsh/src/uplink.ts:78-78 | What a long reason becomes in every case, byte order mark and marks of its own included |
| `CloseReason.OwnMarkIsLost` | dsh/src/uplink.ts:78-78 | A concrete long reason that is trimmed to less than its longest fitting prefix |
| `Reconnect.SocketOrRetry` | dsh/src/uplink.ts:164-242 | Never both a socket and an armed retry and never two retries; one of them exists if and only if the uplink was started, not stopped, and its socket could be constructed |
| `Reconnect.ClosesItsOwn` | dsh/src/uplink.ts:217-219 | A close event that is acted on is that of the held socket, though the code never compares them |
| `Reconnect.StoppedForGood` | dsh/src/uplink.ts:141-153 | After stop, or a close with 4001 to 4003, no event ever constructs a socket or arms a retry |
| `Reconnect.WaitsGrow` | dsh/src/uplink.ts:238-241 | Since the last open the ceilings start at the base, never fall and never pass the maximum, and each delay lies between half its ceiling, rounded, and its ceiling |
| `Reconnect.CeilingGrows` | dsh/src/uplink.ts:239-239 | The ceiling doubles until it reaches the maximum and stays there |
| `Reconnect.DelayWithinCeiling` | dsh/src/uplink.ts:240-240 | For every random number in [0, 1) the rounded delay is within those bounds |
| `Reconnect.StopClearsEveryTimer` | dsh/src/uplink.ts:137-143 | stop leaves no retry armed, and no interval running if and only if no connection was welcomed twice |
| `Reconnect.SecondWelcomeLeavesATimer` | dsh/src/uplink.ts:292-307 | A concrete run in which an interval survives stop |
| `Reconnect.InvStep` | dsh/src/uplink.ts:164-242 | Every event keeps the three invariants behind these |
| `Reconnect.Uplink.OpenSocket` | dsh/src/uplink.ts:164-176 | connect, as the machine does it |
| `Reconnect.Uplink.OnOpen` | dsh/src/uplink.ts:179-180 | An open resets the backoff: the counter is zero afterwards |
| `Reconnect.Uplink.OnWelcome` | dsh/src/uplink.ts:283-307 | A welcome arms an interval and keeps only its newest handle |
| `Reconnect.Uplink.StopTimers` | dsh/src/uplink.ts:489-496 | Only timers with a handle are cleared |
| `Reconnect.Uplink.OnClosed` | dsh/src/uplink.ts:217-242 | The close handler, early exits included |
| `Reconnect.Uplink.ScheduleRetry` | dsh/src/uplink.ts:238-241 | Arms one retry after the next delay |
| `Reconnect.Uplink.Shut` | dsh/src/uplink.ts:141-153 | stop |
| `Credentials.ConsistentAfter` | deploy/migrations/0002_user_tokens.sql:36-51 | Every statement keeps one credential per machine, references that resolve, names distinct up to case and secrets distinct |
| `Credentials.MachinesKeepTheirKind` | internal/nodes/store.go:54-162 | No statement deletes a machine or changes its owner or its kind of credential, from any state the tables can be in |
| `Credentials.ClaimVerdict` | internal/nodes/store.go:127-162 | A claim succeeds if and only if the name is free or already the claimant's; the two refusals tell a machine token from another owner |
| `Credentials.RetiredStays` | internal/nodes/store.go:80-107 | No statement makes a spent secret valid again |
| `Credentials.WhatRetires` | internal/users/tokens.go:83-94 | Revoking a user token, deleting its account, revoking a machine and reissuing its token each spend the secret |
| `Credentials.RetiredAuthenticatesNothing` | internal/users/tokens.go:102-143 | A spent secret authenticates no machine and no person under any name |
| `Credentials.ClaimLiftsRevocation` | internal/nodes/store.go:127-136 | A revoked machine is live again after a claim if and only if the claimant owns it |
| `Credentials.NamesAreKept` | internal/nodes/store.go:94-133 | A name is never erased; a reissue takes a new name that is not blank, a claim names only what has no name |
| `Credentials.DeleteVerdict` | deploy/migrations/0002_user_tokens.sql:36-51 | ON DELETE SET NULL would leave an owned machine without a credential, so the CHECK makes the delete of an account fail if and only if it owns a machine, and no machine ever changes by it |
| `Stores.NodeStore.Register` | internal/nodes/store.go:54-71 | Inserts a machine with the minted secret, its name, no owner and no revocation, or changes nothing when the id exists |
| `Stores.NodeStore.Rotate` | internal/nodes/store.go:80-107 | Replaces the secret and lifts the revocation of a machine without an owner, or changes nothing |
| `Stores.NodeStore.EnsureOwned` | internal/nodes/store.go:127-145 | The upsert and its refusals |
| `Stores.NodeStore.WhyRefused` | internal/nodes/store.go:148-162 | Which refusal a machine gives |
| `Stores.NodeStore.Authenticate` | internal/nodes/store.go:169-196 | Ok, revoked or not found |
| `Stores.NodeStore.Revoke` | internal/nodes/store.go:284-294 | Withdraws a live machine's token once |
| `Stores.UserStore.MintToken` | internal/users/tokens.go:37-55 | A token needs a name and an account |
| `Stores.UserStore.RevokeToken` | internal/users/tokens.go:83-94 | Only the owner's live token is revoked |
| `Stores.UserStore.ByUsername` | internal/users/tokens.go:163-178 | Finds exactly the enabled account of that name up to case and surrounding blanks |
| `Stores.UserStore.AuthenticateToken` | internal/users/tokens.go:102-143 | The scan succeeds with a user if and only if some live token of that enabled account verifies |
| `Stores.Handler.Enrol` | internal/uplink/handler.go:199-208 | Refused without an enroller; no claim is made before the person's token verified; a failed claim changes nothing; a failing lookup is passed on as an unknown name |
| `Stores.Handler.Admit` | internal/uplink/handler.go:79-130 | The handshake up to the registry gives the verdict and close code of the specification, and changes the tables only by a successful claim; which code each failing query travels as |
| `Admission.OnlineIsEarned` | internal/uplink/handler.go:92-138 | Over every run, an admitted or online connection once presented its machine's unrevoked token, or the name of an enabled account and, at a later step, a live token of that account, which then claimed the machine and owns it still |
| `Admission.SpentSecretsNeverAdmit` | internal/uplink/handler.go:92-129 | After a revocation, deletion or reissue, every later check of the spent secret is refused, a machine's at once and a person's at its tokens |
| `Admission.CredentialsAreStable` | deploy/migrations/0002_user_tokens.sql:46-51 | Over every run each machine keeps its owner and kind and has exactly one credential |
| `Admission.RetiredForGood` | internal/nodes/store.go:80-107 | Spent stays spent for the rest of any run |
| `Admission.RegistryStep` | internal/uplink/registry.go:27-46 | Every handler step keeps the registry equal to the connections online; a newcomer displaces nobody and a departure removes only its own entry |
| `Admission.InvAt` | internal/uplink/handler.go:132-138 | Tables and registry are consistent in every state of every run |
| `Admission.MachineVerdict` | internal/nodes/store.go:169-196 | Exactly which close code a machine's own hello meets |
| `Admission.PersonVerdict` | cmd/dshf/main.go:361-369 | While the tables stay as they are, a person's hello passes if and only if a live token of an enabled account verifies, and every failure looks like an unknown name |
| `Admission.DisabledMeanwhile` | internal/users/tokens.go:102-110 | The account lookup and the token query see two states of the tables: an account disabled between them still passes |
| `Admission.FailedLookupIsFatal` | cmd/dshf/main.go:361-369 | A failing query makes the node give up for good if and only if it strikes while a person is looked up |
| `Admission.RegistryAlike` | internal/uplink/handler.go:132-138 | Entering and leaving change the registry as its Add and Remove do |
| `Registry.Registry.Add` | internal/uplink/registry.go:27-35 | Refused exactly when the machine is live, and then changes nothing; an add of the history below |
| `Registry.Registry.Remove` | internal/uplink/registry.go:40-46 | Takes out exactly the registered connection itself; a remove of the history below |
| `Registry.Registry.Get` | internal/uplink/registry.go:49-54 | Answers with a connection of that machine whose add succeeded and whose remove has not run, and with none if and only if there is none |
| `Registry.Registry.Online` | internal/uplink/registry.go:57-66 | The machines online in strictly increasing order, so each once |
| `Registry.ListingIsUnique` | internal/uplink/registry.go:56-66 | A set has only one such listing |
| `Registry.BelowIsTotal` | internal/uplink/registry.go:64-64 | The order of strings is total |
| `Registry.BelowIsTransitive` | internal/uplink/registry.go:64-64 | And transitive |
| `Registry.GetIsExact` | internal/uplink/registry.go:26-54 | Over every interleaving of adds and removes, a machine is answered with a connection if and only if its add succeeded and its remove has not run |
| `Registry.ExactAfter` | internal/uplink/handler.go:132-138 | The invariant behind it, over every lifecycle |
| `Audit.StopHandsOver` | internal/audit/audit.go:38-82 | When stop returns, everything accepted before the flush ended has been handed over and its write has ended, and nothing accepted later ever is |
| `Audit.LostExactly` | internal/audit/audit.go:63-82 | A decision handed over is lost if and only if it was taken before the flush and its write had not ended when stop was called |
| `Audit.CleanStopLoses` | internal/audit/audit.go:67-79 | A concrete clean stop that loses the one decision that led up to it |
| `Audit.ConservedAt` | internal/audit/audit.go:55-82 | In every run the accepted decisions are those handed over followed by those queued, accepted plus dropped is recorded, at most 1024 are queued, and every write but the one under way has ended |
| `Audit.ConservedStep` | internal/audit/audit.go:55-82 | Every step keeps that |
| `Audit.HistoriesGrow` | internal/audit/audit.go:63-82 | Nothing handed over, accepted or decided about a write is ever taken back, and nothing is handed over after the end |
| `Audit.Recorder.RecordDecision` | internal/audit/audit.go:55-61 | Queues the decision, or drops and counts it when 1024 are queued |
| `Audit.Recorder.Flush` | internal/audit/audit.go:70-77 | The flush inserts the whole queue in order and loses none of it |
| `Audit.Recorder.Write` | internal/audit/audit.go:84-93 | An insert goes through unless its context is cancelled before it ends |
| `Prune.Telemetry.PruneTelemetry` | internal/nodes/store.go:312-335 | The loop terminates, counts exactly the rows removed, removes only old ones among those that were there or came in meanwhile, and when it finishes leaves what one delete of all old rows would leave |
| `Prune.RunBatch` | internal/nodes/store.go:318-327 | What is gone after a batch is old by its cutoff, and is all that is old after a batch that was not full |
| `Prune.DeleteBatch` | internal/nodes/store.go:313-317 | At most 10000 rows, all old, and fewer only when none is left |
| `Prune.MoreGone` | internal/nodes/store.go:319-334 | A row removed under an earlier cutoff is old under every later one |
| `Prune.MoreRows` | internal/nodes/store.go:319-334 | Rows recorded between two batches change nothing about what is gone |
| `Accounts.AnAdminRemains` | internal/console/people.go:105-155 | From a state with an enabled administrator, any sequence of creates and updates that the database answers leaves one |
| `Accounts.LockoutExactly` | internal/console/people.go:159-182 | One update by itself takes the last administrator away if and only if the accounts could not be listed and the target is that administrator, and the action would otherwise go through |
| `Accounts.LastAdminCanLeave` | internal/console/people.go:169-172 | A concrete update after which no administrator is left |
| `Accounts.TwoAtOnce` | internal/console/people.go:120-155 | When two updates both pass their guards before either makes its change, nobody is left if and only if they take away the only two administrators there are |
| `Accounts.MutualDemotion` | internal/console/people.go:173-180 | Two administrators who demote each other at the same moment leave nobody |
| `Accounts.NobodyLocksThemselvesOut` | internal/console/people.go:161-168 | Deleting or disabling the signed-in account is always refused |
| `Accounts.AdminsAfter` | internal/users/store.go:297-361 | An update changes only its target's standing, and exactly which updates make or unmake an administrator |
| `Accounts.People.Update` | internal/console/people.go:105-155 | The handler's new state and reply; without a fault refused exactly for one's own delete or disable and for the only administrator, and a reply other than applied changes nothing |
| `Accounts.People.RefuseLockout` | internal/console/people.go:159-182 | The guard's answer, database failures included: exactly when it is each of the three refusals |
| `Accounts.People.TargetIsAdmin` | internal/console/people.go:184-195 | The scan finds an enabled administrator if and only if the target is one |
| `Accounts.People.SetAdmin` | internal/users/store.go:297-306 | Changes the flag of an existing account |
| `Accounts.People.SetDisabled` | internal/users/store.go:312-333 | Withdraws or restores access of an existing account |
| `Accounts.People.DeleteAccount` | internal/users/store.go:341-350 | Deletes an existing account that owns no machine |
| `WholeResponse.ResponseCanArrive` | dsh/src/uplink.ts:433-466 | For every status, body, limit and encoding there is a run from a fresh connection in which the caller gets that status and the reader all that the body carries, and then a clean end |
| `Delivery.ResponseArrivesWhole` | dsh/src/uplink.ts:433-466 | From the node's own actions: over every run a reader has a prefix of what the buffers the node read carry, cut by the limit the response began with, and a clean end means that the node came to the end of that body and that the reader has all of it |
| `Delivery.NodeRun` | dsh/src/uplink.ts:448-466 | The buffers of a stream are those the node read for it, in order, and it has ended if and only if the node came to the end |
| `Statuses.StatusIsTheNodes` | dsh/src/uplink.ts:433-436 | Over every run, the status a caller got, or that is queued for it, is the one with which the node began to answer that very request |
| `Statuses.ToldStep` | internal/uplink/conn.go:301-307 | Every step keeps: each status on the wire, held, queued or taken for a request is that of its stream |
| `Statuses.CodeWasAnswered` | dsh/src/uplink.ts:433-436 | A stream has the status its start gave it, and no other for the rest of the run |
| `Statuses.FailureIsSaid` | dsh/src/uplink.ts:479-481 | A refusal, and a failure after the head, each put one err frame for that request on the wire and change nothing else |
| `RequestEffects.HeadReachesCaller` | internal/uplink/conn.go:228-257 | A head that arrives while the caller waits is what the caller gets, and the pump starts |
| `RequestEffects.CallerWaits` | internal/uplink/conn.go:228-257 | What a waiting caller may take: a failure, a head, or the end of the connection, each if and only if it is there |
| `RequestEffects.FailureSettles` | internal/uplink/conn.go:220-246 | A caller who could not write, got a failure or lost the connection goes on to settle, as a pump that is done does |
| `RequestEffects.SettlingFreesTheSlot` | internal/uplink/conn.go:506-514 | Settling takes the slot out of the table and leaves its queue closed |
| `RequestEffects.LeavingStays` | internal/uplink/conn.go:506-514 | Over every run, who settles does nothing else, and a finished request is out of the table with its queue closed or being closed by the shutdown |
| `RequestEffects.OnlyCancelAbandons` | internal/uplink/conn.go:234-238 | Over every run a slot is abandoned only by a caller who cancelled |
| `RequestEffects.CancelAbandons` | internal/uplink/conn.go:234-238 | A caller who cancels while it waits abandons its slot and does not settle |
| `RequestEffects.RoomExactly` | internal/uplink/conn.go:213-217 | A head waits for the last one to be taken, a chunk or end for fewer than 32 queued or a closed queue |
| `RequestEffects.PumpTakesOldest` | internal/uplink/conn.go:259-274 | The pump takes the oldest item: a chunk is pushed next, an end ends the pipe cleanly |
| `RequestEffects.ReadAdvances` | internal/uplink/conn.go:259-274 | A read gets the next bytes of the chunk, and after the last of them the pump goes on |
| `RequestEffects.PipeEnds` | internal/uplink/conn.go:259-274 | The pipe ends cleanly if and only if the pump takes an end, and breaks if and only if its queue is drained and closed or its reader has gone |
| `RequestEffects.PumpCanEnd` | internal/uplink/conn.go:259-274 | Either of those can happen whenever it is so |
| `ConnectionEffects.WsCloseIsFinal` | internal/uplink/conn.go:415-420 | Over every run, once a bridge's ws.close was dispatched the bridge is out of its table and owed its one close or closed |
| `ConnectionEffects.BridgeCloses` | internal/uplink/conn.go:185-195 | ws.close takes the bridge out of the table and leaves exactly one close of its queue owed; its queued messages, every other bridge and every request are as before |
| `ConnectionEffects.BridgeDrops` | internal/uplink/conn.go:185-195 | So does whoever else drops a bridge that stands |
| `ConnectionEffects.OwedCloseCloses` | internal/uplink/conn.go:185-195 | The close that is owed can be made, closes the queue for good and changes nothing else |
| `ConnectionEffects.ClosedBridgeStaysClosed` | internal/uplink/conn.go:185-195 | Over every run a bridge that is out of the table is owed its one close or closed |
| `ConnectionEffects.RefusedExactly` | internal/uplink/conn.go:297-432 | The read loop gives up on a frame if and only if it is malformed, carries a number other than the next for a request it knows, or a body that does not decode |
| `ConnectionEffects.StrangersAreIgnored` | internal/uplink/conn.go:427-431 | A frame for a request or bridge in no table, or of an unknown kind, changes nothing |
| `ConnectionEffects.RequestFrameIsHeld` | internal/uplink/conn.go:301-362 | What the read loop holds, counts and buffers after each kind of frame it does not refuse |
| `ConnectionEffects.HeldIsQueued` | internal/uplink/conn.go:305-345 | What it holds is appended to the queue of its request or bridge |
| `ConnectionEffects.RoomExactly` | internal/uplink/conn.go:324-410 | It can be as soon as fewer than 32 are queued, or the queue is closed |
| `ConnectionEffects.BridgeComesUp` | internal/uplink/conn.go:379-392 | ws.up marks its bridge up and nothing else |
| `ConnectionEffects.MessageIsHeld` | internal/uplink/conn.go:394-410 | A message that decodes is held for its bridge |
| `ConnectionEffects.OldestMessageIsTaken` | internal/uplink/conn.go:112-129 | The browser's end takes the oldest message |
| `ConnectionEffects.MintsStand` | internal/uplink/conn.go:152-219 | Do and OpenWS add an entry that stands in its table, empty, and change nothing else |
| `ConnectionEffects.LoopEnds` | internal/uplink/conn.go:277-295 | When the wire or its context ends the read loop stops, gives up what it held, and the shutdown can begin |
| `Teardown.WsCloseIsARun` | internal/uplink/conn.go:415-420 | A ws.close frame and the close it owes lead where DropBridge does |
| `Teardown.DroppedTables` | internal/uplink/conn.go:185-195 | There the one bridge is out of the table and closed once, and every other is as it was |
| `Conn.Conn.DispatchWsClose` | internal/uplink/conn.go:415-420 | In place: the bridge leaves the table and its queue is closed once, with its messages still in it; every other entry stays |
| `Lifecycle.HandlerSteps` | internal/uplink/handler.go:132-170 | The read loop runs after welcome was written and not at all after it failed, and the handler returns once done is closed |
| `NodeStream.ResponseShape` | dsh/src/uplink.ts:433-466 | A response is its status, its chunks numbered from zero, and last an end that counts them or a failure and no end |
| `NodeStream.LostShape` | dsh/src/uplink.ts:469-477 | When the connection is lost before a chunk, the frames up to it are all there is, with neither end nor failure |
| `Backpressure.PassesExactly` | dsh/src/uplink.ts:469-477 | A stream goes on if and only if the socket holds at most eight of its chunks, other frames included |
| `Backpressure.BufferedIsSent` | dsh/src/uplink.ts:483-487 | Over every run, what is buffered is what was sent and not yet taken by the network, for data and for other frames |
| `Backpressure.StreamsStep` | dsh/src/uplink.ts:433-466 | A stream is there from its begin to its end and takes the next number with each frame |
| `FrameSize.SmallerLimitWins` | dsh/src/uplink.ts:286-286 | An offered limit never raises the configured one, and a smaller one wins |
| `JsonText.ReadOfEscape` | dsh/src/uplink.ts:483-487 | Whatever the text, its escaped form read back by section 7 of RFC 8259 is that text |
| `JsonText.EscapeIsInjective` | dsh/src/uplink.ts:483-487 | No two texts are written alike |
| `Payload.RefusedBodies` | pkg/envelope/envelope.go:91-100 | A body is refused if and only if its encoding is unknown, or its base64 is not in whole groups of symbols with at most two final padding signs |
| `Base64.AcceptsExactly` | pkg/envelope/envelope.go:96-96 | Which text the strict decoder takes, and how many bytes it gives |
| `Base64.LineBreaksAreSkipped` | pkg/envelope/envelope.go:96-96 | It skips line breaks wherever they stand |
| `Base64.SymbolsAreTheAlphabet` | pkg/envelope/envelope.go:111-111 | The symbols are those of table 1 of RFC 4648 |
| `Base64.SameBits` | pkg/envelope/envelope.go:111-111 | Three bytes and their four symbols are the same 24 bits |
| `Base64.EncodesFoobar` | pkg/envelope/envelope.go:111-111 | An example of section 10 of RFC 4648 |
| `Utf8.LengthIsTheTable` | dsh/src/protocol.ts:267-267 | How many bytes a code point takes, by section 3 of RFC 3629 |
| `Utf8.FourByteBits` | dsh/src/protocol.ts:267-267 | The bits of a long code point are those of its four bytes |
| `Utf8.EncodesTheExample` | dsh/src/protocol.ts:267-267 | The first example of section 7 of RFC 3629 |
| `Ids.FirstIds` | internal/uplink/conn.go:205-219 | What the first ids look like |
| `Registry.BelowIsLexicographic` | internal/uplink/registry.go:64-64 | The first place where two strings differ decides their order, and a proper prefix comes first |
| `Retries.BackoffStartsAtTheOpen` | dsh/src/uplink.ts:178-241 | From the events alone, over every run of a node not stopped or refused: after an open the first close arms one retry with the base ceiling, and each further close before the next open with twice the last one, up to the maximum |
| `Retries.BackoffFromTheStart` | dsh/src/uplink.ts:238-241 | The same from the start, before any open |
| `Retries.CloseArmsARetry` | dsh/src/uplink.ts:217-242 | A close of the held socket with any code but 4001, 4002 and 4003 arms exactly one retry; those three arm none; without a held socket nothing changes |
| `Retries.OpenResets` | dsh/src/uplink.ts:178-179 | An open starts the backoff anew and changes nothing else |
| `Retries.ConnectsAgain` | dsh/src/uplink.ts:164-176 | The start and a retry that fires construct one socket, unless the constructor throws, after which none is tried |
| `Retries.WelcomeBeats` | dsh/src/uplink.ts:283-307 | A welcome starts one interval more |
| `Retries.LostHeartbeatSilences` | dsh/src/uplink.ts:292-299 | A lost heartbeat silences the held socket, whose close is still to come |
| `Retries.StopEnds` | dsh/src/uplink.ts:141-153 | stop lets go of the socket and of the retry |
| `Retries.CeilingsOfAMinute` | dsh/src/uplink.ts:239-239 | The ceilings for a base of a second and a maximum of a minute |
| `Reconnect.DelayIsNearest` | dsh/src/uplink.ts:240-240 | The delay is the nearest integer to its share of the ceiling |
| `CredentialEffects.AddedMachineLogsIn` | internal/nodes/store.go:54-71 | A registration succeeds if and only if the id is free; then the new secret and no other authenticates the machine, which has no owner and the given name, and every other row is as it was |
| `CredentialEffects.ReissuedMachineLogsIn` | internal/nodes/store.go:80-107 | A reissue succeeds if and only if the machine exists and has no owner, revoked or not; then the new secret and no other authenticates it, and every other row is as it was |
| `CredentialEffects.ClaimedMachine` | internal/nodes/store.go:127-145 | What a claim that goes through leaves in the row, new or the claimant's own, and that it changes no other |
| `CredentialEffects.RevokedMachine` | internal/nodes/store.go:284-294 | A machine is revoked once, after which every secret is answered with revoked |
| `CredentialEffects.LoginStands` | internal/nodes/store.go:54-196 | A secret that authenticates a machine still does after a statement if and only if that is no revocation and no reissue of that machine |
| `CredentialEffects.MintedTokenIsLive` | internal/users/tokens.go:37-55 | A token is minted if and only if the account exists, and is live at once |
| `CredentialEffects.WithdrawnToken` | internal/users/tokens.go:83-94 | A person withdraws their own live tokens and no others |
| `CredentialEffects.CreatedUserIsEnabled` | internal/users/store.go:94-119 | An account is created if and only if its name is not blank and no other has it in whatever case, and can log in |
| `CredentialEffects.AccessIsSet` | internal/users/store.go:312-333 | Disabling takes an account's logins away, enabling gives them back, and no other account changes |
| `CredentialEffects.DeletedUserIsGone` | internal/users/store.go:341-350 | A deleted account takes its tokens along, and nothing else |
| `CredentialEffects.TokenStands` | internal/users/tokens.go:102-143 | A person's token stays good under every statement but its withdrawal and the disabling or deletion of its account |
| `CredentialEffects.TrimIsExact` | internal/users/tokens.go:163-167 | Trimming a name removes the blanks around it, all of them and nothing else |
| `CredentialEffects.FoldIgnoresCase` | internal/users/tokens.go:163-167 | Names are compared without regard to the case of letters |
| `AdmissionEffects.LastSecretAdmits` | internal/uplink/handler.go:92-131 | Over every run, the secret last issued to a machine that was not revoked since admits it, whatever else happened to the tables |
| `AdmissionEffects.LoginInRun` | internal/nodes/store.go:54-196 | Until then it authenticates the machine in every state |
| `AdmissionEffects.MachineGetsOnline` | internal/uplink/handler.go:79-138 | A machine whose token is good, and that nobody is connected as, is online and registered after its own steps alone |
| `AdmissionEffects.PersonIsRecognised` | internal/uplink/handler.go:199-206 | A person with a live token of an enabled account is recognised after both queries |
| `AdmissionEffects.PersonGetsOnline` | internal/uplink/handler.go:92-138 | And then online under a name that is free or their own, which is theirs and not revoked |
| `AdmissionEffects.UnreadableHello` | internal/uplink/handler.go:79-90 | No credential is answered with 4005 and another protocol version with 4003, before any table is read |
| `AdmissionEffects.MachineIsAnswered` | internal/uplink/handler.go:92-129 | A machine's token is answered with 4001 when revoked, 4002 when unknown or wrong, and admission otherwise |
| `AdmissionEffects.PersonIsAnswered` | internal/uplink/handler.go:199-208 | A person's name is found when an enabled account has it, and answered with 4002 when none has, or 1011 when the deployment takes no personal tokens |
| `AdmissionEffects.TokensAreAnswered` | internal/users/tokens.go:102-143 | The person is recognised if and only if a live token of the account has the secret, and answered with 4002 otherwise |
| `AdmissionEffects.ClaimIsAnswered` | internal/uplink/handler.go:100-118 | The name is claimed if and only if it is free or the person's own, and answered with 4002 otherwise |
| `AdmissionEffects.OrphanedClaim` | internal/uplink/handler.go:126-129 | A claim for an account that is gone is answered with 1011, or 4002 when the name is taken |
| `AdmissionEffects.FailureIsAnswered` | internal/uplink/handler.go:120-129 | A failing query is answered with 4002 while a person is looked up and with 1011 otherwise |
| `AdmissionEffects.RegistryIsAnswered` | internal/uplink/handler.go:132-138 | The first connection of a machine is registered, any other answered with 4004, and the entry goes with its connection |
| `Accounts.RefusedExactly` | internal/console/people.go:159-182 | Without a database fault an update is refused if and only if it deletes or disables the signed-in account, or deletes, demotes or disables the only enabled administrator; and which refusal each gets |
| `Accounts.AppliedExactly` | internal/console/people.go:120-155 | Every other update of an account makes its own change and no other |
| `Accounts.FaultyVerdict` | internal/console/people.go:169-177 | What a failing list and a failing count each let through and refuse |

## Left out

- WebSocket, HTTP, TLS and PostgreSQL: the wire is a FIFO of frames that can end at any time, and tables are maps with the constraints of the migrations.
- JSON as a format: frames are values on the wire, and only the text of `data` and `ws.msg` frames is written out, for its size; that the text of a payload survives is `JsonText.ReadOfEscape`, and that of the other fields is taken for granted.
- Argon2id and randomness: a stored hash is modelled by the secret it verifies, and minted secrets and keys are new. A stored hash that cannot be parsed counts as a failing query.
- Time: heartbeats, write timeouts, the 15 second wait for a bridge and the retry timer are steps that may happen at any moment; `Prune` takes its cutoffs from a clock that does not go back.
- Prune.Telemetry.PruneTelemetry: snapshots may come in for any finite number of batches; if old ones came in without end, the loop would not either.
- Liveness: the code does not promise that cancelled or failed streams make progress, since a full queue stops the read loop.
- Recovery from a panic: the read loop runs on the goroutine of an HTTP handler, and the server is taken to recover a handler's panic after the deferred calls have run, so that only the connection ends.
- More than one connection epoch: a frame that a stream of an earlier connection sends after a reconnect, and a late close of a bridge whose id has been reused, are not modelled.
- More than 2^64 mints on one connection: `Multiplex` stops minting there; `Ids.MintedIdsCollide` says what happens beyond.
- Conn.Conn.Shutdown: runs its critical section and its closes without interruption; their interleaving with other goroutines is in `Multiplex`.
- Conn.Conn.Settle: the same, for its critical section and its close.
- Conn.Conn.DropBridge: the same, and the `ws.close` frame that closing a bridge writes is not modelled.
- The owner's steps on a request (writing the request, the select of `Do`, the pump between two reads) are steps of `Request` and not methods of the class; the pump's loop is `Request.Pump`, over a queue whose whole contents are known.
- Frames from the control plane (`req`, `cancel`, `ws.open` and so on) are not on a modelled wire: a node may take up any request whose frame was written, and may fail any stream at any time, which covers a cancel.
- BridgeStream.MessagesArriveInOrder: covers messages from the node, as text; a binary message is decoded to text before, and messages from the browser are written straight to the socket.
- Audit.LostExactly: an insert that is cancelled counts as lost, although the database may have applied it, and the database answers every other insert in time.
- Base64.DecodeNodeOfEncode: the node's decoder is modelled on standard base64 with foreign characters skipped; the URL alphabet it also accepts never occurs in what either side encodes.
- CloseReason.CloseIsAccepted: reasons are sequences of Unicode scalar values, so lone surrogates do not occur.
- Stores.UserStore.ByUsername: case is folded and blanks are trimmed for ASCII only.
- Reconnect.StopClearsEveryTimer: the heartbeat and telemetry intervals are armed and cleared side by side and stand as one, and a socket that was closed from this side is taken to deliver no more messages.
- Reconnect.WaitsGrow: delays are computed over real numbers.
- EndToEnd.HonestNodeIsNeverRefused: a frame over the read limit ends the connection before it is dispatched; which limits rule that out is in `FrameSize` for the chunks of a response and in `BridgeStream.MessageIsReadExactly` for a bridged message.
- Stores.NodeStore.EnsureOwned: the query that explains a refused claim is taken with the claim; a machine's kind and owner never change, so it would answer the same later.
- Reading response bodies, requests to the node's own server, response headers, telemetry contents, recording of a hello, and the node's refusal to serve its setup page: they neither use nor change the state modelled here.
- Passwords and sessions: resetting a password changes no account's standing, and disabling an account also ends its sessions.
- More than two account changes at once: `Accounts.AnAdminRemains` is about one request after another, and `Accounts.TwoAtOnce` about two whose guards both come first.
- The proxy, console pages, overlay, setup page, configuration, certificates, migrations runner and command line: they are input, output and plumbing.
