# multiloop, modelled and proved in Dafny

multiloop runs asyncio event loops on several threads and serves HTTP and
WebSocket traffic from them. This project models the parts of it that are state
machines of its own making, and proves what they promise in every reachable
state. It verifies with `dafny verify dfyconfig.toml` (Dafny 4.11).

## What is modelled

**The HTTP/1.1 and WebSocket byte engine** (`src/http.rs`, `src/websocket.rs`).
`HttpMachine` and `WsMachine` give one iteration of the two loops as a step
function on the state and the unread bytes; `Incremental` is the theory of such
loops: what a run comes to, and when it does not matter how the input was cut.
`Connection` is the class itself, with its growing buffer, cursor, compaction,
keep-alive counter and fragment fields; each of its methods is proved against
the step functions. On top of that stand independence of segmentation
(`Segmentation`, for the object itself `ConnectionFeeds`), whole and pipelined
requests (`Requests`), the grammar of event traces (`TraceGrammar`), the
verdicts on message framing and persistence (`Framing`, `FieldValues`,
`Persistence`), and what the engine does about them over runs: which headers are
refused, upgraded or started (`HeaderStage`), when another request is served
(`KeepAlive`), what a broken chunked body is answered with (`ChunkErrors`). For
WebSocket streams they are transparency of fragmentation (`WsMachine`), the fact
that every byte string is a list of frames (`WsWire`), which lists the loop gets
through (`WsTolerance`) and which of them the standard allows (`WsLegality`), and
what happens behind a violation and to split deliveries (`WsAfterStop`, `WsSplits`),
and how the client is told (`WsViolations`). `Mask` and `Frames` are the frame
codec, `Response`, `ResponseHead`, `ResponseReading` and `RoundTrip` the response
writer and its way back through a reader. The relevant standards are sections 6.3, 7.1 and 9.3 of RFC 9112 and
sections 5.2 to 5.5 of RFC 6455.

**The WSGI body readers** (`src/multiloop/wsgi.py`): `SyncReader` is the
file-like reader over chunks from a channel, proved to be a cursor over one flat
stream (what the cursor returns: `ReaderAnswers`); `WsgiChunked` is the worker's own chunked decoder, `WsgiSizes` its
reading of size lines, and `WsgiArrivals` says
which answers it can give to a stream over all the ways its bytes may arrive.

**The channel** (`src/channel.rs`, `src/multiloop/primitives.py`). `Channel`
has every method that runs under the mutex as one step, with the wake-ups it
hands out, `ChannelFutures` the wake-up of a future on its own loop,
`ChannelAnswers` what each call answers, in terms of the calls that follow.
`ChannelProtocol`, `ChannelWakeups` and `ChannelReceivers` put any number of
senders, receivers, selects, cancellations and closers around it.

**The cross-loop primitives** (`src/multiloop/_sync.py`, `src/rwlock.rs`):
`CapacityLimiter`, `Semaphore`, `Lock`, `Condition`, `Barrier` and `RwLock`,
each a class with the source's fields and loops, each with a protocol
(`LockProtocol`, `ConditionProtocol`, `ConditionOrder`, `BarrierStates`,
`RwLockProtocol`, `RwLockCancels`, or in the same module) in which tasks arrive, are granted, run on, and are cancelled before or after the grant;
where the source looks at it, they also finish or are stranded on a closed loop.
`WaiterQueue` holds what they share, `SyncAnswers` what their calls answer and to
whom they pass on what is given back.

**The worker pool** (`src/pool.rs`): `Pool`, `PoolProtocol` and
`PoolService`, which says what a worker is served.

## How to read it

Every class keeps the fields of the source and its methods update them in place;
their postconditions equate the new state with a specification function of the
old one. What the source promises is then proved about these functions, over
every sequence of calls. Concurrency is interleaving: each section that the
source runs under a mutex is one step, everything between two such sections is
its own step, and wake-ups under way, grants not yet taken and histories are
part of the state. A delivery in `FeedAll` is one call of `FeedData`.

Some promises do not hold of the code as it stands. For each the project has the
code as it is, a concrete case in which the promise fails, and the exact condition
under which it holds:

- A closed connection in WebSocket mode still emits frames from a further
  delivery (`WsMachine.ClosedStillDelivers`): the closed state is never consulted
  (`WsAfterStop.ClosedIsNeverConsulted`), so a delivery to it is silent exactly
  when `WsAfterStop.SilentExactlyWhen` says of its frames, and pieces amount to one
  delivery exactly when `WsSplits.SplitByFrames` says.
- The frame loop lets illegal client streams through: reserved opcodes (those of
  control frames are delivered, those of data frames skipped), reserved bits,
  overlong lengths, malformed close bodies and data behind a close
  (`WsLegality.EveryFlawGetsThrough`, `WsLegality.ControlsGetThrough`,
  `WsLegality.FormMakesNoDifference`, `WsTolerance.ReservedFramesVanish`). Of the
  lists free of these it accepts exactly the legal ones
  (`WsLegality.AcceptsExactlyTheLegal`); what it accepts in all is said by
  `WsTolerance.AcceptsExactlyTheseBytes`. Status codes in close bodies are not
  judged.
- The header size limit counts everything unread, bodies and pipelined requests
  included (`Requests.ShortHeaderIsRefused`), in exactly the cases of
  `Requests.HeaderLimitCountsEverything`.
- A Content-Length of 2^63 or more is accepted and turns negative, so the
  request counts as one without a body (`ResponseHead.HugeLengthTurnsNegative`);
  the length is right exactly below 2^63 (`Framing.AnnouncedLength`).
- The chunked decoder of the WSGI worker accepts negative sizes. Then its answer can
  depend on how the bytes arrive (`WsgiArrivals.NegativeSizesDependOnArrival`), and
  the body limit is void (`WsgiArrivals.NegativeSizesPassTheLimit`). The condition
  is on the size lines: a line is answered alike under all arrivals exactly if its
  size is not negative (`WsgiArrivals.SafeExactlyWhen`), and a stream without negative
  sizes has the answer of the whole stream (`WsgiArrivals.OnlyTheFlatAnswer`,
  `WsgiArrivals.NoNegativeDecodes`) and keeps the limit
  (`WsgiArrivals.BodyWithinLimit`). A negative size larger than all that follows it
  does no harm (`WsgiArrivals.VeryNegativeSizesAreSkipped`).
- `readline(0)` reads a whole line; a limit is kept exactly if it is positive or
  nothing is left (`SyncReader.ReadLineStaysWithin`).
- A bounded or closed channel can drop an item that comes back from a cancelled
  receiver (`ChannelReceivers.BoundedChannelLosesAnItem`), in exactly the cases
  of `ChannelReceivers.DropsExactlyWhen`.
- A select that is given up after it was poked can leave an item beside a sleeping
  select (`ChannelWakeups.AbandonedSelectLosesAWakeup`), exactly when
  `ChannelWakeups.GiveUpExactlyWhen` says; no run without such a give-up does
  (`ChannelWakeups.NoSelectSleepsBesideAnItem`).
- Parked selects let items past the capacity (`ChannelWakeups.SelectsStretchTheCapacity`),
  exactly when `ChannelWakeups.CapacityExactlyWhen` says and within the bound of
  `ChannelWakeups.CapacityHolds`.
- `Condition.notify` loses a notification exactly when it pops a waiter on a
  closed loop (`ConditionProtocol.LostExactlyOnClosedLoops`,
  `ConditionProtocol.ANotificationGetsLost`).
- A read or write admission whose task is cancelled afterwards is never given
  back (`RwLockProtocol.AdmissionsGetLost`): a lost read shuts out the writers for
  good (`RwLockProtocol.LostReadShutsWritersOut`), a lost write everybody
  (`RwLockProtocol.LostWriteShutsEverybodyOut`). The counts are
  right exactly after runs in which that did not happen
  (`RwLockProtocol.CountsAreExact`).

## Model

| member | source | states |
|---|---|---|
| Mask.UnmaskRaw | src/websocket.rs:21-97 | for every length, the 32-byte, 8-byte and tail loops write `in[i] xor mask[i mod 4]` at every index, on either byte order |
| Mask.UnmaskSlice | src/websocket.rs:99-184 | the same for a slice at any offset; an out-of-range slice is an error |
| Mask.UnmaskSelfInverse | src/websocket.rs:21-97 | unmasking twice with one key gives the payload back (section 5.3 of RFC 6455) |
| Mask.WordXor | src/websocket.rs:33-60 | the xor of two loaded machine words, stored back, is the bytewise xor, whichever end comes first |
| Frames.FormatWsFrame | src/http.rs:366-390 | the writer sends the shortest header form for every opcode and length, then the payload |
| Frames.ParseInvertsFormat | src/websocket.rs:197-251 | the frame header parser reads back opcode, final bit, length and header size of every written frame, whatever follows |
| Frames.ParseHeaderBytes | src/websocket.rs:197-251 | the parser reads back every header in every length form, masked or not |
| Frames.HeaderStable | src/websocket.rs:197-251 | the parser asks for more exactly while fewer bytes than the header takes are there, masking key included; a complete header is parsed the same when more bytes follow |
| Frames.DecodersAgree | src/http.rs:864-922 | the connection's inline frame decoder and the frame header parser agree on every input with a masked frame |
| Frames.DecodeStable | src/http.rs:863-922 | a frame that decodes is decoded the same when more bytes follow |
| Frames.RsvBitsAreIgnored | src/http.rs:863-871 | the decoder gives the same answer for any two inputs that differ in the three reserved bits of the first byte |
| Incremental.SplitIndependence | src/http.rs:90-105 | for a loop whose iterations depend on no byte beyond what they take: every split of an input it gets through without breaking off has the same outcome as one delivery; otherwise both break off and the events of the whole are a prefix |
| Incremental.SplitExact | src/http.rs:437-447 | when breaking off is final, every split has the same outcome, from any state that was waiting for input |
| Incremental.SplitExactlyWhen | src/http.rs:90-105 | for a loop that may break off without that being final: a split has the outcome of one delivery if and only if the whole never breaks off, or leaves nothing to act on behind the break, or only the last piece meets it |
| WsMachine.LoopIsIncremental | src/http.rs:858-1053 | one iteration of the frame loop depends on no byte beyond the frame it takes |
| WsMachine.RunWire | src/http.rs:858-1053 | the loop over a concatenation of masked frames handles exactly these frames, in order |
| WsMachine.HandleParts | src/http.rs:940-1050 | the fragments of a message, with control frames between them, deliver the control frames and then the whole message |
| WsMachine.Transparency | src/http.rs:858-1053 | for every list of messages and control frames, every fragmentation, mask keys, length forms, reserved bits, interleaved control frames (of any control opcode) and every split over deliveries, the events are exactly the messages and control frames, in order, with nothing left unread |
| WsMachine.ClosedStillDelivers | src/http.rs:863-880 | a concrete case: behind a stray continuation frame, the next delivery of a binary frame is passed on although the connection is closed |
| WsWire.FrameBack | src/http.rs:863-922 | every byte string that decodes is the encoding of a client frame |
| WsWire.EveryStreamIsFrames | src/http.rs:858-922 | every byte string is the wire of a list of frames, with no complete frame behind |
| WsWire.RunWireStops | src/http.rs:858-1050 | the loop over the bytes breaks off where the handler over the frames does, with the same events and state |
| WsTolerance.AcceptedIsTolerated | src/http.rs:924-1050 | whatever the frame loop gets through are, but for reserved data opcodes, the frames of whole messages and control frames and of an unfinished message, and exactly these were delivered |
| WsTolerance.AcceptsExactlyTheTolerated | src/http.rs:924-1050 | the loop gets through a list of client frames if and only if, without those of reserved data opcodes, it is such a list |
| WsTolerance.AcceptsExactlyTheseBytes | src/http.rs:858-1053 | the same for every byte string: it is gone through if and only if its frames are such a list and no unmasked header follows them |
| WsTolerance.ReservedFramesVanish | src/http.rs:924-1050 | frames with a reserved data opcode are skipped as if they were not there |
| WsLegality.AcceptsExactlyTheLegal | src/http.rs:863-1050 | a list of client frames is legal (sections 5.2, 5.4 and 5.5 of RFC 6455) if and only if the loop gets through it and it is free of reserved opcodes, reserved bits, overlong lengths, malformed close bodies and data behind a close; so of the lists free of these the loop accepts exactly the legal ones |
| WsLegality.ControlsGetThrough | src/http.rs:929-954 | every final control frame of at most 125 bytes is delivered and changes nothing else: unknown opcodes 11 to 15, reserved bits, malformed close bodies, and a close itself |
| WsLegality.FormMakesNoDifference | src/http.rs:863-922 | reserved bits and overlong length forms make no difference to events, state or what is left unread |
| WsLegality.EveryFlawGetsThrough | src/http.rs:924-1050 | one accepted and illegal list for each of the six flaws |
| WsAfterStop.ClosedIsNeverConsulted | src/http.rs:858-1053 | from every state and for all bytes: on a closed connection the loop has the same events, unread bytes and break as on an open one |
| WsAfterStop.SilentExactlyWhen | src/http.rs:858-1053 | a delivery, to a closed connection or an open one, emits nothing if and only if its frames are, but for reserved data opcodes, only the start or the middle of one message, and no unmasked header follows them |
| WsAfterStop.SplitExactlyWhenFrames | src/http.rs:858-1053 | the same condition in terms of the runs over the bytes |
| WsSplits.BreaksOffExactlyWhen | src/http.rs:858-1053 | from every state, in a message or not, and for all bytes: the loop breaks off if and only if one of the frames violates a rule (a control frame that is long or not final, a continuation of nothing, a start inside a message, a text that is no UTF-8) or an unmasked header follows them |
| WsSplits.StopsBehindFirstBad | src/http.rs:858-1053 | it breaks off right behind the first frame that does, and leaves the rest unread |
| WsSplits.SplitByFrames | src/http.rs:858-1053 | deliveries in pieces have the outcome of one delivery if and only if no frame violates a rule and no unmasked header follows, or the violating frame is the last one with nothing to act on behind it, or the bytes before the last piece end short of the violation |
| WsViolations.ViolationIsTold | src/http.rs:924-1050 | the first frame that violates a rule is answered, behind what the frames before it delivered, by one final unmasked close frame whose code reads back as 1007 for a text that is not UTF-8 and 1002 for the rest |
| WsViolations.UnmaskedIsTold | src/http.rs:872-882 | an unmasked header is answered by such a frame with 1002 and is left unread |
| Framing.ScanForConnection | src/http.rs:507-587 | the connection's header loop computes the framing summary of the header list |
| Framing.ScanForParser | src/http.rs:1187-1260 | the stand-alone parser's header loop computes the same summary |
| Framing.RejectsExactlyTheAmbiguous | src/http.rs:584-587 | a header list is rejected if and only if a length is no number, two lengths differ, a transfer coding does not end in chunked, or both kinds are present (section 6.3 of RFC 9112) |
| Framing.OrderDoesNotMatter | src/http.rs:507-587 | the verdict, and for accepted lists the length and the coding, do not depend on the order of the header fields |
| Framing.AnnouncedLength | src/http.rs:518-538 | an accepted list announces exactly the number of any of its length fields below 2^63, and that number less 2^64 from there on; only in the first case, and for a positive number, is there a body |
| FieldValues.EndsInChunked | src/http.rs:539-559 | a transfer coding ends in chunked if and only if it is text and the last of its listed codings that is not blank is that word in any case |
| FieldValues.SplitJoins | src/http.rs:539-559 | a list is cut at every comma and only there |
| FieldValues.LengthIsRead | src/http.rs:518-538 | with the standard parser a length is read as the decimal number its trimmed text is; what is not text is no length |
| Persistence.PersistenceVerdict | src/http.rs:507-587 | the last Connection field that says close or keep-alive decides, otherwise the version; an upgrade is asked for when some Connection field says so |
| Text.StandardParserIsSane | src/http.rs:768-773 | the standard radix parser reads back every length that fits the machine word, in hexadecimal as written |
| HttpMachine.EngineIsSound | src/http.rs:437-856 | every iteration of the connection loop either waits or takes bytes or leaves the state it was in, so the loop ends |
| Segmentation.ChunkedSplit | src/http.rs:754-851 | from any chunked-body state that waits for input, every split of the bytes gives the same events, final state, errors and unread bytes as one delivery |
| Segmentation.LengthSplit | src/http.rs:727-753 | every split of a Content-Length body gives the same body bytes, unread bytes and final state, and one closing event exactly when the body is complete |
| Segmentation.InlineBody | src/http.rs:645-700 | body bytes that arrive with the header are delivered as the body state would have delivered them |
| ChunkErrors.SizeLineAnswers | src/http.rs:756-794 | over runs, for every size line: text, then a hexadecimal number up to the semicolon, then a chunk that fits into the limit with what came before it, or else the error of the source with what it leaves unread |
| ChunkErrors.DataAnswers | src/http.rs:795-820 | a chunk is passed on when all its data and the line end behind it are there, and refused with anything else behind it |
| ChunkErrors.EmptyLineEnds | src/http.rs:821-851 | the body ends at an empty line; what is behind it stays unread |
| ChunkErrors.TrailersAreSkipped | src/http.rs:821-851 | trailers before that line are skipped |
| Requests.RequestEndsWhereTheNextBegins | src/http.rs:449-851 | a request that arrives whole is delivered as its start and its body, however framed, and exactly the bytes behind it stay unread |
| Requests.PipelinedRequestsAreServed | src/http.rs:111-120 | pipelined requests are delivered exactly and in order, one per reset, up to the keep-alive limit |
| Requests.HeaderLimitCountsEverything | src/http.rs:458-465 | from any state and for any unread bytes, 431 is answered if and only if a header is expected and more than the header limit is unread; then nothing is read and the connection closes |
| Requests.ShortHeaderIsRefused | src/http.rs:458-465 | a concrete case: a request of 18 bytes is served under a limit of 30, and refused with 431 when another one has arrived behind it |
| HeaderStage.RefusedExactlyWhenAmbiguous | src/http.rs:453-587 | over runs, for every header within the limit that parses: the conflict error is among the events if and only if the fields leave the framing in doubt; then it is the only event, nothing is started, the connection is closed and exactly the bytes behind the header stay unread |
| HeaderStage.AnsweredByItsFields | src/http.rs:589-725 | a header that is not refused is answered by its fields alone: an upgrade if a field asks for one and the last protocol named is WebSocket, 413 if a length is beyond the limit, else the start of a request, with a body exactly if a field announces one, and only body parts behind it |
| HeaderStage.UnreadableHeader | src/http.rs:467-480 | an unfinished header waits with nothing changed; a malformed one is answered with 400 alone, closes the connection and is left unread |
| HeaderStage.HeadIsPassedOn | src/http.rs:482-582 | the application sees the method, the target cut at its first question mark, the version, every named field in order under its lower-case name, and the verdicts on persistence and upgrade |
| HeaderStage.BodyKeepsVerdict | src/http.rs:727-851 | however a body arrives, the events of its deliveries are body parts and errors of bodies, and the verdict on persistence and the count of requests stay as the header left them |
| KeepAlive.ResetClosesExactlyWhen | src/http.rs:111-120 | over runs: after a request of any framing, delivered in any pieces, the reset closes the connection if and only if the last field that settles it (else the version) says close, or the limit of requests is reached; otherwise the connection waits for the next request |
| KeepAlive.NothingIsServedAfterClose | src/http.rs:111-120 | behind such a request any number of further rounds, whatever arrives, emits nothing and leaves all bytes unread |
| TraceGrammar.EveryTraceIsGrammatical | src/http.rs:437-856 | whatever is fed, pumped, reset or closed: the events spell completed requests, at most one open one and at most one closing error; starts stay within max(1, the keep-alive limit) and body bytes per request within the size limit |
| TraceGrammar.AcceptedIsGrammatical | src/http.rs:437-856 | the event-by-event acceptor of the grammar accepts only sequences that the grammar spells |
| TraceGrammar.ClosedIsAbsorbing | src/http.rs:442-450 | a closed connection stays closed and emits nothing, whatever is called |
| TraceGrammar.StepFollows | src/http.rs:449-851 | every single iteration continues the grammar from any state it is in |
| Connection.FastHttpConnection.FeedData | src/http.rs:90-105 | one delivery ends with the events, state and unread bytes of the specified loop over everything unread so far, in either mode |
| Connection.FastHttpConnection.PumpEvents | src/http.rs:107-109 | the same without new bytes |
| Connection.FastHttpConnection.ResetForNextRequest | src/http.rs:111-120 | leaves the serving state for keep-alive or closed, by the limit and the keep-alive verdict, and nothing else |
| Connection.FastHttpConnection.CompactBuffer | src/http.rs:394-402 | compaction never changes the unread bytes |
| Connection.FastHttpConnection.ProcessHttpEvents | src/http.rs:437-856 | the HTTP loop over buffer and cursor refines the specified run over the unread bytes |
| Connection.FastHttpConnection.ReadHeader | src/http.rs:453-490 | the header stage: size limit first, then the parser, then the framing verdict |
| Connection.FastHttpConnection.StartRequest | src/http.rs:583-726 | what a parsed request starts: rejection, upgrade, chunked, length or no body |
| Connection.FastHttpConnection.DeliverInline | src/http.rs:645-700 | the part of the body that came with the header |
| Connection.FastHttpConnection.ReadLengthBody | src/http.rs:727-753 | takes what is there of the announced body |
| Connection.FastHttpConnection.ReadChunkSize | src/http.rs:756-793 | the size line: encoding, number, limit, next stage |
| Connection.FastHttpConnection.ReadChunkData | src/http.rs:795-819 | a whole chunk with its line end, or nothing |
| Connection.FastHttpConnection.ReadTrailers | src/http.rs:821-849 | the end of a chunked body: an empty line, or trailers up to one |
| Connection.FastHttpConnection.ProcessWebsocketEvents | src/http.rs:858-1053 | the frame loop over buffer, cursor and fragment fields refines the specified run |
| Connection.FastHttpConnection.IterateFrame | src/http.rs:863-1050 | one frame: decoded, checked and handled, or a protocol error |
| Connection.FastHttpConnection.HandleFrame | src/http.rs:924-1050 | control frames, continuation, reassembly and text validation |
| ConnectionFeeds.FeedFramePieces | src/http.rs:90-105 | on the object itself: calls with the pieces do what one call with all bytes does, unless a violation is followed by something to act on |
| ConnectionFeeds.FeedBodyPieces | src/http.rs:90-105 | on the object itself, in the middle of a chunked or announced body: calls with the pieces read what one call reads |
| Response.FormatChunk | src/http.rs:330-364 | writes size line, data and line end for a non-empty piece, and the closing chunk for the last, into a buffer they fill exactly |
| Response.FormatResponse | src/http.rs:139-328 | refuses line breaks in header fields; otherwise writes status line, own and application lines, the framing line the body needs, the persistence line and the framed body into a buffer they fill exactly |
| Response.ScanFields | src/http.rs:155-191 | the scan finds the illegal fields and which lines the application supplies itself |
| ResponseHead.HeadReadsBack | src/http.rs:139-328 | a reader that cuts the response at line breaks gets exactly the lines that were written and finds the body right behind them |
| ResponseHead.LengthReadsBack | src/http.rs:219-222 | the announced length is read back as the length of the body |
| ResponseHead.HugeLengthTurnsNegative | src/http.rs:518-538 | for every number from 2^63 up to the largest machine word: a request whose one header field announces it is accepted, and the length is that number less 2^64 |
| ResponseReading.BodyFollowsTheHead | src/http.rs:139-328 | for every accepted response: behind the head a reader finds the body as it is unless it is chunked, and nothing for a status without a body; it is chunked exactly if more is to come and the application gave no length; it persists exactly if it should and no field asks to close |
| ResponseReading.LengthIsThatOfTheBody | src/http.rs:219-222 | a whole response whose fields give no length is read with exactly one length line, whose number is that of the bytes behind the head |
| ResponseReading.FramingIsAdded | src/http.rs:217-241 | among the lines read back the writer added a length exactly to a whole response without one, a transfer coding exactly to a chunked one, and a connection line exactly if the application gave none |
| ResponseReading.ConnectionIsReported | src/http.rs:233-241 | the connection line it adds says what the writer reports |
| ResponseReading.HeadIsInOrder | src/http.rs:195-320 | the lines read back are version, status and reason, the server and date lines the application did not give, then the fields of the application as they are |
| ResponseReading.RefusedExactlyWhen | src/http.rs:155-175 | a response is refused if and only if some field holds a carriage return or a line feed |
| RoundTrip.ChunkedRoundTrip | src/http.rs:754-851 | the body part of a streamed response and its later pieces, empty ones included, are decoded to exactly these pieces, the next message left unread, if and only if their total is within the limit; otherwise the connection closes with 413 |
| RoundTrip.ReadStream | src/http.rs:754-851 | the same from any count of bytes already received, for streams of any number of pieces |
| RoundTrip.ReadPiece | src/http.rs:756-819 | one written piece is read as one body event, or refused when it exceeds the limit |
| SyncReader.SyncStreamReader.Read | src/multiloop/wsgi.py:56-90 | returns the next `size` bytes of the flat stream, or all of it, whatever the chunk boundaries |
| SyncReader.SyncStreamReader.ReadLine | src/multiloop/wsgi.py:92-129 | returns the next line of the flat stream, cut at a positive limit; a limit of zero or below is none |
| SyncReader.SyncStreamReader.ReadLines | src/multiloop/wsgi.py:131-142 | returns the lines of the flat stream until their bytes reach a positive hint |
| SyncReader.SyncStreamReader.NextLine | src/multiloop/wsgi.py:147-151 | iteration returns the next line, and ends with the stream |
| SyncReader.SyncStreamReader.Replay | src/multiloop/wsgi.py:32-151 | any sequence of reads is answered as a cursor over the initial bytes and all chunks up to the end of stream would answer it |
| SyncReader.CallsConserveBytes | src/multiloop/wsgi.py:32-151 | no byte is lost, repeated or reordered by any sequence of reads |
| SyncReader.LineIsLine | src/multiloop/wsgi.py:92-129 | a line is the longest prefix without an inner line feed, within the limit |
| SyncReader.ReadLineStaysWithin | src/multiloop/wsgi.py:92-112 | `readline(n)` returns at most `n` bytes, and the line of a reader limited to `n`, if and only if `n` is positive or nothing is left; `readline(0)` takes a whole line |
| ReaderAnswers.ReadTakesSoMany | src/multiloop/wsgi.py:56-90 | a read returns exactly as many bytes as it asks for, or all there are; the iterator ends exactly at the end of the stream |
| ReaderAnswers.LinesUntilHint | src/multiloop/wsgi.py:131-142 | `readlines` stops exactly when its lines reach a positive hint or nothing is left |
| WsgiChunked.ReadChunkedBody | src/multiloop/wsgi.py:214-259 | the decoder that reads as it goes returns what the decoder of the whole stream returns, errors included, on every stream without negative sizes |
| WsgiChunked.AssembleDecodes | src/multiloop/wsgi.py:214-259 | without negative sizes its answer depends on the bytes of the stream and its end alone, not on how they arrive |
| WsgiChunked.ChunkedBodyReadsBack | src/multiloop/wsgi.py:214-259 | on the chunks of a streamed response it returns exactly the concatenated pieces if they are within the limit, and the size error otherwise |
| WsgiChunked.ReceiveUntil | src/multiloop/wsgi.py:219-226 | waiting for more bytes ends with enough, or with how the stream ended |
| WsgiSizes.PaddedSizeIsRead | src/multiloop/wsgi.py:229-233 | blanks around a size, and an extension behind it, make no difference to how a stream is decoded |
| WsgiArrivals.AnswersAreThePossible | src/multiloop/wsgi.py:214-259 | for every stream, negative sizes included: an answer is given under some arrival of its bytes if and only if it is among those computed from the flat bytes |
| WsgiArrivals.ArrivalsAgreeExactlyWhen | src/multiloop/wsgi.py:214-259 | corollary: all arrivals of a stream agree if and only if the flat bytes allow one answer |
| WsgiArrivals.OnlyTheFlatAnswer | src/multiloop/wsgi.py:214-259 | a stream without negative sizes has one possible answer, that of the whole stream |
| WsgiArrivals.NegativeSizesDependOnArrival | src/multiloop/wsgi.py:229-256 | for every size line with a negative number that passes the limit check, a whole stream that begins with it and is answered differently when it arrives in two parts than at once |
| WsgiArrivals.VeryNegativeSizesAreSkipped | src/multiloop/wsgi.py:249-256 | a negative size larger than all that follows it is skipped under every arrival: such streams still agree |
| WsgiArrivals.BodyWithinLimit | src/multiloop/wsgi.py:249-256 | without negative sizes an accepted body is within the limit |
| WsgiArrivals.NegativeSizesPassTheLimit | src/multiloop/wsgi.py:249-256 | with one size of -2 a body beyond any limit is accepted |
| WsgiArrivals.SafeExactlyWhen | src/multiloop/wsgi.py:214-259 | a size line is answered alike under all arrivals of every stream that begins with it and has no negative size behind its chunk, if and only if its size is not negative |
| WsgiArrivals.NegativeChunkDependsOnArrival | src/multiloop/wsgi.py:241-256 | the same behind the size line: the bytes that tell are given for every negative size |
| WsgiArrivals.NoNegativeDecodes | src/multiloop/wsgi.py:214-259 | a stream none of whose size lines is negative is decoded to a body or one of the errors of the source |
| Channel.RawAsyncChannel.TrySend | src/channel.rs:235-270 | its whole effect as one atomic step: hands the item to the oldest getter and wakes senders for free slots, or buffers it, poking a select, or refuses |
| Channel.RawAsyncChannel.TryRecv | src/channel.rs:272-293 | its whole effect as one atomic step: takes the oldest item and wakes the oldest sender of a bounded channel |
| Channel.RawAsyncChannel.RegisterGetter | src/channel.rs:295-327 | its whole effect as one atomic step: takes an item or parks |
| Channel.RawAsyncChannel.UnregisterGetter | src/channel.rs:329-355 | its whole effect as one atomic step: leaves the queue, or passes a wake-up on |
| Channel.RawAsyncChannel.RegisterPutter | src/channel.rs:357-376 | its whole effect as one atomic step: parks unless there is room and nobody waits |
| Channel.RawAsyncChannel.UnregisterPutter | src/channel.rs:378-396 | its whole effect as one atomic step: leaves the queue, or passes a wake-up on |
| Channel.RawAsyncChannel.RegisterSelectWatcher | src/channel.rs:398-418 | its whole effect as one atomic step: parks only while the channel is open and empty |
| Channel.RawAsyncChannel.UnregisterSelectWatcher | src/channel.rs:420-425 | its whole effect as one atomic step: leaves the queue |
| Channel.RawAsyncChannel.ForwardSelectWakeup | src/channel.rs:427-443 | its whole effect as one atomic step: pokes the next select while an item is there for it |
| Channel.RawAsyncChannel.Close | src/channel.rs:181-211 | its whole effect as one atomic step: fails every getter and sender and pokes every select, once |
| ChannelFutures.WakeFut | src/multiloop/primitives.py:94-122 | completes the future once; when it is done already, an item that is no error is sent again unless the channel is closed; either way the new channel and future are what landing the item makes of any account of items that described the old ones |
| ChannelProtocol.AlwaysValid | src/channel.rs:235-327 | in every reachable state parked getters imply an empty buffer, a closed channel has no waiters and an unbounded one no parked sender |
| ChannelProtocol.ClosedForEver | src/channel.rs:181-211 | once closed, no waiter is ever queued and the buffer only drains |
| ChannelProtocol.ChannelIsFifo | src/channel.rs:235-355 | after any steps by anybody, the accepted items are the delivered ones followed by the buffer |
| ChannelProtocol.NoOvertaking | src/channel.rs:272-327 | no receiver gets an item from the buffer while a getter is parked |
| ChannelProtocol.WaitersAreFifo | src/channel.rs:235-443 | getters, senders and selects are each served in the order they registered |
| ChannelProtocol.NobodyIsForgotten | src/channel.rs:181-443 | a parked waiter stays parked until it is served, leaves by itself, or is told that the channel was closed |
| ChannelProtocol.EveryChannelIsFifo | src/channel.rs:235-355 | from the open channel on: the invariant holds and what was accepted is what was delivered and what is buffered |
| ChannelAnswers.RoomMeansRoom | src/channel.rs:357-376 | on an open channel `register_putter` says yes only with the state as it was and the next send of any item accepted; it says no exactly if a sender is parked or the bounded buffer is full, and then the future is the last parked sender |
| ChannelAnswers.ReceiveWakesTheSender | src/channel.rs:272-293 | on every open, full channel: the sender that parks first is woken, alone, by the receive that makes room |
| ChannelAnswers.SendAnswers | src/channel.rs:235-270 | a send is refused exactly if the channel is closed, or full with nobody to take the item, and then changes nothing |
| ChannelAnswers.AcceptedItemGoesTo | src/channel.rs:235-270 | an accepted item is handed to the oldest parked receiver, else joins the buffer and the oldest parked select is told |
| ChannelAnswers.RegisterReceives | src/channel.rs:295-327 | registering a receiver answers what a receive would have answered; only where that finds nothing it parks, and if it is the first the next item sent is handed to it |
| ChannelAnswers.WatcherParksExactlyWhen | src/channel.rs:398-418 | a select parks exactly where a receive would find neither an item nor the error |
| ChannelAnswers.LeavingAnswers | src/channel.rs:329-425 | for each kind of waiter: giving up is answered by whether it was still queued, and then takes nothing but that away |
| ChannelAnswers.ServedAndGone | src/channel.rs:329-396 | a receiver that gives up after it was served passes on what is buffered, to a select as no receiver is ever parked beside an item; a sender passes on the room it was told of |
| ChannelAnswers.CloseTellsEverybody | src/channel.rs:181-211 | closing wakes every waiter once; afterwards sends fail, buffered items are still received, and then every call is answered with the error |
| ChannelWakeups.NoSenderSleepsBesideASlot | src/channel.rs:235-293 | while a sender is parked, buffered items and unused sender wake-ups together fill the channel, through barging, hand-offs and cancellation of woken senders |
| ChannelWakeups.NoSelectSleepsBesideAnItem | src/channel.rs:398-443 | all along a run every buffered item has a poke under way while a select sleeps, if and only if every select given up on the way was not poked, or nobody else slept, or a poke was to spare |
| ChannelWakeups.AbandonedSelectLosesAWakeup | src/multiloop/primitives.py:518-520 | a run from the open channel: two selects park, an item is sent, the poked select is given up, and the item stays beside the other one |
| ChannelWakeups.CapacityHolds | src/channel.rs:251-264 | while the buffer is non-empty, items and parked watchers are at most the larger of the capacity and the watchers parked when it last became non-empty |
| ChannelWakeups.CapacityWithoutSelects | src/channel.rs:251-264 | in runs without selects the buffer never exceeds the capacity |
| ChannelWakeups.SelectsStretchTheCapacity | src/channel.rs:251-258 | a concrete case: two parked watchers let two items into a channel of capacity one |
| ChannelWakeups.NoSenderEverSleepsBesideASlot | src/channel.rs:235-293 | the same in every state reachable from the open channel |
| ChannelWakeups.GiveUpExactlyWhen | src/multiloop/primitives.py:518-520 | giving up a select leaves no item beside a sleeping one if and only if it was not poked, or nobody else sleeps, or a poke is to spare |
| ChannelWakeups.NoSelectEverSleepsBesideAnItem | src/channel.rs:398-443 | the run theorem from the open channel |
| ChannelWakeups.CapacityAlwaysHolds | src/channel.rs:251-264 | the bound in every state reachable from the open channel |
| ChannelWakeups.CapacityExactlyWhen | src/channel.rs:235-264 | a bounded buffer stays within its capacity all along a run if and only if no send of the run finds it open and full, without a getter and with a parked watcher |
| ChannelWakeups.StretchExactlyWhen | src/channel.rs:235-264 | a step takes the buffer past its capacity if and only if it is such a send |
| ChannelReceivers.NothingIsLostOrDuplicated | src/multiloop/primitives.py:94-122 | whatever receivers are cancelled and whenever: the sent items are, as a multiset, those buffered, under way, taken, in receive futures, or dropped by a refused resend |
| ChannelReceivers.OpenUnboundedDropsNothing | src/multiloop/primitives.py:115-122 | on an open unbounded channel no resend is refused |
| ChannelReceivers.DropsExactlyWhen | src/multiloop/primitives.py:107-122 | an item is dropped exactly when it comes back to a closed channel, or to a full one nobody waits on |
| ChannelReceivers.BoundedChannelLosesAnItem | src/multiloop/primitives.py:115-122 | a run from the open channel in which a bounded channel drops the item of a cancelled receiver |
| ChannelReceivers.NothingIsEverLostOrDuplicated | src/multiloop/primitives.py:94-122 | the account in every state reachable from the open channel |
| WaiterQueue.WakeInOrder | src/multiloop/_sync.py:115-130 | waking passes over closed loops and keeps the order of everybody else |
| WaiterQueue.WakeKeepsOpen | src/multiloop/_sync.py:115-130 | nobody on an open loop is lost from the queue by a wake-up |
| WaiterQueue.WakesTheFirst | src/multiloop/_sync.py:115-130 | exactly the first `n` waiters on open loops are woken, or all of them if there are fewer |
| CapacityLimiter.CapacityLimiter.Acquire | src/multiloop/_sync.py:346-361 | its whole effect, closed loops passed over: takes a token below the capacity, or parks |
| CapacityLimiter.CapacityLimiter.CancelWaiter | src/multiloop/_sync.py:363-377 | its whole effect, closed loops passed over: leaves the queue, or hands the granted token on unless the total has shrunk |
| CapacityLimiter.CapacityLimiter.Release | src/multiloop/_sync.py:379-397 | its whole effect, closed loops passed over: gives a token back and hands it to the next open waiter below the capacity |
| CapacityLimiter.CapacityLimiter.SetTotal | src/multiloop/_sync.py:314-326 | its whole effect, closed loops passed over: sets the total and hands tokens to waiters up to it |
| CapacityLimiter.TokensAreConserved | src/multiloop/_sync.py:314-397 | under resizing, closed loops and cancellation before or after the grant: borrowed equals holders plus tokens under way, and a parked task means borrowed has reached the capacity |
| CapacityLimiter.NeverRisesAtCapacity | src/multiloop/_sync.py:314-397 | the borrowed count only rises below the capacity, and only up to it |
| CapacityLimiter.NobodyIsOvertaken | src/multiloop/_sync.py:346-355 | a token taken at once passes no waiter |
| CapacityLimiter.GrantsAreFifo | src/multiloop/_sync.py:314-397 | tokens go to waiters in the order they came; only cancelled or stranded ones are skipped |
| CapacityLimiter.HoldersMayLeave | src/multiloop/_sync.py:379-385 | a holder's release is never refused |
| CapacityLimiter.TokensAreAlwaysConserved | src/multiloop/_sync.py:314-397 | the same in every state reachable from a fresh limiter of any total |
| Semaphore.Semaphore.Acquire | src/multiloop/_sync.py:196-211 | its whole effect, closed loops passed over: takes a permit or parks |
| Semaphore.Semaphore.CancelWaiter | src/multiloop/_sync.py:213-227 | its whole effect, closed loops passed over: leaves the queue, or hands the granted permit on or back |
| Semaphore.Semaphore.Release | src/multiloop/_sync.py:229-247 | its whole effect, closed loops passed over: hands the permit to the next open waiter, or back |
| Semaphore.PermitsAreConserved | src/multiloop/_sync.py:196-247 | value, held permits and permits under way add up to the maximum, and a parked task means the value is zero, given releases by holders only |
| Semaphore.LegalReleaseSucceeds | src/multiloop/_sync.py:229-247 | a holder's release is never refused |
| Semaphore.PermitsAreAlwaysConserved | src/multiloop/_sync.py:196-247 | the same in every state reachable from a fresh semaphore |
| Semaphore.NobodyIsOvertaken | src/multiloop/_sync.py:196-215 | a permit taken at once passes nobody |
| Semaphore.GrantsAreFifo | src/multiloop/_sync.py:196-247 | over whole runs permits go to the waiters in the order they came; only cancelled ones and those on closed loops are passed over |
| Lock.Lock.Acquire | src/multiloop/_sync.py:60-88 | its whole effect: refuses the owner, replaces a finished owner, then takes the lock or parks |
| Lock.Lock.CancelWaiter | src/multiloop/_sync.py:89-96 | its whole effect: leaves the queue, or hands a granted lock on |
| Lock.Lock.Release | src/multiloop/_sync.py:98-113 | its whole effect: refuses anyone but the owner, then hands over |
| Lock.Lock.ReleaseLocked | src/multiloop/_sync.py:115-130 | its whole effect: hands the lock to the first waiter that can run, or frees it |
| LockProtocol.LockIsSafe | src/multiloop/_sync.py:60-130 | after any steps: at most one unfinished task is inside and it owns the lock; a free lock has no waiters; whoever waits and can run is queued or granted |
| LockProtocol.HandOverIsFifo | src/multiloop/_sync.py:115-130 | the lock goes to waiters in the order they came; only cancelled, finished or stranded ones are skipped |
| LockProtocol.StepKeepsSound | src/multiloop/_sync.py:60-130 | every step of every task keeps the account of who is inside, waits or owns |
| Condition.Condition.PopWaiters | src/multiloop/_sync.py:590-597 | takes up to n waiters from the front |
| Condition.Condition.Notify | src/multiloop/_sync.py:569-580 | pops up to n waiters and wakes those on open loops |
| Condition.Condition.NotifyAll | src/multiloop/_sync.py:582-586 | empties the queue |
| Condition.Condition.ForwardNotify | src/multiloop/_sync.py:603-611 | wakes the next waiter on an open loop |
| Condition.Condition.DiscardWaiter | src/multiloop/_sync.py:599-601 | tells whether the waiter was still queued |
| ConditionProtocol.NotificationsAreAccountedFor | src/multiloop/_sync.py:514-622 | every notification returned from `wait`, is with a task still in it, was spent with no waiter left, or was lost on a closed loop; whoever can run and was not told is queued |
| ConditionProtocol.ExitHoldsTheLock | src/multiloop/_sync.py:534-622 | whoever is behind the loop that takes the lock again, and so whoever leaves `wait` after parking, normally or cancelled, owns the lock in every reachable state; leaving is not guarded by that |
| ConditionProtocol.SpentOnlyWithNobodyLeft | src/multiloop/_sync.py:603-611 | a cancelled task's notification vanishes only when no waiter is left |
| ConditionProtocol.LostExactlyOnClosedLoops | src/multiloop/_sync.py:569-580 | `notify` loses a notification exactly when it pops a waiter on a closed loop |
| ConditionProtocol.NotifyLosesToAStrandedWaiter | src/multiloop/_sync.py:569-580 | the stranded waiter at the front is picked and the one behind it, which could run, sleeps on |
| ConditionProtocol.StepKeepsSound | src/multiloop/_sync.py:514-622 | every step of the lock and of `wait` keeps both accounts |
| ConditionProtocol.CancellationIsRemembered | src/multiloop/_sync.py:613-622 | a cancellation that meets the loop sends the task back to `acquire`, is never forgotten and never ends in a normal return; `acquire` never finds the task to be the owner already |
| ConditionProtocol.ANotificationGetsLost | src/multiloop/_sync.py:569-580 | a run from the start: two tasks park, the loop of the first is closed, and the one notification is lost while the second sleeps |
| ConditionOrder.NotificationsAreFifo | src/multiloop/_sync.py:569-611 | over whole runs notifications, first hand and forwarded, reach the waiters in the order they parked; only cancelled ones and those on closed loops are passed over |
| Barrier.Barrier.Arrive | src/multiloop/_sync.py:700-718 | its whole effect: fails when aborted or broken, completes the round and deals the indices, or parks |
| Barrier.Barrier.CancelWaiter | src/multiloop/_sync.py:720-734 | its whole effect: breaks the round of the cancelled party, if it is still the current one |
| Barrier.Barrier.Resume | src/multiloop/_sync.py:736-743 | its whole effect: the index, or the error of an aborted, broken or reset round |
| Barrier.Barrier.Abort | src/multiloop/_sync.py:745-757 | its whole effect: empties the queue and breaks the barrier |
| Barrier.Barrier.Reset | src/multiloop/_sync.py:759-772 | its whole effect: empties the queue and starts a new generation |
| Barrier.RoundsHandOutEachIndexOnce | src/multiloop/_sync.py:691-772 | after any arrivals, cancellations, aborts and resets: fewer than `parties` wait; every completed round has one party per index 0 .. parties - 1, which gets exactly that index or was cancelled by its own task and is never failed; every index handed out is one of these |
| Barrier.StepKeepsSound | src/multiloop/_sync.py:691-772 | every step keeps the completed rounds, the boxes and the generations consistent |
| Barrier.CompleteKeeps | src/multiloop/_sync.py:705-716 | the last arrival deals every waiting party its index |
| BarrierStates.ShutUntilReset | src/multiloop/_sync.py:691-772 | over runs: once the barrier is broken or aborted, whatever happens short of a reset, everybody who comes fails, nobody is queued and no round is completed |
| BarrierStates.ShutsExactlyBy | src/multiloop/_sync.py:718-757 | a sound barrier shuts by a step if and only if that is an abort, or the cancellation of a party whose round is not over |
| BarrierStates.ResetServesAgain | src/multiloop/_sync.py:759-772 | after a reset, whatever happened before, the next full number of newcomers completes a round in the order of their arrival, the last one first |
| BarrierStates.NewcomersCompleteTheRound | src/multiloop/_sync.py:699-716 | as many newcomers as a round needs complete it, with those already queued, in the order of arrival |
| RwLock.RawAsyncRWMutex.TryAcquireRead | src/rwlock.rs:45-53 | its whole effect: admits a reader unless a writer holds or waits |
| RwLock.RawAsyncRWMutex.AcquireReadOrRegister | src/rwlock.rs:56-65 | its whole effect: the same, or parks |
| RwLock.RawAsyncRWMutex.ReleaseRead | src/rwlock.rs:69-85 | its whole effect: lets the next writer in after the last reader |
| RwLock.RawAsyncRWMutex.TryAcquireWrite | src/rwlock.rs:87-95 | its whole effect: admits a writer into the free lock only |
| RwLock.RawAsyncRWMutex.AcquireWriteOrRegister | src/rwlock.rs:98-108 | its whole effect: the same, or parks |
| RwLock.RawAsyncRWMutex.ReleaseWrite | src/rwlock.rs:112-129 | its whole effect: lets the next writer or all readers in |
| RwLock.RawAsyncRWMutex.RemoveWaiter | src/rwlock.rs:133-157 | its whole effect: takes a queued waiter out and lets the readers in that the last queued writer kept out |
| RwLockProtocol.ReadersAndWriters | src/rwlock.rs:45-157 | after any steps: a writer inside is alone, the pending count is the writer queue's length, and while nobody was cancelled after being admitted the counts are those inside or admitted and every parked task waits for somebody |
| RwLockProtocol.WritersGoFirst | src/rwlock.rs:45-157 | no reader is admitted, at once or later, while a writer waits |
| RwLockProtocol.WritersAreFifo | src/rwlock.rs:69-157 | writers are admitted in the order they came |
| RwLockProtocol.CountsAreExact | src/rwlock.rs:133-157 | after any run from the free lock the reader count is that of readers inside or admitted if and only if no step of the run cancelled an admitted reader; likewise the writer flag |
| RwLockProtocol.LostReadShutsWritersOut | src/rwlock.rs:133-157 | after one lost read admission no writer ever gets in, in any run |
| RwLockProtocol.StepKeepsSound | src/rwlock.rs:45-157 | every step keeps exclusion, the counts and the reasons for waiting |
| RwLockProtocol.LostWriteShutsEverybodyOut | src/rwlock.rs:133-157 | after one lost write admission no reader and no writer ever gets in, in any run |
| RwLockProtocol.AdmissionsGetLost | src/rwlock.rs:133-157 | runs from the free lock that lose a write and a read admission |
| RwLockCancels.CancelledIsNeverAdmitted | src/rwlock.rs:133-157 | over runs: a reader or writer that is cancelled, queued or admitted already, is never queued and never let in again |
| RwLockCancels.OthersKeepWaiting | src/rwlock.rs:133-157 | everybody else keeps waiting, but for the readers, who come in together exactly if no writer is left in the queue or inside |
| SyncAnswers.LockAcquireAnswers | src/multiloop/_sync.py:60-96 | the owner is refused, a free lock is taken, a held one waited for; that of a finished owner goes to the first waiter that can run, else to the newcomer |
| SyncAnswers.LockReleaseAnswers | src/multiloop/_sync.py:98-130 | anybody but the owner gets the error and changes nothing; the first waiter that can run becomes the owner and is woken, else the lock is free |
| SyncAnswers.LockCancelAnswers | src/multiloop/_sync.py:60-96 | a cancelled waiter leaves the queue, or passes on the lock it owns already, or leaves the lock alone |
| SyncAnswers.SemaphoreReleaseAnswers | src/multiloop/_sync.py:213-247 | a release beyond the maximum is an error that changes nothing; otherwise, as for a waiter cancelled after its grant, the permit goes to the first waiter that can run or is free again |
| SyncAnswers.LimiterReleaseAnswers | src/multiloop/_sync.py:379-397 | a release without a borrowed token is an error that changes nothing; otherwise the token goes to the first waiter that can run, unless more is still borrowed than the capacity |
| SyncAnswers.LimiterResizeAnswers | src/multiloop/_sync.py:314-327 | a total that is not positive is an error that changes nothing; otherwise exactly as many of the waiters that can run are let in, in order, as there is room for |
| SyncAnswers.NotifyAnswers | src/multiloop/_sync.py:569-597 | `notify(n)` takes out the first `n` waiters, or all, and wakes those among them that can run |
| SyncAnswers.BarrierArriveAnswers | src/multiloop/_sync.py:691-716 | an arrival fails exactly at a barrier broken or aborted and not reset; it passes with index 0 and wakes all others exactly if it makes up the number; otherwise it waits |
| SyncAnswers.PartiesFillTheRound | src/multiloop/_sync.py:691-716 | as many arrivals as are missing: all wait, and the last one passes |
| SyncAnswers.CompleteRoundPasses | src/multiloop/_sync.py:705-743 | every party of a complete round passes with its place in the order of arrival, even if the barrier is aborted or reset before it runs on |
| SyncAnswers.EndedRoundFails | src/multiloop/_sync.py:718-772 | a cancelled party, an abort or a reset wakes all who wait, and they fail |
| SyncAnswers.LeaveAnswers | src/rwlock.rs:69-131 | the last reader to leave lets the first waiting writer in; a writer that leaves lets the next one in, or else all waiting readers |
| Pool.NativeWorkerPool.PushGlobal | src/pool.rs:106-127 | its whole effect: accepts a task while open |
| Pool.NativeWorkerPool.PushLocal | src/pool.rs:129-167 | its whole effect: accepts a task into the worker's queue, or the global one when that is full |
| Pool.NativeWorkerPool.PopWork | src/pool.rs:169-254 | its whole effect: own buffer, then a batch from the global queue, then the own queue, then the error when closed and empty |
| Pool.NativeWorkerPool.PullBatch | src/pool.rs:194-213 | its whole effect: moves the batch, and no more |
| Pool.NativeWorkerPool.DrainedNow | src/pool.rs:89-104 | its whole effect: tells whether every queue and buffer is empty |
| Pool.NativeWorkerPool.Close | src/pool.rs:66-72 | its whole effect: drops both kinds of senders, then sets the flag |
| PoolProtocol.TasksAreConserved | src/pool.rs:106-255 | accepted tasks are, as a multiset, those queued plus those returned |
| PoolProtocol.LocalTasksAreFifo | src/pool.rs:129-233 | a worker's own queue is returned to that worker alone, in push order |
| PoolProtocol.GlobalTasksInOrder | src/pool.rs:169-226 | each worker gets global tasks in push order, batches included |
| PoolProtocol.PopLeavesOthersAlone | src/pool.rs:169-233 | a pop touches no other worker's queue or buffer |
| PoolProtocol.StepKeepsBounded | src/pool.rs:175-222 | buffers hold fewer than a batch between calls, queues at most their capacity |
| PoolProtocol.DrainingPopAnswers | src/pool.rs:235-246 | after close, a worker gets a task, or the error once nothing is left for it |
| PoolProtocol.TaskUsesUpWork | src/pool.rs:169-233 | a returned task is one task less |
| PoolProtocol.DrainingEnds | src/pool.rs:169-246 | after close, tasks returned and tasks left add up to what was there |
| PoolProtocol.AllDismissedMeansDrained | src/pool.rs:89-104 | once every worker got the error the pool is drained, and stays so |
| PoolProtocol.TasksAreAlwaysConserved | src/pool.rs:106-255 | the same from a fresh pool of any size |
| PoolService.PopServesTheLine | src/pool.rs:169-246 | a pop returns the front of the worker's buffer, the global queue where it may look there, and its own queue, in this order, and takes it off; it returns none exactly if all are empty: the error when closed, no work when open |
| PoolService.NoWorkExactlyWhen | src/pool.rs:169-246 | an open pool has no work for a worker if and only if its buffer and its own queue are empty and it does not poll or the global queue is empty |
| PoolService.PollingGetsEverything | src/pool.rs:169-246 | over runs: a worker that keeps polling gets every task ahead of it, in order, and only then no work |
| PoolService.AllIdleMeansDrained | src/pool.rs:89-104 | in every interleaving without pushes: once every worker has polled and been told that there is no work, every task has been handed out |
| PoolService.PushedTaskIsInLine | src/pool.rs:129-167 | a task pushed to a worker is the last in its line, or in the global queue when its own is full |
| PoolService.PulledIsAShare | src/pool.rs:184-222 | what is taken off the global queue at once: all that fits into a batch when draining, else the smallest share with which all workers would leave nothing, in order |
| PoolService.DrainedMeansEmpty | src/pool.rs:89-104 | a pool is drained if and only if it holds no task anywhere |

## Left out

- The grammar of the request line and header lines: the parser is a parameter that takes some, and only available, bytes. Segmentation claims start behind the header, because the header size check looks at all unread bytes.
- UTF-8 validity, trimming and radix parsing are parameters; `Text.StandardParserIsSane` shows that the standard radix parser meets the one assumption made of it. The integer parser of the WSGI decoder is a parameter that reads back what the chunk writer writes.
- The text of error responses: an error event carries the status and which complaint it is.
- Lengths are unbounded where the source adds machine words (`src/http.rs:782`, `src/http.rs:796`, `src/http.rs:913`); parsed numbers are bounded by the word.
- The in-memory mode of `SyncStreamReader` and its `readinto`, which only forward to other readers; a receive that never returns.
- Read timeouts of the WSGI worker are modelled as a stream that raises; its request header parsing and environment are not modelled.
- The older `Channel` on top of a library queue (`src/channel.rs:10-77`) and the Python fall-back paths of the primitives, which repeat machines modelled here.
- Wake-ups are delivered reliably: a channel waiter on a closed loop loses its wake-up, and with it an item handed to it, which the channel model does not show.
- The order in which one channel step hands out wake-ups of different kinds; they are dispatched after the mutex is released and arrive in any order.
- `ChannelReceivers`: an item counts as fulfilled once the future of its receiver is completed. A receiver that is cancelled after that and before it runs on loses it (`src/multiloop/primitives.py:346-350`); the account does not follow the item beyond the future.
- `ChannelProtocol.ChannelIsFifo`: the order is that in which the channel accepts items. An item that comes back from a cancelled receiver is accepted again, at the back, so it may pass behind items the application sent later; when exactly the order of the application's own sends survives cancellation is not stated.
- `Mask.UnmaskSlice`: calls the loops of `UnmaskRaw`, which the source writes out a second time.
- `Channel.send` and the receive loop appear as steps of senders and receivers, not as loops of their own.
- No claim that a `send` makes progress when it is told of room and then refused (`src/multiloop/primitives.py:277-285`): it waits on a future nobody will complete.
- `CapacityLimiter` has real totals, so rounding of floating point totals does not appear.
- `WsLegality`: the values of status codes in close frames (section 7.4 of RFC 6455) are not judged.
- `Lock` and `Condition`: an asyncio event is represented by the grant or notification it carries; cancellations that arrive while a task runs, not while it waits, are left to the task.
- `RwLockProtocol.ReadersAndWriters`: releases are those of tasks inside; the re-entrancy bookkeeping of `src/multiloop/rwlock.py` is not modelled.
- `Pool`: a pop is one step, so two workers never interleave inside one; `polls` stands for the outcome of the poller count, and metrics are not modelled. When a local queue is full, the fall-back push is part of the same step.
- `Barrier`: a party on a closed loop is one that never runs on.
- `AsyncWaitGroup`, `AsyncOnce`, `Event`, metrics and `wait_for`, which would only add easy members.
- `CancelScope`, `TaskGroup`, `AsyncContext` and lifespan, whose meaning rests on the internals of asyncio tasks.
- Servers, sockets, the ASGI bridge, the command line, logging and benchmarks.
