/** The HTTP/1.1 connection engine as a step function over the unread bytes:
    header stage, Content-Length bodies and the chunked decoder (sections 6.3,
    7.1 and 9.3 of RFC 9112). The header grammar is a parameter. */
module HttpMachine {
  import opened Bytes
  import opened Text
  import opened Framing
  import opened Incremental

  type pos = n: nat | n > 0 witness 1

  datatype ChunkedStage = ReadingSize | ReadingData(chunkLen: pos) | ReadingTrailers

  datatype HttpState =
    | WaitingHeader
    | ReceivingContentLength(remaining: pos)
    | ReceivingChunked(stage: ChunkedStage)
    | ServingApp
    | KeepAliveWait
    | Closed

  datatype RequestHead = RequestHead(
    method_: bytes, path: bytes, query: bytes, version: nat, headers: seq<Field>,
    keepAlive: bool, isUpgrade: bool, upgradeProto: bytes)

  // The texts of the engine's own error responses.
  datatype Complaint =
    | BadRequest
    | ConflictingHeaders
    | PayloadTooLarge
    | HeaderTooLarge
    | InvalidEncoding
    | InvalidLength
    | MalformedBoundary

  datatype Event =
    | Start(head: RequestHead, hasBody: bool)
    | Body(data: bytes, more: bool)
    | Upgrade(proto: bytes)
    | Error(status: nat, complaint: Complaint)

  datatype ParseResult =
    | Partial
    | Malformed
    | Complete(offset: nat, method_: Option<bytes>, path: Option<bytes>, version: Option<nat>, fields: seq<Field>)

  datatype Settings = Settings(
    platform: Platform, parse: bytes -> ParseResult,
    maxBodySize: nat, maxHeaderSize: nat, maxKeepaliveRequests: nat)

  /** A complete parse consumes some, and only available, bytes. */
  ghost predicate WellBehaved(cfg: Settings) {
    forall s: bytes | cfg.parse(s).Complete? :: 0 < cfg.parse(s).offset <= |s|
  }

  type Config = s: Settings | WellBehaved(s)
    witness Settings(Platform(_ => true, s => s, (_, _) => None), _ => Partial, 0, 0, 0)

  datatype Conn = Conn(state: HttpState, keepAlive: bool, requestCount: nat, totalBodyReceived: nat)

  const WEBSOCKET := Ascii("websocket")
  const GET := Ascii("GET")
  const SLASH: bytes := [47]
  const QUESTION: byte := 63

  predicate Resting(c: Conn) {
    c.state.Closed? || c.state.ServingApp?
  }

  predicate InChunks(c: Conn) {
    c.state.ReceivingChunked? || Resting(c)
  }

  /** A step never overruns the input, consumes some of it unless it breaks off,
      and breaks off only into a state that takes no further step. */
  ghost predicate Proper(t: Step<Conn, Event>, unread: bytes) {
    t.Take? ==>
      t.used <= |unread| && (t.stop || t.used > 0) && (t.stop ==> Resting(t.st))
  }

  /** `emit_error`: close the connection, report, and leave the loop. */
  function Abort(c: Conn, used: nat, status: nat, complaint: Complaint): Step<Conn, Event> {
    Take(used, c.(state := Closed), [Error(status, complaint)], true)
  }

  // ---------------------------------------------------------------- bodies

  function LengthStep(c: Conn, remaining: pos, unread: bytes): (t: Step<Conn, Event>)
    ensures Proper(t, unread)
  {
    if unread == [] then Wait
    else
      var consume := if |unread| < remaining then |unread| else remaining;
      var left := remaining - consume;
      Take(consume, c.(state := if left > 0 then ReceivingContentLength(left) else ServingApp),
           [Body(unread[..consume], left > 0)], false)
  }

  /** The rest of reading a chunk size, once its line of `used` bytes has been found. */
  function SizeTextStep(cfg: Config, c: Conn, sizeText: bytes, used: pos): (t: Step<Conn, Event>)
    ensures t.Take? ==> t.used <= used && (t.stop || t.used > 0) && (t.stop ==> Resting(t.st)) && InChunks(t.st)
  {
    if !cfg.platform.isUtf8(sizeText) then Abort(c, 0, 400, InvalidEncoding)
    else SizeValueStep(cfg.maxBodySize, c, cfg.platform.parseRadix(cfg.platform.trim(sizeText), 16), used)
  }

  function SizeValueStep(maxBodySize: nat, c: Conn, size: Option<usize>, used: pos): (t: Step<Conn, Event>)
    ensures t.Take? ==> t.used <= used && (t.stop || t.used > 0) && (t.stop ==> Resting(t.st)) && InChunks(t.st)
  {
    if size.None? then Abort(c, 0, 400, InvalidLength)
    else if size.value == 0 then Take(used, c.(state := ReceivingChunked(ReadingTrailers)), [], false)
    else
      var counted := c.(totalBodyReceived := c.totalBodyReceived + size.value);
      if counted.totalBodyReceived > maxBodySize then Abort(counted, used, 413, PayloadTooLarge)
      else Take(used, counted.(state := ReceivingChunked(ReadingData(size.value))), [], false)
  }

  function SizeStep(cfg: Config, c: Conn, unread: bytes): (t: Step<Conn, Event>)
    ensures Proper(t, unread) && (t.Take? ==> InChunks(t.st))
  {
    var end := Find(unread, CRLF);
    if end.None? then Wait
    else SizeTextStep(cfg, c, Before(unread[..end.value], SEMICOLON), end.value + 2)
  }

  function DataStep(c: Conn, chunkLen: pos, unread: bytes): (t: Step<Conn, Event>)
    ensures Proper(t, unread) && (t.Take? ==> InChunks(t.st))
  {
    if |unread| < chunkLen + 2 then Wait
    else if unread[chunkLen..chunkLen + 2] != CRLF then Abort(c, 0, 400, MalformedBoundary)
    else Take(chunkLen + 2, c.(state := ReceivingChunked(ReadingSize)), [Body(unread[..chunkLen], true)], false)
  }

  function TrailerStep(c: Conn, unread: bytes): (t: Step<Conn, Event>)
    ensures Proper(t, unread) && (t.Take? ==> InChunks(t.st))
  {
    var done := c.(state := ServingApp);
    if CRLF <= unread then Take(2, done, [Body([], false)], false)
    else
      var end := Find(unread, CRLFCRLF);
      if end.None? then Wait else Take(end.value + 4, done, [Body([], false)], false)
  }

  function ChunkStep(cfg: Config, c: Conn, stage: ChunkedStage, unread: bytes): (t: Step<Conn, Event>)
    ensures Proper(t, unread) && (t.Take? ==> InChunks(t.st))
  {
    match stage
    case ReadingSize => SizeStep(cfg, c, unread)
    case ReadingData(n) => DataStep(c, n, unread)
    case ReadingTrailers => TrailerStep(c, unread)
  }

  // --------------------------------------------------------------- headers

  function LowerNames(fields: seq<Field>): seq<Field> {
    if fields == [] then []
    else
      var rest := LowerNames(fields[1..]);
      if fields[0].name == [] then rest else [Field(ToLower(fields[0].name), fields[0].value)] + rest
  }

  function Head(p: ParseResult, s: Scan): RequestHead
    requires p.Complete?
  {
    var full := if p.path.Some? then p.path.value else SLASH;
    var path := Before(full, QUESTION);
    RequestHead(if p.method_.Some? then p.method_.value else GET,
                path,
                if |path| < |full| then full[|path| + 1..] else [],
                VersionOf(p), LowerNames(p.fields), s.keepAlive, s.isUpgrade, s.upgradeProto)
  }

  function VersionOf(p: ParseResult): nat
    requires p.Complete?
  {
    if p.version.Some? then p.version.value else 1
  }

  /** What follows a complete header: reject, upgrade, or start a request and
      deliver the part of a Content-Length body that has already arrived. */
  function RequestStep(cfg: Config, c: Conn, s: Scan, head: RequestHead, offset: nat, unread: bytes)
    : (t: Step<Conn, Event>)
    requires 0 < offset <= |unread|
    ensures Proper(t, unread)
  {
    var counted := c.(requestCount := c.requestCount + 1);
    var started := counted.(keepAlive := s.keepAlive);
    if Rejects(s) then Abort(counted, offset, 400, ConflictingHeaders)
    else if s.isUpgrade && s.upgradeProto == WEBSOCKET then
      Take(offset, started.(state := ServingApp), [Start(head, false), Upgrade(s.upgradeProto)], true)
    else if s.isChunked then
      Take(offset, started.(state := ReceivingChunked(ReadingSize)), [Start(head, true)], false)
    else if s.contentLength > 0 then
      if s.contentLength > cfg.maxBodySize then Abort(counted, offset, 413, PayloadTooLarge)
      else
        var available := |unread| - offset;
        var n := if available < s.contentLength then available else s.contentLength;
        var left := s.contentLength - n;
        Take(offset + n,
             started.(state := if left > 0 then ReceivingContentLength(left) else ServingApp),
             [Start(head, true)] + if n > 0 then [Body(unread[offset..offset + n], left > 0)] else [], false)
    else
      Take(offset, started.(state := ServingApp), [Start(head, false)], false)
  }

  function HeaderStep(cfg: Config, c: Conn, unread: bytes): (t: Step<Conn, Event>)
    ensures Proper(t, unread)
  {
    if unread == [] then Wait
    else if |unread| > cfg.maxHeaderSize then Abort(c, 0, 431, HeaderTooLarge)
    else
      var p := cfg.parse(unread);
      if p.Partial? then Wait
      else if p.Malformed? then Abort(c, 0, 400, BadRequest)
      else
        var s := ScanAll(cfg.platform, VersionOf(p), p.fields);
        RequestStep(cfg, c, s, Head(p, s), p.offset, unread)
  }

  /** One iteration of the event loop. */
  function ConnStep(cfg: Config, c: Conn, unread: bytes): (t: Step<Conn, Event>)
    ensures Proper(t, unread)
  {
    match c.state
    case Closed => Wait
    case ServingApp => Wait
    case WaitingHeader => HeaderStep(cfg, c, unread)
    case KeepAliveWait => HeaderStep(cfg, c, unread)
    case ReceivingContentLength(remaining) => LengthStep(c, remaining, unread)
    case ReceivingChunked(stage) => ChunkStep(cfg, c, stage, unread)
  }

  /** `reset_for_next_request`. */
  function NextRequest(cfg: Config, c: Conn): Conn {
    if !c.state.ServingApp? then c
    else
      c.(totalBodyReceived := 0,
         state := if !c.keepAlive || c.requestCount >= cfg.maxKeepaliveRequests then Closed else KeepAliveWait)
  }

  function Engine(cfg: Config): Stepper<Conn, Event> {
    (c: Conn, unread: bytes) => ConnStep(cfg, c, unread)
  }

  const ANY: Conn -> bool := _ => true

  lemma ProperIsSound(step: Stepper<Conn, Event>)
    requires forall c: Conn, a: bytes :: Proper(step(c, a), a)
    requires forall c: Conn, a: bytes | Resting(c) :: step(c, a).Wait?
    ensures Sound(step, ANY) && InertAfterStop(step, ANY)
  {
  }

  lemma EngineIsSound(cfg: Config)
    ensures Sound(Engine(cfg), ANY) && InertAfterStop(Engine(cfg), ANY)
  {
    ProperIsSound(Engine(cfg));
  }
}
