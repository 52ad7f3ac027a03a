/** Whole requests: each is delivered as its start and its body, and ends exactly
    where the next one begins; so do pipelined ones, one per reset. */
module Requests {
  import opened Bytes
  import opened Framing
  import opened HttpMachine
  import opened Incremental
  import opened RoundTrip
  import opened Segmentation
  import opened Sequences
  import opened Text

  // How the body of a request is framed (section 6.3 of RFC 9112).
  datatype Payload = NoBody | Announced(body: bytes) | Chunked(pieces: seq<bytes>)

  function PayloadWire(b: Payload): bytes
    requires b.Chunked? ==> b.pieces != []
  {
    match b
    case NoBody => []
    case Announced(body) => body
    case Chunked(pieces) => ChunkStream(pieces)
  }

  function PayloadEvents(b: Payload): seq<Event> {
    match b
    case NoBody => []
    case Announced(body) => [Body(body, false)]
    case Chunked(pieces) => ChunkEvents(pieces)
  }

  /** The body fits the limit, and the header fields announce it. */
  ghost predicate Announces(maxBody: nat, s: Scan, b: Payload) {
    && !Rejects(s) && !(s.isUpgrade && s.upgradeProto == WEBSOCKET)
    && match b
       case NoBody => !s.isChunked && s.contentLength <= 0
       case Announced(body) => !s.isChunked && body != [] && s.contentLength == |body| && |body| <= maxBody
       case Chunked(pieces) => s.isChunked && pieces != [] && Fit(pieces) && |Concat(pieces)| <= maxBody
  }

  // The connection once the request is delivered.
  function Served(c: Conn, s: Scan, b: Payload): Conn {
    c.(state := ServingApp, requestCount := c.requestCount + 1, keepAlive := s.keepAlive,
       totalBodyReceived := if b.Chunked? then |Concat(b.pieces)| else 0)
  }

  function RequestEvents(head: RequestHead, b: Payload): seq<Event> {
    [Start(head, !b.NoBody?)] + PayloadEvents(b)
  }

  lemma RunRests(step: Stepper<Conn, Event>, c: Conn, unread: bytes)
    requires Sound(step, ANY) && step(c, unread).Wait?
    ensures Run(step, ANY, c, unread) == Outcome(c, [], unread, false)
  {
    UnfoldRun(step, ANY, c, unread);
  }

  // One iteration takes the whole request.
  lemma WholeAtOnce(step: Stepper<Conn, Event>, c: Conn, wire: bytes, used: nat, next: bytes, served: Conn,
                    events: seq<Event>)
    requires Sound(step, ANY) && used <= |wire| && wire[used..] == next
    requires step(c, wire) == Take(used, served, events, false) && step(served, next).Wait?
    ensures Run(step, ANY, c, wire) == Outcome(served, events, next, false)
  {
    RunOne(step, ANY, c, wire, step(c, wire), next);
    RunRests(step, served, next);
    assert events + [] == events;
  }

  // The first iteration takes the head, the others the chunks.
  lemma HeadThenChunks(cfg: Config, step: Stepper<Conn, Event>, c: Conn, wire: bytes, used: nat, pieces: seq<bytes>,
                       next: bytes, started: Conn, start: Event)
    requires Dechunks(cfg, step) && Sane(cfg.platform)
    requires pieces != [] && used <= |wire| && wire[used..] == ChunkStream(pieces) + next
    requires Fit(pieces) && |Concat(pieces)| <= cfg.maxBodySize
    requires started.state == ReceivingChunked(ReadingSize) && started.totalBodyReceived == 0
    requires step(c, wire) == Take(used, started, [start], false)
    ensures Run(step, ANY, c, wire)
         == Outcome(started.(state := ServingApp, totalBodyReceived := |Concat(pieces)|),
                    [start] + ChunkEvents(pieces), next, false)
  {
    var rest := ChunkStream(pieces) + next;
    RunOne(step, ANY, c, wire, step(c, wire), rest);
    StreamIsTail(pieces, next);
    ReadStream(cfg, step, started, pieces, next, rest, Run(step, ANY, started, rest), |Concat(pieces)|,
               ChunkEvents(pieces));
  }

  // What the header stage makes of such a request.
  function FirstStep(c: Conn, s: Scan, head: RequestHead, offset: nat, b: Payload): Step<Conn, Event>
    requires b.Chunked? ==> b.pieces != []
  {
    if b.Chunked?
    then Take(offset, Started(c, s, b), [Start(head, true)], false)
    else Take(offset + |PayloadWire(b)|, Served(c, s, b).(totalBodyReceived := c.totalBodyReceived),
              RequestEvents(head, b), false)
  }

  function Started(c: Conn, s: Scan, b: Payload): Conn {
    Served(c, s, b).(state := ReceivingChunked(ReadingSize), totalBodyReceived := c.totalBodyReceived)
  }

  lemma NoBodyStep(cfg: Config, c: Conn, s: Scan, head: RequestHead, offset: nat, wire: bytes)
    requires Announces(cfg.maxBodySize, s, NoBody) && 0 < offset <= |wire|
    ensures RequestStep(cfg, c, s, head, offset, wire) == FirstStep(c, s, head, offset, NoBody)
  {
    assert [Start(head, false)] + [] == [Start(head, false)];
  }

  lemma AnnouncedStep(cfg: Config, c: Conn, s: Scan, head: RequestHead, offset: nat, body: bytes, wire: bytes,
                      next: bytes)
    requires Announces(cfg.maxBodySize, s, Announced(body)) && 0 < offset <= |wire| && wire[offset..] == body + next
    ensures RequestStep(cfg, c, s, head, offset, wire) == FirstStep(c, s, head, offset, Announced(body))
  {
    BodyBehind(wire, offset, body, next);
    var t := RequestStep(cfg, c, s, head, offset, wire);
    assert t.used == offset + |body| && t.events == [Start(head, true)] + [Body(wire[offset..offset + |body|], false)];
  }

  lemma BodyBehind(wire: bytes, offset: nat, body: bytes, next: bytes)
    requires offset <= |wire| && wire[offset..] == body + next
    ensures |wire| - offset >= |body| && wire[offset..offset + |body|] == body
  {
    assert wire[offset..][..|body|] == wire[offset..offset + |body|];
  }

  lemma ChunkedStep(cfg: Config, c: Conn, s: Scan, head: RequestHead, offset: nat, pieces: seq<bytes>, wire: bytes)
    requires Announces(cfg.maxBodySize, s, Chunked(pieces)) && 0 < offset <= |wire|
    ensures RequestStep(cfg, c, s, head, offset, wire) == FirstStep(c, s, head, offset, Chunked(pieces))
  {
  }

  lemma HeadStep(cfg: Config, c: Conn, s: Scan, head: RequestHead, offset: nat, b: Payload, wire: bytes, next: bytes)
    requires Announces(cfg.maxBodySize, s, b) && 0 < offset <= |wire| && wire[offset..] == PayloadWire(b) + next
    ensures RequestStep(cfg, c, s, head, offset, wire) == FirstStep(c, s, head, offset, b)
  {
    match b
    case NoBody => NoBodyStep(cfg, c, s, head, offset, wire);
    case Announced(body) => AnnouncedStep(cfg, c, s, head, offset, body, wire, next);
    case Chunked(pieces) => ChunkedStep(cfg, c, s, head, offset, pieces, wire);
  }

  lemma HeaderMeets(cfg: Config, c: Conn, p: ParseResult, wire: bytes)
    requires c.state.WaitingHeader? || c.state.KeepAliveWait?
    requires 0 < |wire| <= cfg.maxHeaderSize && cfg.parse(wire) == p && p.Complete?
    ensures var s := ScanAll(cfg.platform, VersionOf(p), p.fields);
            0 < p.offset <= |wire| && Engine(cfg)(c, wire) == RequestStep(cfg, c, s, Head(p, s), p.offset, wire)
  {
    assert Engine(cfg)(c, wire) == HeaderStep(cfg, c, wire);
  }

  // The run that starts with that step.
  lemma RunsThrough(cfg: Config, step: Stepper<Conn, Event>, c: Conn, s: Scan, head: RequestHead, offset: nat,
                    b: Payload,
                    wire: bytes, next: bytes)
    requires Dechunks(cfg, step) && Sane(cfg.platform) && c.totalBodyReceived == 0
    requires b.Chunked? ==> b.pieces != [] && Fit(b.pieces) && |Concat(b.pieces)| <= cfg.maxBodySize
    requires offset <= |wire| && wire[offset..] == PayloadWire(b) + next
    requires step(c, wire) == FirstStep(c, s, head, offset, b)
    ensures Run(step, ANY, c, wire) == Outcome(Served(c, s, b), RequestEvents(head, b), next, false)
  {
    if b.Chunked? {
      HeadThenChunks(cfg, step, c, wire, offset, b.pieces, next, Started(c, s, b), Start(head, true));
    } else {
      var n := |PayloadWire(b)|;
      RestsAt(cfg, step, Served(c, s, b), next);
      assert wire[offset + n..] == wire[offset..][n..] == next;
      WholeAtOnce(step, c, wire, offset + n, next, Served(c, s, b), RequestEvents(head, b));
    }
  }

  /** A request that arrives whole, with the bytes of the next one behind it, is
      delivered as its start and its body, and leaves exactly the next one unread. */
  lemma RequestEndsWhereTheNextBegins(cfg: Config, c: Conn, p: ParseResult, b: Payload, wire: bytes, next: bytes)
    requires Sane(cfg.platform) && (c.state.WaitingHeader? || c.state.KeepAliveWait?) && c.totalBodyReceived == 0
    requires 0 < |wire| <= cfg.maxHeaderSize && cfg.parse(wire) == p && p.Complete?
    requires Announces(cfg.maxBodySize, ScanAll(cfg.platform, VersionOf(p), p.fields), b)
    requires wire[p.offset..] == PayloadWire(b) + next
    ensures var s := ScanAll(cfg.platform, VersionOf(p), p.fields);
            RunConn(cfg, c, wire) == Outcome(Served(c, s, b), RequestEvents(Head(p, s), b), next, false)
  {
    var s := ScanAll(cfg.platform, VersionOf(p), p.fields);
    HeaderMeets(cfg, c, p, wire);
    HeadStep(cfg, c, s, Head(p, s), p.offset, b, wire, next);
    EngineDechunks(cfg);
    RunsThrough(cfg, Engine(cfg), c, s, Head(p, s), p.offset, b, wire, next);
  }

  lemma TooMuchUnread(cfg: Config, c: Conn, wire: bytes)
    requires (c.state.WaitingHeader? || c.state.KeepAliveWait?) && |wire| > cfg.maxHeaderSize
    ensures RunConn(cfg, c, wire) == Outcome(c.(state := Closed), [Error(431, HeaderTooLarge)], wire, true)
  {
    EngineIsSound(cfg);
    var t := Take(0, c.(state := Closed), [Error(431, HeaderTooLarge)], true);
    assert Engine(cfg)(c, wire) == HeaderStep(cfg, c, wire) == t;
    RunOne(Engine(cfg), ANY, c, wire, t, wire);
  }

  const TOO_LARGE := Error(431, HeaderTooLarge)

  predicate InHeader(c: Conn) {
    c.state.WaitingHeader? || c.state.KeepAliveWait?
  }

  // A step complains of the header exactly there, and leads to no header.
  ghost predicate ComplainsOnly(t: Step<Conn, Event>, here: bool) {
    t.Take? ==> (TOO_LARGE in t.events <==> here) && !InHeader(t.st)
  }

  lemma RequestComplains(cfg: Config, c: Conn, s: Scan, head: RequestHead, offset: nat, unread: bytes)
    requires 0 < offset <= |unread|
    ensures ComplainsOnly(RequestStep(cfg, c, s, head, offset, unread), false)
  {
  }

  lemma ChunkComplains(cfg: Config, c: Conn, stage: ChunkedStage, unread: bytes)
    ensures ComplainsOnly(ChunkStep(cfg, c, stage, unread), false)
  {
  }

  lemma StepComplains(cfg: Config, c: Conn, unread: bytes)
    ensures ComplainsOnly(ConnStep(cfg, c, unread), InHeader(c) && |unread| > cfg.maxHeaderSize)
  {
    match c.state
    case ReceivingChunked(stage) => ChunkComplains(cfg, c, stage, unread);
    case WaitingHeader => HeaderComplains(cfg, c, unread);
    case KeepAliveWait => HeaderComplains(cfg, c, unread);
    case _ =>
  }

  lemma HeaderComplains(cfg: Config, c: Conn, unread: bytes)
    ensures ComplainsOnly(HeaderStep(cfg, c, unread), |unread| > cfg.maxHeaderSize)
  {
    if unread != [] && |unread| <= cfg.maxHeaderSize {
      var p := cfg.parse(unread);
      if p.Complete? {
        var s := ScanAll(cfg.platform, VersionOf(p), p.fields);
        RequestComplains(cfg, c, s, Head(p, s), p.offset, unread);
      }
    }
  }

  lemma {:induction false} RunComplains(cfg: Config, c: Conn, unread: bytes)
    ensures TOO_LARGE in RunConn(cfg, c, unread).events <==> InHeader(c) && |unread| > cfg.maxHeaderSize
    decreases |unread|
  {
    EngineIsSound(cfg);
    StepComplains(cfg, c, unread);
    UnfoldRun(Engine(cfg), ANY, c, unread);
    var t := ConnStep(cfg, c, unread);
    assert Engine(cfg)(c, unread) == t;
    if t.Take? && !t.stop {
      RunComplains(cfg, t.st, unread[t.used..]);
    }
  }

  /** The header limit counts everything unread, body and next requests included: from any
      state and for any bytes, 431 is answered exactly if a header is expected and more
      than the limit is unread, and then nothing is read. */
  lemma HeaderLimitCountsEverything(cfg: Config, c: Conn, unread: bytes)
    ensures TOO_LARGE in RunConn(cfg, c, unread).events <==> InHeader(c) && |unread| > cfg.maxHeaderSize
    ensures InHeader(c) && |unread| > cfg.maxHeaderSize ==>
              RunConn(cfg, c, unread) == Outcome(c.(state := Closed), [TOO_LARGE], unread, true)
  {
    RunComplains(cfg, c, unread);
    if InHeader(c) && |unread| > cfg.maxHeaderSize {
      TooMuchUnread(cfg, c, unread);
    }
  }

  // "GET / HTTP/1.1" and an empty line
  const SHORT: bytes := [71, 69, 84, 32, 47, 32, 72, 84, 84, 80, 47, 49, 46, 49, 13, 10, 13, 10]

  // A connection with a header limit of 30 bytes, and a parser that knows one request.
  const SMALL := Settings(
    Platform(_ => true, s => s, ParseRadix),
    (wire: bytes) => if SHORT <= wire then Complete(18, Some(GET), Some(SLASH), Some(1), []) else Partial,
    1000, 30, 10)

  const FRESH := Conn(WaitingHeader, true, 0, 0)

  lemma SmallParses(more: bytes)
    ensures WellBehaved(SMALL) && SMALL.parse(SHORT + more) == Complete(18, Some(GET), Some(SLASH), Some(1), [])
  {
    assert SHORT <= SHORT + more;
  }

  const SHORT_HEAD := RequestHead(GET, SLASH, [], 1, [], true, false, [])

  lemma SmallStarts()
    ensures WellBehaved(SMALL)
    ensures HeaderStep(SMALL, FRESH, SHORT)
         == Take(18, Conn(ServingApp, true, 1, 0), [Start(SHORT_HEAD, false)], false)
  {
    SmallParses([]);
    assert SHORT + [] == SHORT;
    assert ScanAll(SMALL.platform, 1, []) == Initial(1);
    assert SLASH[1..] == [] && Before(SLASH, QUESTION) == SLASH;
  }

  lemma RunEndsAt(step: Stepper<Conn, Event>, c: Conn, unread: bytes, t: Step<Conn, Event>)
    requires Sound(step, ANY) && step(c, unread) == t && t.Take? && !t.stop && t.used == |unread|
    requires step(t.st, []).Wait?
    ensures Run(step, ANY, c, unread) == Outcome(t.st, t.events, [], false)
  {
    UnfoldRun(step, ANY, t.st, []);
    assert unread[t.used..] == [] && t.events + [] == t.events;
  }

  /** A request of 18 bytes is served under a limit of 30; with a second one behind it,
      it is refused. */
  lemma ShortHeaderIsRefused()
    ensures WellBehaved(SMALL)
    ensures RunConn(SMALL, FRESH, SHORT).events == [Start(SHORT_HEAD, false)]
    ensures RunConn(SMALL, FRESH, SHORT + SHORT).events == [TOO_LARGE]
  {
    SmallStarts();
    EngineIsSound(SMALL);
    RunEndsAt(Engine(SMALL), FRESH, SHORT, HeaderStep(SMALL, FRESH, SHORT));
    HeaderLimitCountsEverything(SMALL, FRESH, SHORT + SHORT);
  }

  // ---------------------------------------------------------------- pipelining

  // A request, as the parser reads it, and the bytes behind its body.
  datatype Incoming = Incoming(p: ParseResult, b: Payload, next: bytes)

  function ScanOf(cfg: Config, p: ParseResult): Scan
    requires p.Complete?
  {
    ScanAll(cfg.platform, VersionOf(p), p.fields)
  }

  /** `wire` starts with the request `r`, which asks to keep the connection. */
  ghost predicate Due(cfg: Config, r: Incoming, wire: bytes) {
    && 0 < |wire| <= cfg.maxHeaderSize && cfg.parse(wire) == r.p && r.p.Complete?
    && Announces(cfg.maxBodySize, ScanOf(cfg, r.p), r.b) && ScanOf(cfg, r.p).keepAlive
    && wire[r.p.offset..] == PayloadWire(r.b) + r.next
  }

  ghost predicate Pipelined(due: (Incoming, bytes) -> bool, wire: bytes, requests: seq<Incoming>)
    decreases |requests|
  {
    requests != [] ==> due(requests[0], wire) && Pipelined(due, requests[0].next, requests[1..])
  }

  function LeftOver(wire: bytes, requests: seq<Incoming>): bytes
    decreases |requests|
  {
    if requests == [] then wire else LeftOver(requests[0].next, requests[1..])
  }

  function EventsOf(cfg: Config, r: Incoming): seq<Event> {
    if r.p.Complete? then RequestEvents(Head(r.p, ScanOf(cfg, r.p)), r.b) else []
  }

  function AllEvents(events: Incoming -> seq<Event>, requests: seq<Incoming>): seq<Event>
    decreases |requests|
  {
    if requests == [] then [] else events(requests[0]) + AllEvents(events, requests[1..])
  }

  predicate Ready(c: Conn) {
    (c.state.WaitingHeader? || c.state.KeepAliveWait?) && c.totalBodyReceived == 0
  }

  /** `n` rounds on one connection: what is unread is processed, the request is
      answered, the connection is reset. */
  ghost function Serve(cfg: Config, run: (Conn, bytes) -> Outcome<Conn, Event>, c: Conn, unread: bytes, n: nat)
    : Outcome<Conn, Event>
    decreases n
  {
    if n == 0 then Outcome(c, [], unread, false)
    else
      var o := run(c, unread);
      After(o.events, Serve(cfg, run, NextRequest(cfg, o.st), o.rest, n - 1))
  }

  // One round delivers the request and makes ready for the next, within the limit.
  ghost predicate Round(cfg: Config, c: Conn, events: seq<Event>, next: bytes, o: Outcome<Conn, Event>) {
    var after := NextRequest(cfg, o.st);
    && o.events == events && o.rest == next && after.requestCount == c.requestCount + 1
    && (c.requestCount + 1 < cfg.maxKeepaliveRequests ==> Ready(after))
  }

  ghost predicate Rounds(cfg: Config, run: (Conn, bytes) -> Outcome<Conn, Event>, due: (Incoming, bytes) -> bool,
                         events: Incoming -> seq<Event>) {
    forall c: Conn, r: Incoming, wire: bytes {:trigger due(r, wire), run(c, wire)} | Ready(c) && due(r, wire) ::
      Round(cfg, c, events(r), r.next, run(c, wire))
  }

  lemma OneRound(cfg: Config, c: Conn, r: Incoming, wire: bytes)
    requires Sane(cfg.platform) && Ready(c) && Due(cfg, r, wire)
    ensures Round(cfg, c, EventsOf(cfg, r), r.next, RunConn(cfg, c, wire))
  {
    RequestEndsWhereTheNextBegins(cfg, c, r.p, r.b, wire, r.next);
  }

  lemma {:induction false} RoundsGoOn(cfg: Config, run: (Conn, bytes) -> Outcome<Conn, Event>,
                                      due: (Incoming, bytes) -> bool,
                                      events: Incoming -> seq<Event>, c: Conn, wire: bytes, requests: seq<Incoming>)
    requires Rounds(cfg, run, due, events) && Pipelined(due, wire, requests)
    requires requests != [] ==> Ready(c) && c.requestCount + |requests| <= cfg.maxKeepaliveRequests
    ensures var o := Serve(cfg, run, c, wire, |requests|);
            o.events == AllEvents(events, requests) && o.rest == LeftOver(wire, requests)
    decreases |requests|
  {
    if requests != [] {
      var r, o := requests[0], run(c, wire);
      assert Round(cfg, c, events(r), r.next, o);
      RoundsGoOn(cfg, run, due, events, NextRequest(cfg, o.st), r.next, requests[1..]);
    }
  }

  /** Pipelined requests on a connection that persists are delivered exactly, in
      order, each from where the one before it ended, up to the keep-alive limit. */
  lemma PipelinedRequestsAreServed(cfg: Config, c: Conn, wire: bytes, requests: seq<Incoming>)
    requires Sane(cfg.platform) && Pipelined((r, a) => Due(cfg, r, a), wire, requests)
    requires Ready(c) && c.requestCount + |requests| <= cfg.maxKeepaliveRequests
    ensures var o := Serve(cfg, (d: Conn, a: bytes) => RunConn(cfg, d, a), c, wire, |requests|);
            o.events == AllEvents(r => EventsOf(cfg, r), requests) && o.rest == LeftOver(wire, requests)
  {
    var run := (d: Conn, a: bytes) => RunConn(cfg, d, a);
    var due, events := (r: Incoming, a: bytes) => Due(cfg, r, a), (r: Incoming) => EventsOf(cfg, r);
    forall d: Conn, r: Incoming, a: bytes | Ready(d) && due(r, a)
      ensures Round(cfg, d, events(r), r.next, run(d, a))
    {
      OneRound(cfg, d, r, a);
    }
    RoundsGoOn(cfg, run, due, events, c, wire, requests);
  }
}
