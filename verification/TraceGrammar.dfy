/** The grammar every HTTP event trace obeys, over whole runs of one connection:
    deliveries in any pieces, pumps, resets between requests, and closes. */
module TraceGrammar {
  import opened Bytes
  import opened Framing
  import opened Incremental
  import opened HttpMachine
  import opened Segmentation
  import opened Sequences

  // ------------------------------------------------------------- the grammar

  datatype Exchange =
    | Bodyless(start: Event, upgrade: seq<Event>)
    | Bodied(start: Event, parts: seq<bytes>, last: bytes)

  datatype OpenRequest = OpenRequest(start: Event, parts: seq<bytes>)

  // Complete exchanges, at most one request in progress, at most one closing error.
  datatype Trace = Trace(done: seq<Exchange>, open: Option<OpenRequest>, failure: Option<Event>)

  const EMPTY := Trace([], None, None)

  function Parts(parts: seq<bytes>): seq<Event> {
    if parts == [] then [] else Parts(parts[..|parts| - 1]) + [Body(parts[|parts| - 1], true)]
  }

  function RenderExchange(x: Exchange): seq<Event> {
    match x
    case Bodyless(start, upgrade) => [start] + upgrade
    case Bodied(start, parts, last) => [start] + Parts(parts) + [Body(last, false)]
  }

  function RenderAll(xs: seq<Exchange>): seq<Event> {
    if xs == [] then [] else RenderAll(xs[..|xs| - 1]) + RenderExchange(xs[|xs| - 1])
  }

  function Render(t: Trace): seq<Event> {
    RenderAll(t.done)
    + (if t.open.Some? then [t.open.value.start] + Parts(t.open.value.parts) else [])
    + (if t.failure.Some? then [t.failure.value] else [])
  }

  function Total(parts: seq<bytes>): nat {
    if parts == [] then 0 else Total(parts[..|parts| - 1]) + |parts[|parts| - 1]|
  }

  ghost predicate Grammatical(maxBody: nat, x: Exchange) {
    match x
    case Bodyless(start, upgrade) =>
      && start.Start? && !start.hasBody
      && (upgrade == [] || (|upgrade| == 1 && upgrade[0].Upgrade? && start.head.isUpgrade))
    case Bodied(start, parts, last) =>
      start.Start? && start.hasBody && Total(parts) + |last| <= maxBody
  }

  ghost predicate WellFormed(maxBody: nat, t: Trace) {
    && (forall i | 0 <= i < |t.done| :: Grammatical(maxBody, t.done[i]))
    && (t.open.Some? ==>
          t.open.value.start.Start? && t.open.value.start.hasBody && Total(t.open.value.parts) <= maxBody)
    && (t.failure.Some? ==> t.failure.value.Error?)
  }

  function Starts(t: Trace): nat {
    |t.done| + if t.open.Some? then 1 else 0
  }

  /** Reading one more event, if the grammar allows it there. */
  function Advance(maxBody: nat, t: Trace, e: Event): Option<Trace> {
    if t.failure.Some? then None
    else
      match e
      case Start(_, hasBody) =>
        if t.open.Some? then None
        else if hasBody then Some(t.(open := Some(OpenRequest(e, []))))
        else Some(t.(done := t.done + [Bodyless(e, [])]))
      case Upgrade(_) =>
        if t.open.Some? || t.done == [] then None
        else
          var last := t.done[|t.done| - 1];
          if last.Bodyless? && last.upgrade == [] && last.start.Start? && last.start.head.isUpgrade
          then Some(t.(done := t.done[..|t.done| - 1] + [Bodyless(last.start, [e])])) else None
      case Body(data, more) =>
        if t.open.None? || Total(t.open.value.parts) + |data| > maxBody then None
        else
          var o := t.open.value;
          if more then Some(t.(open := Some(o.(parts := o.parts + [data]))))
          else Some(t.(done := t.done + [Bodied(o.start, o.parts, data)], open := None))
      case Error(_, _) => Some(t.(failure := Some(e)))
  }

  function AdvanceAll(maxBody: nat, t: Trace, events: seq<Event>): Option<Trace>
    decreases |events|
  {
    if events == [] then Some(t)
    else
      var next := Advance(maxBody, t, events[0]);
      if next.None? then None else AdvanceAll(maxBody, next.value, events[1..])
  }

  lemma {:induction false} AdvanceAppend(maxBody: nat, t: Trace, a: seq<Event>, b: seq<Event>)
    requires AdvanceAll(maxBody, t, a).Some?
    ensures AdvanceAll(maxBody, t, a + b) == AdvanceAll(maxBody, AdvanceAll(maxBody, t, a).value, b)
    decreases |a|
  {
    if a == [] {
      assert a + b == b;
    } else {
      assert (a + b)[1..] == a[1..] + b;
      AdvanceAppend(maxBody, Advance(maxBody, t, a[0]).value, a[1..], b);
    }
  }

  lemma RenderSnoc(xs: seq<Exchange>, x: Exchange)
    ensures RenderAll(xs + [x]) == RenderAll(xs) + RenderExchange(x)
  {
    assert (xs + [x])[..|xs|] == xs;
  }

  lemma RenderIdle(t: Trace)
    requires t.open.None? && t.failure.None?
    ensures Render(t) == RenderAll(t.done)
  {
    assert RenderAll(t.done) + [] + [] == RenderAll(t.done);
  }

  lemma RenderUpgraded(front: seq<Exchange>, start: Event, e: Event)
    ensures RenderAll(front + [Bodyless(start, [e])]) == RenderAll(front + [Bodyless(start, [])]) + [e]
  {
    RenderSnoc(front, Bodyless(start, []));
    RenderSnoc(front, Bodyless(start, [e]));
    assert [start] + [] == [start];
    Associative(RenderAll(front), [start], [e]);
  }

  lemma AdvanceUpgrade(maxBody: nat, t: Trace, e: Event)
    requires WellFormed(maxBody, t) && e.Upgrade? && Advance(maxBody, t, e).Some?
    ensures WellFormed(maxBody, Advance(maxBody, t, e).value) && Render(Advance(maxBody, t, e).value) == Render(t) + [e]
  {
    var front, last := t.done[..|t.done| - 1], t.done[|t.done| - 1];
    assert t.done == front + [last];
    RenderUpgraded(front, last.start, e);
    RenderIdle(t);
    RenderIdle(Advance(maxBody, t, e).value);
  }

  lemma PartsSnoc(parts: seq<bytes>, d: bytes)
    ensures Parts(parts + [d]) == Parts(parts) + [Body(d, true)]
    ensures Total(parts + [d]) == Total(parts) + |d|
  {
    assert (parts + [d])[..|parts|] == parts;
  }

  lemma RenderOpen(xs: seq<Exchange>, o: OpenRequest)
    ensures Render(Trace(xs, Some(o), None)) == RenderAll(xs) + ([o.start] + Parts(o.parts))
  {
    assert RenderAll(xs) + ([o.start] + Parts(o.parts)) + [] == RenderAll(xs) + ([o.start] + Parts(o.parts));
  }

  lemma AdvancePart(xs: seq<Exchange>, o: OpenRequest, data: bytes)
    ensures Render(Trace(xs, Some(OpenRequest(o.start, o.parts + [data])), None))
         == Render(Trace(xs, Some(o), None)) + [Body(data, true)]
  {
    PartsSnoc(o.parts, data);
    RenderOpen(xs, o);
    RenderOpen(xs, OpenRequest(o.start, o.parts + [data]));
    Associative([o.start], Parts(o.parts), [Body(data, true)]);
    Associative(RenderAll(xs), [o.start] + Parts(o.parts), [Body(data, true)]);
  }

  lemma AdvanceLast(xs: seq<Exchange>, o: OpenRequest, data: bytes)
    ensures Render(Trace(xs + [Bodied(o.start, o.parts, data)], None, None))
         == Render(Trace(xs, Some(o), None)) + [Body(data, false)]
  {
    RenderSnoc(xs, Bodied(o.start, o.parts, data));
    RenderIdle(Trace(xs + [Bodied(o.start, o.parts, data)], None, None));
    RenderOpen(xs, o);
    Associative(RenderAll(xs), [o.start] + Parts(o.parts), [Body(data, false)]);
  }

  lemma AdvanceBody(maxBody: nat, t: Trace, e: Event)
    requires WellFormed(maxBody, t) && e.Body? && Advance(maxBody, t, e).Some?
    ensures WellFormed(maxBody, Advance(maxBody, t, e).value) && Render(Advance(maxBody, t, e).value) == Render(t) + [e]
  {
    var o := t.open.value;
    PartsSnoc(o.parts, e.data);
    if e.more { AdvancePart(t.done, o, e.data); } else { AdvanceLast(t.done, o, e.data); }
  }

  lemma AdvanceRenders(maxBody: nat, t: Trace, e: Event)
    requires WellFormed(maxBody, t) && Advance(maxBody, t, e).Some?
    ensures WellFormed(maxBody, Advance(maxBody, t, e).value)
    ensures Render(Advance(maxBody, t, e).value) == Render(t) + [e]
  {
    match e
    case Start(_, hasBody) => RenderSnoc(t.done, Bodyless(e, []));
    case Upgrade(_) => AdvanceUpgrade(maxBody, t, e);
    case Body(_, _) => AdvanceBody(maxBody, t, e);
    case Error(_, _) =>
  }

  /** What the recogniser accepts is in the grammar: the trace it builds is
      well formed and spells exactly the events read. */
  lemma {:induction false} AcceptedIsGrammatical(maxBody: nat, t: Trace, events: seq<Event>)
    requires WellFormed(maxBody, t) && AdvanceAll(maxBody, t, events).Some?
    ensures WellFormed(maxBody, AdvanceAll(maxBody, t, events).value)
    ensures Render(AdvanceAll(maxBody, t, events).value) == Render(t) + events
    decreases |events|
  {
    if events != [] {
      AdvanceRenders(maxBody, t, events[0]);
      var next := Advance(maxBody, t, events[0]).value;
      AcceptedIsGrammatical(maxBody, next, events[1..]);
      Associative(Render(t), [events[0]], events[1..]);
      assert [events[0]] + events[1..] == events;
    }
  }

  // ------------------------------------------------------------- the engine

  function Budget(cfg: Config): nat {
    if cfg.maxKeepaliveRequests > 1 then cfg.maxKeepaliveRequests else 1
  }

  // How the engine's state and the trace so far belong together.
  ghost predicate Follows(cfg: Config, c: Conn, t: Trace) {
    && Starts(t) <= c.requestCount <= Budget(cfg)
    && (c.state.Closed? || t.failure.None?)
    && match c.state
       case Closed => true
       case ServingApp => t.open.None?
       case WaitingHeader => t.open.None? && c.totalBodyReceived == 0 && c.requestCount == 0
       case KeepAliveWait => t.open.None? && c.totalBodyReceived == 0 && c.requestCount < cfg.maxKeepaliveRequests
       case ReceivingContentLength(left) =>
         t.open.Some? && Total(t.open.value.parts) + left <= cfg.maxBodySize
       case ReceivingChunked(stage) =>
         && t.open.Some? && c.totalBodyReceived <= cfg.maxBodySize
         && Total(t.open.value.parts) + (if stage.ReadingData? then stage.chunkLen else 0) == c.totalBodyReceived
  }

  ghost predicate Continues(cfg: Config, t: Trace, step: Step<Conn, Event>) {
    step.Take? ==>
      && AdvanceAll(cfg.maxBodySize, t, step.events).Some?
      && Follows(cfg, step.st, AdvanceAll(cfg.maxBodySize, t, step.events).value)
  }

  lemma AdvanceOne(maxBody: nat, t: Trace, e: Event)
    ensures AdvanceAll(maxBody, t, [e]) == Advance(maxBody, t, e)
  {
    if Advance(maxBody, t, e).Some? {
      assert AdvanceAll(maxBody, Advance(maxBody, t, e).value, []) == Advance(maxBody, t, e);
    }
  }

  lemma AdvanceTwo(maxBody: nat, t: Trace, d: Event, e: Event)
    requires Advance(maxBody, t, d).Some?
    ensures AdvanceAll(maxBody, t, [d, e]) == Advance(maxBody, Advance(maxBody, t, d).value, e)
  {
    AdvanceOne(maxBody, Advance(maxBody, t, d).value, e);
    assert [d, e][1..] == [e];
  }

  lemma BodyFollows(cfg: Config, data: bytes, more: bool, t: Trace)
    requires t.open.Some? && t.failure.None?
    requires Total(t.open.value.parts) + |data| <= cfg.maxBodySize
    ensures var moved := Advance(cfg.maxBodySize, t, Body(data, more));
            && AdvanceAll(cfg.maxBodySize, t, [Body(data, more)]) == moved && moved.Some?
            && Starts(moved.value) == Starts(t) && moved.value.failure.None?
            && (more ==> moved.value.open.Some?
                         && Total(moved.value.open.value.parts) == Total(t.open.value.parts) + |data|)
            && (!more ==> moved.value.open.None?)
  {
    AdvanceOne(cfg.maxBodySize, t, Body(data, more));
    PartsSnoc(t.open.value.parts, data);
  }

  lemma LengthFollows(cfg: Config, c: Conn, remaining: pos, unread: bytes, t: Trace)
    requires Follows(cfg, c, t) && c.state == ReceivingContentLength(remaining)
    ensures Continues(cfg, t, LengthStep(c, remaining, unread))
  {
    var s := LengthStep(c, remaining, unread);
    if s.Take? { BodyFollows(cfg, s.events[0].data, s.events[0].more, t); }
  }

  lemma SizeFollows(cfg: Config, c: Conn, size: Option<usize>, used: pos, t: Trace)
    requires Follows(cfg, c, t) && c.state == ReceivingChunked(ReadingSize)
    ensures Continues(cfg, t, SizeValueStep(cfg.maxBodySize, c, size, used))
  {
    var s := SizeValueStep(cfg.maxBodySize, c, size, used);
    if s.events != [] { AdvanceOne(cfg.maxBodySize, t, s.events[0]); }
  }

  lemma SizeTextFollows(cfg: Config, c: Conn, sizeText: bytes, used: pos, t: Trace)
    requires Follows(cfg, c, t) && c.state == ReceivingChunked(ReadingSize)
    ensures Continues(cfg, t, SizeTextStep(cfg, c, sizeText, used))
  {
    if cfg.platform.isUtf8(sizeText) {
      SizeFollows(cfg, c, cfg.platform.parseRadix(cfg.platform.trim(sizeText), 16), used, t);
    } else {
      AdvanceOne(cfg.maxBodySize, t, Error(400, InvalidEncoding));
    }
  }

  lemma DataFollows(cfg: Config, c: Conn, n: pos, unread: bytes, t: Trace)
    requires Follows(cfg, c, t) && c.state == ReceivingChunked(ReadingData(n))
    ensures Continues(cfg, t, DataStep(c, n, unread))
  {
    var s := DataStep(c, n, unread);
    if s.Take? && s.events[0].Body? {
      BodyFollows(cfg, s.events[0].data, true, t);
    } else if s.Take? {
      AdvanceOne(cfg.maxBodySize, t, s.events[0]);
    }
  }

  lemma TrailerFollows(cfg: Config, c: Conn, unread: bytes, t: Trace)
    requires Follows(cfg, c, t) && c.state == ReceivingChunked(ReadingTrailers)
    ensures Continues(cfg, t, TrailerStep(c, unread))
  {
    var s := TrailerStep(c, unread);
    if s.Take? { BodyFollows(cfg, [], false, t); }
  }

  lemma ChunkFollows(cfg: Config, c: Conn, stage: ChunkedStage, unread: bytes, t: Trace)
    requires Follows(cfg, c, t) && c.state == ReceivingChunked(stage)
    ensures Continues(cfg, t, ChunkStep(cfg, c, stage, unread))
  {
    match stage
    case ReadingSize =>
      var end := Find(unread, CRLF);
      if end.Some? { SizeTextFollows(cfg, c, Before(unread[..end.value], SEMICOLON), end.value + 2, t); }
    case ReadingData(n) => DataFollows(cfg, c, n, unread, t);
    case ReadingTrailers => TrailerFollows(cfg, c, unread, t);
  }

  lemma StartFollows(cfg: Config, t: Trace, start: Event)
    requires start.Start? && t.open.None? && t.failure.None?
    ensures var moved := Advance(cfg.maxBodySize, t, start);
            && AdvanceAll(cfg.maxBodySize, t, [start]) == moved && moved.Some?
            && Starts(moved.value) == Starts(t) + 1 && moved.value.failure.None?
            && (if start.hasBody then moved.value.open == Some(OpenRequest(start, []))
                else moved.value.open.None? && moved.value.done == t.done + [Bodyless(start, [])])
  {
    AdvanceOne(cfg.maxBodySize, t, start);
  }

  lemma UpgradeFollows(cfg: Config, t: Trace, start: Event, upgrade: Event)
    requires start.Start? && !start.hasBody && start.head.isUpgrade && upgrade.Upgrade?
    requires t.open.None? && t.failure.None?
    ensures var moved := AdvanceAll(cfg.maxBodySize, t, [start, upgrade]);
            && moved.Some? && Starts(moved.value) == Starts(t) + 1
            && moved.value.failure.None? && moved.value.open.None?
  {
    StartFollows(cfg, t, start);
    AdvanceTwo(cfg.maxBodySize, t, start, upgrade);
  }

  lemma StartBodyFollows(cfg: Config, t: Trace, start: Event, data: bytes, more: bool)
    requires start.Start? && start.hasBody && t.open.None? && t.failure.None? && |data| <= cfg.maxBodySize
    ensures var moved := AdvanceAll(cfg.maxBodySize, t, [start, Body(data, more)]);
            && moved.Some? && Starts(moved.value) == Starts(t) + 1 && moved.value.failure.None?
            && (more ==> moved.value.open.Some? && Total(moved.value.open.value.parts) == |data|)
            && (!more ==> moved.value.open.None?)
  {
    StartFollows(cfg, t, start);
    AdvanceTwo(cfg.maxBodySize, t, start, Body(data, more));
    PartsSnoc([], data);
  }

  lemma LengthRequestFollows(cfg: Config, c: Conn, s: Scan, head: RequestHead, offset: nat, unread: bytes, t: Trace)
    requires Follows(cfg, c, t) && (c.state.WaitingHeader? || c.state.KeepAliveWait?)
    requires 0 < offset <= |unread| && s.contentLength > 0
    requires !Rejects(s) && !s.isChunked && !(s.isUpgrade && s.upgradeProto == WEBSOCKET)
    ensures Continues(cfg, t, RequestStep(cfg, c, s, head, offset, unread))
  {
    var r := RequestStep(cfg, c, s, head, offset, unread);
    if s.contentLength > cfg.maxBodySize {
      AdvanceOne(cfg.maxBodySize, t, r.events[0]);
    } else if |r.events| == 1 {
      StartFollows(cfg, t, r.events[0]);
    } else {
      StartBodyFollows(cfg, t, r.events[0], r.events[1].data, r.events[1].more);
      assert r.events == [r.events[0], Body(r.events[1].data, r.events[1].more)];
    }
  }

  lemma RequestFollows(cfg: Config, c: Conn, s: Scan, head: RequestHead, offset: nat, unread: bytes, t: Trace)
    requires Follows(cfg, c, t) && (c.state.WaitingHeader? || c.state.KeepAliveWait?)
    requires 0 < offset <= |unread| && head.isUpgrade == s.isUpgrade
    ensures Continues(cfg, t, RequestStep(cfg, c, s, head, offset, unread))
  {
    if Rejects(s) {
      AdvanceOne(cfg.maxBodySize, t, Error(400, ConflictingHeaders));
    } else if s.isUpgrade && s.upgradeProto == WEBSOCKET {
      UpgradeFollows(cfg, t, Start(head, false), Upgrade(s.upgradeProto));
    } else if s.isChunked {
      StartFollows(cfg, t, Start(head, true));
    } else if s.contentLength > 0 {
      LengthRequestFollows(cfg, c, s, head, offset, unread, t);
    } else {
      StartFollows(cfg, t, Start(head, false));
    }
  }

  lemma HeaderFollows(cfg: Config, c: Conn, unread: bytes, t: Trace)
    requires Follows(cfg, c, t) && (c.state.WaitingHeader? || c.state.KeepAliveWait?)
    ensures Continues(cfg, t, HeaderStep(cfg, c, unread))
  {
    var p := cfg.parse(unread);
    if unread != [] && |unread| <= cfg.maxHeaderSize && p.Complete? {
      var s := ScanAll(cfg.platform, VersionOf(p), p.fields);
      RequestFollows(cfg, c, s, Head(p, s), p.offset, unread, t);
    } else {
      var r := HeaderStep(cfg, c, unread);
      if r.Take? { AdvanceOne(cfg.maxBodySize, t, r.events[0]); }
    }
  }

  lemma StepFollows(cfg: Config, c: Conn, unread: bytes, t: Trace)
    requires Follows(cfg, c, t)
    ensures Continues(cfg, t, ConnStep(cfg, c, unread))
  {
    match c.state
    case Closed =>
    case ServingApp =>
    case WaitingHeader => HeaderFollows(cfg, c, unread, t);
    case KeepAliveWait => HeaderFollows(cfg, c, unread, t);
    case ReceivingContentLength(n) => LengthFollows(cfg, c, n, unread, t);
    case ReceivingChunked(stage) => ChunkFollows(cfg, c, stage, unread, t);
  }

  ghost predicate StepsFollow(cfg: Config, step: Stepper<Conn, Event>) {
    forall c: Conn, a: bytes, t: Trace | Follows(cfg, c, t) && step(c, a).Take? :: Continues(cfg, t, step(c, a))
  }

  lemma {:induction false} RunFollows(cfg: Config, step: Stepper<Conn, Event>, c: Conn, unread: bytes, t: Trace)
    requires Sound(step, ANY) && StepsFollow(cfg, step) && Follows(cfg, c, t)
    ensures var o := Run(step, ANY, c, unread);
            && AdvanceAll(cfg.maxBodySize, t, o.events).Some?
            && Follows(cfg, o.st, AdvanceAll(cfg.maxBodySize, t, o.events).value)
    decreases |unread|
  {
    var s := step(c, unread);
    if s.Take? {
      assert Continues(cfg, t, s);
      if !s.stop {
        var next := AdvanceAll(cfg.maxBodySize, t, s.events).value;
        RunFollows(cfg, step, s.st, unread[s.used..], next);
        AdvanceAppend(cfg.maxBodySize, t, s.events, Run(step, ANY, s.st, unread[s.used..]).events);
      }
    }
  }

  lemma EngineFollows(cfg: Config)
    ensures StepsFollow(cfg, Engine(cfg))
  {
    forall c: Conn, a: bytes, t: Trace | Follows(cfg, c, t) && Engine(cfg)(c, a).Take?
      ensures Continues(cfg, t, Engine(cfg)(c, a))
    {
      StepFollows(cfg, c, a, t);
    }
  }

  // ------------------------------------------------------------- whole runs

  datatype Op = Feed(data: bytes) | Pump | Reset | Close

  datatype Session = Session(conn: Conn, unread: bytes)

  const FRESH := Session(Conn(WaitingHeader, true, 0, 0), [])

  ghost function Apply(cfg: Config, s: Session, op: Op): (Session, seq<Event>) {
    match op
    case Feed(data) => Process(cfg, s.(unread := s.unread + data))
    case Pump => Process(cfg, s)
    case Reset => (s.(conn := NextRequest(cfg, s.conn)), [])
    case Close => (s.(conn := s.conn.(state := Closed)), [])
  }

  ghost function Process(cfg: Config, s: Session): (Session, seq<Event>) {
    var o := RunConn(cfg, s.conn, s.unread);
    (Session(o.st, o.rest), o.events)
  }

  ghost function ApplyAll(cfg: Config, s: Session, ops: seq<Op>): (Session, seq<Event>) {
    if ops == [] then (s, [])
    else
      var (mid, events) := ApplyAll(cfg, s, ops[..|ops| - 1]);
      var (last, more) := Apply(cfg, mid, ops[|ops| - 1]);
      (last, events + more)
  }

  lemma ApplyFollows(cfg: Config, s: Session, op: Op, t: Trace)
    requires Follows(cfg, s.conn, t)
    ensures var (next, events) := Apply(cfg, s, op);
            && AdvanceAll(cfg.maxBodySize, t, events).Some?
            && Follows(cfg, next.conn, AdvanceAll(cfg.maxBodySize, t, events).value)
  {
    EngineIsSound(cfg);
    EngineFollows(cfg);
    match op
    case Feed(data) => RunFollows(cfg, Engine(cfg), s.conn, s.unread + data, t);
    case Pump => RunFollows(cfg, Engine(cfg), s.conn, s.unread, t);
    case Reset =>
    case Close =>
  }

  lemma {:induction false} RunsFollow(cfg: Config, ops: seq<Op>)
    ensures var (s, events) := ApplyAll(cfg, FRESH, ops);
            && AdvanceAll(cfg.maxBodySize, EMPTY, events).Some?
            && Follows(cfg, s.conn, AdvanceAll(cfg.maxBodySize, EMPTY, events).value)
  {
    if ops != [] {
      RunsFollow(cfg, ops[..|ops| - 1]);
      var (mid, events) := ApplyAll(cfg, FRESH, ops[..|ops| - 1]);
      var t := AdvanceAll(cfg.maxBodySize, EMPTY, events).value;
      ApplyFollows(cfg, mid, ops[|ops| - 1], t);
      AdvanceAppend(cfg.maxBodySize, EMPTY, events, Apply(cfg, mid, ops[|ops| - 1]).1);
    }
  }

  lemma Spelled(cfg: Config, c: Conn, events: seq<Event>) returns (t: Trace)
    requires AdvanceAll(cfg.maxBodySize, EMPTY, events).Some?
    requires Follows(cfg, c, AdvanceAll(cfg.maxBodySize, EMPTY, events).value)
    ensures Render(t) == events && WellFormed(cfg.maxBodySize, t)
    ensures Starts(t) <= Budget(cfg) && (t.failure.Some? ==> c.state.Closed?)
  {
    AcceptedIsGrammatical(cfg.maxBodySize, EMPTY, events);
    t := AdvanceAll(cfg.maxBodySize, EMPTY, events).value;
    RenderIdle(EMPTY);
    assert [] + events == events;
  }

  /** Every trace of every run is a sequence of complete exchanges, possibly one
      request in progress, possibly one closing error; bodies stay within the
      body limit and the requests within the keep-alive limit. */
  lemma EveryTraceIsGrammatical(cfg: Config, ops: seq<Op>) returns (t: Trace)
    ensures Render(t) == ApplyAll(cfg, FRESH, ops).1
    ensures WellFormed(cfg.maxBodySize, t)
    ensures Starts(t) <= Budget(cfg)
    ensures t.failure.Some? ==> ApplyAll(cfg, FRESH, ops).0.conn.state.Closed?
  {
    RunsFollow(cfg, ops);
    t := Spelled(cfg, ApplyAll(cfg, FRESH, ops).0.conn, ApplyAll(cfg, FRESH, ops).1);
  }

  /** A closed connection stays closed and stays silent. */
  lemma ClosedIsAbsorbing(cfg: Config, s: Session, op: Op)
    requires s.conn.state.Closed?
    ensures var (next, events) := Apply(cfg, s, op); next.conn.state.Closed? && events == []
  {
    EngineReadsBodies(cfg);
  }
}
