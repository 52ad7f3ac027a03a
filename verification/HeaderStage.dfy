/** What the engine answers to a request's header, told from its header fields: refused,
    upgraded, too long, or started. */
module HeaderStage {
  import opened Bytes
  import opened Framing
  import opened HttpMachine
  import opened Incremental
  import opened Persistence
  import opened Requests
  import opened RoundTrip
  import opened Segmentation
  import opened Text

  const CONFLICT := Error(400, ConflictingHeaders)
  const TOO_LONG := Error(413, PayloadTooLarge)

  // A header is expected, and what is unread is within the limit.
  predicate Expected(cfg: Config, c: Conn, unread: bytes) {
    InHeader(c) && 0 < |unread| <= cfg.maxHeaderSize
  }

  // ------------------------------------------------- what can follow a header

  // A body part, or an error met in a body.
  predicate OfBody(e: Event) {
    || e.Body?
    || e == TOO_LONG || e == Error(400, InvalidEncoding) || e == Error(400, InvalidLength)
    || e == Error(400, MalformedBoundary)
  }

  predicate AllOfBody(events: seq<Event>) {
    forall i | 0 <= i < |events| :: OfBody(events[i])
  }

  // A step outside the header keeps to the body and to the verdict on persistence.
  ghost predicate KeepsToBody(c: Conn, t: Step<Conn, Event>) {
    t.Take? ==>
      && AllOfBody(t.events) && !InHeader(t.st)
      && t.st.keepAlive == c.keepAlive && t.st.requestCount == c.requestCount
  }

  lemma ChunkKeepsToBody(cfg: Config, c: Conn, stage: ChunkedStage, unread: bytes)
    ensures KeepsToBody(c, ChunkStep(cfg, c, stage, unread))
  {
  }

  lemma StepKeepsToBody(cfg: Config, c: Conn, unread: bytes)
    requires !InHeader(c)
    ensures KeepsToBody(c, ConnStep(cfg, c, unread))
  {
    if c.state.ReceivingChunked? {
      ChunkKeepsToBody(cfg, c, c.state.stage, unread);
    }
  }

  lemma {:induction false} RunKeepsToBody(cfg: Config, c: Conn, unread: bytes)
    requires !InHeader(c)
    ensures var o := RunConn(cfg, c, unread);
            && AllOfBody(o.events) && !InHeader(o.st)
            && o.st.keepAlive == c.keepAlive && o.st.requestCount == c.requestCount
    decreases |unread|
  {
    EngineIsSound(cfg);
    StepKeepsToBody(cfg, c, unread);
    UnfoldRun(Engine(cfg), ANY, c, unread);
    var t := ConnStep(cfg, c, unread);
    assert Engine(cfg)(c, unread) == t;
    if t.Take? && !t.stop {
      RunKeepsToBody(cfg, t.st, unread[t.used..]);
    }
  }

  /** A body that arrives in any number of deliveries leaves the verdict on persistence
      and the count of requests alone. */
  lemma {:induction false} BodyKeepsVerdict(cfg: Config, c: Conn, unread: bytes, pieces: seq<bytes>)
    requires !InHeader(c)
    ensures var o := FeedConn(cfg, c, unread, pieces);
            && AllOfBody(o.events) && !InHeader(o.st)
            && o.st.keepAlive == c.keepAlive && o.st.requestCount == c.requestCount
    decreases |pieces|
  {
    EngineIsSound(cfg);
    if pieces != [] {
      RunKeepsToBody(cfg, c, unread + pieces[0]);
      var r := RunConn(cfg, c, unread + pieces[0]);
      BodyKeepsVerdict(cfg, r.st, r.rest, pieces[1..]);
      assert FeedConn(cfg, c, unread, pieces).events == r.events + FeedConn(cfg, r.st, r.rest, pieces[1..]).events;
    }
  }

  // ---------------------------------------------------------- the three answers

  lemma RunWaits(cfg: Config, c: Conn, unread: bytes)
    requires ConnStep(cfg, c, unread).Wait?
    ensures RunConn(cfg, c, unread) == Outcome(c, [], unread, false)
  {
    EngineIsSound(cfg);
    assert Engine(cfg)(c, unread) == ConnStep(cfg, c, unread);
    UnfoldRun(Engine(cfg), ANY, c, unread);
  }

  lemma RunStops(cfg: Config, c: Conn, unread: bytes, t: Step<Conn, Event>)
    requires ConnStep(cfg, c, unread) == t && t.Take? && t.stop
    ensures t.used <= |unread| && RunConn(cfg, c, unread) == Outcome(t.st, t.events, unread[t.used..], true)
  {
    EngineIsSound(cfg);
    assert Engine(cfg)(c, unread) == t;
    UnfoldRun(Engine(cfg), ANY, c, unread);
  }

  lemma RunGoesOn(cfg: Config, c: Conn, unread: bytes, t: Step<Conn, Event>)
    requires ConnStep(cfg, c, unread) == t && t.Take? && !t.stop
    ensures t.used <= |unread| && RunConn(cfg, c, unread) == After(t.events, RunConn(cfg, t.st, unread[t.used..]))
  {
    EngineIsSound(cfg);
    assert Engine(cfg)(c, unread) == t;
    UnfoldRun(Engine(cfg), ANY, c, unread);
  }

  lemma InHeaderSteps(cfg: Config, c: Conn, unread: bytes)
    requires InHeader(c)
    ensures ConnStep(cfg, c, unread) == HeaderStep(cfg, c, unread)
  {
  }

  /** An unfinished header waits; a malformed one is answered with 400 and closes the
      connection, with nothing read. */
  lemma UnreadableHeader(cfg: Config, c: Conn, unread: bytes)
    requires Expected(cfg, c, unread) && !cfg.parse(unread).Complete?
    ensures RunConn(cfg, c, unread)
         == if cfg.parse(unread).Partial? then Outcome(c, [], unread, false)
            else Outcome(c.(state := Closed), [Error(400, BadRequest)], unread, true)
  {
    InHeaderSteps(cfg, c, unread);
    if cfg.parse(unread).Partial? {
      RunWaits(cfg, c, unread);
    } else {
      RunStops(cfg, c, unread, HeaderStep(cfg, c, unread));
      assert unread[0..] == unread;
    }
  }

  // ------------------------------------------------------- a complete header

  function Summary(cfg: Config, p: ParseResult): Scan
    requires p.Complete?
  {
    ScanAll(cfg.platform, VersionOf(p), p.fields)
  }

  lemma CompleteSteps(cfg: Config, c: Conn, p: ParseResult, unread: bytes)
    requires Expected(cfg, c, unread) && cfg.parse(unread) == p && p.Complete?
    ensures 0 < p.offset <= |unread|
    ensures ConnStep(cfg, c, unread) == RequestStep(cfg, c, Summary(cfg, p), Head(p, Summary(cfg, p)), p.offset, unread)
  {
    InHeaderSteps(cfg, c, unread);
  }

  /** A complete header within the limit is refused with 400 exactly if its fields leave
      the framing of the body in doubt. Then the refusal is the only event, the
      connection is closed, and exactly the bytes behind the header stay unread. */
  lemma RefusedExactlyWhenAmbiguous(cfg: Config, c: Conn, p: ParseResult, unread: bytes)
    requires Expected(cfg, c, unread) && cfg.parse(unread) == p && p.Complete?
    ensures var o := RunConn(cfg, c, unread);
            && (CONFLICT in o.events <==> Ambiguous(cfg.platform, p.fields))
            && (Ambiguous(cfg.platform, p.fields) ==>
                  && o.st.state == Closed && o.events == [CONFLICT] && o.stopped
                  && p.offset <= |unread| && o.rest == unread[p.offset..])
  {
    var s := Summary(cfg, p);
    var t := RequestStep(cfg, c, s, Head(p, s), p.offset, unread);
    CompleteSteps(cfg, c, p, unread);
    RejectsExactlyTheAmbiguous(cfg.platform, VersionOf(p), p.fields);
    RequestAnswers(cfg, c, s, Head(p, s), p.offset, unread);
    if t.stop {
      RunStops(cfg, c, unread, t);
    } else {
      RunGoesOn(cfg, c, unread, t);
      RunKeepsToBody(cfg, t.st, unread[t.used..]);
    }
  }

  // The step behind a complete header, for each verdict of the scan.
  lemma RequestAnswers(cfg: Config, c: Conn, s: Scan, head: RequestHead, offset: nat, unread: bytes)
    requires 0 < offset <= |unread|
    ensures var t := RequestStep(cfg, c, s, head, offset, unread);
            && t.Take? && !InHeader(t.st)
            && (if Rejects(s) then t.stop && t.events == [CONFLICT] && t.st.state == Closed && t.used == offset
                else CONFLICT !in t.events)
  {
  }

  // ------------------------------------------------------------- not refused

  // Some field announces more than the limit, or some body at all.
  ghost predicate AnnouncesTooMuch(cfg: Config, fields: seq<Field>) {
    exists f :: f in fields && GoodLength(cfg.platform, f)
                && cfg.maxBodySize < LengthNumber(cfg.platform, f.value).value < 0x8000_0000_0000_0000
  }

  ghost predicate AnnouncesBody(cfg: Config, fields: seq<Field>) {
    || (exists f :: f in fields && IsCoding(f))
    || (exists f :: f in fields && GoodLength(cfg.platform, f)
                    && 0 < LengthNumber(cfg.platform, f.value).value < 0x8000_0000_0000_0000)
  }

  lemma LengthsAgree(cfg: Config, version: nat, fields: seq<Field>)
    requires !Ambiguous(cfg.platform, fields)
    ensures var s := ScanAll(cfg.platform, version, fields);
            && (s.contentLength > cfg.maxBodySize <==> AnnouncesTooMuch(cfg, fields))
            && (s.isChunked || s.contentLength > 0 <==> AnnouncesBody(cfg, fields))
            && !(s.isChunked && s.contentLength > 0)
  {
    var s := ScanAll(cfg.platform, version, fields);
    RejectsExactlyTheAmbiguous(cfg.platform, version, fields);
    ScanDescribes(cfg.platform, version, fields);
    if s.hasCl {
      var f :| f in fields && Carries(cfg.platform, s, f);
      assert GoodLength(cfg.platform, f);
    }
    assert forall f | f in fields && GoodLength(cfg.platform, f) :: Carries(cfg.platform, s, f);
  }

  predicate NamesProtocol(f: Field) {
    ToLower(f.name) == UPGRADE
  }

  // The protocol is that of the last field that names one.
  ghost predicate LastProtocol(fields: seq<Field>, proto: bytes) {
    && ((forall i | 0 <= i < |fields| :: !NamesProtocol(fields[i])) ==> proto == [])
    && (forall i | 0 <= i < |fields| && NamesProtocol(fields[i])
                   && (forall j | i < j < |fields| :: !NamesProtocol(fields[j])) ::
          proto == ToLower(fields[i].value))
  }

  lemma ProtocolNext(fields: seq<Field>, proto: bytes, f: Field)
    requires LastProtocol(fields, proto)
    ensures LastProtocol(fields + [f], if NamesProtocol(f) then ToLower(f.value) else proto)
  {
    var all := fields + [f];
    assert all[|fields|] == f && forall i | 0 <= i < |fields| :: all[i] == fields[i];
  }

  lemma OthersKeepProtocol(p: Platform, s: Scan, value: bytes)
    ensures ScanLength(p, s, value).upgradeProto == s.upgradeProto
    ensures ScanCoding(p, s, value).upgradeProto == s.upgradeProto
    ensures ScanConnection(s, value).upgradeProto == s.upgradeProto
  {
  }

  lemma FieldProtocol(p: Platform, s: Scan, f: Field)
    ensures ScanField(p, s, f).upgradeProto == if NamesProtocol(f) then ToLower(f.value) else s.upgradeProto
  {
    var name := ToLower(f.name);
    assert |UPGRADE| == 7 && |CONTENT_LENGTH| == 14 && |TRANSFER_ENCODING| == 17 && |CONNECTION| == 10;
    if name == UPGRADE {
      assert ScanField(p, s, f) == s.(upgradeProto := ToLower(f.value));
    } else {
      OthersKeepProtocol(p, s, f.value);
    }
  }

  lemma ProtocolSnoc(p: Platform, fields: seq<Field>, s: Scan, f: Field)
    requires LastProtocol(fields, s.upgradeProto)
    ensures LastProtocol(fields + [f], ScanField(p, s, f).upgradeProto)
  {
    FieldProtocol(p, s, f);
    ProtocolNext(fields, s.upgradeProto, f);
  }

  lemma {:induction false} ProtocolVerdict(p: Platform, version: nat, fields: seq<Field>)
    ensures LastProtocol(fields, ScanAll(p, version, fields).upgradeProto)
    decreases |fields|
  {
    if fields != [] {
      var front, f := fields[..|fields| - 1], fields[|fields| - 1];
      var s := ScanAll(p, version, front);
      assert ScanAll(p, version, fields) == ScanField(p, s, f);
      ProtocolVerdict(p, version, front);
      assert fields == front + [f];
      ProtocolSnoc(p, front, s, f);
    }
  }

  /** A field asks for an upgrade, and the last protocol named is WebSocket. */
  ghost predicate AsksWebSocket(fields: seq<Field>) {
    SomeAsks(AsksUpgrade, fields) && LastProtocol(fields, WEBSOCKET)
  }

  lemma OneProtocol(fields: seq<Field>, a: bytes, b: bytes)
    requires LastProtocol(fields, a) && LastProtocol(fields, b)
    ensures a == b
  {
    var i := LastOne(NamesProtocol, fields);
  }

  // The events of a request that is not refused, given what its fields ask for.
  ghost predicate Answered(cfg: Config, c: Conn, p: ParseResult, head: RequestHead, unread: bytes,
                           upgrade: bool, long: bool, body: bool, o: Outcome<Conn, Event>)
    requires p.Complete? && p.offset <= |unread|
  {
    if upgrade then
      && o.events == [Start(head, false), Event.Upgrade(WEBSOCKET)] && o.stopped
      && o.st.state == ServingApp && o.rest == unread[p.offset..]
    else if long then
      o.events == [TOO_LONG] && o.stopped && o.st.state == Closed && o.rest == unread[p.offset..]
    else
      o.events != [] && o.events[0] == Start(head, body) && AllOfBody(o.events[1..])
  }

  lemma StartAnswers(cfg: Config, c: Conn, s: Scan, head: RequestHead, offset: nat, unread: bytes)
    requires 0 < offset <= |unread| && !Rejects(s)
    ensures var t := RequestStep(cfg, c, s, head, offset, unread);
            && t.Take? && !InHeader(t.st)
            && (if s.isUpgrade && s.upgradeProto == WEBSOCKET then
                  && t.events == [Start(head, false), Event.Upgrade(WEBSOCKET)] && t.stop && t.used == offset
                  && t.st.state == ServingApp
                else if !s.isChunked && s.contentLength > cfg.maxBodySize && s.contentLength > 0 then
                  t.events == [TOO_LONG] && t.stop && t.used == offset && t.st.state == Closed
                else
                  && !t.stop && t.events != [] && t.events[0] == Start(head, s.isChunked || s.contentLength > 0)
                  && AllOfBody(t.events[1..]))
  {
  }

  lemma FirstThenBody(start: Event, more: seq<Event>, later: seq<Event>)
    requires AllOfBody(more) && AllOfBody(later)
    ensures ([start] + more + later)[1..] == more + later && AllOfBody(more + later)
  {
  }

  /** A complete header within the limit that is not refused is answered by its fields
      alone: an upgrade, a length beyond the limit, or the start of a request, with or
      without a body, behind which only the body comes. */
  lemma AnsweredByItsFields(cfg: Config, c: Conn, p: ParseResult, unread: bytes)
    requires Expected(cfg, c, unread) && cfg.parse(unread) == p && p.Complete?
    requires !Ambiguous(cfg.platform, p.fields)
    ensures p.offset <= |unread|
    ensures Answered(cfg, c, p, Head(p, Summary(cfg, p)), unread, AsksWebSocket(p.fields),
                     AnnouncesTooMuch(cfg, p.fields), AnnouncesBody(cfg, p.fields), RunConn(cfg, c, unread))
  {
    var s := Summary(cfg, p);
    var head := Head(p, s);
    var t := RequestStep(cfg, c, s, head, p.offset, unread);
    CompleteSteps(cfg, c, p, unread);
    RejectsExactlyTheAmbiguous(cfg.platform, VersionOf(p), p.fields);
    LengthsAgree(cfg, VersionOf(p), p.fields);
    UpgradeVerdict(cfg.platform, VersionOf(p), p.fields);
    StartAnswers(cfg, c, s, head, p.offset, unread);
    if t.stop {
      RunStops(cfg, c, unread, t);
    } else {
      RunGoesOn(cfg, c, unread, t);
      RunKeepsToBody(cfg, t.st, unread[t.used..]);
      FirstThenBody(t.events[0], t.events[1..], RunConn(cfg, t.st, unread[t.used..]).events);
      assert [t.events[0]] + t.events[1..] == t.events;
    }
  }

  lemma UpgradeVerdict(p: Platform, version: nat, fields: seq<Field>)
    ensures var s := ScanAll(p, version, fields);
            s.isUpgrade && s.upgradeProto == WEBSOCKET <==> AsksWebSocket(fields)
  {
    var s := ScanAll(p, version, fields);
    PersistenceVerdict(p, version, fields);
    ProtocolVerdict(p, version, fields);
    if LastProtocol(fields, WEBSOCKET) {
      OneProtocol(fields, WEBSOCKET, s.upgradeProto);
    }
  }

  // ---------------------------------------------------------- what is passed on

  function Named(fields: seq<Field>): seq<Field> {
    if fields == [] then [] else (if fields[0].name == [] then [] else [fields[0]]) + Named(fields[1..])
  }

  // An ASCII capital letter.
  predicate Capital(b: byte) {
    65 <= b <= 90
  }

  // The same text but for the case of its letters, and without capitals.
  ghost predicate InLowerCase(lower: bytes, s: bytes) {
    && |lower| == |s|
    && forall i | 0 <= i < |s| :: !Capital(lower[i]) && lower[i] == if Capital(s[i]) then s[i] | 0x20 else s[i]
  }

  lemma LowerBit(b: byte)
    ensures !Capital(Lower(b)) && Lower(b) == if Capital(b) then b | 0x20 else b
  {
  }

  lemma LowersCase(s: bytes)
    ensures InLowerCase(ToLower(s), s)
  {
    forall i | 0 <= i < |s|
      ensures !Capital(ToLower(s)[i]) && ToLower(s)[i] == if Capital(s[i]) then s[i] | 0x20 else s[i]
    {
      LowerBit(s[i]);
    }
  }

  ghost predicate PassedOn(fields: seq<Field>, headers: seq<Field>) {
    && |headers| == |fields|
    && forall i | 0 <= i < |fields| ::
         headers[i].value == fields[i].value && InLowerCase(headers[i].name, fields[i].name)
  }

  lemma {:induction false} HeadersPassedOn(fields: seq<Field>)
    ensures PassedOn(Named(fields), LowerNames(fields))
  {
    if fields != [] {
      HeadersPassedOn(fields[1..]);
      LowersCase(fields[0].name);
    }
  }

  // The target is cut at its first question mark.
  predicate CutAtQuery(target: bytes, path: bytes, query: bytes) {
    && QUESTION !in path
    && if QUESTION in target then target == path + [QUESTION] + query else target == path && query == []
  }

  lemma {:induction false} CutBefore(s: bytes)
    ensures |Before(s, QUESTION)| < |s| <==> QUESTION in s
    ensures |Before(s, QUESTION)| < |s| ==> s[|Before(s, QUESTION)|] == QUESTION
  {
    if s != [] && s[0] != QUESTION { CutBefore(s[1..]); }
  }

  lemma TargetIsCut(target: bytes)
    ensures var path := Before(target, QUESTION);
            CutAtQuery(target, path, if |path| < |target| then target[|path| + 1..] else [])
  {
    CutBefore(target);
    var path := Before(target, QUESTION);
    assert |path| < |target| ==> target == path + [QUESTION] + target[|path| + 1..];
  }

  // What the first line and the fields say, told from what the parser read.
  ghost predicate TellsTarget(h: RequestHead, p: ParseResult)
    requires p.Complete?
  {
    && h.method_ == (if p.method_.Some? then p.method_.value else GET)
    && CutAtQuery(if p.path.Some? then p.path.value else SLASH, h.path, h.query)
    && h.version == (if p.version.Some? then p.version.value else 1)
  }

  ghost predicate TellsFields(fields: seq<Field>, version: nat, headers: seq<Field>, keep: bool, upgrade: bool,
                              proto: bytes) {
    && PassedOn(Named(fields), headers)
    && LastDecides(Settles, SaysClose, fields, version == 1, keep)
    && (upgrade <==> SomeAsks(AsksUpgrade, fields)) && LastProtocol(fields, proto)
  }

  lemma TargetIsTold(p: ParseResult, s: Scan)
    requires p.Complete?
    ensures TellsTarget(Head(p, s), p)
  {
    TargetIsCut(if p.path.Some? then p.path.value else SLASH);
  }

  lemma FieldsAreTold(platform: Platform, version: nat, fields: seq<Field>)
    ensures var s := ScanAll(platform, version, fields);
            TellsFields(fields, version, LowerNames(fields), s.keepAlive, s.isUpgrade, s.upgradeProto)
  {
    HeadersPassedOn(fields);
    PersistenceVerdict(platform, version, fields);
    ProtocolVerdict(platform, version, fields);
  }

  /** The application sees the method, the target cut at its first question mark, the
      version, every named field in order under its lower-case name, and the verdicts on
      persistence and upgrade. */
  lemma HeadIsPassedOn(cfg: Config, p: ParseResult)
    requires p.Complete?
    ensures var h := Head(p, Summary(cfg, p));
            TellsTarget(h, p)
            && TellsFields(p.fields, h.version, h.headers, h.keepAlive, h.isUpgrade, h.upgradeProto)
  {
    TargetIsTold(p, Summary(cfg, p));
    FieldsAreTold(cfg.platform, VersionOf(p), p.fields);
  }
}
