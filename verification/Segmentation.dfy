/** Request bodies do not depend on how the bytes were cut up: from any body
    state, one `feed_data` call per piece ends like one call with everything. */
module Segmentation {
  import opened Bytes
  import opened Text
  import opened Framing
  import opened Incremental
  import opened HttpMachine

  ghost function RunConn(cfg: Config, c: Conn, unread: bytes): Outcome<Conn, Event> {
    EngineIsSound(cfg);
    Run(Engine(cfg), ANY, c, unread)
  }

  ghost function FeedConn(cfg: Config, c: Conn, unread: bytes, pieces: seq<bytes>): Outcome<Conn, Event> {
    EngineIsSound(cfg);
    FeedAll(Engine(cfg), ANY, c, unread, pieces)
  }

  // --------------------------------------------------------- chunked bodies

  const IN_CHUNKS: Conn -> bool := (c: Conn) => InChunks(c)

  lemma SizeStable(cfg: Config, c: Conn, a: bytes, b: bytes)
    requires SizeStep(cfg, c, a).Take?
    ensures SizeStep(cfg, c, a + b) == SizeStep(cfg, c, a)
  {
    FindStable(a, b, CRLF);
    var end := Find(a, CRLF).value;
    assert (a + b)[..end] == a[..end];
  }

  lemma DataStable(c: Conn, n: pos, a: bytes, b: bytes)
    requires DataStep(c, n, a).Take?
    ensures DataStep(c, n, a + b) == DataStep(c, n, a)
  {
    assert (a + b)[n..n + 2] == a[n..n + 2];
    assert (a + b)[..n] == a[..n];
  }

  lemma TrailerStable(c: Conn, a: bytes, b: bytes)
    requires TrailerStep(c, a).Take?
    ensures TrailerStep(c, a + b) == TrailerStep(c, a)
  {
    if CRLF <= a {
      assert CRLF <= a + b;
    } else {
      FindStable(a, b, CRLFCRLF);
      assert |a| >= 4 && (a + b)[..2] == a[..2];
    }
  }

  lemma ChunksStable(cfg: Config, c: Conn, a: bytes, b: bytes)
    requires IN_CHUNKS(c) && ConnStep(cfg, c, a).Take?
    ensures ConnStep(cfg, c, a + b) == ConnStep(cfg, c, a)
  {
    match c.state.stage
    case ReadingSize => SizeStable(cfg, c, a, b);
    case ReadingData(n) => DataStable(c, n, a, b);
    case ReadingTrailers => TrailerStable(c, a, b);
  }

  lemma ChunksAreIncremental(cfg: Config)
    ensures Sound(Engine(cfg), IN_CHUNKS) && Stable(Engine(cfg), IN_CHUNKS) && InertAfterStop(Engine(cfg), IN_CHUNKS)
  {
    EngineIsSound(cfg);
    forall c: Conn, a: bytes | IN_CHUNKS(c) && Engine(cfg)(c, a).Take?
      ensures IN_CHUNKS(Engine(cfg)(c, a).st)
    {
      ChunksStay(cfg, c, a);
    }
    forall c: Conn, a: bytes, b: bytes | IN_CHUNKS(c) && Engine(cfg)(c, a).Take?
      ensures Engine(cfg)(c, a + b) == Engine(cfg)(c, a)
    {
      ChunksStable(cfg, c, a, b);
    }
  }

  lemma ChunksStay(cfg: Config, c: Conn, a: bytes)
    requires IN_CHUNKS(c) && ConnStep(cfg, c, a).Take?
    ensures IN_CHUNKS(ConnStep(cfg, c, a).st)
  {
  }

  /** Chunked bodies: whatever the pieces, the events, the final state (errors
      included) and the unread bytes are those of one delivery. */
  lemma ChunkedSplit(cfg: Config, c: Conn, unread: bytes, pieces: seq<bytes>)
    requires IN_CHUNKS(c) && ConnStep(cfg, c, unread).Wait?
    ensures FeedConn(cfg, c, unread, pieces) == RunConn(cfg, c, unread + Concat(pieces))
  {
    ChunksAreIncremental(cfg);
    EngineIsSound(cfg);
    SplitExact(Engine(cfg), IN_CHUNKS, c, unread, pieces);
    RunIgnoresInvariant(Engine(cfg), IN_CHUNKS, ANY, c, unread + Concat(pieces));
    FeedIgnoresInvariant(Engine(cfg), IN_CHUNKS, ANY, c, unread, pieces);
  }

  // -------------------------------------------------- Content-Length bodies

  function BodyText(events: seq<Event>): bytes {
    if events == [] then []
    else (if events[0].Body? then events[0].data else []) + BodyText(events[1..])
  }

  lemma {:induction false} BodyTextAppend(a: seq<Event>, b: seq<Event>)
    ensures BodyText(a + b) == BodyText(a) + BodyText(b)
  {
    if a == [] {
      assert a + b == b;
    } else {
      assert (a + b)[1..] == a[1..] + b;
      BodyTextAppend(a[1..], b);
    }
  }

  /** Body events only; the last one closes the body exactly when it is complete. */
  ghost predicate BodyEvents(events: seq<Event>, complete: bool) {
    && (forall i | 0 <= i < |events| :: events[i].Body? && events[i].more == (!complete || i < |events| - 1))
    && (complete ==> events != [])
  }

  // What reading a body of `remaining` bytes must come to, given all of `input`.
  ghost predicate ReadsLength(c: Conn, remaining: pos, input: bytes, o: Outcome<Conn, Event>) {
    var complete := |input| >= remaining;
    && o.st == c.(state := if complete then ServingApp else ReceivingContentLength(remaining - |input|))
    && o.rest == (if complete then input[remaining..] else [])
    && BodyText(o.events) == (if complete then input[..remaining] else input)
    && BodyEvents(o.events, complete)
    && !o.stopped
  }

  // All the proofs below need of the engine.
  ghost predicate ReadsBodies(step: Stepper<Conn, Event>) {
    && Sound(step, ANY)
    && (forall c: Conn, a: bytes | Resting(c) :: step(c, a).Wait?)
    && (forall c: Conn, a: bytes | c.state.ReceivingContentLength? :: step(c, a) == LengthStep(c, c.state.remaining, a))
  }

  lemma EngineReadsBodies(cfg: Config)
    ensures ReadsBodies(Engine(cfg))
  {
    EngineIsSound(cfg);
  }

  lemma RunLength(step: Stepper<Conn, Event>, c: Conn, remaining: pos, unread: bytes)
    requires ReadsBodies(step) && c.state == ReceivingContentLength(remaining)
    ensures ReadsLength(c, remaining, unread, Run(step, ANY, c, unread))
  {
    if unread != [] {
      var t := LengthStep(c, remaining, unread);
      assert step(c, unread) == t;
      assert t.events + [] == t.events;
      assert BodyText(t.events) == t.events[0].data;
      if |unread| < remaining {
        assert unread[t.used..] == [] && unread[..t.used] == unread;
        assert step(t.st, []).Wait?;
      } else {
        assert step(t.st, unread[t.used..]).Wait?;
      }
    }
  }

  lemma FeedFirst(step: Stepper<Conn, Event>, c: Conn, pieces: seq<bytes>, r: Outcome<Conn, Event>,
                  t: Outcome<Conn, Event>)
    requires Sound(step, ANY) && pieces != []
    requires r == Run(step, ANY, c, pieces[0]) && t == FeedAll(step, ANY, r.st, r.rest, pieces[1..])
    ensures FeedAll(step, ANY, c, [], pieces) == Outcome(t.st, r.events + t.events, t.rest, r.stopped || t.stopped)
  {
    assert [] + pieces[0] == pieces[0];
  }

  lemma {:induction false} SplitLength(step: Stepper<Conn, Event>, c: Conn, remaining: pos, pieces: seq<bytes>)
    requires ReadsBodies(step) && c.state == ReceivingContentLength(remaining)
    ensures ReadsLength(c, remaining, Concat(pieces), FeedAll(step, ANY, c, [], pieces))
    decreases |pieces|
  {
    if pieces != [] {
      var first, later := pieces[0], pieces[1..];
      var r := Run(step, ANY, c, first);
      var t := FeedAll(step, ANY, r.st, r.rest, later);
      FeedFirst(step, c, pieces, r, t);
      RunLength(step, c, remaining, first);
      if |first| < remaining {
        SplitLength(step, r.st, remaining - |first|, later);
        JoinLength(c, remaining, first, Concat(later), r, t);
      } else {
        FeedInert(step, ANY, r.st, r.rest, later);
        PassLength(c, remaining, first, Concat(later), r);
        assert r.events + [] == r.events;
      }
    }
  }

  lemma JoinLength(c: Conn, remaining: pos, first: bytes, later: bytes, r: Outcome<Conn, Event>,
                   t: Outcome<Conn, Event>)
    requires |first| < remaining
    requires ReadsLength(c, remaining, first, r) && ReadsLength(r.st, remaining - |first|, later, t)
    ensures ReadsLength(c, remaining, first + later, Outcome(t.st, r.events + t.events, t.rest, false))
  {
    BodyTextAppend(r.events, t.events);
    var all := first + later;
    if |all| >= remaining {
      assert all[remaining..] == later[remaining - |first|..];
      assert all[..remaining] == first + later[..remaining - |first|];
    }
  }

  lemma PassLength(c: Conn, remaining: pos, first: bytes, later: bytes, r: Outcome<Conn, Event>)
    requires |first| >= remaining && ReadsLength(c, remaining, first, r)
    ensures ReadsLength(c, remaining, first + later, Outcome(r.st, r.events, r.rest + later, false))
  {
    assert (first + later)[remaining..] == first[remaining..] + later;
    assert (first + later)[..remaining] == first[..remaining];
  }

  /** Content-Length bodies: one delivery, and one call per piece, both read
      exactly `remaining` bytes, leave the rest unread, and end the body with
      one final event exactly when it is complete. */
  lemma LengthSplit(cfg: Config, c: Conn, remaining: pos, pieces: seq<bytes>)
    requires c.state == ReceivingContentLength(remaining)
    ensures ReadsLength(c, remaining, Concat(pieces), RunConn(cfg, c, Concat(pieces)))
    ensures ReadsLength(c, remaining, Concat(pieces), FeedConn(cfg, c, [], pieces))
  {
    EngineReadsBodies(cfg);
    RunLength(Engine(cfg), c, remaining, Concat(pieces));
    SplitLength(Engine(cfg), c, remaining, pieces);
  }

  /** The part of a body delivered together with the header is what the body
      state would have delivered from the bytes behind the header. */
  lemma InlineBody(cfg: Config, c: Conn, s: Scan, head: RequestHead, offset: nat, unread: bytes)
    requires 0 < offset <= |unread|
    requires !Rejects(s) && !s.isChunked && 0 < s.contentLength <= cfg.maxBodySize
    requires !(s.isUpgrade && s.upgradeProto == WEBSOCKET)
    ensures
      var t := RequestStep(cfg, c, s, head, offset, unread);
      var waiting := c.(requestCount := c.requestCount + 1, keepAlive := s.keepAlive,
                        state := ReceivingContentLength(s.contentLength));
      var body := LengthStep(waiting, s.contentLength, unread[offset..]);
      if body.Wait? then t == Take(offset, waiting, [Start(head, true)], false)
      else t == Take(offset + body.used, body.st, [Start(head, true)] + body.events, false)
  {
    var body := unread[offset..];
    var n := if |body| < s.contentLength then |body| else s.contentLength;
    assert body[..n] == unread[offset..offset + n];
  }
}
