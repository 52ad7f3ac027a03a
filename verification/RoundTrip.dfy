/** What the response writer sends in pieces, the chunked decoder reads back. */
module RoundTrip {
  import opened Bytes
  import opened Text
  import opened Framing
  import opened Incremental
  import opened HttpMachine
  import opened Segmentation
  import opened Response

  /** The chunk-formatted pieces of a streamed body; the last call closes it. */
  function ChunkStream(pieces: seq<bytes>): bytes
    requires pieces != []
  {
    if |pieces| == 1 then ChunkWire(pieces[0], false)
    else ChunkWire(pieces[0], true) + ChunkStream(pieces[1..])
  }

  // One event per non-empty piece, and a final empty one.
  function ChunkEvents(pieces: seq<bytes>): seq<Event> {
    if pieces == [] then [Body([], false)]
    else (if pieces[0] == [] then [] else [Body(pieces[0], true)]) + ChunkEvents(pieces[1..])
  }

  lemma {:induction false} ChunkEventsText(pieces: seq<bytes>)
    ensures BodyText(ChunkEvents(pieces)) == Concat(pieces)
  {
    if pieces == [] {
      assert [Body([], false)][1..] == [];
    } else {
      ChunkEventsText(pieces[1..]);
      var first := if pieces[0] == [] then [] else [Body(pieces[0], true)];
      BodyTextAppend(first, ChunkEvents(pieces[1..]));
      assert first != [] ==> first[1..] == [];
    }
  }

  // All the proofs below need of the engine.
  ghost predicate Dechunks(cfg: Config, step: Stepper<Conn, Event>) {
    && Sound(step, ANY)
    && (forall c: Conn, a: bytes | Resting(c) :: step(c, a).Wait?)
    && (forall c: Conn, a: bytes | c.state.ReceivingChunked? ::
          step(c, a) == ChunkStep(cfg, c, c.state.stage, a))
  }

  lemma EngineDechunks(cfg: Config)
    ensures Dechunks(cfg, Engine(cfg))
  {
    EngineIsSound(cfg);
    forall c: Conn, a: bytes | Resting(c)
      ensures Engine(cfg)(c, a).Wait?
    {
      assert Engine(cfg)(c, a) == ConnStep(cfg, c, a);
    }
    forall c: Conn, a: bytes | c.state.ReceivingChunked?
      ensures Engine(cfg)(c, a) == ChunkStep(cfg, c, c.state.stage, a)
    {
      assert Engine(cfg)(c, a) == ConnStep(cfg, c, a);
    }
  }

  lemma ChunkAt(cfg: Config, step: Stepper<Conn, Event>, c: Conn, stage: ChunkedStage, a: bytes)
    requires Dechunks(cfg, step) && c.state == ReceivingChunked(stage)
    ensures step(c, a) == ChunkStep(cfg, c, stage, a)
  {
  }

  lemma RestsAt(cfg: Config, step: Stepper<Conn, Event>, c: Conn, a: bytes)
    requires Dechunks(cfg, step) && Resting(c)
    ensures step(c, a).Wait?
  {
  }

  /** A size line written by the formatter is found and cut out whole. */
  lemma FindSizeLine(n: nat, tail: bytes)
    ensures Find(Hex(n) + CRLF + tail, CRLF) == Some(|Hex(n)|)
    ensures Before((Hex(n) + CRLF + tail)[..|Hex(n)|], SEMICOLON) == Hex(n)
    ensures (Hex(n) + CRLF + tail)[|Hex(n)| + 2..] == tail
  {
    var line := Hex(n);
    HexNumeralBytes(line);
    FindLineEnd(line, tail);
    assert (line + CRLF + tail)[..|line|] == line;
  }

  lemma ReadSize(cfg: Config, step: Stepper<Conn, Event>, c: Conn, n: usize, tail: bytes)
    requires Dechunks(cfg, step) && Sane(cfg.platform) && c.state == ReceivingChunked(ReadingSize)
    ensures step(c, Hex(n) + CRLF + tail) == SizeValueStep(cfg.maxBodySize, c, Some(n), |Hex(n)| + 2)
    ensures (Hex(n) + CRLF + tail)[|Hex(n)| + 2..] == tail
  {
    FindSizeLine(n, tail);
    ChunkAt(cfg, step, c, ReadingSize, Hex(n) + CRLF + tail);
  }

  lemma ReadPayload(cfg: Config, step: Stepper<Conn, Event>, c: Conn, p: bytes, tail: bytes)
    requires Dechunks(cfg, step) && p != [] && c.state == ReceivingChunked(ReadingData(|p|))
    ensures step(c, p + CRLF + tail)
         == Take(|p| + 2, c.(state := ReceivingChunked(ReadingSize)), [Body(p, true)], false)
    ensures (p + CRLF + tail)[|p| + 2..] == tail
  {
    var all := p + CRLF + tail;
    assert all[|p|..|p| + 2] == CRLF && all[..|p|] == p;
    ChunkAt(cfg, step, c, ReadingData(|p|), all);
  }

  lemma ReadBlankLine(cfg: Config, step: Stepper<Conn, Event>, c: Conn, next: bytes)
    requires Dechunks(cfg, step) && c.state == ReceivingChunked(ReadingTrailers)
    ensures step(c, CRLF + next) == Take(2, c.(state := ServingApp), [Body([], false)], false)
    ensures (CRLF + next)[2..] == next
    ensures step(c.(state := ServingApp), next).Wait?
  {
    assert CRLF <= CRLF + next;
    ChunkAt(cfg, step, c, ReadingTrailers, CRLF + next);
    RestsAt(cfg, step, c.(state := ServingApp), next);
  }

  // One or two iterations of the loop, as equations.

  lemma RunOne<S(!new), E(!new)>(step: Stepper<S, E>, inv: S -> bool, st: S, unread: bytes, t: Step<S, E>, rest: bytes)
    requires Sound(step, inv) && inv(st) && step(st, unread) == t && t.Take? && t.used <= |unread|
    requires unread[t.used..] == rest
    ensures inv(t.st)
    ensures Run(step, inv, st, unread)
         == if t.stop then Outcome(t.st, t.events, rest, true) else After(t.events, Run(step, inv, t.st, rest))
  {
    UnfoldRun(step, inv, st, unread);
  }

  lemma RunTwo<S(!new), E(!new)>(step: Stepper<S, E>, inv: S -> bool, st: S, unread: bytes,
                                 t: Step<S, E>, mid: bytes, u: Step<S, E>, rest: bytes)
    requires Sound(step, inv) && inv(st) && step(st, unread) == t && t.Take? && t.used <= |unread|
    requires unread[t.used..] == mid && !t.stop && t.events == []
    requires step(t.st, mid) == u && u.Take? && u.used <= |mid| && mid[u.used..] == rest && !u.stop
    ensures inv(u.st) && Run(step, inv, st, unread) == After(u.events, Run(step, inv, u.st, rest))
  {
    RunOne(step, inv, st, unread, t, mid);
    RunOne(step, inv, t.st, mid, u, rest);
    AfterNothing(Run(step, inv, t.st, mid));
  }

  // The loop over one non-empty piece: its event, or a refusal when it exceeds the limit.
  ghost predicate PieceRuns(maxBody: nat, step: Stepper<Conn, Event>, c: Conn, p: bytes, all: bytes, rest: bytes,
                            tail: bytes)
    requires Sound(step, ANY)
  {
    var counted := c.(totalBodyReceived := c.totalBodyReceived + |p|);
    if counted.totalBodyReceived <= maxBody
    then Run(step, ANY, c, all) == After([Body(p, true)], Run(step, ANY, counted, tail))
    else Run(step, ANY, c, all) == Outcome(counted.(state := Closed), [Error(413, PayloadTooLarge)], rest, true)
  }

  lemma RunPiece(maxBody: nat, step: Stepper<Conn, Event>, c: Conn, p: bytes, all: bytes, used: pos, rest: bytes,
                 tail: bytes)
    requires Sound(step, ANY) && c.state == ReceivingChunked(ReadingSize) && 0 < |p| <= USIZE_MAX
    requires used <= |all| && all[used..] == rest && |p| + 2 <= |rest| && rest[|p| + 2..] == tail
    requires step(c, all) == SizeValueStep(maxBody, c, Some(|p|), used)
    requires var counted := c.(totalBodyReceived := c.totalBodyReceived + |p|);
             step(counted.(state := ReceivingChunked(ReadingData(|p|))), rest)
             == Take(|p| + 2, counted.(state := ReceivingChunked(ReadingSize)), [Body(p, true)], false)
    ensures PieceRuns(maxBody, step, c, p, all, rest, tail)
  {
    var t := SizeValueStep(maxBody, c, Some(|p|), used);
    if t.stop {
      RunOne(step, ANY, c, all, t, rest);
    } else {
      RunTwo(step, ANY, c, all, t, rest, step(t.st, rest), tail);
    }
  }

  lemma ReadPiece(cfg: Config, step: Stepper<Conn, Event>, c: Conn, p: bytes, tail: bytes)
    requires Dechunks(cfg, step) && Sane(cfg.platform)
    requires c.state == ReceivingChunked(ReadingSize) && 0 < |p| <= USIZE_MAX
    ensures PieceRuns(cfg.maxBodySize, step, c, p, Hex(|p|) + CRLF + (p + CRLF + tail), p + CRLF + tail, tail)
  {
    var reading := c.(totalBodyReceived := c.totalBodyReceived + |p|, state := ReceivingChunked(ReadingData(|p|)));
    var rest := p + CRLF + tail;
    var all, used := Hex(|p|) + CRLF + rest, |Hex(|p|)| + 2;
    assert step(c, all) == SizeValueStep(cfg.maxBodySize, c, Some(|p|), used) && all[used..] == rest by {
      ReadSize(cfg, step, c, |p|, rest);
    }
    ReadPayload(cfg, step, reading, p, tail);
    RunPiece(cfg.maxBodySize, step, c, p, all, used, rest, tail);
  }

  /** The closing chunk. */
  lemma ReadLast(cfg: Config, step: Stepper<Conn, Event>, c: Conn, next: bytes)
    requires Dechunks(cfg, step) && Sane(cfg.platform) && c.state == ReceivingChunked(ReadingSize)
    ensures Run(step, ANY, c, LAST_CHUNK + next) == Outcome(c.(state := ServingApp), [Body([], false)], next, false)
  {
    HexOfZero();
    var rest := CRLF + next;
    assert LAST_CHUNK + next == Hex(0) + CRLF + rest;
    ReadSize(cfg, step, c, 0, rest);
    var t := SizeValueStep(cfg.maxBodySize, c, Some(0), 3);
    ReadBlankLine(cfg, step, t.st, next);
    var u := Take(2, c.(state := ServingApp), [Body([], false)], false);
    RunTwo(step, ANY, c, LAST_CHUNK + next, t, rest, u, next);
    UnfoldRun(step, ANY, u.st, next);
    assert u.events + [] == u.events;
  }

  lemma HexOfZero()
    ensures Hex(0) == [48]
  {
    assert HexPlaces(0) == [0];
  }

  // The decoder's answer to a streamed body of `size` bytes that `next` follows.
  ghost predicate ReadsStream(maxBody: nat, c: Conn, size: nat, events: seq<Event>, next: bytes,
                              o: Outcome<Conn, Event>) {
    if c.totalBodyReceived + size <= maxBody
    then o == Outcome(c.(state := ServingApp, totalBodyReceived := c.totalBodyReceived + size), events, next, false)
    else o.stopped && o.st.state.Closed? && o.events != [] && o.events[|o.events| - 1] == Error(413, PayloadTooLarge)
  }

  /** The stream with the bytes that follow it, piece by piece; without pieces
      it is just the closing chunk. */
  function StreamTail(pieces: seq<bytes>, next: bytes): bytes {
    if pieces == [] then LAST_CHUNK + next else CodedPiece(pieces[0], StreamTail(pieces[1..], next))
  }

  function CodedPiece(p: bytes, tail: bytes): bytes {
    if p == [] then tail else Hex(|p|) + CRLF + (p + CRLF + tail)
  }

  lemma {:induction false} StreamIsTail(pieces: seq<bytes>, next: bytes)
    requires pieces != []
    ensures ChunkStream(pieces) + next == StreamTail(pieces, next)
    decreases |pieces|
  {
    var p, later := pieces[0], pieces[1..];
    if later == [] {
      assert ChunkStream(pieces) == CodedPiece(p, LAST_CHUNK);
      CodedThen(p, LAST_CHUNK, next);
    } else {
      StreamIsTail(later, next);
      assert ChunkStream(pieces) == CodedPiece(p, ChunkStream(later));
      CodedThen(p, ChunkStream(later), next);
    }
  }

  lemma CodedThen(p: bytes, tail: bytes, next: bytes)
    ensures CodedPiece(p, tail) + next == CodedPiece(p, tail + next)
  {
    if p != [] {
      assert (Hex(|p|) + CRLF + (p + CRLF + tail)) + next == Hex(|p|) + CRLF + (p + CRLF + (tail + next));
    }
  }

  // What reading `p` and then the rest comes to, given what the rest comes to.
  ghost predicate FirstPiece(maxBody: nat, c: Conn, p: bytes, all: Outcome<Conn, Event>, rest: Outcome<Conn, Event>) {
    if c.totalBodyReceived + |p| <= maxBody
    then all == if p == [] then rest else After([Body(p, true)], rest)
    else all.stopped && all.st.state.Closed? && all.events == [Error(413, PayloadTooLarge)]
  }

  lemma ReadFirst(cfg: Config, step: Stepper<Conn, Event>, c: Conn, p: bytes, tail: bytes)
    requires Dechunks(cfg, step) && Sane(cfg.platform) && c.state == ReceivingChunked(ReadingSize)
    requires c.totalBodyReceived <= cfg.maxBodySize && |p| <= USIZE_MAX
    ensures FirstPiece(cfg.maxBodySize, c, p, Run(step, ANY, c, CodedPiece(p, tail)),
                       Run(step, ANY, c.(totalBodyReceived := c.totalBodyReceived + |p|), tail))
  {
    if p == [] {
      assert c.(totalBodyReceived := c.totalBodyReceived + |p|) == c;
    } else {
      ReadPiece(cfg, step, c, p, tail);
    }
  }

  // Every piece has a length the size line can carry.
  predicate Fit(pieces: seq<bytes>) {
    pieces == [] || (|pieces[0]| <= USIZE_MAX && Fit(pieces[1..]))
  }

  lemma {:induction false} AllFit(pieces: seq<bytes>)
    requires forall i | 0 <= i < |pieces| :: |pieces[i]| <= USIZE_MAX
    ensures Fit(pieces)
  {
    if pieces != [] { AllFit(pieces[1..]); }
  }

  lemma StepNext(cfg: Config, step: Stepper<Conn, Event>, c: Conn, p: bytes, stream: bytes, tail: bytes,
                 all: Outcome<Conn, Event>, rest: Outcome<Conn, Event>)
    requires Dechunks(cfg, step) && Sane(cfg.platform) && c.state == ReceivingChunked(ReadingSize)
    requires c.totalBodyReceived <= cfg.maxBodySize && |p| <= USIZE_MAX
    requires stream == CodedPiece(p, tail) && all == Run(step, ANY, c, stream)
    requires rest == Run(step, ANY, c.(totalBodyReceived := c.totalBodyReceived + |p|), tail)
    ensures FirstPiece(cfg.maxBodySize, c, p, all, rest)
  {
    ReadFirst(cfg, step, c, p, tail);
  }

  lemma ReadsNext(maxBody: nat, c: Conn, p: bytes, size: nat, events: seq<Event>, next: bytes,
                  o: Outcome<Conn, Event>, all: Outcome<Conn, Event>, allSize: nat, allEvents: seq<Event>)
    requires c.totalBodyReceived + |p| <= maxBody && FirstPiece(maxBody, c, p, all, o)
    requires ReadsStream(maxBody, c.(totalBodyReceived := c.totalBodyReceived + |p|), size, events, next, o)
    requires allSize == |p| + size && allEvents == (if p == [] then [] else [Body(p, true)]) + events
    ensures ReadsStream(maxBody, c, allSize, allEvents, next, all)
  {
    if p == [] {
      assert c.(totalBodyReceived := c.totalBodyReceived + |p|) == c;
      assert [] + events == events;
    }
  }

  lemma ConcatSize(pieces: seq<bytes>)
    requires pieces != []
    ensures |Concat(pieces)| == |pieces[0]| + |Concat(pieces[1..])|
  {
  }

  /** `pieces` may be empty here: the stream is then just its closing chunk. */
  lemma {:induction false} ReadStream(cfg: Config, step: Stepper<Conn, Event>, c: Conn, pieces: seq<bytes>, next: bytes,
                                      stream: bytes, all: Outcome<Conn, Event>, size: nat, events: seq<Event>)
    requires Dechunks(cfg, step) && Sane(cfg.platform) && c.state == ReceivingChunked(ReadingSize)
    requires c.totalBodyReceived <= cfg.maxBodySize && Fit(pieces)
    requires stream == StreamTail(pieces, next) && all == Run(step, ANY, c, stream)
    requires size == |Concat(pieces)| && events == ChunkEvents(pieces)
    ensures ReadsStream(cfg.maxBodySize, c, size, events, next, all)
    decreases |pieces|
  {
    if pieces == [] {
      ReadLast(cfg, step, c, next);
    } else {
      var p, later := pieces[0], pieces[1..];
      var counted, tail := c.(totalBodyReceived := c.totalBodyReceived + |p|), StreamTail(later, next);
      var rest := Run(step, ANY, counted, tail);
      StepNext(cfg, step, c, p, stream, tail, all, rest);
      ConcatSize(pieces);
      if counted.totalBodyReceived <= cfg.maxBodySize {
        ReadStream(cfg, step, counted, later, next, tail, rest, |Concat(later)|, ChunkEvents(later));
        ReadsNext(cfg.maxBodySize, c, p, |Concat(later)|, ChunkEvents(later), next, rest, all, size, events);
      }
    }
  }

  /** A streamed body of exactly these pieces arrived, with the bytes of the next
      message left unread, if and only if it is within the size limit; otherwise
      the connection refused it. */
  ghost predicate Arrives(maxBody: nat, pieces: seq<bytes>, next: bytes, o: Outcome<Conn, Event>) {
    && (o.st.state.ServingApp? <==> |Concat(pieces)| <= maxBody)
    && (o.st.state.ServingApp? ==>
          o.events == ChunkEvents(pieces) && BodyText(o.events) == Concat(pieces) && o.rest == next && !o.stopped)
    && (!o.st.state.ServingApp? ==>
          o.stopped && o.st.state.Closed? && o.events != [] && o.events[|o.events| - 1] == Error(413, PayloadTooLarge))
  }

  lemma ReadsMeansArrives(maxBody: nat, c: Conn, pieces: seq<bytes>, next: bytes, o: Outcome<Conn, Event>)
    requires c.totalBodyReceived == 0 && ReadsStream(maxBody, c, |Concat(pieces)|, ChunkEvents(pieces), next, o)
    ensures Arrives(maxBody, pieces, next, o)
  {
    ChunkEventsText(pieces);
  }

  lemma StreamArrives(cfg: Config, step: Stepper<Conn, Event>, c: Conn, pieces: seq<bytes>, next: bytes, stream: bytes)
    requires Dechunks(cfg, step) && Sane(cfg.platform) && c.state == ReceivingChunked(ReadingSize)
    requires c.totalBodyReceived == 0 && pieces != [] && Fit(pieces) && stream == ChunkStream(pieces) + next
    ensures Arrives(cfg.maxBodySize, pieces, next, Run(step, ANY, c, stream))
  {
    var all := Run(step, ANY, c, stream);
    StreamIsTail(pieces, next);
    ReadStream(cfg, step, c, pieces, next, stream, all, |Concat(pieces)|, ChunkEvents(pieces));
    ReadsMeansArrives(cfg.maxBodySize, c, pieces, next, all);
  }

  /** Chunked round trip: the body part of a streamed response followed by its
      later pieces decodes to exactly the pieces. */
  lemma ChunkedRoundTrip(cfg: Config, c: Conn, r: Request, later: seq<bytes>, next: bytes)
    requires Sane(cfg.platform) && c.state == ReceivingChunked(ReadingSize) && c.totalBodyReceived == 0
    requires IsChunked(r) && later != []
    requires |r.body| <= USIZE_MAX && forall i | 0 <= i < |later| :: |later[i]| <= USIZE_MAX
    ensures Arrives(cfg.maxBodySize, [r.body] + later, next, RunConn(cfg, c, BodyWire(r) + ChunkStream(later) + next))
  {
    var pieces := [r.body] + later;
    assert pieces[1..] == later;
    assert BodyWire(r) + ChunkStream(later) == ChunkStream(pieces);
    AllFit(pieces);
    EngineDechunks(cfg);
    StreamArrives(cfg, Engine(cfg), c, pieces, next, BodyWire(r) + ChunkStream(later) + next);
  }
}
