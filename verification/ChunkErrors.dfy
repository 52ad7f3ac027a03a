/** What the connection answers while it reads a chunked body, well-formed or not
    (section 7.1 of RFC 9112). */
module ChunkErrors {
  import opened Bytes
  import opened HeaderStage
  import opened HttpMachine
  import opened Incremental
  import opened Segmentation
  import opened Text

  // Refused with nothing more than this; the connection is closed.
  ghost predicate Refuses(o: Outcome<Conn, Event>, error: Event, unread: bytes) {
    o.events == [error] && o.stopped && o.st.state == Closed && o.rest == unread
  }

  function SizeIn(cfg: Config, line: bytes): Option<usize> {
    cfg.platform.parseRadix(cfg.platform.trim(Before(line, SEMICOLON)), 16)
  }

  lemma InChunkSteps(cfg: Config, c: Conn, unread: bytes)
    requires c.state.ReceivingChunked?
    ensures ConnStep(cfg, c, unread) == ChunkStep(cfg, c, c.state.stage, unread)
  {
  }

  lemma LineStep(cfg: Config, c: Conn, line: bytes, rest: bytes)
    requires CR !in line
    ensures SizeStep(cfg, c, line + CRLF + rest) == SizeTextStep(cfg, c, Before(line, SEMICOLON), |line| + 2)
    ensures (line + CRLF + rest)[|line| + 2..] == rest
  {
    var unread := line + CRLF + rest;
    FindLineEnd(line, rest);
    assert unread[..|line|] == line;
  }

  // One iteration over a size line, as the outcome of the run.
  lemma RunLine(cfg: Config, c: Conn, line: bytes, rest: bytes)
    requires c.state == ReceivingChunked(ReadingSize) && CR !in line
    ensures var t := SizeTextStep(cfg, c, Before(line, SEMICOLON), |line| + 2);
            var unread, o := line + CRLF + rest, RunConn(cfg, c, line + CRLF + rest);
            && t.Take? && t.used <= |unread|
            && (if t.stop then o == Outcome(t.st, t.events, unread[t.used..], true)
                else o == After(t.events, RunConn(cfg, t.st, unread[t.used..])))
            && unread[|line| + 2..] == rest && unread[0..] == unread
  {
    var unread := line + CRLF + rest;
    InChunkSteps(cfg, c, unread);
    LineStep(cfg, c, line, rest);
    var t := SizeTextStep(cfg, c, Before(line, SEMICOLON), |line| + 2);
    if t.stop {
      RunStops(cfg, c, unread, t);
    } else {
      RunGoesOn(cfg, c, unread, t);
    }
  }

  datatype LineAnswer = Refuse(error: Event, left: bytes) | ReadOn(c: Conn)

  /** A size line, up to its semicolon, must be text and a hexadecimal number, and the
      chunk must fit into the limit with what came before it. */
  function AnswerToLine(cfg: Config, c: Conn, line: bytes, unread: bytes, rest: bytes): LineAnswer {
    var size := SizeIn(cfg, line);
    if !cfg.platform.isUtf8(Before(line, SEMICOLON)) then Refuse(Error(400, InvalidEncoding), unread)
    else if size.None? then Refuse(Error(400, InvalidLength), unread)
    else if size.value == 0 then ReadOn(c.(state := ReceivingChunked(ReadingTrailers)))
    else if c.totalBodyReceived + size.value > cfg.maxBodySize then Refuse(Error(413, PayloadTooLarge), rest)
    else
      ReadOn(c.(totalBodyReceived := c.totalBodyReceived + size.value,
                state := ReceivingChunked(ReadingData(size.value))))
  }

  lemma LineStepAnswers(cfg: Config, c: Conn, line: bytes, used: pos, unread: bytes, rest: bytes)
    ensures var t, a := SizeTextStep(cfg, c, Before(line, SEMICOLON), used), AnswerToLine(cfg, c, line, unread, rest);
            && t.Take?
            && (if t.stop then
                  && a.Refuse? && t.st.state == Closed && t.events == [a.error]
                  && (t.used == 0 || t.used == used) && a.left == if t.used == 0 then unread else rest
                else a == ReadOn(t.st) && t.events == [] && t.used == used)
  {
  }

  /** It is refused, or the body is read on, as that says. */
  lemma SizeLineAnswers(cfg: Config, c: Conn, line: bytes, rest: bytes)
    requires c.state == ReceivingChunked(ReadingSize) && CR !in line
    ensures var unread := line + CRLF + rest;
            var o, a := RunConn(cfg, c, unread), AnswerToLine(cfg, c, line, unread, rest);
            if a.Refuse? then Refuses(o, a.error, a.left) else o == RunConn(cfg, a.c, rest)
  {
    var unread := line + CRLF + rest;
    RunLine(cfg, c, line, rest);
    LineStepAnswers(cfg, c, line, |line| + 2, unread, rest);
    var a := AnswerToLine(cfg, c, line, unread, rest);
    if a.ReadOn? {
      AfterNothing(RunConn(cfg, a.c, rest));
    }
  }

  /** The data of a chunk is passed on when all of it and the line end behind it are
      there; another end is refused. */
  lemma DataAnswers(cfg: Config, c: Conn, n: pos, unread: bytes)
    requires c.state == ReceivingChunked(ReadingData(n))
    ensures var o := RunConn(cfg, c, unread);
            if |unread| < n + 2 then o == Outcome(c, [], unread, false)
            else if unread[n..n + 2] != [13, 10] then Refuses(o, Error(400, MalformedBoundary), unread)
            else
              o == After([Body(unread[..n], true)],
                         RunConn(cfg, c.(state := ReceivingChunked(ReadingSize)), unread[n + 2..]))
  {
    InChunkSteps(cfg, c, unread);
    var t := DataStep(c, n, unread);
    if t.Wait? {
      RunWaits(cfg, c, unread);
    } else if t.stop {
      RunStops(cfg, c, unread, t);
      assert unread[0..] == unread;
    } else {
      RunGoesOn(cfg, c, unread, t);
    }
  }

  lemma TrailerSteps(cfg: Config, c: Conn, unread: bytes)
    requires c.state == ReceivingChunked(ReadingTrailers)
    ensures ConnStep(cfg, c, unread) == TrailerStep(c, unread)
  {
  }

  /** The body ends at an empty line, and what is behind it stays unread. */
  lemma EmptyLineEnds(cfg: Config, c: Conn, next: bytes)
    requires c.state == ReceivingChunked(ReadingTrailers)
    ensures RunConn(cfg, c, CRLF + next) == Outcome(c.(state := ServingApp), [Body([], false)], next, false)
  {
    TrailerSteps(cfg, c, CRLF + next);
    assert CRLF <= CRLF + next && (CRLF + next)[2..] == next;
    EndsHere(cfg, c, CRLF + next, 2, next);
  }

  lemma TrailerStepFinds(c: Conn, trailers: bytes, next: bytes)
    requires trailers != [] && trailers[0] != CR && Find(trailers + CRLFCRLF, CRLFCRLF) == Some(|trailers|)
    ensures var unread := trailers + CRLFCRLF + next;
            && TrailerStep(c, unread) == Take(|trailers| + 4, c.(state := ServingApp), [Body([], false)], false)
            && unread[|trailers| + 4..] == next
  {
    var unread := trailers + CRLFCRLF + next;
    FindStable(trailers + CRLFCRLF, next, CRLFCRLF);
    assert unread[0] == trailers[0];
  }

  /** Trailers before that line are skipped. */
  lemma TrailersAreSkipped(cfg: Config, c: Conn, trailers: bytes, next: bytes)
    requires c.state == ReceivingChunked(ReadingTrailers)
    requires trailers != [] && trailers[0] != CR && Find(trailers + CRLFCRLF, CRLFCRLF) == Some(|trailers|)
    ensures RunConn(cfg, c, trailers + CRLFCRLF + next)
         == Outcome(c.(state := ServingApp), [Body([], false)], next, false)
  {
    var unread := trailers + CRLFCRLF + next;
    TrailerSteps(cfg, c, unread);
    TrailerStepFinds(c, trailers, next);
    EndsHere(cfg, c, unread, |trailers| + 4, next);
  }

  lemma EndsHere(cfg: Config, c: Conn, unread: bytes, used: nat, next: bytes)
    requires used <= |unread| && unread[used..] == next
    requires ConnStep(cfg, c, unread) == Take(used, c.(state := ServingApp), [Body([], false)], false)
    ensures RunConn(cfg, c, unread) == Outcome(c.(state := ServingApp), [Body([], false)], next, false)
  {
    var served := c.(state := ServingApp);
    RunGoesOn(cfg, c, unread, Take(used, served, [Body([], false)], false));
    RunWaits(cfg, served, next);
    assert [Body([], false)] + [] == [Body([], false)];
  }
}
