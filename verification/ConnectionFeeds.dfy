/** Independence of segmentation for the connection object itself: many calls of
    `feed_data` against one. */
module ConnectionFeeds {
  import opened Bytes
  import opened Connection
  import opened Frames
  import opened HttpMachine
  import opened Incremental
  import opened Segmentation
  import opened WsAfterStop
  import opened WsMachine

  // The same, whether or not a call on the way broke off.
  ghost predicate SameFeed<S, E>(a: Outcome<S, E>, b: Outcome<S, E>) {
    a.st == b.st && a.events == b.events && a.rest == b.rest
  }

  lemma FrameCall(isUtf8: bytes -> bool, goal: Outcome<WsState, WsEvent>, events: seq<WsEvent>, st: WsState,
                  unread: bytes, pieces: seq<bytes>)
    requires pieces != [] && SameFeed(goal, After(events, FeedFrames(isUtf8, st, unread, pieces)))
    ensures var r := RunFrames(isUtf8, st, unread + pieces[0]);
            SameFeed(goal, After(events + r.events, FeedFrames(isUtf8, r.st, r.rest, pieces[1..])))
  {
    var r := RunFrames(isUtf8, st, unread + pieces[0]);
    LoopIsIncremental(isUtf8);
    AfterAfter(events, r.events, FeedFrames(isUtf8, r.st, r.rest, pieces[1..]));
  }

  /** In WebSocket mode: calls with the pieces do what one call with all the bytes does,
      unless a violation is followed by further calls and something to act on. */
  method FeedFramePieces(conn: FastHttpConnection, pieces: seq<bytes>) returns (events: seq<WsEvent>)
    requires conn.Valid() && conn.mode.WebSocket?
    modifies conn
    ensures conn.Valid() && conn.mode.WebSocket?
    ensures SameFeed(Outcome(conn.Reassembly(), events, conn.Unread(), false),
                     FeedFrames(conn.cfg.platform.isUtf8, old(conn.Reassembly()), old(conn.Unread()), pieces))
    ensures var isUtf8, all := conn.cfg.platform.isUtf8, old(conn.Unread()) + Concat(pieces);
            var whole := RunFrames(isUtf8, old(conn.Reassembly()), all);
            DecodeFrame(old(conn.Unread())).NeedMore? && (!whole.stopped || DecodeFrame(whole.rest).NeedMore?) ==>
              conn.Reassembly() == whole.st && events == whole.events && conn.Unread() == whole.rest
  {
    ghost var isUtf8 := conn.cfg.platform.isUtf8;
    ghost var goal := FeedFrames(isUtf8, conn.Reassembly(), conn.Unread(), pieces);
    if DecodeFrame(conn.Unread()).NeedMore? {
      SplitExactlyWhenFrames(isUtf8, conn.Reassembly(), conn.Unread(), pieces);
    }
    events := [];
    AfterNothing(goal);
    assert pieces[0..] == pieces;
    for i := 0 to |pieces|
      invariant conn.Valid() && conn.mode.WebSocket?
      invariant SameFeed(goal, After(events, FeedFrames(isUtf8, conn.Reassembly(), conn.Unread(), pieces[i..])))
    {
      FrameCall(isUtf8, goal, events, conn.Reassembly(), conn.Unread(), pieces[i..]);
      assert pieces[i..][1..] == pieces[i + 1..];
      var out := conn.FeedData(Some(pieces[i]));
      events := events + out.frames;
    }
    assert events + [] == events;
  }

  lemma HttpCall(cfg: Config, goal: Outcome<Conn, Event>, events: seq<Event>, c: Conn, unread: bytes,
                 pieces: seq<bytes>)
    requires pieces != [] && SameFeed(goal, After(events, FeedConn(cfg, c, unread, pieces)))
    ensures var r := RunConn(cfg, c, unread + pieces[0]);
            SameFeed(goal, After(events + r.events, FeedConn(cfg, r.st, r.rest, pieces[1..])))
  {
    var r := RunConn(cfg, c, unread + pieces[0]);
    EngineIsSound(cfg);
    AfterAfter(events, r.events, FeedConn(cfg, r.st, r.rest, pieces[1..]));
  }

  /** In the middle of a body, chunked or announced: calls with the pieces read what one
      call with all the bytes reads. */
  method FeedBodyPieces(conn: FastHttpConnection, pieces: seq<bytes>) returns (events: seq<Event>)
    requires conn.Valid() && conn.mode.Http11?
    modifies conn
    ensures conn.Valid() && conn.mode.Http11?
    ensures SameFeed(Outcome(conn.Http(), events, conn.Unread(), false),
                     FeedConn(conn.cfg, old(conn.Http()), old(conn.Unread()), pieces))
    ensures IN_CHUNKS(old(conn.Http())) && ConnStep(conn.cfg, old(conn.Http()), old(conn.Unread())).Wait? ==>
              SameFeed(Outcome(conn.Http(), events, conn.Unread(), false),
                       RunConn(conn.cfg, old(conn.Http()), old(conn.Unread()) + Concat(pieces)))
    ensures old(conn.Http()).state.ReceivingContentLength? && old(conn.Unread()) == [] ==>
              ReadsLength(old(conn.Http()), old(conn.Http()).state.remaining, Concat(pieces),
                          Outcome(conn.Http(), events, conn.Unread(), false))
  {
    ghost var c, unread := conn.Http(), conn.Unread();
    ghost var goal := FeedConn(conn.cfg, c, unread, pieces);
    if IN_CHUNKS(c) && ConnStep(conn.cfg, c, unread).Wait? {
      ChunkedSplit(conn.cfg, c, unread, pieces);
    }
    if c.state.ReceivingContentLength? {
      LengthSplit(conn.cfg, c, c.state.remaining, pieces);
    }
    events := [];
    AfterNothing(goal);
    assert pieces[0..] == pieces;
    for i := 0 to |pieces|
      invariant conn.Valid() && conn.mode.Http11?
      invariant SameFeed(goal, After(events, FeedConn(conn.cfg, conn.Http(), conn.Unread(), pieces[i..])))
    {
      HttpCall(conn.cfg, goal, events, conn.Http(), conn.Unread(), pieces[i..]);
      assert pieces[i..][1..] == pieces[i + 1..];
      var out := conn.FeedData(Some(pieces[i]));
      events := events + out.http;
    }
    assert events + [] == events;
  }
}
