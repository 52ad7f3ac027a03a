/** Whether a connection serves another request, told from the fields of the one before
    (section 9.3 of RFC 9112). */
module KeepAlive {
  import opened Bytes
  import opened Framing
  import opened HeaderStage
  import opened HttpMachine
  import opened Incremental
  import opened Persistence
  import opened Requests
  import opened Segmentation
  import opened Text

  // The verdict of the fields: the last one that settles it, else the version.
  ghost predicate Persists(p: ParseResult, keep: bool)
    requires p.Complete?
  {
    LastDecides(Settles, SaysClose, p.fields, VersionOf(p) == 1, keep)
  }

  // The header of a request that is started, as an ordinary one.
  ghost predicate Starts(cfg: Config, c: Conn, p: ParseResult, unread: bytes) {
    && Expected(cfg, c, unread) && cfg.parse(unread) == p && p.Complete?
    && !Ambiguous(cfg.platform, p.fields) && !AsksWebSocket(p.fields) && !AnnouncesTooMuch(cfg, p.fields)
  }

  lemma StepStarts(cfg: Config, c: Conn, s: Scan, head: RequestHead, offset: nat, unread: bytes)
    requires 0 < offset <= |unread| && !Rejects(s) && !(s.isUpgrade && s.upgradeProto == WEBSOCKET)
    requires s.contentLength <= cfg.maxBodySize
    ensures var t := RequestStep(cfg, c, s, head, offset, unread);
            && t.Take? && !t.stop && !InHeader(t.st)
            && t.st.keepAlive == s.keepAlive && t.st.requestCount == c.requestCount + 1
  {
  }

  lemma StartKeepsVerdict(cfg: Config, c: Conn, p: ParseResult, unread: bytes, keep: bool)
    requires Starts(cfg, c, p, unread) && Persists(p, keep)
    ensures var o := RunConn(cfg, c, unread);
            !InHeader(o.st) && o.st.keepAlive == keep && o.st.requestCount == c.requestCount + 1
  {
    var s := Summary(cfg, p);
    var t := RequestStep(cfg, c, s, Head(p, s), p.offset, unread);
    CompleteSteps(cfg, c, p, unread);
    RejectsExactlyTheAmbiguous(cfg.platform, VersionOf(p), p.fields);
    LengthsAgree(cfg, VersionOf(p), p.fields);
    UpgradeVerdict(cfg.platform, VersionOf(p), p.fields);
    PersistenceVerdict(cfg.platform, VersionOf(p), p.fields);
    OneVerdict(Settles, SaysClose, p.fields, VersionOf(p) == 1, keep, s.keepAlive);
    StepStarts(cfg, c, s, Head(p, s), p.offset, unread);
    RunGoesOn(cfg, c, unread, t);
    RunKeepsToBody(cfg, t.st, unread[t.used..]);
  }

  // A request from its first delivery, which holds the header, to its last.
  ghost function Fed(cfg: Config, c: Conn, first: bytes, pieces: seq<bytes>): Outcome<Conn, Event> {
    var r := RunConn(cfg, c, first);
    After(r.events, FeedConn(cfg, r.st, r.rest, pieces))
  }

  /** However the body arrives: once the request is delivered, the reset closes the
      connection exactly if its fields say so or the limit of requests is reached;
      otherwise the connection waits for the next request. */
  lemma ResetClosesExactlyWhen(cfg: Config, c: Conn, p: ParseResult, first: bytes, pieces: seq<bytes>, keep: bool)
    requires Starts(cfg, c, p, first) && Persists(p, keep)
    requires Fed(cfg, c, first, pieces).st.state.ServingApp?
    ensures var after := NextRequest(cfg, Fed(cfg, c, first, pieces).st);
            && (after.state == Closed <==> !keep || c.requestCount + 1 >= cfg.maxKeepaliveRequests)
            && (after.state != Closed ==> after.state == KeepAliveWait && after.totalBodyReceived == 0)
            && after.requestCount == c.requestCount + 1
  {
    var r := RunConn(cfg, c, first);
    StartKeepsVerdict(cfg, c, p, first, keep);
    BodyKeepsVerdict(cfg, r.st, r.rest, pieces);
  }

  lemma {:induction false} ClosedRounds(cfg: Config, run: (Conn, bytes) -> Outcome<Conn, Event>, c: Conn,
                                        unread: bytes, n: nat)
    requires c.state == Closed && run(c, unread) == Outcome(c, [], unread, false)
    ensures Serve(cfg, run, c, unread, n) == Outcome(c, [], unread, false)
    decreases n
  {
    if n > 0 {
      assert NextRequest(cfg, c) == c;
      ClosedRounds(cfg, run, c, unread, n - 1);
    }
  }

  lemma ClosedServesNothing(cfg: Config, c: Conn, unread: bytes, n: nat)
    requires c.state == Closed
    ensures Serve(cfg, (d, a) => RunConn(cfg, d, a), c, unread, n) == Outcome(c, [], unread, false)
  {
    RunWaits(cfg, c, unread);
    ClosedRounds(cfg, (d, a) => RunConn(cfg, d, a), c, unread, n);
  }

  /** Behind a request that asks to close, or the last one of the limit, nothing more is
      served, whatever arrives and however often the connection is reset. */
  lemma NothingIsServedAfterClose(cfg: Config, c: Conn, p: ParseResult, first: bytes, pieces: seq<bytes>, keep: bool,
                                  later: bytes, n: nat)
    requires Starts(cfg, c, p, first) && Persists(p, keep)
    requires Fed(cfg, c, first, pieces).st.state.ServingApp?
    requires !keep || c.requestCount + 1 >= cfg.maxKeepaliveRequests
    ensures var after := NextRequest(cfg, Fed(cfg, c, first, pieces).st);
            Serve(cfg, (d, a) => RunConn(cfg, d, a), after, later, n) == Outcome(after, [], later, false)
  {
    ResetClosesExactlyWhen(cfg, c, p, first, pieces, keep);
    ClosedServesNothing(cfg, NextRequest(cfg, Fed(cfg, c, first, pieces).st), later, n);
  }

  /** A reset before the request is delivered changes nothing. */
  lemma ResetOnlyWhenServed(cfg: Config, c: Conn)
    requires !c.state.ServingApp?
    ensures NextRequest(cfg, c) == c
  {
  }
}
