/** What happens to a WebSocket connection after a violation: the closed state is never
    consulted, so later deliveries are parsed as if nothing had happened. */
module WsAfterStop {
  import opened Bytes
  import opened Frames
  import opened Incremental
  import opened Sequences
  import opened WsMachine
  import opened WsTolerance
  import opened WsWire

  // ------------------------------------------------------- the flag is not consulted

  /** From a closed connection the loop emits, reads and breaks off as from an open one;
      the flag is up afterwards if it was before, or if the loop broke off. */
  lemma {:induction false} ClosedIsNeverConsulted(isUtf8: bytes -> bool, st: WsState, unread: bytes)
    ensures var open, shut := RunFrames(isUtf8, st.(closed := false), unread),
                              RunFrames(isUtf8, st.(closed := true), unread);
            && shut.events == open.events && shut.rest == open.rest && shut.stopped == open.stopped
            && open.st.closed == open.stopped && shut.st == open.st.(closed := true)
    decreases |unread|
  {
    LoopIsIncremental(isUtf8);
    UnfoldRun(Loop(isUtf8), ANY, st.(closed := false), unread);
    UnfoldRun(Loop(isUtf8), ANY, st.(closed := true), unread);
    var t := FrameStep(isUtf8, st.(closed := false), unread);
    StepIgnoresClosed(isUtf8, st, unread);
    if t.Take? && !t.stop {
      ClosedIsNeverConsulted(isUtf8, t.st, unread[t.used..]);
    }
  }

  lemma StepIgnoresClosed(isUtf8: bytes -> bool, st: WsState, unread: bytes)
    ensures var open, shut := FrameStep(isUtf8, st.(closed := false), unread),
                              FrameStep(isUtf8, st.(closed := true), unread);
            && (open.Wait? <==> shut.Wait?)
            && (open.Take? ==>
                  && shut == open.(st := open.st.(closed := true)) && open.st.closed == open.stop)
  {
    var d := DecodeFrame(unread);
    if d.Frame? {
      HandleIgnoresClosed(isUtf8, st, d.opcode, d.fin, d.payload);
    }
  }

  lemma HandleIgnoresClosed(isUtf8: bytes -> bool, st: WsState, opcode: byte, fin: bool, payload: bytes)
    ensures var open, shut := Handle(isUtf8, st.(closed := false), opcode, fin, payload),
                              Handle(isUtf8, st.(closed := true), opcode, fin, payload);
            shut == open.(st := open.st.(closed := true)) && open.st.closed == open.stop
  {
  }

  // -------------------------------------------------------------- silent deliveries

  /** Frames that emit nothing: besides reserved data opcodes, only the start and the
      middle of one message; `inside` says whether one is under way. */
  ghost predicate Silent(inside: bool, frames: seq<ClientFrame>) {
    forall i | 0 <= i < |frames| ::
      && !frames[i].fin
      && if inside || i > 0 then frames[i].opcode == 0 else frames[i].opcode == TEXT || frames[i].opcode == BINARY
  }

  lemma SilentFirst(inside: bool, frames: seq<ClientFrame>)
    requires frames != []
    ensures Silent(inside, frames) <==>
            && !frames[0].fin
            && (if inside then frames[0].opcode == 0 else frames[0].opcode == TEXT || frames[0].opcode == BINARY)
            && Silent(true, frames[1..])
  {
    assert forall i | 1 <= i < |frames| :: frames[i] == frames[1..][i - 1];
  }

  lemma {:induction false} HandleSilent(isUtf8: bytes -> bool, st: WsState, frames: seq<ClientFrame>)
    requires Plain(frames)
    ensures HandleAll(isUtf8, st, frames).events == [] <==> Silent(st.fragOpcode != 0, frames)
    ensures HandleAll(isUtf8, st, frames).stop ==> HandleAll(isUtf8, st, frames).events != []
    decreases |frames|
  {
    if frames != [] {
      var f := frames[0];
      var r := Handle(isUtf8, st, f.opcode, f.fin, f.payload);
      assert !Reserved(f);
      SilentFirst(st.fragOpcode != 0, frames);
      if !r.stop {
        assert Plain(frames[1..]);
        HandleSilent(isUtf8, r.st, frames[1..]);
        assert r.events == [] ==> r.st.fragOpcode != 0;
      }
    }
  }

  /** A delivery, to a closed connection or an open one, emits nothing exactly if its
      frames are silent and no unmasked header follows them. */
  lemma SilentExactlyWhen(isUtf8: bytes -> bool, st: WsState, unread: bytes)
    returns (frames: seq<ClientFrame>, rest: bytes)
    ensures AllEncodable(frames) && unread == Wire(frames) + rest && !DecodeFrame(rest).Frame?
    ensures RunFrames(isUtf8, st, unread).events == []
            <==> Silent(st.fragOpcode != 0, Unreserved(frames)) && DecodeFrame(rest).NeedMore?
  {
    frames, rest := EveryStreamIsFrames(unread);
    var all := HandleAll(isUtf8, st, frames);
    UnreservedIsPlain(frames);
    ReservedFramesVanish(isUtf8, st, frames);
    HandleSilent(isUtf8, st, Unreserved(frames));
    if all.stop {
      RunWireStops(isUtf8, st, frames, rest);
    } else {
      RunWire(isUtf8, st, frames, rest);
      RunRest(isUtf8, all.st, rest);
    }
  }

  // ------------------------------------------------------------------ split or whole

  lemma LoopIsNoticeable(isUtf8: bytes -> bool)
    ensures Noticeable(Loop(isUtf8), ANY)
  {
  }

  /** From a waiting connection, deliveries in pieces have the outcome of one delivery
      exactly if that one meets no violation, or has neither a complete frame nor an
      unmasked header behind it, or meets it only in the last piece. */
  lemma SplitExactlyWhenFrames(isUtf8: bytes -> bool, st: WsState, unread: bytes, pieces: seq<bytes>)
    requires DecodeFrame(unread).NeedMore?
    ensures var whole := RunFrames(isUtf8, st, unread + Concat(pieces));
            FeedFrames(isUtf8, st, unread, pieces) == whole
            <==> || !whole.stopped || DecodeFrame(whole.rest).NeedMore?
                 || !RunFrames(isUtf8, st, unread + Concat(AllButLast(pieces))).stopped
  {
    LoopIsIncremental(isUtf8);
    LoopIsNoticeable(isUtf8);
    SplitExactlyWhen(Loop(isUtf8), ANY, st, unread, pieces);
  }
}
