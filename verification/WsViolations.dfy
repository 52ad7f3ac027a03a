/** How a WebSocket client is told of its violation. */
module WsViolations {
  import opened Bytes
  import opened Frames
  import opened Incremental
  import opened WsMachine
  import opened WsSplits
  import opened WsWire

  // A text message is complete and is not UTF-8.
  predicate IsBadText(isUtf8: bytes -> bool, st: WsState, f: ClientFrame) {
    && f.fin
    && if st.fragOpcode == 0 then f.opcode == TEXT && !isUtf8(f.payload)
       else f.opcode == 0x0 && st.fragOpcode == TEXT && !isUtf8(st.fragments + f.payload)
  }

  // The event carries a final, unmasked close frame with this status code.
  ghost predicate TellsCode(e: WsEvent, code: nat) {
    && e.Violation? && e.code == code && |e.wire| == 4
    && ParseFrameHeader(e.wire) == Some(Header(0x8, true, false, 2, None, 2))
    && FromBigEndian(e.wire[2..]) == code
  }

  lemma CloseTellsCode(code: nat)
    requires code < 0x1_0000
    ensures TellsCode(Violation(code, CloseFrame(code)), code)
  {
    var body := BigEndian(code, 2);
    Pow256Values();
    BigEndianRoundTrip(code, 2);
    ParseInvertsFormat(0x8, body, []);
    var wire := ServerFrame(0x8, body);
    assert wire + [] == wire;
    assert 0x8 as byte & 0x0F == 0x8;
  }

  function CodeFor(isUtf8: bytes -> bool, st: WsState, f: ClientFrame): nat {
    if IsBadText(isUtf8, st, f) then 1007 else 1002
  }

  lemma BadFrameFails(isUtf8: bytes -> bool, st: WsState, f: ClientFrame)
    requires Violates(isUtf8, st, f)
    ensures var code := CodeFor(isUtf8, st, f);
            Handle(isUtf8, st, f.opcode, f.fin, f.payload).events == [Violation(code, CloseFrame(code))]
  {
  }

  lemma BadFrameTells(isUtf8: bytes -> bool, st: WsState, f: ClientFrame, events: seq<WsEvent>)
    requires Violates(isUtf8, st, f) && events == Handle(isUtf8, st, f.opcode, f.fin, f.payload).events
    ensures |events| == 1 && TellsCode(events[0], CodeFor(isUtf8, st, f))
  {
    BadFrameFails(isUtf8, st, f);
    CloseTellsCode(CodeFor(isUtf8, st, f));
  }

  // The handler over the frames, up to the one that violates the rules.
  lemma HandleUpTo(isUtf8: bytes -> bool, st: WsState, frames: seq<ClientFrame>, k: nat)
    requires k < |frames| && !HandleAll(isUtf8, st, frames[..k]).stop
    requires var before := HandleAll(isUtf8, st, frames[..k]); Violates(isUtf8, before.st, frames[k])
    ensures var before, f := HandleAll(isUtf8, st, frames[..k]), frames[k];
            HandleAll(isUtf8, st, frames).events
              == before.events + Handle(isUtf8, before.st, f.opcode, f.fin, f.payload).events
  {
    var before := HandleAll(isUtf8, st, frames[..k]);
    HandleAppend(isUtf8, st, frames[..k], frames[k..]);
    assert frames == frames[..k] + frames[k..];
    ViolatesExactly(isUtf8, before.st, frames[k]);
  }

  /** The first frame that violates the rules is answered, behind what the frames before
      it delivered, by one close frame: 1007 for a text that is not UTF-8, else 1002. */
  lemma ViolationIsTold(isUtf8: bytes -> bool, st: WsState, frames: seq<ClientFrame>, rest: bytes)
    requires AllEncodable(frames) && InOrder(isUtf8, st, frames) < |frames|
    ensures var k := InOrder(isUtf8, st, frames);
            var before := HandleAll(isUtf8, st, frames[..k]);
            var o := RunFrames(isUtf8, st, Wire(frames) + rest);
            && !before.stop && |o.events| == |before.events| + 1 && o.events[..|before.events|] == before.events
            && TellsCode(o.events[|before.events|], CodeFor(isUtf8, before.st, frames[k]))
  {
    var k := InOrder(isUtf8, st, frames);
    StopsInOrder(isUtf8, st, frames);
    RunWireStops(isUtf8, st, frames, rest);
    InOrderFront(isUtf8, st, frames);
    HandleUpTo(isUtf8, st, frames, k);
    var before, f := HandleAll(isUtf8, st, frames[..k]), frames[k];
    BadFrameTells(isUtf8, before.st, f, Handle(isUtf8, before.st, f.opcode, f.fin, f.payload).events);
  }

  /** An unmasked header is answered by a close frame with 1002, and is left unread. */
  lemma UnmaskedIsTold(isUtf8: bytes -> bool, st: WsState, rest: bytes)
    requires DecodeFrame(rest).NotMasked?
    ensures var o := RunFrames(isUtf8, st, rest);
            o.stopped && o.rest == rest && |o.events| == 1 && TellsCode(o.events[0], 1002)
  {
    LoopIsIncremental(isUtf8);
    UnfoldRun(Loop(isUtf8), ANY, st, rest);
    CloseTellsCode(1002);
    assert rest[0..] == rest;
  }
}
