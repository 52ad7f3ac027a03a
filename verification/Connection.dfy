/** The stateful connection engine: a growing buffer with a cursor, driven by
    deliveries of bytes, proved against the step functions. */
module Connection {
  import opened Bytes
  import opened Text
  import opened Framing
  import opened Incremental
  import opened HttpMachine
  import opened Segmentation
  import Mask
  import Frames
  import WsMachine

  datatype Mode = Http11 | WebSocket

  datatype Output = HttpEvents(http: seq<Event>) | FrameEvents(frames: seq<WsMachine.WsEvent>)

  /** What one iteration did to the state `before` and the `unread` bytes is the step `t`. */
  ghost predicate Took<S, E>(t: Step<S, E>, unread: bytes, go: bool, events: seq<E>, before: S, after: S, rest: bytes) {
    if t.Wait? then !go && events == [] && after == before && rest == unread
    else go == !t.stop && events == t.events && after == t.st && t.used <= |unread| && rest == unread[t.used..]
  }

  class FastHttpConnection {
    const cfg: Config
    const bigEndian: bool // the machine's byte order
    var buffer: bytes
    var cursor: nat
    var state: HttpState
    var mode: Mode
    var requestCount: nat
    var keepAlive: bool
    var wsFragmentBuffer: bytes
    var wsFragmentOpcode: byte
    var totalBodyReceived: nat

    ghost predicate Valid()
      reads this
    {
      cursor <= |buffer|
    }

    ghost function Unread(): bytes
      reads this
    {
      if Valid() then buffer[cursor..] else []
    }

    ghost function Http(): Conn
      reads this
    {
      Conn(state, keepAlive, requestCount, totalBodyReceived)
    }

    ghost function Reassembly(): WsMachine.WsState
      reads this
    {
      WsMachine.WsState(wsFragmentOpcode, wsFragmentBuffer, state.Closed?)
    }

    constructor (cfg: Config, bigEndian: bool)
      ensures Valid() && Unread() == [] && mode == Http11 && this.cfg == cfg
      ensures Http() == Conn(WaitingHeader, true, 0, 0)
      ensures Reassembly() == WsMachine.WsState(0, [], false)
    {
      this.cfg := cfg;
      this.bigEndian := bigEndian;
      buffer := [];
      cursor := 0;
      state := WaitingHeader;
      mode := Http11;
      requestCount := 0;
      keepAlive := true;
      wsFragmentBuffer := [];
      wsFragmentOpcode := 0;
      totalBodyReceived := 0;
    }

    /** In HTTP mode, the state after a delivery that found `c` and `unread`. */
    ghost predicate HttpDelivered(c: Conn, w: WsMachine.WsState, unread: bytes, out: Output)
      reads this
    {
      var o := RunConn(cfg, c, unread);
      && out == HttpEvents(o.events) && Http() == o.st && Unread() == o.rest
      && wsFragmentOpcode == w.fragOpcode && wsFragmentBuffer == w.fragments
    }

    /** In WebSocket mode, the state after a delivery that found `w` and `unread`. */
    ghost predicate FramesDelivered(c: Conn, w: WsMachine.WsState, unread: bytes, out: Output)
      reads this
    {
      var o := WsMachine.RunFrames(cfg.platform.isUtf8, w, unread);
      && out == FrameEvents(o.events) && Reassembly() == o.st && Unread() == o.rest
      && Http() == if o.stopped then c.(state := Closed) else c
    }

    // ------------------------------------------------------------ interface

    /** One delivery: the events, the new state and the bytes left unread are
        those of the loop run over everything unread so far. */
    method FeedData(data: Option<bytes>) returns (out: Output)
      requires Valid()
      modifies this
      ensures Valid() && mode == old(mode)
      ensures var all := old(Unread()) + if data.Some? then data.value else [];
              if mode.WebSocket? then FramesDelivered(old(Http()), old(Reassembly()), all, out)
              else HttpDelivered(old(Http()), old(Reassembly()), all, out)
    {
      if data.Some? {
        buffer := buffer + data.value;
        assert Unread() == old(Unread()) + data.value;
      } else {
        assert old(Unread()) + [] == Unread();
      }
      out := ProcessEvents();
    }

    method PumpEvents() returns (out: Output)
      requires Valid()
      modifies this
      ensures Valid() && mode == old(mode)
      ensures if mode.WebSocket? then FramesDelivered(old(Http()), old(Reassembly()), old(Unread()), out)
              else HttpDelivered(old(Http()), old(Reassembly()), old(Unread()), out)
    {
      out := ProcessEvents();
    }

    method ResetForNextRequest()
      modifies this`state, this`totalBodyReceived
      ensures Http() == NextRequest(cfg, old(Http()))
    {
      if state.ServingApp? {
        totalBodyReceived := 0;
        if !keepAlive || requestCount >= cfg.maxKeepaliveRequests {
          state := Closed;
        } else {
          state := KeepAliveWait;
        }
      }
    }

    method SwitchToWebsocket()
      modifies this`mode
      ensures mode == WebSocket
    {
      mode := WebSocket;
    }

    method IsClosed() returns (closed: bool)
      ensures closed == state.Closed?
    {
      closed := state == Closed;
    }

    method Close()
      modifies this`state
      ensures Http() == old(Http()).(state := Closed)
    {
      state := Closed;
    }

    // ------------------------------------------------------------- the loops

    /** Compaction never changes the unread bytes. */
    method CompactBuffer()
      requires Valid()
      modifies this`buffer, this`cursor
      ensures Valid() && Unread() == old(Unread())
    {
      if cursor == |buffer| {
        buffer := [];
        cursor := 0;
      } else if cursor >= 64 * 1024 && cursor >= |buffer| / 2 {
        buffer := buffer[cursor..];
        cursor := 0;
      }
    }

    method ProcessEvents() returns (out: Output)
      requires Valid()
      modifies this
      ensures Valid() && mode == old(mode)
      ensures if mode.WebSocket? then FramesDelivered(old(Http()), old(Reassembly()), old(Unread()), out)
              else HttpDelivered(old(Http()), old(Reassembly()), old(Unread()), out)
    {
      CompactBuffer();
      if mode == WebSocket {
        var frames := ProcessWebsocketEvents();
        out := FrameEvents(frames);
      } else {
        var events := ProcessHttpEvents();
        out := HttpEvents(events);
      }
    }

    method ProcessHttpEvents() returns (events: seq<Event>)
      requires Valid()
      modifies this`cursor, this`state, this`requestCount, this`keepAlive, this`totalBodyReceived
      ensures Valid()
      ensures HttpDelivered(old(Http()), old(Reassembly()), old(Unread()), HttpEvents(events))
    {
      events := [];
      var go := true;
      EngineIsSound(cfg);
      ghost var goal := Run(Engine(cfg), ANY, Http(), Unread());
      AfterNothing(goal);
      while go
        invariant Valid()
        invariant if go then goal == After(events, Run(Engine(cfg), ANY, Http(), Unread()))
                  else events == goal.events && Http() == goal.st && Unread() == goal.rest
        decreases go, |buffer| - cursor
      {
        ghost var before, unread := Http(), Unread();
        ghost var t := Engine(cfg)(before, unread);
        label top:
        var more: seq<Event>;
        go, more := Iterate();
        UnfoldRun(Engine(cfg), ANY, before, unread);
        if t.Take? && go {
          AfterAfter(events, more, Run(Engine(cfg), ANY, Http(), Unread()));
        }
        events := events + more;
      }
    }

    /** One iteration: dispatch on the state. */
    method Iterate() returns (go: bool, events: seq<Event>)
      requires Valid()
      modifies this`cursor, this`state, this`requestCount, this`keepAlive, this`totalBodyReceived
      ensures Valid() && Took(ConnStep(cfg, old(Http()), old(Unread())), old(Unread()), go, events, old(Http()),
                              Http(), Unread())
    {
      if state == Closed || state == ServingApp {
        return false, [];
      }
      if state == WaitingHeader || state == KeepAliveWait {
        go, events := ReadHeader();
      } else {
        go, events := ReadBody();
      }
    }

    method ReadBody() returns (go: bool, events: seq<Event>)
      requires Valid() && (state.ReceivingContentLength? || state.ReceivingChunked?)
      modifies this`cursor, this`state, this`totalBodyReceived
      ensures Valid() && Took(ConnStep(cfg, old(Http()), old(Unread())), old(Unread()), go, events, old(Http()),
                              Http(), Unread())
    {
      match state
      case ReceivingContentLength(remaining) => go, events := ReadLengthBody(remaining);
      case ReceivingChunked(stage) => go, events := ReadChunk(stage);
    }

    method ReadChunk(stage: ChunkedStage) returns (go: bool, events: seq<Event>)
      requires Valid() && state == ReceivingChunked(stage)
      modifies this`cursor, this`state, this`totalBodyReceived
      ensures Valid() && Took(ChunkStep(cfg, old(Http()), stage, old(Unread())), old(Unread()), go, events,
                              old(Http()), Http(), Unread())
    {
      match stage
      case ReadingSize => go, events := ReadChunkSize();
      case ReadingData(chunkLen) => go, events := ReadChunkData(chunkLen);
      case ReadingTrailers => go, events := ReadTrailers();
    }

    method EmitError(status: nat, complaint: Complaint) returns (events: seq<Event>)
      modifies this`state
      ensures Http() == old(Http()).(state := Closed) && events == [Error(status, complaint)]
    {
      state := Closed;
      events := [Error(status, complaint)];
    }

    method ReadLengthBody(remaining: pos) returns (go: bool, events: seq<Event>)
      requires Valid() && state == ReceivingContentLength(remaining)
      modifies this`cursor, this`state
      ensures Valid() && Took(LengthStep(old(Http()), remaining, old(Unread())), old(Unread()), go, events,
                              old(Http()), Http(), Unread())
    {
      var unreadLen := |buffer| - cursor;
      if unreadLen == 0 { return false, []; }
      var consume := if unreadLen < remaining then unreadLen else remaining;
      var chunk := buffer[cursor..cursor + consume];
      assert chunk == Unread()[..consume];
      cursor := cursor + consume;
      var newRemaining := remaining - consume;
      var moreBody := newRemaining > 0;
      if moreBody {
        state := ReceivingContentLength(newRemaining);
      } else {
        state := ServingApp;
      }
      return true, [Body(chunk, moreBody)];
    }

    method ReadChunkSize() returns (go: bool, events: seq<Event>)
      requires Valid() && state == ReceivingChunked(ReadingSize)
      modifies this`cursor, this`state, this`totalBodyReceived
      ensures Valid() && Took(SizeStep(cfg, old(Http()), old(Unread())), old(Unread()), go, events, old(Http()),
                              Http(), Unread())
    {
      var unread := buffer[cursor..];
      var found := Find(unread, CRLF);
      if found.None? { return false, []; }
      var sizeText := Before(unread[..found.value], SEMICOLON);
      if !cfg.platform.isUtf8(sizeText) {
        events := EmitError(400, InvalidEncoding);
        return false, events;
      }
      var size := cfg.platform.parseRadix(cfg.platform.trim(sizeText), 16);
      if size.None? {
        events := EmitError(400, InvalidLength);
        return false, events;
      }
      cursor := cursor + found.value + 2;
      if size.value == 0 {
        state := ReceivingChunked(ReadingTrailers);
      } else {
        totalBodyReceived := totalBodyReceived + size.value;
        if totalBodyReceived > cfg.maxBodySize {
          events := EmitError(413, PayloadTooLarge);
          return false, events;
        }
        state := ReceivingChunked(ReadingData(size.value));
      }
      return true, [];
    }

    method ReadChunkData(chunkLen: pos) returns (go: bool, events: seq<Event>)
      requires Valid() && state == ReceivingChunked(ReadingData(chunkLen))
      modifies this`cursor, this`state
      ensures Valid() && Took(DataStep(old(Http()), chunkLen, old(Unread())), old(Unread()), go, events, old(Http()),
                              Http(), Unread())
    {
      if |buffer| - cursor < chunkLen + 2 { return false, []; }
      assert buffer[cursor + chunkLen..cursor + chunkLen + 2] == Unread()[chunkLen..chunkLen + 2];
      if buffer[cursor + chunkLen..cursor + chunkLen + 2] != CRLF {
        events := EmitError(400, MalformedBoundary);
        return false, events;
      }
      var chunk := buffer[cursor..cursor + chunkLen];
      assert chunk == Unread()[..chunkLen];
      cursor := cursor + chunkLen + 2;
      state := ReceivingChunked(ReadingSize);
      return true, [Body(chunk, true)];
    }

    method ReadTrailers() returns (go: bool, events: seq<Event>)
      requires Valid() && state == ReceivingChunked(ReadingTrailers)
      modifies this`cursor, this`state
      ensures Valid() && Took(TrailerStep(old(Http()), old(Unread())), old(Unread()), go, events, old(Http()),
                              Http(), Unread())
    {
      var unread := buffer[cursor..];
      if CRLF <= unread {
        cursor := cursor + 2;
      } else {
        var found := Find(unread, CRLFCRLF);
        if found.None? { return false, []; }
        cursor := cursor + found.value + 4;
      }
      state := ServingApp;
      return true, [Body([], false)];
    }

    method ReadHeader() returns (go: bool, events: seq<Event>)
      requires Valid() && (state == WaitingHeader || state == KeepAliveWait)
      modifies this`cursor, this`state, this`requestCount, this`keepAlive
      ensures Valid() && Took(HeaderStep(cfg, old(Http()), old(Unread())), old(Unread()), go, events, old(Http()),
                              Http(), Unread())
    {
      var unread := buffer[cursor..];
      if unread == [] { return false, []; }
      if |unread| > cfg.maxHeaderSize {
        events := EmitError(431, HeaderTooLarge);
        return false, events;
      }
      var parsed := cfg.parse(unread);
      if parsed.Partial? { return false, []; }
      if parsed.Malformed? {
        events := EmitError(400, BadRequest);
        return false, events;
      }
      var s := ScanForConnection(cfg.platform, VersionOf(parsed), parsed.fields);
      go, events := StartRequest(s, Head(parsed, s), parsed.offset);
    }

    method StartRequest(s: Scan, head: RequestHead, offset: nat) returns (go: bool, events: seq<Event>)
      requires Valid() && 0 < offset <= |buffer| - cursor
      modifies this`cursor, this`state, this`requestCount, this`keepAlive
      ensures Valid() && Took(RequestStep(cfg, old(Http()), s, head, offset, old(Unread())), old(Unread()), go,
                              events, old(Http()), Http(), Unread())
    {
      cursor := cursor + offset;
      assert Unread() == old(Unread())[offset..];
      requestCount := requestCount + 1;
      if s.conflict || (s.isChunked && s.hasCl) || (s.teCount > 1 && !s.isChunked) {
        events := EmitError(400, ConflictingHeaders);
        return false, events;
      }
      if s.isUpgrade && s.upgradeProto == WEBSOCKET {
        keepAlive := s.keepAlive;
        state := ServingApp;
        return false, [Start(head, false), Upgrade(s.upgradeProto)];
      }
      if s.isChunked {
        keepAlive := s.keepAlive;
        state := ReceivingChunked(ReadingSize);
        return true, [Start(head, true)];
      }
      if s.contentLength > 0 {
        go, events := StartLengthBody(s, head, offset, old(Http()), old(Unread()));
        return;
      }
      keepAlive := s.keepAlive;
      state := ServingApp;
      return true, [Start(head, false)];
    }

    /** A request with a Content-Length body, once its header has been consumed. */
    method StartLengthBody(s: Scan, head: RequestHead, offset: nat, ghost c: Conn, ghost unread: bytes)
      returns (go: bool, events: seq<Event>)
      requires Valid() && 0 < offset <= |unread| && Unread() == unread[offset..]
      requires Http() == c.(requestCount := c.requestCount + 1)
      requires !Rejects(s) && !s.isChunked && s.contentLength > 0 && !(s.isUpgrade && s.upgradeProto == WEBSOCKET)
      modifies this`cursor, this`state, this`keepAlive
      ensures Valid() && Took(RequestStep(cfg, c, s, head, offset, unread), unread, go, events, c, Http(), Unread())
    {
      if s.contentLength > cfg.maxBodySize {
        events := EmitError(413, PayloadTooLarge);
        return false, events;
      }
      keepAlive := s.keepAlive;
      events := DeliverInline(s.contentLength);
      InlineBody(cfg, c, s, head, offset, unread);
      return true, [Start(head, true)] + events;
    }

    /** The part of a Content-Length body that came with the header. */
    method DeliverInline(cl: pos) returns (events: seq<Event>)
      requires Valid()
      modifies this`cursor, this`state
      ensures Valid()
      ensures var waiting := old(Http()).(state := ReceivingContentLength(cl));
              var t := LengthStep(waiting, cl, old(Unread()));
              if t.Wait? then events == [] && Http() == waiting && Unread() == old(Unread())
              else events == t.events && Http() == t.st && Unread() == old(Unread())[t.used..]
    {
      var available := |buffer| - cursor;
      if available >= cl {
        var data := buffer[cursor..cursor + cl];
        assert data == Unread()[..cl];
        cursor := cursor + cl;
        state := ServingApp;
        events := [Body(data, false)];
      } else {
        state := ReceivingContentLength(cl - available);
        events := [];
        if available > 0 {
          var data := buffer[cursor..cursor + available];
          assert data == Unread()[..available];
          cursor := cursor + available;
          events := [Body(data, true)];
        }
      }
    }

    // ------------------------------------------------------ WebSocket frames

    method ProcessWebsocketEvents() returns (events: seq<WsMachine.WsEvent>)
      requires Valid()
      modifies this`cursor, this`state, this`wsFragmentBuffer, this`wsFragmentOpcode
      ensures Valid()
      ensures FramesDelivered(old(Http()), old(Reassembly()), old(Unread()), FrameEvents(events))
    {
      events := [];
      var go := true;
      ghost var loop := WsMachine.Loop(cfg.platform.isUtf8);
      WsMachine.LoopIsIncremental(cfg.platform.isUtf8);
      ghost var goal := Run(loop, WsMachine.ANY, Reassembly(), Unread());
      AfterNothing(goal);
      while go
        invariant Valid()
        invariant if go
                  then goal == After(events, Run(loop, WsMachine.ANY, Reassembly(), Unread())) && state == old(state)
                  else && events == goal.events && Reassembly() == goal.st && Unread() == goal.rest
                       && state == if goal.stopped then Closed else old(state)
        decreases go, |buffer| - cursor
      {
        ghost var before, unread := Reassembly(), Unread();
        ghost var t := loop(before, unread);
        var more: seq<WsMachine.WsEvent>;
        go, more := IterateFrame();
        UnfoldRun(loop, WsMachine.ANY, before, unread);
        if t.Take? && go {
          AfterAfter(events, more, Run(loop, WsMachine.ANY, Reassembly(), Unread()));
        }
        events := events + more;
      }
    }

    method FailFrame(code: nat) returns (events: seq<WsMachine.WsEvent>)
      modifies this`state
      ensures state == Closed && events == [WsMachine.Violation(code, WsMachine.CloseFrame(code))]
    {
      state := Closed;
      var wire := Frames.FormatWsFrame(0x8, BigEndian(code, 2));
      events := [WsMachine.Violation(code, wire)];
    }

    /** One iteration of the frame loop: decode, then handle. */
    method IterateFrame() returns (go: bool, events: seq<WsMachine.WsEvent>)
      requires Valid()
      modifies this`cursor, this`state, this`wsFragmentBuffer, this`wsFragmentOpcode
      ensures Valid()
      ensures var t := WsMachine.FrameStep(cfg.platform.isUtf8, old(Reassembly()), old(Unread()));
              && Took(t, old(Unread()), go, events, old(Reassembly()), Reassembly(), Unread())
              && state == if t.Take? && t.stop then Closed else old(state)
    {
      if |buffer| - cursor < 2 { return false, []; }
      var d := Decode();
      if d.NeedMore? { return false, []; }
      if d.NotMasked? {
        events := FailFrame(WsMachine.PROTOCOL_ERROR);
        return false, events;
      }
      cursor := cursor + d.used;
      go, events := HandleFrame(d.opcode, d.fin, d.payload);
    }

    /** The header fields and the unmasked payload of the frame at the cursor. */
    method Decode() returns (d: Frames.Decoded)
      requires Valid() && |buffer| - cursor >= 2
      ensures d == Frames.DecodeFrame(Unread())
    {
      var b1, b2 := buffer[cursor], buffer[cursor + 1];
      var fin := b1 & 0x80 != 0;
      var opcode := b1 & 0x0F;
      var rawLen := b2 & 0x7F;
      if b2 & 0x80 == 0 { return Frames.NotMasked; }
      d := DecodeMasked(opcode, fin, rawLen);
    }

    method DecodeMasked(opcode: byte, fin: bool, rawLen: byte) returns (d: Frames.Decoded)
      requires Valid() && |buffer| - cursor >= 2
      ensures d == Frames.DecodeMasked(Unread(), opcode, fin, rawLen)
    {
      ghost var unread := Unread();
      if rawLen == 126 {
        if |buffer| - cursor < 4 { return Frames.NeedMore; }
        assert buffer[cursor + 2..cursor + 4] == unread[2..4];
        d := TakePayload(opcode, fin, FromBigEndian(buffer[cursor + 2..cursor + 4]), 4);
      } else if rawLen == 127 {
        if |buffer| - cursor < 10 { return Frames.NeedMore; }
        assert buffer[cursor + 2..cursor + 10] == unread[2..10];
        d := TakePayload(opcode, fin, FromBigEndian(buffer[cursor + 2..cursor + 10]), 10);
      } else {
        d := TakePayload(opcode, fin, rawLen as nat, 2);
      }
    }

    method TakePayload(opcode: byte, fin: bool, payloadLen: nat, headerLen: nat) returns (d: Frames.Decoded)
      requires Valid() && headerLen >= 2
      ensures d == Frames.TakePayload(Unread(), opcode, fin, payloadLen, headerLen)
    {
      var total := headerLen + 4;
      if |buffer| - cursor < total + payloadLen { return Frames.NeedMore; }
      var mask := buffer[cursor + headerLen..cursor + headerLen + 4];
      var slice := buffer[cursor + total..cursor + total + payloadLen];
      assert mask == Unread()[headerLen..headerLen + 4] && slice == Unread()[total..total + payloadLen];
      var unmasked := Mask.UnmaskRaw(slice, mask, bigEndian);
      d := Frames.Frame(opcode, fin, unmasked[..], total + payloadLen);
    }

    method HandleFrame(opcode: byte, fin: bool, payload: bytes) returns (go: bool, events: seq<WsMachine.WsEvent>)
      modifies this`state, this`wsFragmentBuffer, this`wsFragmentOpcode
      ensures var r := WsMachine.Handle(cfg.platform.isUtf8, old(Reassembly()), opcode, fin, payload);
              && go == !r.stop && events == r.events && Reassembly() == r.st
              && state == if r.stop then Closed else old(state)
    {
      if opcode >= 0x8 {
        if |payload| > 125 || !fin {
          events := FailFrame(WsMachine.PROTOCOL_ERROR);
          return false, events;
        }
        return true, [WsMachine.Delivered(opcode, fin, payload)];
      } else if opcode == 0x1 || opcode == 0x2 {
        if wsFragmentOpcode != 0 {
          events := FailFrame(WsMachine.PROTOCOL_ERROR);
          return false, events;
        }
        if fin {
          if opcode == 0x1 && !cfg.platform.isUtf8(payload) {
            events := FailFrame(WsMachine.INVALID_DATA);
            return false, events;
          }
          return true, [WsMachine.Delivered(opcode, fin, payload)];
        }
        wsFragmentOpcode := opcode;
        wsFragmentBuffer := payload;
      } else if opcode == 0x0 {
        if wsFragmentOpcode == 0 {
          events := FailFrame(WsMachine.PROTOCOL_ERROR);
          return false, events;
        }
        wsFragmentBuffer := wsFragmentBuffer + payload;
        if fin {
          var op := wsFragmentOpcode;
          wsFragmentOpcode := 0;
          var full := wsFragmentBuffer;
          wsFragmentBuffer := [];
          if op == 0x1 && !cfg.platform.isUtf8(full) {
            events := FailFrame(WsMachine.INVALID_DATA);
            return false, events;
          }
          return true, [WsMachine.Delivered(op, fin, full)];
        }
      }
      return true, [];
    }
  }
}
