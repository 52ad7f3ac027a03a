/** Every byte string is a list of client frames with something unfinished, or
    unmasked, behind them: what is said of frames is said of all bytes. */
module WsWire {
  import opened Bytes
  import opened Frames
  import opened Incremental
  import opened Mask
  import opened Sequences
  import opened WsMachine

  lemma FirstByteBack(b0: byte)
    ensures FirstByte(b0 & 0x80 != 0, b0 & 0x0F) | (b0 & 0x70) == b0
    ensures b0 & 0x0F < 16 && (b0 & 0x70) & 0x8F == 0
  {
  }

  lemma LengthByteBack(b1: byte)
    requires b1 & 0x80 != 0
    ensures 0x80 | (b1 & 0x7F) == b1
  {
  }

  lemma AsByte(b: byte)
    ensures (b as nat) as byte == b
  {
  }

  function FormOf(b1: byte): Form {
    if b1 & 0x7F == 126 then Medium else if b1 & 0x7F == 127 then Long else Short
  }

  lemma ShortBits(b1: byte)
    requires b1 & 0x7F != 126 && b1 & 0x7F != 127
    ensures b1 & 0x7F < 126
  {
  }

  // Where the decoder finds the parts of a frame.
  lemma PartsOfFrame(unread: bytes)
    requires DecodeFrame(unread).Frame?
    ensures var d, form := DecodeFrame(unread), FormOf(unread[1]);
            var n := 2 + ExtraLen(form);
            && d.fin == (unread[0] & 0x80 != 0) && d.opcode == unread[0] & 0x0F && unread[1] & 0x80 != 0
            && d.used == n + 4 + |d.payload| <= |unread|
            && d.payload == Unmasked(unread[n + 4..d.used], unread[n..n + 4])
            && |d.payload| == if form.Short? then (unread[1] & 0x7F) as nat else FromBigEndian(unread[2..n])
  {
  }

  lemma ShortSecond(b1: byte, low: byte, len: nat)
    requires len == low as nat && low < 126 && 0x80 | low == b1
    ensures SecondByte(true, len, Short) == b1
  {
    AsByte(low);
  }

  lemma ShortHeader(b1: byte, fin: bool, opcode: byte, len: nat)
    requires b1 & 0x80 != 0 && FormOf(b1).Short? && len == (b1 & 0x7F) as nat
    ensures Fits(Short, len) && HeaderBytes(fin, opcode, true, len, Short)[1..] == [b1]
  {
    ShortBits(b1);
    LengthByteBack(b1);
    ShortSecond(b1, b1 & 0x7F, len);
    assert HeaderBytes(fin, opcode, true, len, Short) == [FirstByte(fin, opcode), b1];
  }

  lemma LongHeader(b1: byte, ext: bytes, fin: bool, opcode: byte)
    requires b1 & 0x80 != 0 && !FormOf(b1).Short? && |ext| == ExtraLen(FormOf(b1))
    ensures Fits(FormOf(b1), FromBigEndian(ext))
    ensures HeaderBytes(fin, opcode, true, FromBigEndian(ext), FormOf(b1))[1..] == [b1] + ext
  {
    LengthByteBack(b1);
    BigEndianOf(ext);
    Pow256Values();
  }

  lemma HeaderBack(unread: bytes)
    requires DecodeFrame(unread).Frame?
    ensures var d, form := DecodeFrame(unread), FormOf(unread[1]);
            && Fits(form, |d.payload|) && 2 + ExtraLen(form) <= |unread|
            && HeaderBytes(d.fin, d.opcode, true, |d.payload|, form)[1..] == unread[1..2 + ExtraLen(form)]
  {
    PartsOfFrame(unread);
    var d, n := DecodeFrame(unread), 2 + ExtraLen(FormOf(unread[1]));
    assert unread[1..n] == [unread[1]] + unread[2..n];
    if FormOf(unread[1]).Short? {
      ShortHeader(unread[1], d.fin, d.opcode, |d.payload|);
    } else {
      LongHeader(unread[1], unread[2..n], d.fin, d.opcode);
    }
  }

  lemma Joined(s: bytes, n: nat, used: nat)
    requires 1 <= n <= n + 4 <= used <= |s|
    ensures s[..used] == [s[0]] + s[1..n] + s[n..n + 4] + s[n + 4..used]
  {
  }

  /** What decodes was written as a client frame. */
  lemma FrameBack(unread: bytes) returns (f: ClientFrame)
    requires DecodeFrame(unread).Frame?
    ensures var d := DecodeFrame(unread);
            && Encodable(f) && f.opcode == d.opcode && f.fin == d.fin && f.payload == d.payload
            && WireFrame(f) == unread[..d.used]
  {
    var d, form := DecodeFrame(unread), FormOf(unread[1]);
    var n := 2 + ExtraLen(form);
    PartsOfFrame(unread);
    HeaderBack(unread);
    FirstByteBack(unread[0]);
    var mask: key := unread[n..n + 4];
    f := ClientFrame(d.fin, d.opcode, d.payload, mask, form, unread[0] & 0x70);
    UnmaskSelfInverse(unread[n + 4..d.used], mask);
    Joined(unread, n, d.used);
  }

  /** Every byte string is the wire of some frames, with no complete frame behind. */
  lemma {:induction false} EveryStreamIsFrames(unread: bytes) returns (frames: seq<ClientFrame>, rest: bytes)
    ensures AllEncodable(frames) && unread == Wire(frames) + rest && !DecodeFrame(rest).Frame?
    decreases |unread|
  {
    if DecodeFrame(unread).Frame? {
      var f := FrameBack(unread);
      var used := DecodeFrame(unread).used;
      var later;
      later, rest := EveryStreamIsFrames(unread[used..]);
      frames := [f] + later;
      assert frames[1..] == later;
      Associative(WireFrame(f), Wire(later), rest);
      assert unread == unread[..used] + unread[used..];
    } else {
      frames, rest := [], unread;
    }
  }

  // What the loop does with bytes behind which no complete frame is left.
  lemma RunRest(isUtf8: bytes -> bool, st: WsState, rest: bytes)
    requires !DecodeFrame(rest).Frame?
    ensures var o := RunFrames(isUtf8, st, rest);
            if DecodeFrame(rest).NeedMore? then o == Outcome(st, [], rest, false)
            else o.stopped && o.events == Fail(st, PROTOCOL_ERROR).events
  {
    LoopIsIncremental(isUtf8);
    UnfoldRun(Loop(isUtf8), ANY, st, rest);
  }

  lemma {:induction false} RunWireStops(isUtf8: bytes -> bool, st: WsState, frames: seq<ClientFrame>, rest: bytes)
    requires AllEncodable(frames) && HandleAll(isUtf8, st, frames).stop
    ensures var o, all := RunFrames(isUtf8, st, Wire(frames) + rest), HandleAll(isUtf8, st, frames);
            o.stopped && o.events == all.events && o.st == all.st && all.events != []
    decreases |frames|
  {
    var f, tail := frames[0], Wire(frames[1..]) + rest;
    Associative(WireFrame(f), Wire(frames[1..]), rest);
    var r := Handle(isUtf8, st, f.opcode, f.fin, f.payload);
    StepWire(isUtf8, st, f, tail);
    LoopIsIncremental(isUtf8);
    UnfoldRun(Loop(isUtf8), ANY, st, WireFrame(f) + tail);
    if !r.stop {
      RunOneFrame(isUtf8, st, f, tail);
      RunWireStops(isUtf8, r.st, frames[1..], rest);
    }
  }
}
