/** The WebSocket frame codec (section 5.2 of RFC 6455): the server's frame
    writer, the stand-alone header parser and the decoder inlined in the
    connection's frame loop. */
module Frames {
  import opened Bytes
  import opened Mask

  // The three ways a payload length can be written.
  datatype Form = Short | Medium | Long

  predicate Fits(form: Form, len: nat) {
    match form
    case Short => len < 126
    case Medium => len <= 0xFFFF
    case Long => len <= USIZE_MAX
  }

  function MinimalForm(len: nat): Form {
    if len < 126 then Short else if len <= 0xFFFF then Medium else Long
  }

  function ExtraLen(form: Form): nat {
    match form
    case Short => 0
    case Medium => 2
    case Long => 8
  }

  function FirstByte(fin: bool, opcode: byte): byte {
    (if fin then 0x80 else 0) | (opcode & 0x0F)
  }

  function SecondByte(masked: bool, len: nat, form: Form): byte
    requires Fits(form, len)
  {
    (if masked then 0x80 else 0)
    | match form
      case Short => len as byte
      case Medium => 126
      case Long => 127
  }

  /** A frame header, without the masking key. */
  function HeaderBytes(fin: bool, opcode: byte, masked: bool, len: nat, form: Form): (r: bytes)
    requires Fits(form, len)
    ensures |r| == 2 + ExtraLen(form)
  {
    [FirstByte(fin, opcode), SecondByte(masked, len, form)] + BigEndian(len, ExtraLen(form))
  }

  function ServerFrame(opcode: byte, payload: bytes): bytes
    requires |payload| <= USIZE_MAX
  {
    HeaderBytes(true, opcode, false, |payload|, MinimalForm(|payload|)) + payload
  }

  method FormatWsFrame(opcode: byte, payload: bytes) returns (wire: bytes)
    requires |payload| <= USIZE_MAX
    ensures wire == ServerFrame(opcode, payload)
  {
    var header := [0x80 | (opcode & 0x0F)];
    var len := |payload|;
    if len < 126 {
      header := header + [len as byte];
    } else if len <= 0xFFFF {
      header := header + [126];
      header := header + BigEndian(len, 2);
    } else {
      header := header + [127];
      header := header + BigEndian(len, 8);
    }
    assert header == HeaderBytes(true, opcode, false, len, MinimalForm(len));
    wire := header + payload;
  }

  // ------------------------------------------------- stand-alone parser

  datatype Header = Header(opcode: byte, fin: bool, masked: bool, payloadLen: nat, mask: Option<key>, headerLen: nat)

  /** `FastWebSocketParser::parse_frame_header`; `None` asks for more bytes. */
  function ParseFrameHeader(buf: bytes): Option<Header> {
    if |buf| < 2 then None
    else
      var fin := buf[0] & 0x80 != 0;
      var opcode := buf[0] & 0x0F;
      var masked := buf[1] & 0x80 != 0;
      var rawLen := buf[1] & 0x7F;
      if rawLen == 126 then
        if |buf| < 4 then None
        else WithMask(buf, opcode, fin, masked, FromBigEndian(buf[2..4]), 4)
      else if rawLen == 127 then
        if |buf| < 10 then None
        else WithMask(buf, opcode, fin, masked, FromBigEndian(buf[2..10]), 10)
      else
        WithMask(buf, opcode, fin, masked, rawLen as nat, 2)
  }

  function WithMask(buf: bytes, opcode: byte, fin: bool, masked: bool, len: nat, offset: nat): Option<Header> {
    if !masked then Some(Header(opcode, fin, masked, len, None, offset))
    else if |buf| < offset + 4 then None
    else Some(Header(opcode, fin, masked, len, Some(buf[offset..offset + 4]), offset + 4))
  }

  // The bytes that a header with this second byte takes.
  function HeaderSize(b1: byte): nat {
    2 + (if b1 & 0x7F == 126 then 2 else if b1 & 0x7F == 127 then 8 else 0) + if b1 & 0x80 != 0 then 4 else 0
  }

  /** The parser asks for more exactly while the header is incomplete; a parsed
      header does not change when more bytes follow. */
  lemma HeaderStable(buf: bytes, extra: bytes)
    ensures ParseFrameHeader(buf).None? <==> |buf| < 2 || |buf| < HeaderSize(buf[1])
    ensures ParseFrameHeader(buf).Some? ==>
              && ParseFrameHeader(buf).value.headerLen == HeaderSize(buf[1])
              && ParseFrameHeader(buf + extra) == ParseFrameHeader(buf)
  {
    var whole := buf + extra;
    assert |buf| >= 4 ==> whole[2..4] == buf[2..4];
    assert |buf| >= 10 ==> whole[2..10] == buf[2..10];
    assert |buf| >= 6 ==> whole[2..6] == buf[2..6];
    assert |buf| >= 8 ==> whole[4..8] == buf[4..8];
    assert |buf| >= 14 ==> whole[10..14] == buf[10..14];
  }

  // ------------------------------------------------------ reading it back

  lemma FirstByteBits(fin: bool, opcode: byte)
    ensures (FirstByte(fin, opcode) & 0x80 != 0) == fin
    ensures FirstByte(fin, opcode) & 0x0F == opcode & 0x0F
  {
  }

  lemma ShortLength(masked: bool, b: byte)
    requires b < 126
    ensures var s := (if masked then 0x80 else 0) | b;
            (s & 0x80 != 0) == masked && s & 0x7F == b
  {
  }

  ghost predicate LengthBits(b: byte, len: nat, form: Form) {
    match form
    case Short => b != 126 && b != 127 && b as nat == len
    case Medium => b == 126
    case Long => b == 127
  }

  lemma SecondByteBits(masked: bool, len: nat, form: Form)
    requires Fits(form, len)
    ensures (SecondByte(masked, len, form) & 0x80 != 0) == masked
    ensures LengthBits(SecondByte(masked, len, form) & 0x7F, len, form)
  {
    if form.Short? {
      ByteRoundTrip(len);
      ShortLength(masked, len as byte);
    }
  }

  lemma ExtendedLength(len: nat, form: Form)
    requires Fits(form, len) && !form.Short?
    ensures FromBigEndian(BigEndian(len, ExtraLen(form))) == len
  {
    Pow256Values();
    BigEndianRoundTrip(len, ExtraLen(form));
  }

  lemma ParseStart(b0: byte, b1: byte, ext: bytes, tail: bytes, h: Header, form: Form)
    requires (b0 & 0x80 != 0) == h.fin && b0 & 0x0F == h.opcode
    requires (b1 & 0x80 != 0) == h.masked && LengthBits(b1 & 0x7F, h.payloadLen, form)
    requires |ext| == ExtraLen(form) && (!form.Short? ==> FromBigEndian(ext) == h.payloadLen)
    requires h.masked == h.mask.Some? && (h.masked ==> h.mask.value <= tail)
    requires h.headerLen == 2 + ExtraLen(form) + if h.masked then 4 else 0
    ensures ParseFrameHeader([b0, b1] + ext + tail) == Some(h)
  {
    var n := 2 + ExtraLen(form);
    var buf := [b0, b1] + ext + tail;
    assert buf[2..n] == ext;
    assert h.masked ==> buf[n..n + 4] == tail[..4] == h.mask.value;
  }

  /** Every length form parses back to the header it was written from,
      whatever follows it. */
  lemma ParseHeaderBytes(fin: bool, opcode: byte, len: nat, form: Form, mask: Option<key>, rest: bytes)
    requires Fits(form, len) && opcode < 16
    ensures
      var head := HeaderBytes(fin, opcode, mask.Some?, len, form);
      var maskBytes := if mask.Some? then mask.value else [];
      ParseFrameHeader(head + maskBytes + rest)
        == Some(Header(opcode, fin, mask.Some?, len, mask, |head| + |maskBytes|))
  {
    var maskBytes := if mask.Some? then mask.value else [];
    var b0, b1 := FirstByte(fin, opcode), SecondByte(mask.Some?, len, form);
    var ext := BigEndian(len, ExtraLen(form));
    FirstByteBits(fin, opcode);
    SecondByteBits(mask.Some?, len, form);
    LowNibble(opcode);
    if !form.Short? { ExtendedLength(len, form); }
    ParseStart(b0, b1, ext, maskBytes + rest,
               Header(opcode, fin, mask.Some?, len, mask, 2 + |ext| + |maskBytes|), form);
    assert HeaderBytes(fin, opcode, mask.Some?, len, form) + maskBytes + rest == [b0, b1] + ext + (maskBytes + rest);
  }

  lemma LowNibble(opcode: byte)
    requires opcode < 16
    ensures opcode & 0x0F == opcode
  {
  }

  lemma NibbleIsSmall(opcode: byte)
    ensures opcode & 0x0F < 16 && (opcode & 0x0F) & 0x0F == opcode & 0x0F
  {
  }

  /** The header parser inverts the server's frame writer for every opcode and
      payload length, and what follows the header is the payload. */
  lemma ParseInvertsFormat(opcode: byte, payload: bytes, extra: bytes)
    requires |payload| <= USIZE_MAX
    ensures
      var n := 2 + ExtraLen(MinimalForm(|payload|));
      && ParseFrameHeader(ServerFrame(opcode, payload) + extra)
           == Some(Header(opcode & 0x0F, true, false, |payload|, None, n))
      && ServerFrame(opcode, payload)[n..] == payload
  {
    var form := MinimalForm(|payload|);
    NibbleIsSmall(opcode);
    assert FirstByte(true, opcode) == FirstByte(true, opcode & 0x0F);
    var head := HeaderBytes(true, opcode, false, |payload|, form);
    assert head == HeaderBytes(true, opcode & 0x0F, false, |payload|, form);
    ParseHeaderBytes(true, opcode & 0x0F, |payload|, form, None, payload + extra);
    assert head + [] + (payload + extra) == ServerFrame(opcode, payload) + extra;
  }

  // --------------------------------------------------- the inlined decoder

  datatype Decoded =
    | NeedMore
    | NotMasked
    | Frame(opcode: byte, fin: bool, payload: bytes, used: nat)

  /** One iteration's decoding in the connection's frame loop. */
  function DecodeFrame(unread: bytes): (d: Decoded)
    ensures d.Frame? ==> 6 <= d.used <= |unread| && |d.payload| < d.used
  {
    if |unread| < 2 then NeedMore
    else
      var fin := unread[0] & 0x80 != 0;
      var opcode := unread[0] & 0x0F;
      var masked := unread[1] & 0x80 != 0;
      var rawLen := unread[1] & 0x7F;
      if !masked then NotMasked else DecodeMasked(unread, opcode, fin, rawLen)
  }

  function DecodeMasked(unread: bytes, opcode: byte, fin: bool, rawLen: byte): (d: Decoded)
    requires |unread| >= 2
    ensures d.Frame? ==> 6 <= d.used <= |unread| && |d.payload| < d.used
  {
    if rawLen == 126 then
      if |unread| < 4 then NeedMore
      else TakePayload(unread, opcode, fin, FromBigEndian(unread[2..4]), 4)
    else if rawLen == 127 then
      if |unread| < 10 then NeedMore
      else TakePayload(unread, opcode, fin, FromBigEndian(unread[2..10]), 10)
    else
      TakePayload(unread, opcode, fin, rawLen as nat, 2)
  }

  function TakePayload(unread: bytes, opcode: byte, fin: bool, len: nat, headerLen: nat): (d: Decoded)
    requires headerLen >= 2
    ensures d.Frame? ==> d.used == headerLen + 4 + len <= |unread| && |d.payload| == len
  {
    var total := headerLen + 4;
    if |unread| < total + len then NeedMore
    else Frame(opcode, fin, Unmasked(unread[total..total + len], unread[headerLen..headerLen + 4]), total + len)
  }

  /** The two decoders agree: the inlined one refuses exactly the unmasked
      headers, and yields a frame exactly when the stand-alone parser has the
      header and the payload has fully arrived. */
  lemma DecodersAgree(unread: bytes)
    ensures DecodeFrame(unread).NotMasked? <==> |unread| >= 2 && unread[1] & 0x80 == 0
    ensures DecodeFrame(unread).Frame? <==>
      && ParseFrameHeader(unread).Some?
      && var h := ParseFrameHeader(unread).value;
         h.masked && h.headerLen + h.payloadLen <= |unread|
    ensures DecodeFrame(unread).Frame? ==>
      var h, d := ParseFrameHeader(unread).value, DecodeFrame(unread);
      && d.opcode == h.opcode && d.fin == h.fin && d.used == h.headerLen + h.payloadLen
      && h.mask.Some? && d.payload == Unmasked(unread[h.headerLen..d.used], h.mask.value)
  {
  }

  lemma PayloadBehindFirstByte(b0: byte, c0: byte, tail: bytes, opcode: byte, fin: bool, len: nat, headerLen: nat)
    requires headerLen >= 2
    ensures TakePayload([b0] + tail, opcode, fin, len, headerLen)
         == TakePayload([c0] + tail, opcode, fin, len, headerLen)
  {
    var total, size := headerLen + 4, 1 + |tail|;
    if size >= total + len {
      SameSlice(b0, c0, tail, total, total + len);
      SameSlice(b0, c0, tail, headerLen, total);
    }
  }

  lemma SameSlice(b0: byte, c0: byte, tail: bytes, i: nat, j: nat)
    requires 1 <= i <= j <= 1 + |tail|
    ensures ([b0] + tail)[i..j] == ([c0] + tail)[i..j]
  {
  }

  /** The three RSV bits of the first byte are never looked at. */
  lemma RsvBitsAreIgnored(b0: byte, tail: bytes)
    ensures DecodeFrame([b0] + tail) == DecodeFrame([b0 & 0x8F] + tail)
  {
    MaskedBits(b0);
    if tail != [] {
      var c0, fin, opcode, rawLen := b0 & 0x8F, b0 & 0x80 != 0, b0 & 0x0F, tail[0] & 0x7F;
      if rawLen == 126 {
        if |tail| >= 3 {
          SameSlice(b0, c0, tail, 2, 4);
          PayloadBehindFirstByte(b0, c0, tail, opcode, fin, FromBigEndian(([b0] + tail)[2..4]), 4);
        }
      } else if rawLen == 127 {
        if |tail| >= 9 {
          SameSlice(b0, c0, tail, 2, 10);
          PayloadBehindFirstByte(b0, c0, tail, opcode, fin, FromBigEndian(([b0] + tail)[2..10]), 10);
        }
      } else {
        PayloadBehindFirstByte(b0, c0, tail, opcode, fin, rawLen as nat, 2);
      }
    }
  }

  lemma MaskedBits(b0: byte)
    ensures (b0 & 0x8F) & 0x80 == b0 & 0x80 && (b0 & 0x8F) & 0x0F == b0 & 0x0F
  {
  }

  /** A decoded frame does not change when more bytes follow. */
  lemma DecodeStable(a: bytes, b: bytes)
    requires !DecodeFrame(a).NeedMore?
    ensures DecodeFrame(a + b) == DecodeFrame(a)
  {
    DecodersAgree(a);
    DecodersAgree(a + b);
    if DecodeFrame(a).Frame? {
      HeaderStable(a, b);
      var h := ParseFrameHeader(a).value;
      var used := h.headerLen + h.payloadLen;
      assert (a + b)[h.headerLen..used] == a[h.headerLen..used];
    }
  }
}
