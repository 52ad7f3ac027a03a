/** The WSGI worker's own chunked decoder, which reads from a stream as it goes. */
module WsgiChunked {
  import opened Bytes
  import Response
  import opened RoundTrip
  import opened SyncReader
  import opened Sequences

  // Python's int(text, 16): signs, underscores and a prefix are allowed.
  type PyInt = bytes -> Option<int>

  /** The parser reads back the numbers a size line carries. */
  ghost predicate ReadsHex(pyInt: PyInt) {
    forall n: nat {:trigger Hex(n)} :: pyInt(Hex(n)) == Some(n)
  }

  datatype Verdict =
    | Body(data: bytes)
    | EndOfFile
    | Interrupted
    | BadLength
    | TooLarge
    | Negative // only of the flat decoder: a size line held a negative number

  predicate IsSpace(b: byte) {
    b == 32 || 9 <= b <= 13
  }

  // bytes.strip()
  function StripLeft(s: bytes): bytes {
    if s != [] && IsSpace(s[0]) then StripLeft(s[1..]) else s
  }

  function StripRight(s: bytes): bytes {
    if s != [] && IsSpace(s[|s| - 1]) then StripRight(s[..|s| - 1]) else s
  }

  function SizeText(line: bytes): bytes {
    Before(StripRight(StripLeft(line)), SEMICOLON)
  }

  // s[:n] and what `del s[:n]` leaves
  function Cut(s: bytes, n: int): (k: nat)
    ensures k <= |s|
  {
    if n < 0 then (if |s| + n < 0 then 0 else |s| + n) else if n < |s| then n else |s|
  }

  // ---------------------------------------------------------- the flat decoder

  /** What a stream that holds exactly `all` decodes to; `raises` tells how it ends. */
  function Decode(pyInt: PyInt, maxBody: nat, all: bytes, raises: bool, body: bytes): Verdict
    decreases |all|, 1
  {
    var end := Find(all, CRLF);
    if end.None? then Short(raises)
    else DecodeChunk(pyInt, maxBody, pyInt(SizeText(all[..end.value])), all[end.value + 2..], raises, body)
  }

  function DecodeChunk(pyInt: PyInt, maxBody: nat, size: Option<int>, rest: bytes, raises: bool, body: bytes): Verdict
    decreases |rest|, 2
  {
    match size
    case None => BadLength
    case Some(n) =>
      if n < 0 then Negative
      else if n == 0 then (if |rest| < 2 && raises then Interrupted else Body(body))
      else if |rest| < n + 2 then Short(raises)
      else if |body| + n > maxBody then TooLarge
      else Decode(pyInt, maxBody, rest[n + 2..], raises, body + rest[..n])
  }

  function Short(raises: bool): Verdict {
    if raises then Interrupted else EndOfFile
  }

  // -------------------------------------------------- the decoder as it reads

  // Receives until there is enough, or the stream ends.
  datatype Filled = Filled(buf: bytes, queue: seq<Arrival>, short: Option<Verdict>)

  function Fill(enough: bytes -> bool, buf: bytes, queue: seq<Arrival>): (f: Filled)
    ensures f.short.None? ==> enough(f.buf) && f.buf + Delivered(f.queue) == buf + Delivered(queue)
    decreases |queue|
  {
    if enough(buf) then Filled(buf, queue, None)
    else
      var a := Next(queue);
      if a.Raised? then Filled(buf, Later(queue), Some(Interrupted))
      else if a.data == [] then Filled(buf, Later(queue), Some(EndOfFile))
      else
        assert buf + Delivered(queue) == (buf + a.data) + Delivered(Later(queue));
        Fill(enough, buf + a.data, Later(queue))
  }

  function HasLine(): bytes -> bool {
    (buf: bytes) => Find(buf, CRLF).Some?
  }

  function HasBytes(n: int): bytes -> bool {
    (buf: bytes) => |buf| >= n
  }

  function Assemble(pyInt: PyInt, maxBody: nat, buf: bytes, queue: seq<Arrival>, body: bytes): Verdict
    decreases |buf + Delivered(queue)|, 1
  {
    var f := Fill(HasLine(), buf, queue);
    if f.short.Some? then f.short.value
    else
      var end := Find(f.buf, CRLF).value;
      AssembleChunk(pyInt, maxBody, pyInt(SizeText(f.buf[..end])), f.buf[end + 2..], f.queue, body)
  }

  function AssembleChunk(pyInt: PyInt, maxBody: nat, size: Option<int>, buf: bytes, queue: seq<Arrival>,
                         body: bytes): Verdict
    decreases |buf + Delivered(queue)|, 2
  {
    match size
    case None => BadLength
    case Some(n) =>
      var f := Fill(HasBytes(if n == 0 then 2 else n + 2), buf, queue);
      if f.short.Some? && (n != 0 || f.short.value == Interrupted) then f.short.value
      else if n == 0 then Body(body)
      else if |body| + n > maxBody then TooLarge
      else Assemble(pyInt, maxBody, f.buf[Cut(f.buf, n + 2)..], f.queue, body + f.buf[..Cut(f.buf, n)])
  }

  predicate Raises(queue: seq<Arrival>) {
    if Ends(Next(queue)) then Next(queue).Raised? else Raises(Later(queue))
  }

  // What is enough stays enough when more arrives.
  ghost predicate Lasting(enough: bytes -> bool) {
    forall a: bytes, b: bytes {:trigger enough(a + b)} :: enough(a) ==> enough(a + b)
  }

  lemma LineLasts()
    ensures Lasting(HasLine())
  {
    forall a: bytes, b: bytes | HasLine()(a)
      ensures HasLine()(a + b)
    {
      FindStable(a, b, CRLF);
    }
  }

  /** Filling stops short exactly when the whole stream is short. */
  lemma {:induction false} FillReaches(enough: bytes -> bool, buf: bytes, queue: seq<Arrival>)
    requires Lasting(enough)
    ensures var f := Fill(enough, buf, queue);
            && (f.short.None? <==> enough(buf + Delivered(queue)))
            && (f.short.None? ==> Raises(f.queue) == Raises(queue))
            && (f.short.Some? ==> f.short.value == Short(Raises(queue)))
    decreases |queue|
  {
    if !enough(buf) {
      var a := Next(queue);
      if Ends(a) {
        assert buf + [] == buf;
      } else {
        FillReaches(enough, buf + a.data, Later(queue));
        Associative(buf, a.data, Delivered(Later(queue)));
      }
    }
  }

  lemma FlatLine(buf: bytes, later: bytes)
    requires Find(buf, CRLF).Some?
    ensures Find(buf + later, CRLF) == Find(buf, CRLF)
    ensures var end := Find(buf, CRLF).value;
            (buf + later)[..end] == buf[..end] && (buf + later)[end + 2..] == buf[end + 2..] + later
  {
    FindStable(buf, later, CRLF);
  }

  /** The decoder that reads as it goes agrees with the decoder of the whole
      stream, however the bytes arrive, on every stream without negative sizes. */
  lemma {:induction false} AssembleDecodes(pyInt: PyInt, maxBody: nat, buf: bytes, queue: seq<Arrival>, body: bytes)
    requires Decode(pyInt, maxBody, buf + Delivered(queue), Raises(queue), body) != Negative
    ensures Assemble(pyInt, maxBody, buf, queue, body)
         == Decode(pyInt, maxBody, buf + Delivered(queue), Raises(queue), body)
    decreases |buf + Delivered(queue)|, 1
  {
    LineLasts();
    FillReaches(HasLine(), buf, queue);
    var f := Fill(HasLine(), buf, queue);
    if f.short.None? {
      FlatLine(f.buf, Delivered(f.queue));
      var end := Find(f.buf, CRLF).value;
      AssembleDecodesChunk(pyInt, maxBody, pyInt(SizeText(f.buf[..end])), f.buf[end + 2..], f.queue, body);
    }
  }

  lemma {:induction false} AssembleDecodesChunk(pyInt: PyInt, maxBody: nat, size: Option<int>,
                                                buf: bytes, queue: seq<Arrival>, body: bytes)
    requires DecodeChunk(pyInt, maxBody, size, buf + Delivered(queue), Raises(queue), body) != Negative
    ensures AssembleChunk(pyInt, maxBody, size, buf, queue, body)
         == DecodeChunk(pyInt, maxBody, size, buf + Delivered(queue), Raises(queue), body)
    decreases |buf + Delivered(queue)|, 2
  {
    if size.Some? {
      var n := size.value;
      var enough := HasBytes(if n == 0 then 2 else n + 2);
      FillReaches(enough, buf, queue);
      var f := Fill(enough, buf, queue);
      if n > 0 && f.short.None? && |body| + n <= maxBody {
        var later := Delivered(f.queue);
        assert (f.buf + later)[n + 2..] == f.buf[n + 2..] + later;
        assert (f.buf + later)[..n] == f.buf[..n];
        AssembleDecodes(pyInt, maxBody, f.buf[n + 2..], f.queue, body + f.buf[..n]);
      }
    }
  }

  // The loop of the three places that wait for more bytes.
  method ReceiveUntil(enough: bytes -> bool, reader: Inbox, initial: bytes) returns (f: Filled)
    modifies reader
    ensures f == Fill(enough, initial, old(reader.queue)) && f.queue == reader.queue
  {
    var buf := initial;
    while !enough(buf)
      invariant Fill(enough, buf, reader.queue) == Fill(enough, initial, old(reader.queue))
      decreases |reader.queue|
    {
      var a := reader.Receive();
      if a.Raised? {
        return Filled(buf, reader.queue, Some(Interrupted));
      }
      if a.data == [] {
        return Filled(buf, reader.queue, Some(EndOfFile));
      }
      buf := buf + a.data;
    }
    f := Filled(buf, reader.queue, None);
  }

  // What follows a size line: the answer, or the chunk taken into the body.
  method ReadData(pyInt: PyInt, maxBody: nat, n: int, reader: Inbox, initial: bytes, before: bytes)
    returns (v: Option<Verdict>, buf: bytes, body: bytes)
    modifies reader
    ensures var whole := AssembleChunk(pyInt, maxBody, Some(n), initial, old(reader.queue), before);
            if v.Some? then v.value == whole else Assemble(pyInt, maxBody, buf, reader.queue, body) == whole
    ensures v.None? ==> |buf + Delivered(reader.queue)| <= |initial + Delivered(old(reader.queue))|
  {
    buf, body := initial, before;
    if n == 0 {
      var f := ReceiveUntil(HasBytes(2), reader, buf);
      v := Some(if f.short == Some(Interrupted) then Interrupted else Body(body));
      return;
    }
    var f := ReceiveUntil(HasBytes(n + 2), reader, buf);
    if f.short.Some? {
      v := f.short;
      return;
    }
    if |body| + n > maxBody {
      v := Some(TooLarge);
      return;
    }
    v := None;
    body := body + f.buf[..Cut(f.buf, n)];
    buf := f.buf[Cut(f.buf, n + 2)..];
  }

  method ReadChunkedBody(pyInt: PyInt, maxBody: nat, reader: Inbox, initial: bytes) returns (v: Verdict)
    modifies reader
    ensures v == Assemble(pyInt, maxBody, initial, old(reader.queue), [])
    ensures var flat := Decode(pyInt, maxBody, initial + Delivered(old(reader.queue)), Raises(old(reader.queue)), []);
            flat != Negative ==> v == flat
  {
    if Decode(pyInt, maxBody, initial + Delivered(reader.queue), Raises(reader.queue), []) != Negative {
      AssembleDecodes(pyInt, maxBody, initial, reader.queue, []);
    }
    v := ReadChunks(pyInt, maxBody, reader, initial);
  }

  method ReadChunks(pyInt: PyInt, maxBody: nat, reader: Inbox, initial: bytes) returns (v: Verdict)
    modifies reader
    ensures v == Assemble(pyInt, maxBody, initial, old(reader.queue), [])
  {
    var buf, body := initial, [];
    while true
      invariant Assemble(pyInt, maxBody, buf, reader.queue, body)
          == Assemble(pyInt, maxBody, initial, old(reader.queue), [])
      decreases |buf + Delivered(reader.queue)|
    {
      var f := ReceiveUntil(HasLine(), reader, buf);
      if f.short.Some? {
        return f.short.value;
      }
      var end := Find(f.buf, CRLF).value;
      var size := pyInt(SizeText(f.buf[..end]));
      if size.None? {
        return BadLength;
      }
      var answer;
      answer, buf, body := ReadData(pyInt, maxBody, size.value, reader, f.buf[end + 2..], body);
      if answer.Some? {
        return answer.value;
      }
    }
  }

  // ------------------------------------------------------------- round trip

  lemma SizeTextOfHex(n: nat)
    ensures SizeText(Hex(n)) == Hex(n)
  {
    HexNumeralBytes(Hex(n));
  }

  lemma DecodeLine(pyInt: PyInt, maxBody: nat, n: nat, tail: bytes, raises: bool, body: bytes)
    requires ReadsHex(pyInt)
    ensures Decode(pyInt, maxBody, Hex(n) + CRLF + tail, raises, body)
         == DecodeChunk(pyInt, maxBody, Some(n), tail, raises, body)
  {
    var all := Hex(n) + CRLF + tail;
    FindSizeLine(n, tail);
    assert all[..|Hex(n)|] == Hex(n);
    SizeTextOfHex(n);
  }

  lemma DecodePiece(pyInt: PyInt, maxBody: nat, p: bytes, tail: bytes, raises: bool, body: bytes)
    requires ReadsHex(pyInt) && |body| <= maxBody
    ensures Decode(pyInt, maxBody, CodedPiece(p, tail), raises, body)
         == if |body + p| > maxBody then TooLarge else Decode(pyInt, maxBody, tail, raises, body + p)
  {
    if p == [] {
      assert body + p == body;
    } else {
      var rest := p + CRLF + tail;
      DecodeLine(pyInt, maxBody, |p|, rest, raises, body);
      assert rest[..|p|] == p && rest[|p| + 2..] == tail;
    }
  }

  lemma {:induction false} DecodeStream(pyInt: PyInt, maxBody: nat, pieces: seq<bytes>, next: bytes, raises: bool,
                                        body: bytes)
    requires ReadsHex(pyInt) && |body| <= maxBody
    ensures Decode(pyInt, maxBody, StreamTail(pieces, next), raises, body)
         == if |body + Concat(pieces)| <= maxBody then Body(body + Concat(pieces)) else TooLarge
    decreases |pieces|
  {
    if pieces == [] {
      HexOfZero();
      assert Response.LAST_CHUNK + next == Hex(0) + CRLF + (CRLF + next);
      DecodeLine(pyInt, maxBody, 0, CRLF + next, raises, body);
      assert body + [] == body;
    } else {
      DecodePiece(pyInt, maxBody, pieces[0], StreamTail(pieces[1..], next), raises, body);
      Associative(body, pieces[0], Concat(pieces[1..]));
      if |body + pieces[0]| <= maxBody {
        DecodeStream(pyInt, maxBody, pieces[1..], next, raises, body + pieces[0]);
      }
    }
  }

  /** The body of a streamed response, however its bytes arrive, is read back as
      the concatenated pieces if and only if it is within the size limit. */
  lemma ChunkedBodyReadsBack(pyInt: PyInt, maxBody: nat, pieces: seq<bytes>, next: bytes, initial: bytes,
                             queue: seq<Arrival>)
    requires ReadsHex(pyInt) && pieces != []
    requires initial + Delivered(queue) == ChunkStream(pieces) + next
    ensures Assemble(pyInt, maxBody, initial, queue, [])
         == if |Concat(pieces)| <= maxBody then Body(Concat(pieces)) else TooLarge
  {
    StreamIsTail(pieces, next);
    DecodeStream(pyInt, maxBody, pieces, next, Raises(queue), []);
    assert [] + Concat(pieces) == Concat(pieces);
    AssembleDecodes(pyInt, maxBody, initial, queue, []);
  }
}
