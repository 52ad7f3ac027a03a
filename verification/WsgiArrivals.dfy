/** Which answers the WSGI worker's chunked decoder can give to a byte stream, over all
    the ways its bytes may arrive, and what negative sizes do to it. */
module WsgiArrivals {
  import opened Bytes
  import opened Response
  import opened RoundTrip
  import opened Sequences
  import opened SyncReader
  import opened WsgiChunked

  // ------------------------------------------- the decoder under every arrival

  // Of `more`, the first `i` bytes arrive before there is enough.
  ghost predicate CanFill(enough: bytes -> bool, buf: bytes, more: bytes, i: nat) {
    i <= |more| && enough(buf + more[..i]) && (i > 0 ==> !enough(buf))
  }

  /** `v` is an answer to the bytes `buf + more`, of which `buf` has arrived. */
  ghost predicate Possible(pyInt: PyInt, maxBody: nat, buf: bytes, more: bytes, raises: bool, body: bytes, v: Verdict)
    decreases |buf + more|, 1
  {
    if Find(buf + more, CRLF).None? then v == Short(raises)
    else
      exists i: nat :: CanFill(HasLine(), buf, more, i) && PossibleLine(pyInt, maxBody, buf, more, i, raises, body, v)
  }

  ghost predicate PossibleLine(pyInt: PyInt, maxBody: nat, buf: bytes, more: bytes, i: nat, raises: bool, body: bytes,
                               v: Verdict)
    requires CanFill(HasLine(), buf, more, i)
    decreases |buf + more|, 0
  {
    var b := buf + more[..i];
    var end := Find(b, CRLF).value;
    PossibleChunk(pyInt, maxBody, pyInt(SizeText(b[..end])), b[end + 2..], more[i..], raises, body, v)
  }

  ghost predicate PossibleChunk(pyInt: PyInt, maxBody: nat, size: Option<int>, buf: bytes, more: bytes, raises: bool,
                                body: bytes, v: Verdict)
    decreases |buf + more|, 2
  {
    match size
    case None => v == BadLength
    case Some(n) =>
      if n == 0 then v == if |buf + more| < 2 && raises then Interrupted else Body(body)
      else if |buf + more| < n + 2 then v == Short(raises)
      else if |body| + n > maxBody then v == TooLarge
      else
        exists i: nat :: CanFill(HasBytes(n + 2), buf, more, i) &&
          var b := buf + more[..i];
          Possible(pyInt, maxBody, b[Cut(b, n + 2)..], more[i..], raises, body + b[..Cut(b, n)], v)
  }

  // ------------------------------------------------------ what arrives is possible

  lemma BytesLast(n: int)
    ensures Lasting(HasBytes(n))
  {
  }

  lemma {:induction false} FillSplits(enough: bytes -> bool, buf: bytes, queue: seq<Arrival>) returns (i: nat)
    requires Fill(enough, buf, queue).short.None?
    ensures var f, more := Fill(enough, buf, queue), Delivered(queue);
            CanFill(enough, buf, more, i) && f.buf == buf + more[..i] && Delivered(f.queue) == more[i..]
    decreases |queue|
  {
    var more := Delivered(queue);
    if enough(buf) {
      i := 0;
      assert buf + more[..0] == buf && more[0..] == more;
    } else {
      var a := Next(queue);
      var j := FillSplits(enough, buf + a.data, Later(queue));
      i := |a.data| + j;
      var later := Delivered(Later(queue));
      assert more == a.data + later && more[..i] == a.data + later[..j] && more[i..] == later[j..];
      Associative(buf, a.data, later[..j]);
    }
  }

  lemma {:induction false} ArrivalIsPossible(pyInt: PyInt, maxBody: nat, buf: bytes, queue: seq<Arrival>, body: bytes)
    ensures Possible(pyInt, maxBody, buf, Delivered(queue), Raises(queue), body,
                     Assemble(pyInt, maxBody, buf, queue, body))
    decreases |buf + Delivered(queue)|, 1
  {
    LineLasts();
    FillReaches(HasLine(), buf, queue);
    var f := Fill(HasLine(), buf, queue);
    if f.short.None? {
      var i := FillSplits(HasLine(), buf, queue);
      var end := Find(f.buf, CRLF).value;
      ChunkIsPossible(pyInt, maxBody, pyInt(SizeText(f.buf[..end])), f.buf[end + 2..], f.queue, body);
      assert PossibleLine(pyInt, maxBody, buf, Delivered(queue), i, Raises(queue), body,
                          Assemble(pyInt, maxBody, buf, queue, body));
    }
  }

  lemma {:induction false} ChunkIsPossible(pyInt: PyInt, maxBody: nat, size: Option<int>, buf: bytes,
                                           queue: seq<Arrival>, body: bytes)
    ensures PossibleChunk(pyInt, maxBody, size, buf, Delivered(queue), Raises(queue), body,
                          AssembleChunk(pyInt, maxBody, size, buf, queue, body))
    decreases |buf + Delivered(queue)|, 2
  {
    if size.Some? {
      var n := size.value;
      var enough := HasBytes(if n == 0 then 2 else n + 2);
      BytesLast(if n == 0 then 2 else n + 2);
      FillReaches(enough, buf, queue);
      var f := Fill(enough, buf, queue);
      if n != 0 && f.short.None? && |body| + n <= maxBody {
        var i := FillSplits(enough, buf, queue);
        ArrivalIsPossible(pyInt, maxBody, f.buf[Cut(f.buf, n + 2)..], f.queue, body + f.buf[..Cut(f.buf, n)]);
      }
    }
  }

  // ------------------------------------------------------ what is possible arrives

  function Ending(raises: bool): seq<Arrival> {
    if raises then [Raised] else []
  }

  function Preceded(first: bytes, queue: seq<Arrival>): (r: seq<Arrival>)
    ensures Delivered(r) == first + Delivered(queue) && Raises(r) == Raises(queue)
  {
    if first == [] then
      assert [] + Delivered(queue) == Delivered(queue);
      queue
    else [Chunk(first)] + queue
  }

  lemma FillPreceded(enough: bytes -> bool, buf: bytes, more: bytes, i: nat, queue: seq<Arrival>)
    requires CanFill(enough, buf, more, i) && Delivered(queue) == more[i..]
    ensures Fill(enough, buf, Preceded(more[..i], queue)) == Filled(buf + more[..i], queue, None)
    ensures Delivered(Preceded(more[..i], queue)) == more
  {
    assert more == more[..i] + more[i..];
    if i == 0 {
      assert buf + more[..0] == buf;
    } else {
      assert ([Chunk(more[..i])] + queue)[1..] == queue;
    }
  }

  lemma EndingEnds(more: bytes, raises: bool)
    ensures var q := Preceded(more, Ending(raises)); Delivered(q) == more && Raises(q) == raises
  {
    assert more + [] == more;
  }

  lemma {:induction false} PossibleArrives(pyInt: PyInt, maxBody: nat, buf: bytes, more: bytes, raises: bool,
                                           body: bytes, v: Verdict)
    returns (queue: seq<Arrival>)
    requires Possible(pyInt, maxBody, buf, more, raises, body, v)
    ensures Delivered(queue) == more && Raises(queue) == raises && Assemble(pyInt, maxBody, buf, queue, body) == v
    decreases |buf + more|, 1, 0
  {
    LineLasts();
    if Find(buf + more, CRLF).None? {
      EndingEnds(more, raises);
      queue := Preceded(more, Ending(raises));
      FillReaches(HasLine(), buf, queue);
    } else {
      var i: nat :| CanFill(HasLine(), buf, more, i) && PossibleLine(pyInt, maxBody, buf, more, i, raises, body, v);
      queue := PossibleLineArrives(pyInt, maxBody, buf, more, i, raises, body, v);
    }
  }

  lemma {:induction false} PossibleLineArrives(pyInt: PyInt, maxBody: nat, buf: bytes, more: bytes, i: nat,
                                               raises: bool, body: bytes, v: Verdict)
    returns (queue: seq<Arrival>)
    requires CanFill(HasLine(), buf, more, i) && PossibleLine(pyInt, maxBody, buf, more, i, raises, body, v)
    ensures Delivered(queue) == more && Raises(queue) == raises && Assemble(pyInt, maxBody, buf, queue, body) == v
    decreases |buf + more|, 0
  {
    var b := buf + more[..i];
    var end := Find(b, CRLF).value;
    var size, rest := pyInt(SizeText(b[..end])), b[end + 2..];
    LineShrinks(buf, more, i, end);
    var later := PossibleChunkArrives(pyInt, maxBody, size, rest, more[i..], raises, body, v);
    FillPreceded(HasLine(), buf, more, i, later);
    queue := Preceded(more[..i], later);
    AssembleFilled(pyInt, maxBody, buf, queue, body, b, later);
  }

  lemma LineShrinks(buf: bytes, more: bytes, i: nat, end: nat)
    requires i <= |more| && end + 2 <= |buf + more[..i]|
    ensures |(buf + more[..i])[end + 2..] + more[i..]| + end + 2 == |buf + more|
  {
  }

  lemma AssembleFilled(pyInt: PyInt, maxBody: nat, buf: bytes, queue: seq<Arrival>, body: bytes,
                       b: bytes, later: seq<Arrival>)
    requires Fill(HasLine(), buf, queue) == Filled(b, later, None)
    ensures var end := Find(b, CRLF).value;
            Assemble(pyInt, maxBody, buf, queue, body)
              == AssembleChunk(pyInt, maxBody, pyInt(SizeText(b[..end])), b[end + 2..], later, body)
  {
  }

  lemma {:induction false} PossibleChunkArrives(pyInt: PyInt, maxBody: nat, size: Option<int>, buf: bytes, more: bytes,
                                                raises: bool, body: bytes, v: Verdict)
    returns (queue: seq<Arrival>)
    requires PossibleChunk(pyInt, maxBody, size, buf, more, raises, body, v)
    ensures Delivered(queue) == more && Raises(queue) == raises
    ensures AssembleChunk(pyInt, maxBody, size, buf, queue, body) == v
    decreases |buf + more|, 2
  {
    if size.Some? && size.value != 0 && |buf + more| >= size.value + 2 && |body| + size.value <= maxBody {
      queue := PossibleDataArrives(pyInt, maxBody, size.value, buf, more, raises, body, v);
    } else {
      EndingEnds(more, raises);
      queue := Preceded(more, Ending(raises));
      if size.Some? {
        var least := if size.value == 0 then 2 else size.value + 2;
        BytesLast(least);
        FillReaches(HasBytes(least), buf, queue);
      }
    }
  }

  lemma {:induction false} PossibleDataArrives(pyInt: PyInt, maxBody: nat, n: int, buf: bytes, more: bytes,
                                               raises: bool, body: bytes, v: Verdict)
    returns (queue: seq<Arrival>)
    requires PossibleChunk(pyInt, maxBody, Some(n), buf, more, raises, body, v)
    requires n != 0 && |buf + more| >= n + 2 && |body| + n <= maxBody
    ensures Delivered(queue) == more && Raises(queue) == raises
    ensures AssembleChunk(pyInt, maxBody, Some(n), buf, queue, body) == v
    decreases |buf + more|, 1, 1
  {
    var i: nat :| CanFill(HasBytes(n + 2), buf, more, i) &&
      var b := buf + more[..i];
      Possible(pyInt, maxBody, b[Cut(b, n + 2)..], more[i..], raises, body + b[..Cut(b, n)], v);
    var b := buf + more[..i];
    var later := PossibleArrives(pyInt, maxBody, b[Cut(b, n + 2)..], more[i..], raises, body + b[..Cut(b, n)], v);
    FillPreceded(HasBytes(n + 2), buf, more, i, later);
    queue := Preceded(more[..i], later);
  }

  ghost predicate Arrives(queue: seq<Arrival>, more: bytes, raises: bool) {
    Delivered(queue) == more && Raises(queue) == raises
  }

  /** The answers of the decoder over all arrivals of a stream are the possible ones;
      hence it does not depend on the arrival exactly if only one is possible. */
  lemma AnswersAreThePossible(pyInt: PyInt, maxBody: nat, buf: bytes, more: bytes, raises: bool, body: bytes,
                              v: Verdict)
    ensures Possible(pyInt, maxBody, buf, more, raises, body, v)
            <==> exists queue :: Arrives(queue, more, raises) && Assemble(pyInt, maxBody, buf, queue, body) == v
  {
    if Possible(pyInt, maxBody, buf, more, raises, body, v) {
      var queue := PossibleArrives(pyInt, maxBody, buf, more, raises, body, v);
      assert Arrives(queue, more, raises);
    }
    forall queue | Arrives(queue, more, raises) && Assemble(pyInt, maxBody, buf, queue, body) == v
      ensures Possible(pyInt, maxBody, buf, more, raises, body, v)
    {
      ArrivalIsPossible(pyInt, maxBody, buf, queue, body);
    }
  }

  ghost predicate ArrivalsAgree(pyInt: PyInt, maxBody: nat, buf: bytes, more: bytes, raises: bool, body: bytes) {
    forall p, q | Arrives(p, more, raises) && Arrives(q, more, raises) ::
      Assemble(pyInt, maxBody, buf, p, body) == Assemble(pyInt, maxBody, buf, q, body)
  }

  ghost predicate OnlyOnePossible(pyInt: PyInt, maxBody: nat, buf: bytes, more: bytes, raises: bool, body: bytes) {
    forall v, w | Possible(pyInt, maxBody, buf, more, raises, body, v)
                  && Possible(pyInt, maxBody, buf, more, raises, body, w) :: v == w
  }

  /** All arrivals of a stream agree exactly if it has one possible answer. */
  lemma ArrivalsAgreeExactlyWhen(pyInt: PyInt, maxBody: nat, buf: bytes, more: bytes, raises: bool, body: bytes)
    ensures ArrivalsAgree(pyInt, maxBody, buf, more, raises, body)
            <==> OnlyOnePossible(pyInt, maxBody, buf, more, raises, body)
  {
    if ArrivalsAgree(pyInt, maxBody, buf, more, raises, body) {
      forall v, w | Possible(pyInt, maxBody, buf, more, raises, body, v)
                    && Possible(pyInt, maxBody, buf, more, raises, body, w)
        ensures v == w
      {
        var p := PossibleArrives(pyInt, maxBody, buf, more, raises, body, v);
        var q := PossibleArrives(pyInt, maxBody, buf, more, raises, body, w);
        assert Arrives(p, more, raises) && Arrives(q, more, raises);
      }
    }
    if OnlyOnePossible(pyInt, maxBody, buf, more, raises, body) {
      forall p, q | Arrives(p, more, raises) && Arrives(q, more, raises)
        ensures Assemble(pyInt, maxBody, buf, p, body) == Assemble(pyInt, maxBody, buf, q, body)
      {
        ArrivalIsPossible(pyInt, maxBody, buf, p, body);
        ArrivalIsPossible(pyInt, maxBody, buf, q, body);
      }
    }
  }

  /** A stream without negative sizes has one: that of the whole stream. */
  lemma OnlyTheFlatAnswer(pyInt: PyInt, maxBody: nat, buf: bytes, more: bytes, raises: bool, body: bytes)
    requires Decode(pyInt, maxBody, buf + more, raises, body) != Negative
    ensures forall v :: Possible(pyInt, maxBody, buf, more, raises, body, v)
                        <==> v == Decode(pyInt, maxBody, buf + more, raises, body)
  {
    forall v | Possible(pyInt, maxBody, buf, more, raises, body, v)
      ensures v == Decode(pyInt, maxBody, buf + more, raises, body)
    {
      var queue := PossibleArrives(pyInt, maxBody, buf, more, raises, body, v);
      AssembleDecodes(pyInt, maxBody, buf, queue, body);
    }
    EndingEnds(more, raises);
    var queue := Preceded(more, Ending(raises));
    ArrivalIsPossible(pyInt, maxBody, buf, queue, body);
    AssembleDecodes(pyInt, maxBody, buf, queue, body);
  }

  // ------------------------------------------------------------- negative sizes

  lemma AssembleLast(pyInt: PyInt, maxBody: nat, buf: bytes, queue: seq<Arrival>, next: bytes, body: bytes)
    requires ReadsHex(pyInt) && buf + Delivered(queue) == LAST_CHUNK + next
    ensures Assemble(pyInt, maxBody, buf, queue, body) == Body(body)
  {
    HexOfZero();
    assert LAST_CHUNK + next == Hex(0) + CRLF + (CRLF + next);
    DecodeLine(pyInt, maxBody, 0, CRLF + next, Raises(queue), body);
    AssembleDecodes(pyInt, maxBody, buf, queue, body);
  }

  lemma FindsCr(s: bytes)
    ensures Find(s, CRLF).Some? ==> CR in s
  {
    if Find(s, CRLF).Some? {
      var i := Find(s, CRLF).value;
      assert s[i] == s[i..i + 2][0];
    }
  }

  lemma NoLine(pyInt: PyInt, maxBody: nat, buf: bytes, body: bytes)
    requires CR !in buf
    ensures Assemble(pyInt, maxBody, buf, [], body) == EndOfFile
  {
    FindsCr(buf);
  }

  function Zeros(n: nat): (r: bytes)
    ensures |r| == n && CR !in r
  {
    seq(n, _ => 0)
  }

  // The bytes that give the size `n` away, in two parts.
  function Early(n: int): bytes {
    if n == -1 then [0] else []
  }

  function Late(n: int): bytes {
    LAST_CHUNK + if n < -2 then Zeros(-2 - n) else []
  }

  // The early bytes alone: nothing joins the body.
  lemma EarlyFirst(pyInt: PyInt, maxBody: nat, n: int, body: bytes, early: bytes, next: bytes, arriving: seq<Arrival>)
    requires ReadsHex(pyInt) && n < 0 && |body| + n <= maxBody && |early| == (if n == -1 then 1 else 0)
    requires Delivered(arriving) == LAST_CHUNK + next
    ensures AssembleChunk(pyInt, maxBody, Some(n), early, arriving, body) == Body(body)
  {
    var kept := early[Cut(early, n + 2)..];
    assert kept == [] && early[..Cut(early, n)] == [] && body + [] == body;
    assert [] + Delivered(arriving) == Delivered(arriving);
    AssembleLast(pyInt, maxBody, kept, arriving, next, body);
  }

  // Everything at once: the end of it is taken for the next chunk, or more joins the body.
  lemma AllAtOnce(pyInt: PyInt, maxBody: nat, n: int, body: bytes, all: bytes, next: bytes)
    requires ReadsHex(pyInt) && n < 0 && |body| + n <= maxBody
    requires n < -2 ==> |next| == -2 - n && CR !in next && all == LAST_CHUNK + next
    requires n == -2 ==> all == LAST_CHUNK
    requires n == -1 ==> |all| == 6 && all[1..] == LAST_CHUNK
    ensures AssembleChunk(pyInt, maxBody, Some(n), all, [], body) != Body(body)
  {
    var left, grown := all[Cut(all, n + 2)..], body + all[..Cut(all, n)];
    assert AssembleChunk(pyInt, maxBody, Some(n), all, [], body) == Assemble(pyInt, maxBody, left, [], grown);
    if n < -2 {
      assert left == next;
      NoLine(pyInt, maxBody, left, grown);
    } else {
      assert left == LAST_CHUNK && left + Delivered([]) == LAST_CHUNK + [];
      AssembleLast(pyInt, maxBody, left, [], [], grown);
      assert |grown| > |body|;
    }
  }

  /** Every negative size makes the answer depend on how the bytes behind it arrive:
      these few, the early ones first, are answered otherwise than all at once. */
  lemma NegativeChunkDependsOnArrival(pyInt: PyInt, maxBody: nat, n: int, body: bytes)
    requires ReadsHex(pyInt) && n < 0 && |body| + n <= maxBody
    ensures AssembleChunk(pyInt, maxBody, Some(n), Early(n), [Chunk(Late(n))], body)
         != AssembleChunk(pyInt, maxBody, Some(n), Early(n) + Late(n), [], body)
  {
    var next := if n < -2 then Zeros(-2 - n) else [];
    assert Delivered([Chunk(Late(n))]) == Late(n) + [] == Late(n) by { assert [Chunk(Late(n))][1..] == []; }
    EarlyFirst(pyInt, maxBody, n, body, Early(n), next, [Chunk(Late(n))]);
    assert n < -1 ==> Early(n) + Late(n) == Late(n);
    assert LAST_CHUNK + [] == LAST_CHUNK;
    AllAtOnce(pyInt, maxBody, n, body, Early(n) + Late(n), next);
  }

  // --------------------------------------------- the size line, as the guard

  // A size line, with nothing behind its first line end.
  predicate IsSizeLine(line: bytes) {
    Find(line + CRLF, CRLF) == Some(|line|)
  }

  function SizeOf(pyInt: PyInt, line: bytes): Option<int> {
    pyInt(SizeText(line))
  }

  lemma LineFirst(pyInt: PyInt, maxBody: nat, line: bytes, buf: bytes, queue: seq<Arrival>, body: bytes)
    requires IsSizeLine(line)
    ensures Assemble(pyInt, maxBody, line + CRLF + buf, queue, body)
         == AssembleChunk(pyInt, maxBody, SizeOf(pyInt, line), buf, queue, body)
  {
    var b := line + CRLF + buf;
    FindStable(line + CRLF, buf, CRLF);
    assert b[..|line|] == line && b[|line| + 2..] == buf;
  }

  lemma DecodeFirst(pyInt: PyInt, maxBody: nat, line: bytes, rest: bytes, raises: bool, body: bytes)
    requires IsSizeLine(line)
    ensures Decode(pyInt, maxBody, line + CRLF + rest, raises, body)
         == DecodeChunk(pyInt, maxBody, SizeOf(pyInt, line), rest, raises, body)
  {
    var b := line + CRLF + rest;
    FindStable(line + CRLF, rest, CRLF);
    assert b[..|line|] == line && b[|line| + 2..] == rest;
  }

  /** A whole stream that begins with a negative size and is answered according to how
      it arrives. */
  lemma NegativeSizesDependOnArrival(pyInt: PyInt, maxBody: nat, line: bytes, n: int, body: bytes)
    requires ReadsHex(pyInt) && IsSizeLine(line) && SizeOf(pyInt, line) == Some(n) && n < 0 && |body| + n <= maxBody
    ensures var early, late := line + CRLF + Early(n), Late(n);
            Assemble(pyInt, maxBody, early, [Chunk(late)], body) != Assemble(pyInt, maxBody, early + late, [], body)
  {
    NegativeChunkDependsOnArrival(pyInt, maxBody, n, body);
    LineFirst(pyInt, maxBody, line, Early(n), [Chunk(Late(n))], body);
    LineFirst(pyInt, maxBody, line, Early(n) + Late(n), [], body);
    Associative(line + CRLF, Early(n), Late(n));
  }

  /** No size line of the flat stream holds a negative number. */
  predicate NoNegative(pyInt: PyInt, all: bytes)
    decreases |all|
  {
    var end := Find(all, CRLF);
    if end.None? then true
    else
      var size, rest := SizeOf(pyInt, all[..end.value]), all[end.value + 2..];
      if size.None? || size.value == 0 then true
      else if size.value < 0 then false
      else |rest| < size.value + 2 || NoNegative(pyInt, rest[size.value + 2..])
  }

  lemma {:induction false} NoNegativeDecodes(pyInt: PyInt, maxBody: nat, all: bytes, raises: bool, body: bytes)
    requires NoNegative(pyInt, all)
    ensures Decode(pyInt, maxBody, all, raises, body) != Negative
    decreases |all|
  {
    var end := Find(all, CRLF);
    if end.Some? {
      var size, rest := SizeOf(pyInt, all[..end.value]), all[end.value + 2..];
      if size.Some? && size.value > 0 && |rest| >= size.value + 2 {
        NoNegativeDecodes(pyInt, maxBody, rest[size.value + 2..], raises, body + rest[..size.value]);
      }
    }
  }

  // What is behind the chunk of a size line; a negative size takes at most one byte away.
  function Behind(size: Option<int>, rest: bytes): bytes {
    var n := if size.Some? && size.value + 2 > 0 then size.value + 2 else 0;
    if n <= |rest| then rest[n..] else []
  }

  // Two arrivals of a stream that begins with `line` and has no negative size behind
  // its chunk.
  ghost predicate SameStream(pyInt: PyInt, line: bytes, rest: bytes, a: bytes, p: seq<Arrival>, b: bytes,
                             q: seq<Arrival>) {
    && a + Delivered(p) == b + Delivered(q) == line + CRLF + rest && Raises(p) == Raises(q)
    && NoNegative(pyInt, Behind(SizeOf(pyInt, line), rest))
  }

  /** Whatever stream without further negative sizes begins with it, all arrivals of that
      stream are answered alike. */
  ghost predicate IsSafe(pyInt: PyInt, maxBody: nat, line: bytes, body: bytes) {
    forall rest, a, p, b, q | SameStream(pyInt, line, rest, a, p, b, q) ::
      Assemble(pyInt, maxBody, a, p, body) == Assemble(pyInt, maxBody, b, q, body)
  }

  lemma FlatNotNegative(pyInt: PyInt, maxBody: nat, line: bytes, body: bytes, rest: bytes, raises: bool)
    requires IsSizeLine(line) && NoNegative(pyInt, Behind(SizeOf(pyInt, line), rest))
    requires SizeOf(pyInt, line).Some? ==> SizeOf(pyInt, line).value >= 0
    ensures Decode(pyInt, maxBody, line + CRLF + rest, raises, body) != Negative
  {
    var size := SizeOf(pyInt, line);
    DecodeFirst(pyInt, maxBody, line, rest, raises, body);
    if size.Some? && size.value > 0 && |rest| >= size.value + 2 {
      NoNegativeDecodes(pyInt, maxBody, rest[size.value + 2..], raises, body + rest[..size.value]);
    }
  }

  // Two arrivals of the same bytes, as the decoder of the whole sees them.
  lemma BothDecode(pyInt: PyInt, maxBody: nat, all: bytes, body: bytes, a: bytes, p: seq<Arrival>,
                   b: bytes, q: seq<Arrival>)
    requires a + Delivered(p) == all && b + Delivered(q) == all && Raises(p) == Raises(q)
    requires Decode(pyInt, maxBody, all, Raises(p), body) != Negative
    ensures Assemble(pyInt, maxBody, a, p, body) == Assemble(pyInt, maxBody, b, q, body)
  {
    AssembleDecodes(pyInt, maxBody, a, p, body);
    AssembleDecodes(pyInt, maxBody, b, q, body);
  }

  lemma NotNegativeIsSafe(pyInt: PyInt, maxBody: nat, line: bytes, body: bytes)
    requires IsSizeLine(line) && (SizeOf(pyInt, line).Some? ==> SizeOf(pyInt, line).value >= 0)
    ensures IsSafe(pyInt, maxBody, line, body)
  {
    forall rest, a, p, b, q | SameStream(pyInt, line, rest, a, p, b, q)
      ensures Assemble(pyInt, maxBody, a, p, body) == Assemble(pyInt, maxBody, b, q, body)
    {
      FlatNotNegative(pyInt, maxBody, line, body, rest, Raises(p));
      BothDecode(pyInt, maxBody, line + CRLF + rest, body, a, p, b, q);
    }
  }

  lemma Differ(pyInt: PyInt, maxBody: nat, line: bytes, body: bytes, rest: bytes,
               a: bytes, p: seq<Arrival>, b: bytes, q: seq<Arrival>)
    requires SameStream(pyInt, line, rest, a, p, b, q)
    requires Assemble(pyInt, maxBody, a, p, body) != Assemble(pyInt, maxBody, b, q, body)
    ensures !IsSafe(pyInt, maxBody, line, body)
  {
  }

  lemma WitnessIsSameStream(pyInt: PyInt, line: bytes, n: int)
    requires ReadsHex(pyInt) && SizeOf(pyInt, line) == Some(n) && n < 0
    ensures SameStream(pyInt, line, Early(n) + Late(n), line + CRLF + Early(n), [Chunk(Late(n))],
                       line + CRLF + Early(n) + Late(n), [])
  {
    var next := if n < -2 then Zeros(-2 - n) else [];
    Associative(line + CRLF, Early(n), Late(n));
    assert Delivered([Chunk(Late(n))]) == Late(n) + [] == Late(n) by { assert [Chunk(Late(n))][1..] == []; }
    assert (line + CRLF + Early(n) + Late(n)) + [] == line + CRLF + Early(n) + Late(n);
    assert Behind(Some(n), Early(n) + Late(n)) == Late(n);
    LastIsNotNegative(pyInt, next);
  }

  lemma LastIsNotNegative(pyInt: PyInt, next: bytes)
    requires ReadsHex(pyInt)
    ensures NoNegative(pyInt, LAST_CHUNK + next)
  {
    HexOfZero();
    assert LAST_CHUNK + next == Hex(0) + CRLF + (CRLF + next);
    FindSizeLine(0, CRLF + next);
    assert (LAST_CHUNK + next)[..1] == Hex(0);
    SizeTextOfHex(0);
  }

  /** A size line is safe exactly if its size is not negative. */
  lemma SafeExactlyWhen(pyInt: PyInt, maxBody: nat, line: bytes, body: bytes)
    requires ReadsHex(pyInt) && IsSizeLine(line) && |body| <= maxBody
    ensures IsSafe(pyInt, maxBody, line, body)
            <==> (SizeOf(pyInt, line).Some? ==> SizeOf(pyInt, line).value >= 0)
  {
    var size := SizeOf(pyInt, line);
    if size.Some? && size.value < 0 {
      var n := size.value;
      WitnessIsSameStream(pyInt, line, n);
      NegativeSizesDependOnArrival(pyInt, maxBody, line, n, body);
      Differ(pyInt, maxBody, line, body, Early(n) + Late(n), line + CRLF + Early(n), [Chunk(Late(n))],
             line + CRLF + Early(n) + Late(n), []);
    } else {
      NotNegativeIsSafe(pyInt, maxBody, line, body);
    }
  }

  /** A negative size too large for all that follows is skipped, however that arrives. */
  lemma VeryNegativeSizesAreSkipped(pyInt: PyInt, maxBody: nat, n: int, buf: bytes, queue: seq<Arrival>, body: bytes)
    requires |buf + Delivered(queue)| + n + 2 <= 0 && |body| + n <= maxBody
    ensures AssembleChunk(pyInt, maxBody, Some(n), buf, queue, body) == Assemble(pyInt, maxBody, buf, queue, body)
  {
    assert buf[0..] == buf && body + buf[..0] == body;
  }

  /** Behind a size line that is not negative: a line that is no number is refused; the
      last chunk ends the body; a chunk must be there in full, with its line end, and fit
      into the limit, or the answer is how the stream ended, or that it is too large. */
  lemma DecodeAnswers(pyInt: PyInt, maxBody: nat, line: bytes, rest: bytes, raises: bool, body: bytes)
    requires IsSizeLine(line) && (SizeOf(pyInt, line).Some? ==> SizeOf(pyInt, line).value >= 0)
    ensures var v, size := Decode(pyInt, maxBody, line + CRLF + rest, raises, body), SizeOf(pyInt, line);
            if size.None? then v == BadLength
            else if size.value == 0 then v == if raises && |rest| < 2 then Interrupted else Body(body)
            else if |rest| < size.value + 2 then v == if raises then Interrupted else EndOfFile
            else if |body| + size.value > maxBody then v == TooLarge
            else v == Decode(pyInt, maxBody, rest[size.value + 2..], raises, body + rest[..size.value])
  {
    DecodeFirst(pyInt, maxBody, line, rest, raises, body);
  }

  /** A stream that ends before its size line does is answered by how it ended. */
  lemma UnfinishedLine(pyInt: PyInt, maxBody: nat, all: bytes, raises: bool, body: bytes)
    requires Find(all, CRLF).None?
    ensures Decode(pyInt, maxBody, all, raises, body) == if raises then Interrupted else EndOfFile
  {
  }

  // ----------------------------------------------------------------- the limit

  lemma {:induction false} DecodedWithinLimit(pyInt: PyInt, maxBody: nat, all: bytes, raises: bool, body: bytes)
    requires |body| <= maxBody
    ensures var v := Decode(pyInt, maxBody, all, raises, body); v.Body? ==> |v.data| <= maxBody
    decreases |all|
  {
    var end := Find(all, CRLF);
    if end.Some? {
      var size, rest := pyInt(SizeText(all[..end.value])), all[end.value + 2..];
      if size.Some? && size.value > 0 && |rest| >= size.value + 2 && |body| + size.value <= maxBody {
        DecodedWithinLimit(pyInt, maxBody, rest[size.value + 2..], raises, body + rest[..size.value]);
      }
    }
  }

  /** Without negative sizes a body that is accepted is within the limit. */
  lemma BodyWithinLimit(pyInt: PyInt, maxBody: nat, initial: bytes, queue: seq<Arrival>)
    requires Decode(pyInt, maxBody, initial + Delivered(queue), Raises(queue), []) != Negative
    ensures var v := Assemble(pyInt, maxBody, initial, queue, []); v.Body? ==> |v.data| <= maxBody
  {
    AssembleDecodes(pyInt, maxBody, initial, queue, []);
    DecodedWithinLimit(pyInt, maxBody, initial + Delivered(queue), Raises(queue), []);
  }

  // "-2"
  const MINUS_TWO: bytes := [45, 50]

  /** With one there is no limit: for every limit, a body beyond it is accepted. */
  lemma NegativeSizesPassTheLimit(pyInt: PyInt, maxBody: nat)
    requires ReadsHex(pyInt) && pyInt(MINUS_TWO) == Some(-2)
    ensures var v := Assemble(pyInt, maxBody, MINUS_TWO + CRLF + (LAST_CHUNK + Zeros(maxBody)), [], []);
            v.Body? && |v.data| == maxBody + 3
  {
    var tail := LAST_CHUNK + Zeros(maxBody);
    var buf := MINUS_TWO + CRLF + tail;
    FindLineEnd(MINUS_TWO, tail);
    assert buf[..2] == MINUS_TWO && buf[4..] == tail && tail[0..] == tail;
    assert StripLeft(MINUS_TWO) == MINUS_TWO && StripRight(MINUS_TWO) == MINUS_TWO;
    var grown := [] + tail[..Cut(tail, -2)];
    assert tail + Delivered([]) == tail;
    AssembleLast(pyInt, maxBody, tail, [], Zeros(maxBody), grown);
  }
}
