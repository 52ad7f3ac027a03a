/** What a reader finds in the bytes of a response: its status, the application's fields,
    the framing and persistence it announces, and the body. */
module ResponseReading {
  import opened Bytes
  import opened Framing
  import opened Response
  import opened ResponseHead
  import opened Sequences
  import opened Text

  const COLON_BYTE: byte := 58

  // ------------------------------------------------------------ reading a line

  // The name of a field line, up to its colon, and the value behind colon and space.
  function NameIn(line: bytes): bytes {
    Before(line, COLON_BYTE)
  }

  function ValueIn(line: bytes): bytes {
    if |NameIn(line)| + 2 <= |line| then line[|NameIn(line)| + 2..] else []
  }

  predicate IsNamed(line: bytes, name: bytes) {
    EqIgnoreCase(NameIn(line), name)
  }

  function Count(lines: seq<bytes>, name: bytes): nat {
    if lines == [] then 0 else (if IsNamed(lines[0], name) then 1 else 0) + Count(lines[1..], name)
  }

  lemma {:induction false} CountAppend(a: seq<bytes>, b: seq<bytes>, name: bytes)
    ensures Count(a + b, name) == Count(a, name) + Count(b, name)
  {
    if a == [] {
      assert a + b == b;
    } else {
      assert (a + b)[1..] == a[1..] + b;
      CountAppend(a[1..], b, name);
    }
  }

  lemma {:induction false} BeforeColon(name: bytes, rest: bytes)
    requires COLON_BYTE !in name
    ensures Before(name + [COLON_BYTE] + rest, COLON_BYTE) == name
  {
    if name != [] {
      assert (name + [COLON_BYTE] + rest)[1..] == name[1..] + [COLON_BYTE] + rest;
      BeforeColon(name[1..], rest);
    }
  }

  lemma LineParts(name: bytes, value: bytes)
    requires COLON_BYTE !in name
    ensures NameIn(name + COLON + value) == name && ValueIn(name + COLON + value) == value
  {
    var line := name + COLON + value;
    assert line == name + [COLON_BYTE] + ([32] + value);
    BeforeColon(name, [32] + value);
    assert line[|name| + 2..] == value;
  }

  // ------------------------------------------------------- the lines we write

  lemma AsciiAppend(a: string, b: string)
    ensures Ascii(a + b) == Ascii(a) + Ascii(b)
  {
  }

  lemma ByteOf(c: char)
    requires c as int < 128
    ensures ((c as int % 128) as byte) as int == c as int
  {
    ByteRoundTrip(c as int);
  }

  predicate Plain(s: string) {
    forall i | 0 <= i < |s| :: ':' < s[i] < 128 as char || s[i] == '-'
  }

  lemma NoColon(s: string)
    requires Plain(s)
    ensures COLON_BYTE !in Ascii(s)
  {
    forall i | 0 <= i < |s|
      ensures Ascii(s)[i] != COLON_BYTE
    {
      ByteOf(s[i]);
    }
  }

  lemma OwnLineParts(name: string, value: string, rest: bytes)
    requires Plain(name)
    ensures var line := Ascii(name + ": " + value) + rest;
            NameIn(line) == Ascii(name) && ValueIn(line) == Ascii(value) + rest
  {
    NoColon(name);
    AsciiAppend(name, ": ");
    AsciiAppend(name + ": ", value);
    assert Ascii(": ") == COLON;
    assert Ascii(name + ": " + value) + rest == Ascii(name) + COLON + (Ascii(value) + rest);
    LineParts(Ascii(name), Ascii(value) + rest);
  }

  lemma LengthLine(n: nat)
    ensures var line := Ascii("content-length: ") + Decimal(n);
            NameIn(line) == CONTENT_LENGTH && ValueIn(line) == Decimal(n)
  {
    OwnLineParts("content-length", "", Decimal(n));
    assert "content-length" + ": " + "" == "content-length: ";
    assert Ascii("") + Decimal(n) == Decimal(n);
  }

  lemma WholeLineParts(name: string, value: string, line: string)
    requires Plain(name) && line == name + ": " + value
    ensures NameIn(Ascii(line)) == Ascii(name) && ValueIn(Ascii(line)) == Ascii(value)
  {
    OwnLineParts(name, value, []);
    assert Ascii(line) + [] == Ascii(line) && Ascii(value) + [] == Ascii(value);
  }

  lemma CodingLine()
    ensures var line := Ascii("transfer-encoding: chunked");
            NameIn(line) == TRANSFER_ENCODING && ValueIn(line) == CHUNKED
  {
    WholeLineParts("transfer-encoding", "chunked", "transfer-encoding: chunked");
  }

  lemma KeepLine()
    ensures NameIn(Ascii("connection: keep-alive")) == CONNECTION
    ensures ValueIn(Ascii("connection: keep-alive")) == KEEP_ALIVE
  {
    WholeLineParts("connection", "keep-alive", "connection: keep-alive");
  }

  lemma CloseLine()
    ensures NameIn(Ascii("connection: close")) == CONNECTION && ValueIn(Ascii("connection: close")) == CLOSE
  {
    WholeLineParts("connection", "close", "connection: close");
  }

  lemma StatusIsNoField(status: nat, name: bytes)
    requires name == CONTENT_LENGTH || name == TRANSFER_ENCODING || name == CONNECTION
    ensures !IsNamed(StatusText(status), name)
  {
    var line := StatusText(status);
    FirstLetters();
    assert line[0] == Ascii("HTTP/1.1 ")[0];
    assert NameIn(line) != [] && NameIn(line)[0] == 72;
    assert ToLower(NameIn(line))[0] == Lower(72) == 104;
    assert ToLower(name)[0] == Lower(name[0]) == name[0];
  }

  lemma FirstLetters()
    ensures Ascii("HTTP/1.1 ")[0] == 72 && CONTENT_LENGTH[0] == 99 && TRANSFER_ENCODING[0] == 116 && CONNECTION[0] == 99
  {
    ByteOf('H');
    ByteOf('c');
    ByteOf('t');
  }

  // The lines the server adds for itself are what they are taken for.
  predicate IsOwn(line: Option<bytes>, name: bytes) {
    line.Some? ==> IsLine(line.value) && IsNamed(line.value, name)
  }

  lemma CountOne(line: bytes, name: bytes)
    ensures Count([line], name) == if IsNamed(line, name) then 1 else 0
  {
    assert [line][1..] == [];
  }

  lemma NamedApart(line: bytes, a: bytes, b: bytes)
    requires |a| != |b|
    ensures !(IsNamed(line, a) && IsNamed(line, b))
  {
    assert |ToLower(a)| == |a| && |ToLower(b)| == |b|;
  }

  lemma OwnCount(line: Option<bytes>, taken: bool, own: bytes, name: bytes)
    requires IsOwn(line, own) && |own| != |name|
    ensures Count(OwnLine(line, taken), name) == 0
  {
    if line.Some? && !taken {
      NamedApart(line.value, own, name);
      CountOne(line.value, name);
    }
  }

  function One(b: bool): nat {
    if b then 1 else 0
  }

  // At most one line, under this name and with this value.
  predicate IsLineOf(lines: seq<bytes>, name: bytes, value: bytes) {
    lines == [] || (|lines| == 1 && NameIn(lines[0]) == name && ValueIn(lines[0]) == value)
  }

  lemma LengthTextIs(r: Request)
    ensures IsLineOf(LengthText(r), CONTENT_LENGTH, Decimal(|r.body|))
  {
    LengthLine(|r.body|);
  }

  lemma CodingTextIs(r: Request)
    ensures IsLineOf(CodingText(r), TRANSFER_ENCODING, CHUNKED)
  {
    CodingLine();
  }

  lemma ConnectionTextIs(r: Request)
    ensures IsLineOf(ConnectionText(r), CONNECTION, if KeepsAlive(r) then KEEP_ALIVE else CLOSE)
  {
    if KeepsAlive(r) { KeepLine(); } else { CloseLine(); }
  }

  lemma CountLineOf(lines: seq<bytes>, own: bytes, value: bytes, name: bytes)
    requires IsLineOf(lines, own, value) && (name == own || |name| != |own|)
    ensures Count(lines, name) == One(name == own && lines != [])
  {
    if lines != [] {
      OneOfThem(lines[0], own, name);
      assert lines == [lines[0]];
    }
  }

  lemma CountThree(cl: seq<bytes>, te: seq<bytes>, conn: seq<bytes>, length: bytes, value: bytes, name: bytes)
    requires IsLineOf(cl, CONTENT_LENGTH, length) && IsLineOf(te, TRANSFER_ENCODING, CHUNKED)
    requires IsLineOf(conn, CONNECTION, value)
    requires name == CONTENT_LENGTH || name == TRANSFER_ENCODING || name == CONNECTION
    ensures Count(cl + te + conn, name)
         == One(name == CONTENT_LENGTH && cl != []) + One(name == TRANSFER_ENCODING && te != [])
            + One(name == CONNECTION && conn != [])
  {
    CountAppend(cl + te, conn, name);
    CountAppend(cl, te, name);
    assert |CONTENT_LENGTH| == 14 && |TRANSFER_ENCODING| == 17 && |CONNECTION| == 10;
    CountLineOf(cl, CONTENT_LENGTH, length, name);
    CountLineOf(te, TRANSFER_ENCODING, CHUNKED, name);
    CountLineOf(conn, CONNECTION, value, name);
  }

  lemma AddedCount(r: Request)
    ensures var lines := AddedText(r);
            && Count(lines, CONTENT_LENGTH) == One(LengthText(r) != [])
            && Count(lines, TRANSFER_ENCODING) == One(CodingText(r) != [])
            && Count(lines, CONNECTION) == One(ConnectionText(r) != [])
  {
    LengthTextIs(r);
    CodingTextIs(r);
    ConnectionTextIs(r);
    assert |CONTENT_LENGTH| == 14 && |TRANSFER_ENCODING| == 17 && |CONNECTION| == 10;
    var length, value := Decimal(|r.body|), if KeepsAlive(r) then KEEP_ALIVE else CLOSE;
    CountThree(LengthText(r), CodingText(r), ConnectionText(r), length, value, CONTENT_LENGTH);
    CountThree(LengthText(r), CodingText(r), ConnectionText(r), length, value, TRANSFER_ENCODING);
    CountThree(LengthText(r), CodingText(r), ConnectionText(r), length, value, CONNECTION);
  }

  lemma OneOfThem(line: bytes, own: bytes, name: bytes)
    requires NameIn(line) == own && (name == own || |name| != |own|)
    ensures Count([line], name) == One(name == own)
  {
    CountOne(line, name);
    assert |ToLower(own)| == |own| && |ToLower(name)| == |name|;
  }

  // ----------------------------------------------------- the application's fields

  ghost predicate Supplies(fields: seq<Field>, name: bytes) {
    exists f :: f in fields && EqIgnoreCase(f.name, name)
  }

  ghost predicate SomeAsksToClose(fields: seq<Field>) {
    exists f :: f in fields && AsksToClose(f)
  }

  lemma {:induction false} HasNameMeans(fields: seq<Field>, name: bytes)
    ensures HasName(fields, name) <==> Supplies(fields, name)
    decreases |fields|
  {
    if fields != [] {
      var front, last := fields[..|fields| - 1], fields[|fields| - 1];
      HasNameMeans(front, name);
      assert fields == front + [last];
    }
  }

  lemma {:induction false} AnyAsksMeans(fields: seq<Field>)
    ensures AnyAsksToClose(fields) <==> SomeAsksToClose(fields)
    decreases |fields|
  {
    if fields != [] {
      var front, last := fields[..|fields| - 1], fields[|fields| - 1];
      AnyAsksMeans(front);
      assert fields == front + [last];
    }
  }

  lemma {:induction false} FieldTextsAre(fields: seq<Field>)
    ensures |FieldTexts(fields)| == |fields|
    ensures forall i | 0 <= i < |fields| :: FieldTexts(fields)[i] == fields[i].name + [58, 32] + fields[i].value
    decreases |fields|
  {
    if fields != [] {
      FieldTextsAre(fields[..|fields| - 1]);
    }
  }

  // ------------------------------------------------------------- what is read

  // The response is accepted, and the server's own lines are in order.
  ghost predicate Readable(r: Request, server: Option<bytes>, date: Option<bytes>) {
    && (forall i | 0 <= i < |r.fields| :: SafeText(r.fields[i].name) && SafeText(r.fields[i].value))
    && r.server == OwnWire(server) && IsOwn(server, SERVER)
    && r.date == OwnWire(date) && IsOwn(date, DATE)
  }

  /** A response is refused exactly if some field holds a line break. */
  lemma RefusedExactlyWhen(r: Request)
    ensures ResponseWire(r).IllegalHeader?
       <==> exists f, b :: f in r.fields && (b in f.name || b in f.value) && (b == 13 || b == 10)
  {
    if ResponseWire(r).IllegalHeader? {
      var i :| 0 <= i < |r.fields| && !Safe(r.fields[i]);
      var f := r.fields[i];
      assert f in r.fields;
      assert CR in f.name || LF in f.name || CR in f.value || LF in f.value;
    }
  }

  lemma ReadBack(r: Request, server: Option<bytes>, date: Option<bytes>)
    requires Readable(r, server, date)
    ensures ResponseWire(r).Wire? && ReadHead(ResponseWire(r).wire) == Head(HeadLines(r, server, date), BodyWire(r))
  {
    HeadReadsBack(r, server, date);
  }

  /** Behind the head comes the body as it is, unless it is chunked; a status without a
      body has none. It is chunked exactly if more is to come and the application gave no
      length. */
  lemma BodyFollowsTheHead(r: Request, server: Option<bytes>, date: Option<bytes>)
    requires Readable(r, server, date)
    ensures ResponseWire(r).Wire?
    ensures var w := ResponseWire(r);
            && ReadHead(w.wire).Head?
            && (w.chunked <==> !r.isNoBodyStatus && r.moreBody && !Supplies(r.fields, CONTENT_LENGTH))
            && (r.isNoBodyStatus ==> ReadHead(w.wire).rest == [])
            && (!r.isNoBodyStatus && !w.chunked ==> ReadHead(w.wire).rest == r.body)
            && (w.keepAlive <==> r.keepAlive && !SomeAsksToClose(r.fields))
  {
    ReadBack(r, server, date);
    HasNameMeans(r.fields, CONTENT_LENGTH);
    AnyAsksMeans(r.fields);
  }

  // How many lines of a name there are, the application's included.
  lemma LinesCounted(r: Request, server: Option<bytes>, date: Option<bytes>, name: bytes)
    requires Readable(r, server, date)
    requires name == CONTENT_LENGTH || name == TRANSFER_ENCODING || name == CONNECTION
    ensures Count(HeadLines(r, server, date), name) == Count(FieldTexts(r.fields), name) + Count(AddedText(r), name)
  {
    var status := [StatusText(r.status)];
    var own, dated := OwnLine(server, HasName(r.fields, SERVER)), OwnLine(date, HasName(r.fields, DATE));
    CountAppend(status + own + dated + FieldTexts(r.fields), AddedText(r), name);
    CountAppend(status + own + dated, FieldTexts(r.fields), name);
    CountAppend(status + own, dated, name);
    CountAppend(status, own, name);
    StatusIsNoField(r.status, name);
    CountOne(StatusText(r.status), name);
    assert |CONTENT_LENGTH| == 14 && |TRANSFER_ENCODING| == 17 && |CONNECTION| == 10 && |SERVER| == 6 && |DATE| == 4;
    OwnCount(server, HasName(r.fields, SERVER), SERVER, name);
    OwnCount(date, HasName(r.fields, DATE), DATE, name);
  }

  /** The writer adds a length exactly to a whole response whose length the application
      did not give, a transfer coding exactly to a chunked one, and a connection line
      exactly if the application gave none. */
  lemma FramingIsAdded(r: Request, server: Option<bytes>, date: Option<bytes>)
    requires Readable(r, server, date)
    ensures ResponseWire(r).Wire? && ReadHead(ResponseWire(r).wire).Head?
    ensures var w, own := ResponseWire(r), FieldTexts(r.fields);
            var lines := ReadHead(w.wire).lines;
            && Count(lines, CONTENT_LENGTH) == Count(own, CONTENT_LENGTH)
                 + One(!r.isNoBodyStatus && !r.moreBody && !Supplies(r.fields, CONTENT_LENGTH))
            && Count(lines, TRANSFER_ENCODING) == Count(own, TRANSFER_ENCODING) + One(w.chunked)
            && Count(lines, CONNECTION) == Count(own, CONNECTION) + One(!Supplies(r.fields, CONNECTION))
  {
    ReadBack(r, server, date);
    LinesCounted(r, server, date, CONTENT_LENGTH);
    LinesCounted(r, server, date, TRANSFER_ENCODING);
    LinesCounted(r, server, date, CONNECTION);
    AddedCount(r);
    HasNameMeans(r.fields, CONTENT_LENGTH);
    HasNameMeans(r.fields, CONNECTION);
  }

  lemma {:induction false} NoneIsNamed(fields: seq<Field>, name: bytes)
    requires forall f | f in fields :: !IsNamed(FieldText(f), name)
    ensures Count(FieldTexts(fields), name) == 0
    decreases |fields|
  {
    if fields != [] {
      var front, last := fields[..|fields| - 1], fields[|fields| - 1];
      assert last in fields && forall f | f in front :: f in fields;
      NoneIsNamed(front, name);
      CountAppend(FieldTexts(front), [FieldText(last)], name);
      CountOne(FieldText(last), name);
    }
  }

  /** A whole response whose fields give no length, as a reader understands them, is read
      with exactly one length, and that is the number of the bytes behind the head. */
  lemma LengthIsThatOfTheBody(r: Request, server: Option<bytes>, date: Option<bytes>)
    requires Readable(r, server, date) && !r.isNoBodyStatus && !r.moreBody && |r.body| <= USIZE_MAX
    requires !Supplies(r.fields, CONTENT_LENGTH)
    requires forall f | f in r.fields :: !IsNamed(FieldText(f), CONTENT_LENGTH)
    ensures ResponseWire(r).Wire? && ReadHead(ResponseWire(r).wire).Head?
    ensures var got := ReadHead(ResponseWire(r).wire);
            && Count(got.lines, CONTENT_LENGTH) == 1
            && exists line :: line in got.lines && IsNamed(line, CONTENT_LENGTH)
                              && ParseRadix(ValueIn(line), 10) == Some(|got.rest|)
  {
    FramingIsAdded(r, server, date);
    NoneIsNamed(r.fields, CONTENT_LENGTH);
    BodyFollowsTheHead(r, server, date);
    ReadBack(r, server, date);
    HasNameMeans(r.fields, CONTENT_LENGTH);
    var line := Ascii("content-length: ") + Decimal(|r.body|);
    assert LengthText(r) == [line];
    LengthLine(|r.body|);
    LengthReadsBack(|r.body|);
    assert line in AddedText(r);
  }

  /** Where the application says nothing of the connection, the response says what the
      writer reports. */
  lemma ConnectionIsReported(r: Request, server: Option<bytes>, date: Option<bytes>)
    requires Readable(r, server, date) && !Supplies(r.fields, CONNECTION)
    ensures ResponseWire(r).Wire? && ReadHead(ResponseWire(r).wire).Head?
    ensures var w := ResponseWire(r);
            exists line :: line in ReadHead(w.wire).lines && IsNamed(line, CONNECTION)
                           && ValueIn(line) == if w.keepAlive then KEEP_ALIVE else CLOSE
  {
    ReadBack(r, server, date);
    HasNameMeans(r.fields, CONNECTION);
    ConnectionTextIs(r);
    assert ConnectionText(r) != [];
    var line := ConnectionText(r)[0];
    assert line in AddedText(r);
    NamedLine(line, CONNECTION);
  }

  lemma NamedLine(line: bytes, name: bytes)
    requires NameIn(line) == name
    ensures IsNamed(line, name)
  {
  }

  lemma StatusStarts(status: nat)
    ensures Ascii("HTTP/1.1 ") + Decimal(status) + [32] <= StatusText(status)
  {
  }

  // The status line, the server's own lines, then the application's fields as they are.
  ghost predicate Ordered(lines: seq<bytes>, own: seq<bytes>, fields: seq<Field>) {
    && |lines| > |own| + |fields|
    && (forall i | 0 <= i < |own| :: lines[1 + i] == own[i])
    && (forall i | 0 <= i < |fields| :: lines[1 + |own| + i] == fields[i].name + [58, 32] + fields[i].value)
  }

  lemma Layout(status: bytes, own: seq<bytes>, texts: seq<bytes>, added: seq<bytes>, fields: seq<Field>)
    requires |texts| == |fields|
    requires forall i | 0 <= i < |fields| :: texts[i] == fields[i].name + [58, 32] + fields[i].value
    ensures Ordered([status] + own + texts + added, own, fields)
    ensures ([status] + own + texts + added)[0] == status
  {
    var lines := [status] + own + texts + added;
    assert forall i | 0 <= i < |own| :: lines[1 + i] == own[i];
    assert forall i | 0 <= i < |texts| :: lines[1 + |own| + i] == texts[i];
  }

  // The server names itself and the date only where the application does not.
  ghost function OwnLines(r: Request, server: Option<bytes>, date: Option<bytes>): seq<bytes> {
    (if server.Some? && !Supplies(r.fields, SERVER) then [server.value] else [])
    + (if date.Some? && !Supplies(r.fields, DATE) then [date.value] else [])
  }

  /** The first line gives the version, the status and a reason; the application's fields
      follow in order, as they are. */
  lemma HeadIsInOrder(r: Request, server: Option<bytes>, date: Option<bytes>)
    requires Readable(r, server, date)
    ensures ResponseWire(r).Wire? && ReadHead(ResponseWire(r).wire).Head?
    ensures var lines := ReadHead(ResponseWire(r).wire).lines;
            && Ordered(lines, OwnLines(r, server, date), r.fields)
            && Ascii("HTTP/1.1 ") + Decimal(r.status) + [32] <= lines[0]
  {
    ReadBack(r, server, date);
    HasNameMeans(r.fields, SERVER);
    HasNameMeans(r.fields, DATE);
    FieldTextsAre(r.fields);
    StatusStarts(r.status);
    var own, dated := OwnLine(server, HasName(r.fields, SERVER)), OwnLine(date, HasName(r.fields, DATE));
    Associative([StatusText(r.status)], own, dated);
    Layout(StatusText(r.status), own + dated, FieldTexts(r.fields), AddedText(r), r.fields);
  }
}
