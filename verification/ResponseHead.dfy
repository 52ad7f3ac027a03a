/** The head of a response ends where the writer ended it, whatever the
    application put into its header fields, and announces the body's length. */
module ResponseHead {
  import opened Bytes
  import opened Framing
  import opened Response
  import opened Sequences
  import opened Text

  datatype Read = Incomplete | Head(lines: seq<bytes>, rest: bytes)

  /** The lines of a message head, up to the first empty one (section 2.2 of
      RFC 9112), and the bytes behind it. */
  function ReadHead(wire: bytes): Read {
    var end := Find(wire, CRLF);
    if end.None? then Incomplete
    else if end.value == 0 then Head([], wire[2..])
    else
      match ReadHead(wire[end.value + 2..])
      case Incomplete => Incomplete
      case Head(lines, rest) => Head([wire[..end.value]] + lines, rest)
  }

  predicate IsLine(line: bytes) {
    line != [] && SafeText(line)
  }

  predicate AllLines(lines: seq<bytes>) {
    forall i | 0 <= i < |lines| :: IsLine(lines[i])
  }

  // Lines from the front, as a reader meets them.
  function Joined(lines: seq<bytes>): bytes {
    if lines == [] then [] else lines[0] + CRLF + Joined(lines[1..])
  }

  lemma {:induction false} JoinedAppend(a: seq<bytes>, b: seq<bytes>)
    ensures Joined(a + b) == Joined(a) + Joined(b)
  {
    if a == [] {
      assert a + b == b;
    } else {
      assert (a + b)[1..] == a[1..] + b;
      JoinedAppend(a[1..], b);
      Associative(a[0] + CRLF, Joined(a[1..]), Joined(b));
    }
  }

  lemma {:induction false} LinesAreJoined(lines: seq<bytes>)
    ensures Lines(lines) == Joined(lines)
  {
    if lines != [] {
      var front, last := lines[..|lines| - 1], lines[|lines| - 1];
      LinesAreJoined(front);
      JoinedAppend(front, [last]);
      assert front + [last] == lines;
      assert Joined([last]) == last + CRLF by { assert [last][1..] == []; }
      Associative(Joined(front), last, CRLF);
    }
  }

  lemma {:induction false} ReadJoined(lines: seq<bytes>, rest: bytes)
    requires AllLines(lines)
    ensures ReadHead(Joined(lines) + (CRLF + rest)) == Head(lines, rest)
    decreases |lines|
  {
    var wire := Joined(lines) + (CRLF + rest);
    if lines == [] {
      assert wire == [] + CRLF + rest;
      FindLineEnd([], rest);
    } else {
      var line, tail := lines[0], Joined(lines[1..]) + (CRLF + rest);
      Associative(line + CRLF, Joined(lines[1..]), CRLF + rest);
      FindLineEnd(line, tail);
      assert IsLine(line) && wire[..|line|] == line && wire[|line| + 2..] == tail;
      ReadJoined(lines[1..], rest);
      assert [line] + lines[1..] == lines;
    }
  }

  // ----------------------------------------------------------- the head we write

  // The lines the server adds for itself: at most one each.
  function OwnLine(line: Option<bytes>, taken: bool): seq<bytes> {
    if taken || line.None? then [] else [line.value]
  }

  function OwnWire(line: Option<bytes>): bytes {
    if line.None? then [] else line.value + CRLF
  }

  function HeadLines(r: Request, server: Option<bytes>, date: Option<bytes>): seq<bytes> {
    [StatusText(r.status)] + OwnLine(server, HasName(r.fields, SERVER)) + OwnLine(date, HasName(r.fields, DATE))
    + FieldTexts(r.fields) + AddedText(r)
  }

  predicate Printable(s: string) {
    forall i | 0 <= i < |s| :: ' ' <= s[i] < 128 as char
  }

  lemma AsciiSafe(s: string)
    requires Printable(s)
    ensures SafeText(Ascii(s))
  {
    forall i | 0 <= i < |s|
      ensures Ascii(s)[i] != CR && Ascii(s)[i] != LF
    {
      ByteRoundTrip(s[i] as int);
      var b: byte := s[i] as int as byte;
      assert b as int == s[i] as int;
    }
  }

  lemma ReasonPrintable(status: nat)
    ensures Printable(ReasonPhrase(status))
  {
    if status < 400 {
      ReasonBelow400(status);
    } else if status < 413 {
      ReasonBelow413(status);
    } else if status < 500 {
      ReasonBelow500(status);
    } else {
      ReasonFrom500(status);
    }
  }

  lemma ReasonBelow400(status: nat)
    requires status < 400
    ensures Printable(ReasonPhrase(status))
  {
  }

  lemma ReasonBelow413(status: nat)
    requires 400 <= status < 413
    ensures Printable(ReasonPhrase(status))
  {
  }

  lemma ReasonBelow500(status: nat)
    requires 413 <= status < 500
    ensures Printable(ReasonPhrase(status))
  {
  }

  lemma ReasonFrom500(status: nat)
    requires 500 <= status
    ensures Printable(ReasonPhrase(status))
  {
  }

  lemma DigitSafe(d: place)
    requires d < 10
    ensures DigitValue(HexDigit(d)) == Some(d) && HexDigit(d) != CR && HexDigit(d) != LF && HexDigit(d) != 43
  {
    HexDigitValue(d);
  }

  lemma {:induction false} DecimalSafe(n: nat)
    ensures Decimal(n) != [] && SafeText(Decimal(n)) && Decimal(n)[0] != 43
  {
    DigitSafe(n % 10);
    if n >= 10 { DecimalSafe(n / 10); }
  }

  lemma {:induction false} DecimalValue(n: nat)
    ensures AllDigits(Decimal(n), 10) && NumeralValue(Decimal(n), 10) == n
  {
    DigitSafe(n % 10);
    if n < 10 {
      NumeralOfOne(HexDigit(n), 10);
    } else {
      DecimalValue(n / 10);
      DigitAppended(Decimal(n / 10), HexDigit(n % 10), n / 10, n % 10);
    }
  }

  lemma DigitAppended(front: bytes, last: byte, v: nat, d: nat)
    requires AllDigits(front, 10) && NumeralValue(front, 10) == v && DigitValue(last) == Some(d) && d < 10
    ensures AllDigits(front + [last], 10) && NumeralValue(front + [last], 10) == 10 * v + d
  {
    NumeralOfOne(last, 10);
    NumeralValueSnoc(front, last, 10);
  }

  /** The announced length is read back as the length of the body. */
  lemma LengthReadsBack(n: nat)
    requires n <= USIZE_MAX
    ensures ParseRadix(Decimal(n), 10) == Some(n)
  {
    DecimalSafe(n);
    DecimalValue(n);
  }

  lemma LowerAlready()
    ensures ToLower(CONTENT_LENGTH) == CONTENT_LENGTH && CONTENT_LENGTH != []
  {
    assert forall i | 0 <= i < |CONTENT_LENGTH| :: Lower(CONTENT_LENGTH[i]) == CONTENT_LENGTH[i];
  }

  /** A request that announces so many bytes, from 2^63 on, is accepted, and the number
      turns negative. */
  lemma HugeLengthTurnsNegative(p: Platform, v: nat)
    requires 0x8000_0000_0000_0000 <= v <= USIZE_MAX
    requires p.parseRadix == ParseRadix && p.isUtf8(Decimal(v)) && p.trim(Decimal(v)) == Decimal(v)
    ensures var s := ScanAll(p, 1, [Field(CONTENT_LENGTH, Decimal(v))]);
            !Rejects(s) && s.hasCl && s.contentLength == v - 0x1_0000_0000_0000_0000 < 0
  {
    LengthReadsBack(v);
    LowerAlready();
    var f := Field(CONTENT_LENGTH, Decimal(v));
    assert [f][..0] == [];
    assert ScanAll(p, 1, [f]) == ScanField(p, Initial(1), f);
  }

  lemma SafeAppend(a: bytes, b: bytes)
    requires SafeText(a) && SafeText(b)
    ensures SafeText(a + b)
  {
  }

  lemma StatusIsLine(status: nat)
    ensures IsLine(StatusText(status))
  {
    AsciiSafe("HTTP/1.1 ");
    DecimalSafe(status);
    ReasonPrintable(status);
    AsciiSafe(ReasonPhrase(status));
    SafeAppend(Ascii("HTTP/1.1 "), Decimal(status));
    SafeAppend(Ascii("HTTP/1.1 ") + Decimal(status), [32]);
    SafeAppend(Ascii("HTTP/1.1 ") + Decimal(status) + [32], Ascii(ReasonPhrase(status)));
  }

  lemma LengthIsLine(r: Request)
    ensures AllLines(LengthText(r))
  {
    AsciiSafe("content-length: ");
    DecimalSafe(|r.body|);
    SafeAppend(Ascii("content-length: "), Decimal(|r.body|));
  }

  lemma CodingIsLine(r: Request)
    ensures AllLines(CodingText(r))
  {
    AsciiSafe("transfer-encoding: chunked");
  }

  lemma ConnectionIsLine(r: Request)
    ensures AllLines(ConnectionText(r))
  {
    AsciiSafe("connection: keep-alive");
    AsciiSafe("connection: close");
  }

  lemma AddedAreLines(r: Request)
    ensures AllLines(AddedText(r))
  {
    LengthIsLine(r);
    CodingIsLine(r);
    ConnectionIsLine(r);
    AllLinesAppend(LengthText(r), CodingText(r));
    AllLinesAppend(LengthText(r) + CodingText(r), ConnectionText(r));
  }

  lemma AllLinesAppend(a: seq<bytes>, b: seq<bytes>)
    requires AllLines(a) && AllLines(b)
    ensures AllLines(a + b)
  {
  }

  lemma {:induction false} FieldsAreLines(fields: seq<Field>)
    requires AllSafe(fields)
    ensures AllLines(FieldTexts(fields))
  {
    if fields != [] {
      var front, f := fields[..|fields| - 1], fields[|fields| - 1];
      FieldsAreLines(front);
      assert Safe(f);
      SafeAppend(f.name, COLON);
      SafeAppend(f.name + COLON, f.value);
      AllLinesAppend(FieldTexts(front), [FieldText(f)]);
    }
  }

  lemma HeadIsJoined(r: Request, server: Option<bytes>, date: Option<bytes>)
    requires r.server == OwnWire(server) && r.date == OwnWire(date)
    ensures HeadWire(r) == Joined(HeadLines(r, server, date)) + CRLF
  {
    var status := [StatusText(r.status)];
    var own, dated := OwnLine(server, HasName(r.fields, SERVER)), OwnLine(date, HasName(r.fields, DATE));
    var fields, added := FieldTexts(r.fields), AddedText(r);
    JoinedAppend(status + own + dated + fields, added);
    JoinedAppend(status + own + dated, fields);
    JoinedAppend(status + own, dated);
    JoinedAppend(status, own);
    LinesAreJoined(status);
    LinesAreJoined(fields);
    LinesAreJoined(added);
    JoinedOne(server);
    JoinedOne(date);
  }

  lemma JoinedOne(line: Option<bytes>)
    ensures Joined(OwnLine(line, false)) == OwnWire(line) && Joined([]) == []
  {
    if line.Some? { assert [line.value][1..] == []; }
  }

  /** Whatever the application's header fields hold, the head the writer accepts is
      read back as exactly the lines it wrote, and ends right before the body. */
  lemma HeadReadsBack(r: Request, server: Option<bytes>, date: Option<bytes>)
    requires ResponseWire(r).Wire?
    requires r.server == OwnWire(server) && (server.Some? ==> IsLine(server.value))
    requires r.date == OwnWire(date) && (date.Some? ==> IsLine(date.value))
    ensures ReadHead(ResponseWire(r).wire) == Head(HeadLines(r, server, date), BodyWire(r))
  {
    var lines := HeadLines(r, server, date);
    var own, dated := OwnLine(server, HasName(r.fields, SERVER)), OwnLine(date, HasName(r.fields, DATE));
    StatusIsLine(r.status);
    FieldsAreLines(r.fields);
    AddedAreLines(r);
    AllLinesAppend([StatusText(r.status)], own);
    AllLinesAppend([StatusText(r.status)] + own, dated);
    AllLinesAppend([StatusText(r.status)] + own + dated, FieldTexts(r.fields));
    AllLinesAppend([StatusText(r.status)] + own + dated + FieldTexts(r.fields), AddedText(r));
    HeadIsJoined(r, server, date);
    Associative(Joined(lines), CRLF, BodyWire(r));
    ReadJoined(lines, BodyWire(r));
  }
}
