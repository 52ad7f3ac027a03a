/** The response writer: status line, header lines, framing headers and body
    framing, written into one exactly sized buffer. */
module Response {
  import opened Bytes
  import opened Text
  import opened Framing

  const LAST_CHUNK: bytes := [48, 13, 10, 13, 10]
  const COLON: bytes := [58, 32]
  const SERVER := Ascii("server")
  const DATE := Ascii("date")

  // --------------------------------------------------------------- chunks

  /** The wire form of one body piece (section 7.1 of RFC 9112). */
  function ChunkWire(chunk: bytes, moreBody: bool): bytes {
    (if chunk == [] then [] else Hex(|chunk|) + CRLF + chunk + CRLF)
    + (if moreBody then [] else LAST_CHUNK)
  }

  /** A buffer of fixed size that is filled from the front. */
  class Writer {
    const out: array<byte>
    var cursor: nat
    ghost var content: bytes

    ghost predicate Valid()
      reads this, out
    {
      cursor <= out.Length && out[..cursor] == content
    }

    constructor (totalLen: nat)
      ensures Valid() && fresh(out) && out.Length == totalLen && content == []
    {
      out := new byte[totalLen];
      cursor := 0;
      content := [];
    }

    /** `out[cursor..cursor + src.len()].copy_from_slice(src)`. */
    method Append(src: bytes)
      requires Valid() && |content| + |src| <= out.Length
      modifies this, out
      ensures Valid() && content == old(content) + src
    {
      forall k | cursor <= k < cursor + |src| {
        out[k] := src[k - cursor];
      }
      cursor := cursor + |src|;
      content := content + src;
    }

    method AppendThree(a: bytes, b: bytes, c: bytes)
      requires Valid() && |content| + |a| + |b| + |c| <= out.Length
      modifies this, out
      ensures Valid() && content == old(content) + (a + b + c)
    {
      Append(a);
      Append(b);
      Append(c);
    }

    method Finish() returns (wire: bytes)
      requires Valid() && |content| == out.Length
      ensures wire == content
    {
      assert out[..cursor] == out[..];
      wire := out[..];
    }
  }

  method FormatChunk(chunk: bytes, moreBody: bool) returns (wire: bytes)
    ensures wire == ChunkWire(chunk, moreBody)
  {
    var totalLen := 0;
    var prefix: bytes, suffix: bytes := [], [];
    if chunk != [] {
      prefix := Hex(|chunk|) + CRLF;
      suffix := CRLF;
      totalLen := totalLen + |prefix| + |chunk| + |suffix|;
    }
    if !moreBody {
      totalLen := totalLen + 5;
    }
    var w := new Writer(totalLen);
    if chunk != [] {
      w.AppendThree(prefix, chunk, suffix);
    }
    if !moreBody {
      w.Append(LAST_CHUNK);
    }
    wire := w.Finish();
  }

  // -------------------------------------------------------------- responses

  function Decimal(n: nat): bytes {
    if n < 10 then [HexDigit(n)] else Decimal(n / 10) + [HexDigit(n % 10)]
  }

  function ReasonPhrase(status: nat): string {
    match status
    case 200 => "OK"
    case 201 => "Created"
    case 204 => "No Content"
    case 301 => "Moved Permanently"
    case 302 => "Found"
    case 304 => "Not Modified"
    case 400 => "Bad Request"
    case 401 => "Unauthorized"
    case 403 => "Forbidden"
    case 404 => "Not Found"
    case 405 => "Method Not Allowed"
    case 413 => "Payload Too Large"
    case 426 => "Upgrade Required"
    case 431 => "Request Header Fields Too Large"
    case 500 => "Internal Server Error"
    case 502 => "Bad Gateway"
    case 503 => "Service Unavailable"
    case _ => "OK"
  }

  function StatusText(status: nat): bytes {
    Ascii("HTTP/1.1 ") + Decimal(status) + [32] + Ascii(ReasonPhrase(status))
  }

  predicate HasName(fields: seq<Field>, name: bytes) {
    fields != [] && (EqIgnoreCase(fields[|fields| - 1].name, name) || HasName(fields[..|fields| - 1], name))
  }

  predicate AsksToClose(f: Field) {
    EqIgnoreCase(f.name, CONNECTION) && (Contains(ToLower(f.value), CLOSE) || EqIgnoreCase(f.value, CLOSE))
  }

  predicate SafeText(s: bytes) {
    CR !in s && LF !in s
  }

  predicate Safe(f: Field) {
    SafeText(f.name) && SafeText(f.value)
  }

  predicate AllSafe(fields: seq<Field>) {
    forall i | 0 <= i < |fields| :: Safe(fields[i])
  }

  predicate AnyAsksToClose(fields: seq<Field>) {
    fields != [] && (AsksToClose(fields[|fields| - 1]) || AnyAsksToClose(fields[..|fields| - 1]))
  }

  datatype Request = Request(
    status: nat, server: bytes, date: bytes, fields: seq<Field>, body: bytes,
    moreBody: bool, isNoBodyStatus: bool, keepAlive: bool)

  function KeepsAlive(r: Request): bool {
    r.keepAlive && !AnyAsksToClose(r.fields)
  }

  function IsChunked(r: Request): bool {
    !r.isNoBodyStatus && r.moreBody && !HasName(r.fields, CONTENT_LENGTH)
  }

  function FieldText(f: Field): bytes {
    f.name + COLON + f.value
  }

  function LengthText(r: Request): seq<bytes> {
    if !r.isNoBodyStatus && !r.moreBody && !HasName(r.fields, CONTENT_LENGTH)
    then [Ascii("content-length: ") + Decimal(|r.body|)] else []
  }

  function CodingText(r: Request): seq<bytes> {
    if IsChunked(r) then [Ascii("transfer-encoding: chunked")] else []
  }

  function ConnectionText(r: Request): seq<bytes> {
    if HasName(r.fields, CONNECTION) then []
    else if KeepsAlive(r) then [Ascii("connection: keep-alive")] else [Ascii("connection: close")]
  }

  /** The framing and persistence lines the writer adds by itself. */
  function AddedText(r: Request): seq<bytes> {
    LengthText(r) + CodingText(r) + ConnectionText(r)
  }

  function FieldTexts(fields: seq<Field>): seq<bytes> {
    if fields == [] then [] else FieldTexts(fields[..|fields| - 1]) + [FieldText(fields[|fields| - 1])]
  }

  function Lines(lines: seq<bytes>): bytes {
    if lines == [] then [] else Lines(lines[..|lines| - 1]) + lines[|lines| - 1] + CRLF
  }

  function HeadWire(r: Request): bytes {
    Lines([StatusText(r.status)])
    + (if HasName(r.fields, SERVER) then [] else r.server)
    + (if HasName(r.fields, DATE) then [] else r.date)
    + Lines(FieldTexts(r.fields)) + Lines(AddedText(r)) + CRLF
  }

  function BodyWire(r: Request): bytes {
    if r.isNoBodyStatus then []
    else if IsChunked(r) then ChunkWire(r.body, true)
    else r.body
  }

  datatype Formatted = IllegalHeader | Wire(wire: bytes, chunked: bool, keepAlive: bool)

  function ResponseWire(r: Request): Formatted {
    if !AllSafe(r.fields) then IllegalHeader
    else Wire(HeadWire(r) + BodyWire(r), IsChunked(r), KeepsAlive(r))
  }

  datatype Seen = Seen(hasCl: bool, hasConn: bool, hasServer: bool, hasDate: bool, keepAlive: bool)

  ghost predicate Saw(s: Seen, keepAlive: bool, fields: seq<Field>) {
    && s.hasCl == HasName(fields, CONTENT_LENGTH) && s.hasConn == HasName(fields, CONNECTION)
    && s.hasServer == HasName(fields, SERVER) && s.hasDate == HasName(fields, DATE)
    && s.keepAlive == (keepAlive && !AnyAsksToClose(fields))
  }

  /** The writer's scan of the application's header fields. */
  method ScanFields(r: Request) returns (legal: bool, s: Seen)
    ensures legal == AllSafe(r.fields) && (legal ==> Saw(s, r.keepAlive, r.fields))
  {
    s := Seen(false, false, false, false, r.keepAlive);
    for i := 0 to |r.fields|
      invariant AllSafe(r.fields[..i]) && Saw(s, r.keepAlive, r.fields[..i])
    {
      var f := r.fields[i];
      assert r.fields[..i + 1] == r.fields[..i] + [f];
      if CR in f.name || LF in f.name || CR in f.value || LF in f.value {
        assert !Safe(r.fields[i]);
        return false, s;
      }
      s := ScanOne(s, f, r.keepAlive, r.fields[..i]);
    }
    assert r.fields[..|r.fields|] == r.fields;
    legal := true;
  }

  method ScanOne(s: Seen, f: Field, ghost keepAlive: bool, ghost before: seq<Field>) returns (t: Seen)
    requires Saw(s, keepAlive, before)
    ensures Saw(t, keepAlive, before + [f])
  {
    NamesDiffer(f.name);
    assert (before + [f])[..|before|] == before;
    t := s;
    if EqIgnoreCase(f.name, CONTENT_LENGTH) {
      t := t.(hasCl := true);
    } else if EqIgnoreCase(f.name, CONNECTION) {
      t := t.(hasConn := true);
      if Contains(ToLower(f.value), CLOSE) || EqIgnoreCase(f.value, CLOSE) {
        t := t.(keepAlive := false);
      }
    } else if EqIgnoreCase(f.name, SERVER) {
      t := t.(hasServer := true);
    } else if EqIgnoreCase(f.name, DATE) {
      t := t.(hasDate := true);
    }
  }

  lemma NamesDiffer(name: bytes)
    ensures EqIgnoreCase(name, CONTENT_LENGTH) ==> |name| == 14
    ensures EqIgnoreCase(name, CONNECTION) ==> |name| == 10
    ensures EqIgnoreCase(name, SERVER) ==> |name| == 6
    ensures EqIgnoreCase(name, DATE) ==> |name| == 4
  {
    assert |ToLower(name)| == |name|;
    assert |ToLower(CONTENT_LENGTH)| == 14 && |ToLower(CONNECTION)| == 10;
    assert |ToLower(SERVER)| == 6 && |ToLower(DATE)| == 4;
  }

  method FormatResponse(r: Request) returns (result: Formatted)
    ensures result == ResponseWire(r)
  {
    var legal, seen := ScanFields(r);
    if !legal {
      return IllegalHeader;
    }
    var chunked := false;
    var injectedCl: bytes, injectedTe: bytes, injectedConn: bytes := [], [], [];
    if !r.isNoBodyStatus {
      if !r.moreBody && !seen.hasCl {
        injectedCl := Ascii("content-length: ") + Decimal(|r.body|) + CRLF;
      } else if r.moreBody && !seen.hasCl {
        injectedTe := Ascii("transfer-encoding: chunked") + CRLF;
        chunked := true;
      }
    }
    if !seen.hasConn {
      if seen.keepAlive {
        injectedConn := Ascii("connection: keep-alive") + CRLF;
      } else {
        injectedConn := Ascii("connection: close") + CRLF;
      }
    }
    AddedLines(r, injectedCl, injectedTe, injectedConn);
    LinesOfOne(StatusText(r.status));
    var body := FormatBody(r, chunked);
    var wire := WriteWire(StatusText(r.status) + CRLF,
                          if seen.hasServer then [] else r.server, if seen.hasDate then [] else r.date,
                          r.fields, injectedCl, injectedTe, injectedConn, body);
    result := Wire(wire, chunked, seen.keepAlive);
  }

  /** The buffer is sized before it is filled; the pieces fill it exactly. */
  method WriteWire(status: bytes, server: bytes, date: bytes, fields: seq<Field>,
                   cl: bytes, te: bytes, conn: bytes, body: bytes)
    returns (wire: bytes)
    ensures wire == (status + server + date) + Lines(FieldTexts(fields)) + (cl + te + conn) + CRLF + body
  {
    var totalLen := |status| + |server| + |date| + |cl| + |te| + |conn| + 2;
    var fieldsLen := FieldsLength(fields);
    totalLen := totalLen + fieldsLen + |body|;
    var w := new Writer(totalLen);
    w.AppendThree(status, server, date);
    WriteFields(w, fields);
    WriteTail(w, cl, te, conn, body);
    wire := w.Finish();
    assert [] + (status + server + date) == status + server + date;
  }

  method WriteTail(w: Writer, cl: bytes, te: bytes, conn: bytes, body: bytes)
    requires w.Valid() && |w.content| + |cl| + |te| + |conn| + 2 + |body| <= w.out.Length
    modifies w, w.out
    ensures w.Valid() && w.content == old(w.content) + (cl + te + conn) + CRLF + body
  {
    w.AppendThree(cl, te, conn);
    w.Append(CRLF);
    w.Append(body);
  }

  method FieldsLength(fields: seq<Field>) returns (total: nat)
    ensures total == |Lines(FieldTexts(fields))|
  {
    total := 0;
    for i := 0 to |fields|
      invariant total == |Lines(FieldTexts(fields[..i]))|
    {
      FieldTextsNext(fields, i);
      total := total + |fields[i].name| + 2 + |fields[i].value| + 2;
    }
    assert fields[..|fields|] == fields;
  }

  method WriteFields(w: Writer, fields: seq<Field>)
    requires w.Valid() && |w.content| + |Lines(FieldTexts(fields))| <= w.out.Length
    modifies w, w.out
    ensures w.Valid() && w.content == old(w.content) + Lines(FieldTexts(fields))
  {
    for i := 0 to |fields|
      invariant w.Valid() && w.content == old(w.content) + Lines(FieldTexts(fields[..i]))
    {
      FieldTextsGrow(fields, i + 1);
      WriteField(w, fields, i, old(w.content));
    }
    assert fields[..|fields|] == fields;
  }

  method WriteField(w: Writer, fields: seq<Field>, i: nat, ghost opening: bytes)
    requires i < |fields| && w.Valid() && w.content == opening + Lines(FieldTexts(fields[..i]))
    requires |opening| + |Lines(FieldTexts(fields[..i + 1]))| <= w.out.Length
    modifies w, w.out
    ensures w.Valid() && w.content == opening + Lines(FieldTexts(fields[..i + 1]))
  {
    FieldTextsNext(fields, i);
    w.Append(fields[i].name);
    w.Append(COLON);
    w.Append(fields[i].value);
    w.Append(CRLF);
  }

  lemma LinesOfOne(line: bytes)
    ensures Lines([line]) == line + CRLF
  {
    assert [line][..0] == [];
  }

  lemma {:induction false} LinesAppend(a: seq<bytes>, b: seq<bytes>)
    ensures Lines(a + b) == Lines(a) + Lines(b)
    decreases |b|
  {
    if b == [] {
      assert a + b == a;
    } else {
      LinesAppend(a, b[..|b| - 1]);
      assert (a + b)[..|a + b| - 1] == a + b[..|b| - 1];
    }
  }

  lemma AddedLines(r: Request, injectedCl: bytes, injectedTe: bytes, injectedConn: bytes)
    requires injectedCl == if !r.isNoBodyStatus && !r.moreBody && !HasName(r.fields, CONTENT_LENGTH)
                           then Ascii("content-length: ") + Decimal(|r.body|) + CRLF else []
    requires injectedTe == if IsChunked(r) then Ascii("transfer-encoding: chunked") + CRLF else []
    requires injectedConn == if HasName(r.fields, CONNECTION) then []
                             else if KeepsAlive(r) then Ascii("connection: keep-alive") + CRLF
                             else Ascii("connection: close") + CRLF
    ensures Lines(AddedText(r)) == injectedCl + injectedTe + injectedConn
  {
    var cl, te, conn := LengthText(r), CodingText(r), ConnectionText(r);
    LinesAppend(cl + te, conn);
    LinesAppend(cl, te);
    if cl != [] { LinesOfOne(cl[0]); }
    if te != [] { LinesOfOne(te[0]); }
    if conn != [] { LinesOfOne(conn[0]); }
  }

  lemma FieldTextsNext(fields: seq<Field>, i: nat)
    requires i < |fields|
    ensures Lines(FieldTexts(fields[..i + 1]))
         == Lines(FieldTexts(fields[..i])) + fields[i].name + COLON + fields[i].value + CRLF
  {
    assert fields[..i + 1][..i] == fields[..i];
    var front := FieldTexts(fields[..i]);
    assert (front + [FieldText(fields[i])])[..|front|] == front;
  }

  lemma {:induction false} FieldTextsGrow(fields: seq<Field>, i: nat)
    requires i <= |fields|
    ensures |Lines(FieldTexts(fields[..i]))| <= |Lines(FieldTexts(fields))|
    decreases |fields| - i
  {
    if i < |fields| {
      FieldTextsNext(fields, i);
      FieldTextsGrow(fields, i + 1);
    } else {
      assert fields[..i] == fields;
    }
  }

  /** The part behind the blank line. */
  method FormatBody(r: Request, chunked: bool) returns (wire: bytes)
    requires chunked == IsChunked(r)
    ensures wire == BodyWire(r)
  {
    wire := [];
    if !r.isNoBodyStatus {
      if chunked {
        if r.body != [] {
          wire := wire + (Hex(|r.body|) + CRLF) + r.body + CRLF;
        }
        if !r.moreBody {
          wire := wire + LAST_CHUNK;
        }
      } else {
        wire := wire + r.body;
      }
    }
  }
}
