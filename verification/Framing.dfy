/** The framing verdict over a request's header fields (section 6.3 of
    RFC 9112), as the two header loops of the engine compute it. */
module Framing {
  import opened Bytes
  import opened Text

  datatype Field = Field(name: bytes, value: bytes)

  datatype Scan = Scan(
    contentLength: int, hasCl: bool, isChunked: bool, teCount: nat, conflict: bool,
    keepAlive: bool, isUpgrade: bool, upgradeProto: bytes)

  const CONTENT_LENGTH := Ascii("content-length")
  const TRANSFER_ENCODING := Ascii("transfer-encoding")
  const CONNECTION := Ascii("connection")
  const UPGRADE := Ascii("upgrade")
  const CHUNKED := Ascii("chunked")
  const CLOSE := Ascii("close")
  const KEEP_ALIVE := Ascii("keep-alive")
  const COMMA: byte := 44

  /** `val as isize`: lengths from 2^63 on wrap to negative numbers. */
  function AsIsize(v: usize): int {
    if v <= USIZE_MAX / 2 then v else v - (USIZE_MAX + 1)
  }

  function LengthNumber(p: Platform, value: bytes): Option<usize> {
    if p.isUtf8(value) then p.parseRadix(p.trim(value), 10) else None
  }

  function LastCoding(p: Platform, codings: seq<bytes>): Option<bytes> {
    if codings == [] then None
    else
      var last := p.trim(codings[|codings| - 1]);
      if last != [] then Some(last) else LastCoding(p, codings[..|codings| - 1])
  }

  predicate EndsChunked(p: Platform, value: bytes) {
    p.isUtf8(value)
    && var last := LastCoding(p, Split(value, COMMA));
       last.Some? && EqIgnoreCase(last.value, CHUNKED)
  }

  function Initial(version: nat): Scan {
    Scan(-1, false, false, 0, false, version == 1, false, [])
  }

  // ------------------------------------------------------ one header field

  function ScanLength(p: Platform, s: Scan, value: bytes): Scan {
    var n := LengthNumber(p, value);
    if n.None? then s.(conflict := true)
    else if s.hasCl && AsIsize(n.value) != s.contentLength then s.(conflict := true)
    else s.(contentLength := AsIsize(n.value), hasCl := true)
  }

  function ScanCoding(p: Platform, s: Scan, value: bytes): Scan {
    var counted := s.(teCount := s.teCount + 1);
    if EndsChunked(p, value) then counted.(isChunked := true) else counted.(conflict := true)
  }

  function ScanConnection(s: Scan, value: bytes): Scan {
    var lower := ToLower(value);
    var kept :=
      if Contains(lower, CLOSE) || EqIgnoreCase(value, CLOSE) then s.(keepAlive := false)
      else if Contains(lower, KEEP_ALIVE) || EqIgnoreCase(value, KEEP_ALIVE) then s.(keepAlive := true)
      else s;
    if Contains(lower, UPGRADE) || EqIgnoreCase(value, UPGRADE) then kept.(isUpgrade := true) else kept
  }

  function ScanField(p: Platform, s: Scan, f: Field): Scan {
    var name := ToLower(f.name);
    if name == [] then s
    else if name == CONTENT_LENGTH then ScanLength(p, s, f.value)
    else if name == TRANSFER_ENCODING then ScanCoding(p, s, f.value)
    else if name == CONNECTION then ScanConnection(s, f.value)
    else if name == UPGRADE then s.(upgradeProto := ToLower(f.value))
    else s
  }

  function ScanAll(p: Platform, version: nat, fields: seq<Field>): Scan {
    if fields == [] then Initial(version)
    else ScanField(p, ScanAll(p, version, fields[..|fields| - 1]), fields[|fields| - 1])
  }

  predicate Rejects(s: Scan) {
    s.conflict || (s.isChunked && s.hasCl) || (s.teCount > 1 && !s.isChunked)
  }

  // ------------------------------------------------------- the two loops

  /** The header loop of the connection engine. */
  method ScanForConnection(p: Platform, version: nat, fields: seq<Field>) returns (s: Scan)
    ensures s == ScanAll(p, version, fields)
  {
    s := Initial(version);
    for i := 0 to |fields|
      invariant s == ScanAll(p, version, fields[..i])
    {
      assert fields[..i + 1][..i] == fields[..i];
      var h := fields[i];
      if h.name != [] {
        var name := ToLower(h.name);
        if name == CONTENT_LENGTH {
          if p.isUtf8(h.value) {
            var parsed := p.parseRadix(p.trim(h.value), 10);
            if parsed.Some? {
              if s.hasCl && AsIsize(parsed.value) != s.contentLength {
                s := s.(conflict := true);
              } else {
                s := s.(contentLength := AsIsize(parsed.value), hasCl := true);
              }
            } else {
              s := s.(conflict := true);
            }
          } else {
            s := s.(conflict := true);
          }
        } else if name == TRANSFER_ENCODING {
          s := s.(teCount := s.teCount + 1);
          if EndsChunked(p, h.value) {
            s := s.(isChunked := true);
          } else {
            s := s.(conflict := true);
          }
        } else if name == CONNECTION {
          s := ScanConnection(s, h.value);
        } else if name == UPGRADE {
          s := s.(upgradeProto := ToLower(h.value));
        }
      }
    }
    assert fields[..|fields|] == fields;
  }

  /** The header loop of the stand-alone request parser, which tests the field
      names in another order. */
  method ScanForParser(p: Platform, version: nat, fields: seq<Field>) returns (s: Scan)
    ensures s == ScanAll(p, version, fields)
  {
    s := Initial(version);
    for i := 0 to |fields|
      invariant s == ScanAll(p, version, fields[..i])
    {
      assert fields[..i + 1][..i] == fields[..i];
      var h := fields[i];
      if h.name != [] {
        var name := ToLower(h.name);
        if name == CONTENT_LENGTH {
          s := ScanLength(p, s, h.value);
        } else if name == CONNECTION {
          s := ScanConnection(s, h.value);
        } else if name == UPGRADE {
          s := s.(upgradeProto := ToLower(h.value));
        } else if name == TRANSFER_ENCODING {
          s := s.(teCount := s.teCount + 1);
          if p.isUtf8(h.value) {
            var last := LastCoding(p, Split(h.value, COMMA));
            if last.Some? && EqIgnoreCase(last.value, CHUNKED) {
              s := s.(isChunked := true);
            } else {
              s := s.(conflict := true);
            }
          } else {
            s := s.(conflict := true);
          }
        }
      }
    }
    assert fields[..|fields|] == fields;
  }

  // ---------------------------------------------------------- the verdict

  ghost predicate IsLength(f: Field) {
    ToLower(f.name) == CONTENT_LENGTH
  }

  ghost predicate IsCoding(f: Field) {
    ToLower(f.name) == TRANSFER_ENCODING
  }

  ghost predicate BadLength(p: Platform, f: Field) {
    IsLength(f) && LengthNumber(p, f.value).None?
  }

  ghost predicate GoodLength(p: Platform, f: Field) {
    IsLength(f) && LengthNumber(p, f.value).Some?
  }

  ghost predicate BadCoding(p: Platform, f: Field) {
    IsCoding(f) && !EndsChunked(p, f.value)
  }

  ghost predicate Differ(p: Platform, f: Field, g: Field) {
    GoodLength(p, f) && GoodLength(p, g) && LengthNumber(p, f.value) != LengthNumber(p, g.value)
  }

  /** Section 6.3 of RFC 9112, as a condition on the set of header fields. */
  ghost predicate Ambiguous(p: Platform, fields: seq<Field>) {
    || (exists f :: f in fields && BadLength(p, f))
    || (exists f, g :: f in fields && g in fields && Differ(p, f, g))
    || (exists f :: f in fields && BadCoding(p, f))
    || (exists f, g :: f in fields && g in fields && IsLength(f) && IsCoding(g))
  }

  // The length a scan carries is the one of `f`.
  ghost predicate Carries(p: Platform, s: Scan, f: Field) {
    GoodLength(p, f) && s.contentLength == AsIsize(LengthNumber(p, f.value).value)
  }

  // What a scan knows about the fields it has seen.
  ghost predicate Describes(p: Platform, s: Scan, fields: seq<Field>) {
    && (s.conflict ==> Ambiguous(p, fields))
    && (if s.hasCl then exists f :: f in fields && Carries(p, s, f) else s.contentLength == -1)
    && (!s.conflict ==> forall f | f in fields && IsLength(f) :: s.hasCl && Carries(p, s, f))
    && (s.isChunked ==> exists f :: f in fields && IsCoding(f))
    && (!s.conflict ==> forall f | f in fields && IsCoding(f) :: EndsChunked(p, f.value) && s.isChunked)
  }

  lemma AmbiguousGrows(p: Platform, fields: seq<Field>, f: Field)
    requires Ambiguous(p, fields)
    ensures Ambiguous(p, fields + [f])
  {
    assert forall g | g in fields :: g in fields + [f];
  }

  lemma DescribesLength(p: Platform, s: Scan, fields: seq<Field>, f: Field)
    requires Describes(p, s, fields) && IsLength(f)
    ensures Describes(p, ScanLength(p, s, f.value), fields + [f])
  {
    var all := fields + [f];
    assert f in all && forall g | g in fields :: g in all;
    var r := ScanLength(p, s, f.value);
    if s.conflict {
      AmbiguousGrows(p, fields, f);
    } else if LengthNumber(p, f.value).None? {
      assert BadLength(p, f);
    } else if r.conflict {
      var g :| g in fields && Carries(p, s, g);
      assert Differ(p, g, f);
    } else {
      assert Carries(p, r, f);
    }
    assert forall g | g in all && IsCoding(g) :: g in fields;
  }

  lemma DescribesCoding(p: Platform, s: Scan, fields: seq<Field>, f: Field)
    requires Describes(p, s, fields) && IsCoding(f)
    ensures Describes(p, ScanCoding(p, s, f.value), fields + [f])
  {
    var all := fields + [f];
    var r := ScanCoding(p, s, f.value);
    assert f in all && forall g | g in fields :: g in all && (Carries(p, s, g) ==> Carries(p, r, g));
    assert forall g | g in all && IsLength(g) :: g in fields;
    if s.conflict {
      AmbiguousGrows(p, fields, f);
    } else if r.conflict {
      assert BadCoding(p, f);
    }
  }

  lemma DescribesOther(p: Platform, s: Scan, r: Scan, fields: seq<Field>, f: Field)
    requires Describes(p, s, fields) && !IsLength(f) && !IsCoding(f)
    requires r.contentLength == s.contentLength && r.hasCl == s.hasCl && r.isChunked == s.isChunked
    requires r.conflict == s.conflict
    ensures Describes(p, r, fields + [f])
  {
    var all := fields + [f];
    assert forall g | g in fields :: g in all && (Carries(p, s, g) ==> Carries(p, r, g));
    assert forall g | g in all && (IsLength(g) || IsCoding(g)) :: g in fields;
    if s.conflict { AmbiguousGrows(p, fields, f); }
  }

  lemma ScanFieldCases(p: Platform, s: Scan, f: Field)
    ensures var r := ScanField(p, s, f);
            if IsLength(f) then r == ScanLength(p, s, f.value)
            else if IsCoding(f) then r == ScanCoding(p, s, f.value)
            else && r.contentLength == s.contentLength && r.hasCl == s.hasCl && r.isChunked == s.isChunked
                 && r.conflict == s.conflict && r.teCount == s.teCount
  {
  }

  lemma DescribesNext(p: Platform, s: Scan, fields: seq<Field>, f: Field)
    requires Describes(p, s, fields)
    ensures Describes(p, ScanField(p, s, f), fields + [f])
  {
    ScanFieldCases(p, s, f);
    if IsLength(f) {
      DescribesLength(p, s, fields, f);
    } else if IsCoding(f) {
      DescribesCoding(p, s, fields, f);
    } else {
      DescribesOther(p, s, ScanField(p, s, f), fields, f);
    }
  }

  lemma {:induction false} ScanDescribes(p: Platform, version: nat, fields: seq<Field>)
    ensures Describes(p, ScanAll(p, version, fields), fields)
  {
    if fields != [] {
      var front, f := fields[..|fields| - 1], fields[|fields| - 1];
      ScanDescribes(p, version, front);
      DescribesNext(p, ScanAll(p, version, front), front, f);
      assert fields == front + [f];
    }
  }

  lemma {:induction false} CountsCodings(p: Platform, version: nat, fields: seq<Field>)
    ensures ScanAll(p, version, fields).teCount > 0 ==> exists f :: f in fields && IsCoding(f)
  {
    if fields != [] {
      CountsCodings(p, version, fields[..|fields| - 1]);
      ScanFieldCases(p, ScanAll(p, version, fields[..|fields| - 1]), fields[|fields| - 1]);
      assert fields[|fields| - 1] in fields;
    }
  }

  lemma AmbiguousIsRejected(p: Platform, s: Scan, fields: seq<Field>)
    requires Describes(p, s, fields) && Ambiguous(p, fields) && !s.conflict
    ensures s.isChunked && s.hasCl
  {
    assert forall f | f in fields && IsLength(f) :: Carries(p, s, f) && !BadLength(p, f);
    forall f, g | f in fields && g in fields
      ensures !Differ(p, f, g)
    {
      SameLength(p, s, f, g);
    }
    assert forall f | f in fields && IsCoding(f) :: !BadCoding(p, f);
  }

  lemma SameLength(p: Platform, s: Scan, f: Field, g: Field)
    ensures Carries(p, s, f) && Carries(p, s, g) ==> LengthNumber(p, f.value) == LengthNumber(p, g.value)
  {
  }

  /** A request's header fields are rejected exactly when some Content-Length is
      not a number, two differ, some Transfer-Encoding does not end in chunked,
      or both kinds of field are present. */
  lemma RejectsExactlyTheAmbiguous(p: Platform, version: nat, fields: seq<Field>)
    ensures Rejects(ScanAll(p, version, fields)) <==> Ambiguous(p, fields)
  {
    var s := ScanAll(p, version, fields);
    ScanDescribes(p, version, fields);
    CountsCodings(p, version, fields);
    if Ambiguous(p, fields) && !s.conflict {
      AmbiguousIsRejected(p, s, fields);
    }
    if s.isChunked && s.hasCl {
      var f :| f in fields && Carries(p, s, f);
      var g :| g in fields && IsCoding(g);
    }
  }

  /** The verdict, and the framing of an accepted request, do not depend on the
      order of the header fields. */
  lemma OrderDoesNotMatter(p: Platform, version: nat, a: seq<Field>, b: seq<Field>)
    requires multiset(a) == multiset(b)
    ensures var s, t := ScanAll(p, version, a), ScanAll(p, version, b);
            && Rejects(s) == Rejects(t)
            && (!Rejects(s) ==> s.contentLength == t.contentLength && s.hasCl == t.hasCl && s.isChunked == t.isChunked)
  {
    forall f
      ensures f in a <==> f in b
    {
      assert f in a <==> f in multiset(a);
      assert f in b <==> f in multiset(b);
    }
    RejectsExactlyTheAmbiguous(p, version, a);
    RejectsExactlyTheAmbiguous(p, version, b);
    ScanDescribes(p, version, a);
    ScanDescribes(p, version, b);
  }

  /** The length an accepted request announces is used as it stands exactly
      when it is below 2^63; from there on 2^64 is taken off, and the request is
      taken to have no body. */
  lemma AnnouncedLength(p: Platform, version: nat, fields: seq<Field>, f: Field)
    requires f in fields && GoodLength(p, f) && !Rejects(ScanAll(p, version, fields))
    ensures var s, n := ScanAll(p, version, fields), LengthNumber(p, f.value).value;
            && s.hasCl && !s.isChunked
            && s.contentLength == (if n < 0x8000_0000_0000_0000 then n else n - 0x1_0000_0000_0000_0000)
            && (s.contentLength > 0 <==> 0 < n < 0x8000_0000_0000_0000)
  {
    ScanDescribes(p, version, fields);
    assert Carries(p, ScanAll(p, version, fields), f);
  }
}
