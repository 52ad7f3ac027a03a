/** Byte strings: searching, radix numerals and big-endian integers, as the HTTP
    and WebSocket engine uses them. */
module Bytes {
  type byte = bv8
  type bytes = seq<byte>

  datatype Option<+T> = None | Some(value: T)

  const CR: byte := 13
  const LF: byte := 10
  const CRLF: bytes := [13, 10]
  const CRLFCRLF: bytes := [13, 10, 13, 10]
  const SEMICOLON: byte := 59

  // usize::MAX on the 64-bit targets the extension is built for
  const USIZE_MAX: nat := 0xFFFF_FFFF_FFFF_FFFF

  type usize = n: nat | n <= USIZE_MAX

  lemma ByteRoundTrip(n: nat)
    requires n < 256
    ensures (n as byte) as int == n
  {
    if n < 16 {
    } else if n < 64 {
    } else if n < 128 {
    } else if n < 192 {
    }
  }

  /** The bytes of an ASCII literal. */
  function Ascii(s: string): (r: bytes)
    ensures |r| == |s|
  {
    seq(|s|, i requires 0 <= i < |s| => (s[i] as int % 128) as byte)
  }

  // ---------------------------------------------------------------- searching

  ghost predicate Occurs(s: bytes, pat: bytes, i: nat) {
    i + |pat| <= |s| && s[i..i + |pat|] == pat
  }

  /** First position at which `pat` occurs: `s.windows(n).position(|w| w == pat)`. */
  function Find(s: bytes, pat: bytes): (r: Option<nat>)
    requires pat != []
    ensures r.Some? ==> Occurs(s, pat, r.value)
    ensures forall i: nat | Occurs(s, pat, i) :: r.Some? && r.value <= i
  {
    if |s| < |pat| then None
    else if s[..|pat|] == pat then assert Occurs(s, pat, 0); Some(0)
    else
      var t := Find(s[1..], pat);
      OccursLater(s, pat);
      if t.Some? then assert Occurs(s[1..], pat, t.value); Some(t.value + 1) else None
  }

  lemma OccursLater(s: bytes, pat: bytes)
    requires 0 < |pat| <= |s|
    ensures forall i: nat {:trigger Occurs(s[1..], pat, i)} | Occurs(s[1..], pat, i) :: Occurs(s, pat, i + 1)
    ensures s[..|pat|] != pat ==>
              forall i: nat {:trigger Occurs(s, pat, i)} | Occurs(s, pat, i) :: i > 0 && Occurs(s[1..], pat, i - 1)
  {
    forall i: nat | Occurs(s[1..], pat, i)
      ensures Occurs(s, pat, i + 1)
    {
      OccursShift(s, pat, i);
    }
    if s[..|pat|] != pat {
      forall i: nat | Occurs(s, pat, i)
        ensures i > 0 && Occurs(s[1..], pat, i - 1)
      {
        assert s[0..|pat|] == s[..|pat|];
        if i > 0 { OccursShift(s, pat, i - 1); }
      }
    }
  }

  lemma OccursShift(s: bytes, pat: bytes, i: nat)
    requires s != []
    ensures Occurs(s[1..], pat, i) <==> Occurs(s, pat, i + 1)
  {
    if i + 1 + |pat| <= |s| { assert s[1..][i..i + |pat|] == s[i + 1..i + 1 + |pat|]; }
  }

  lemma OccursInPrefix(a: bytes, b: bytes, pat: bytes, i: nat)
    requires i + |pat| <= |a|
    ensures Occurs(a + b, pat, i) == Occurs(a, pat, i)
  {
    assert (a + b)[i..i + |pat|] == a[i..i + |pat|];
  }

  /** A match found in a prefix of the input stays the first match when more bytes arrive. */
  lemma FindStable(a: bytes, b: bytes, pat: bytes)
    requires pat != [] && Find(a, pat).Some?
    ensures Find(a + b, pat) == Find(a, pat)
  {
    OccursInPrefix(a, b, pat, Find(a, pat).value);
    OccursInPrefix(a, b, pat, Find(a + b, pat).value);
  }

  /** Bytes without a carriage return, followed by CRLF, are cut exactly there. */
  lemma FindLineEnd(line: bytes, rest: bytes)
    requires CR !in line
    ensures Find(line + CRLF + rest, CRLF) == Some(|line|)
  {
    var s := line + CRLF + rest;
    assert s[|line|..|line| + 2] == CRLF;
    assert Occurs(s, CRLF, |line|);
    var k := Find(s, CRLF).value;
    assert s[k] == s[k..k + 2][0] == CR;
    assert forall i | 0 <= i < |line| :: s[i] == line[i] && line[i] in line;
  }

  /** `buf.split(|b| b == sep).next()`: everything before the first separator. */
  function Before(s: bytes, sep: byte): (r: bytes)
    ensures r <= s && sep !in r
    ensures sep !in s ==> r == s
  {
    if s == [] || s[0] == sep then [] else [s[0]] + Before(s[1..], sep)
  }

  function Concat(pieces: seq<bytes>): bytes {
    if pieces == [] then [] else pieces[0] + Concat(pieces[1..])
  }

  // ----------------------------------------------------------------- numerals

  function DigitValue(b: byte): (r: Option<nat>)
    ensures r.Some? ==> r.value < 36
  {
    var v := b as int;
    if 48 <= v <= 57 then Some(v - 48)
    else if 65 <= v <= 90 then Some(v - 55)
    else if 97 <= v <= 122 then Some(v - 87)
    else None
  }

  predicate AllDigits(s: bytes, radix: nat) {
    forall b | b in s :: DigitValue(b).Some? && DigitValue(b).value < radix
  }

  function NumeralValue(s: bytes, radix: nat): nat
    requires AllDigits(s, radix)
  {
    if s == [] then 0
    else radix * NumeralValue(s[..|s| - 1], radix) + DigitValue(s[|s| - 1]).value
  }

  /** `usize::from_str_radix`: an optional plus sign, at least one digit, no overflow. */
  function ParseRadix(s: bytes, radix: nat): Option<usize> {
    var digits := if |s| > 1 && s[0] == 43 then s[1..] else s;
    if digits == [] || !AllDigits(digits, radix) then None
    else
      var v := NumeralValue(digits, radix);
      if v <= USIZE_MAX then Some(v) else None
  }

  // "0123456789ABCDEF"
  const HEX_DIGITS: bytes := [48, 49, 50, 51, 52, 53, 54, 55, 56, 57, 65, 66, 67, 68, 69, 70]

  type place = d: nat | d < 16

  function HexDigit(d: place): byte {
    HEX_DIGITS[d]
  }

  lemma HexDigitValue(d: place)
    ensures DigitValue(HexDigit(d)) == Some(d)
    ensures HexDigit(d) != 43 && HexDigit(d) != CR && HexDigit(d) != SEMICOLON
  {
  }

  function HexPlaces(n: nat): (r: seq<place>)
    ensures r != []
  {
    if n < 16 then [n] else HexPlaces(n / 16) + [n % 16]
  }

  /** `format!("{:X}", n)`. */
  function Hex(n: nat): (r: bytes)
    ensures IsHexNumeral(r)
  {
    Render(HexPlaces(n))
  }

  function Render(places: seq<place>): (r: bytes)
    ensures |r| == |places|
  {
    seq(|places|, i requires 0 <= i < |places| => HexDigit(places[i]))
  }

  ghost predicate IsHexNumeral(s: bytes) {
    exists places: seq<place> :: places != [] && s == Render(places)
  }

  lemma HexNumeralBytes(s: bytes)
    requires IsHexNumeral(s)
    ensures CR !in s && SEMICOLON !in s && AllDigits(s, 16) && s[0] != 43
    ensures forall i | 0 <= i < |s| :: s[i] >= 48
  {
    var places: seq<place> :| places != [] && s == Render(places);
    forall i | 0 <= i < |s|
      ensures s[i] >= 48
      ensures s[i] != CR && s[i] != SEMICOLON && s[i] != 43
      ensures DigitValue(s[i]).Some? && DigitValue(s[i]).value < 16
    {
      HexDigitValue(places[i]);
    }
  }

  lemma NumeralValueSnoc(s: bytes, b: byte, radix: nat)
    requires AllDigits(s, radix) && AllDigits([b], radix)
    ensures AllDigits(s + [b], radix)
    ensures NumeralValue(s + [b], radix) == radix * NumeralValue(s, radix) + DigitValue(b).value
  {
    assert b in [b];
    assert (s + [b])[..|s + [b]| - 1] == s;
  }

  lemma NumeralOfOne(b: byte, radix: nat)
    requires DigitValue(b).Some? && DigitValue(b).value < radix
    ensures AllDigits([b], radix) && NumeralValue([b], radix) == DigitValue(b).value
  {
    NumeralValueSnoc([], b, radix);
    assert [] + [b] == [b];
  }

  function PlaceValue(places: seq<place>): nat {
    if places == [] then 0 else 16 * PlaceValue(places[..|places| - 1]) + places[|places| - 1]
  }

  lemma {:induction false} HexPlacesValue(n: nat)
    ensures PlaceValue(HexPlaces(n)) == n
  {
    if n < 16 {
      assert HexPlaces(n)[..0] == [];
    } else {
      HexPlacesValue(n / 16);
      assert HexPlaces(n)[..|HexPlaces(n)| - 1] == HexPlaces(n / 16);
    }
  }

  lemma {:induction false} RenderValue(places: seq<place>)
    ensures AllDigits(Render(places), 16) && NumeralValue(Render(places), 16) == PlaceValue(places)
  {
    if places != [] {
      var front, last := places[..|places| - 1], places[|places| - 1];
      RenderValue(front);
      HexDigitValue(last);
      NumeralOfOne(HexDigit(last), 16);
      NumeralValueSnoc(Render(front), HexDigit(last), 16);
      assert Render(places) == Render(front) + [HexDigit(last)];
    }
  }

  /** Reading a hexadecimal length back gives the length that was written. */
  lemma ParseHex(n: nat)
    requires n <= USIZE_MAX
    ensures ParseRadix(Hex(n), 16) == Some(n)
  {
    HexNumeralBytes(Hex(n));
    HexPlacesValue(n);
    RenderValue(HexPlaces(n));
  }

  // --------------------------------------------------------------- big endian

  function BigEndian(n: nat, width: nat): (r: bytes)
    ensures |r| == width
  {
    if width == 0 then [] else BigEndian(n / 256, width - 1) + [(n % 256) as byte]
  }

  function FromBigEndian(s: bytes): nat {
    if s == [] then 0 else 256 * FromBigEndian(s[..|s| - 1]) + s[|s| - 1] as int
  }

  function Pow256(k: nat): (r: nat)
    ensures r > 0
  {
    if k == 0 then 1 else 256 * Pow256(k - 1)
  }

  lemma {:induction false} BigEndianRoundTrip(n: nat, width: nat)
    requires n < Pow256(width)
    ensures FromBigEndian(BigEndian(n, width)) == n
  {
    if width > 0 {
      BigEndianRoundTrip(n / 256, width - 1);
      ByteRoundTrip(n % 256);
      assert BigEndian(n, width)[..width - 1] == BigEndian(n / 256, width - 1);
    }
  }

  /** Every byte string is the numeral of the number it stands for. */
  lemma {:induction false} BigEndianOf(s: bytes)
    ensures FromBigEndian(s) < Pow256(|s|) && BigEndian(FromBigEndian(s), |s|) == s
  {
    if s != [] {
      var front, last := s[..|s| - 1], s[|s| - 1];
      BigEndianOf(front);
      Places(FromBigEndian(front), last as nat);
      assert s == front + [last];
    }
  }

  lemma Places(n: nat, low: nat)
    requires low < 256
    ensures (256 * n + low) / 256 == n && (256 * n + low) % 256 == low
  {
  }

  lemma Pow256Values()
    ensures Pow256(2) == 0x1_0000 && Pow256(8) == 0x1_0000_0000_0000_0000
  {
    assert Pow256(4) == 0x1_0000_0000;
    assert Pow256(6) == 0x1_0000_0000_0000;
  }
}
