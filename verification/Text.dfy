/** Text operations on header bytes. UTF-8 validity, Unicode-aware trimming and
    integer parsing belong to the standard library and are parameters. */
module Text {
  import opened Bytes

  datatype Platform = Platform(
    isUtf8: bytes -> bool, trim: bytes -> bytes, parseRadix: (bytes, nat) -> Option<usize>)

  /** Hexadecimal numerals are read back as the numbers they were written from. */
  ghost predicate Sane(p: Platform) {
    forall n: nat {:trigger Hex(n)} | n <= USIZE_MAX ::
      p.isUtf8(Hex(n)) && p.trim(Hex(n)) == Hex(n) && p.parseRadix(Hex(n), 16) == Some(n)
  }

  /** The standard library's parser is one such platform. */
  lemma StandardParserIsSane(isUtf8: bytes -> bool, trim: bytes -> bytes)
    requires forall s: bytes | IsHexNumeral(s) :: isUtf8(s) && trim(s) == s
    ensures Sane(Platform(isUtf8, trim, ParseRadix))
  {
    forall n: nat | n <= USIZE_MAX
      ensures ParseRadix(Hex(n), 16) == Some(n)
    {
      ParseHex(n);
    }
  }

  function Lower(b: byte): byte {
    if 65 <= b <= 90 then b + 32 else b
  }

  function ToLower(s: bytes): (r: bytes)
    ensures |r| == |s|
  {
    seq(|s|, i requires 0 <= i < |s| => Lower(s[i]))
  }

  predicate EqIgnoreCase(a: bytes, b: bytes) {
    ToLower(a) == ToLower(b)
  }

  /** `s.windows(pat.len()).any(|w| w == pat)`. */
  predicate Contains(s: bytes, pat: bytes)
    requires pat != []
  {
    Find(s, pat).Some?
  }

  function Split(s: bytes, sep: byte): (r: seq<bytes>)
    ensures r != []
  {
    if s == [] then [[]]
    else
      var rest := Split(s[1..], sep);
      if s[0] == sep then [[]] + rest else [[s[0]] + rest[0]] + rest[1..]
  }
}
