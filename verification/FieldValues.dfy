/** How the values of the framing fields are read: lengths, and lists of transfer
    codings. */
module FieldValues {
  import opened Bytes
  import opened Framing
  import opened Response
  import opened ResponseHead
  import opened Text

  function Join(pieces: seq<bytes>, sep: byte): bytes {
    if pieces == [] then [] else if |pieces| == 1 then pieces[0] else pieces[0] + [sep] + Join(pieces[1..], sep)
  }

  /** A list is cut at every separator, and only there. */
  lemma {:induction false} SplitJoins(s: bytes, sep: byte)
    ensures Join(Split(s, sep), sep) == s
    ensures forall i | 0 <= i < |Split(s, sep)| :: sep !in Split(s, sep)[i]
  {
    if s != [] {
      SplitJoins(s[1..], sep);
      var rest := Split(s[1..], sep);
      assert s == [s[0]] + s[1..];
      if s[0] == sep {
        assert Split(s, sep) == [[]] + rest && ([[]] + rest)[1..] == rest;
        assert [] + [sep] + Join(rest, sep) == s;
      } else {
        JoinFirst(s[0], rest, sep);
      }
    }
  }

  lemma JoinFirst(b: byte, rest: seq<bytes>, sep: byte)
    requires rest != []
    ensures Join([[b] + rest[0]] + rest[1..], sep) == [b] + Join(rest, sep)
  {
    var longer := [[b] + rest[0]] + rest[1..];
    assert longer[1..] == rest[1..];
    if |rest| > 1 {
      assert ([b] + rest[0]) + [sep] + Join(rest[1..], sep) == [b] + (rest[0] + [sep] + Join(rest[1..], sep));
    }
  }

  // The last piece that is not blank.
  ghost predicate IsLast(p: Platform, pieces: seq<bytes>, last: Option<bytes>) {
    if last.None? then forall i | 0 <= i < |pieces| :: p.trim(pieces[i]) == []
    else
      exists i :: 0 <= i < |pieces| && p.trim(pieces[i]) == last.value && last.value != []
                  && forall j | i < j < |pieces| :: p.trim(pieces[j]) == []
  }

  lemma {:induction false} LastIsLast(p: Platform, pieces: seq<bytes>)
    ensures IsLast(p, pieces, LastCoding(p, pieces))
    decreases |pieces|
  {
    if pieces != [] {
      var n := |pieces| - 1;
      if p.trim(pieces[n]) == [] {
        LastIsLast(p, pieces[..n]);
        var last := LastCoding(p, pieces[..n]);
        if last.Some? {
          var i :| 0 <= i < n && p.trim(pieces[..n][i]) == last.value
                   && forall j | i < j < n :: p.trim(pieces[..n][j]) == [];
          assert p.trim(pieces[i]) == last.value;
          assert forall j | i < j < n :: pieces[j] == pieces[..n][j];
        } else {
          assert forall i | 0 <= i < n :: pieces[i] == pieces[..n][i];
        }
      }
    }
  }

  /** A transfer coding ends in chunked exactly if it is text and the last of its listed
      codings that is not blank is that word, in any case. */
  lemma EndsInChunked(p: Platform, value: bytes)
    ensures EndsChunked(p, value) <==>
      && p.isUtf8(value)
      && exists last :: IsLast(p, Split(value, COMMA), Some(last)) && ToLower(last) == ToLower(CHUNKED)
  {
    var pieces := Split(value, COMMA);
    LastIsLast(p, pieces);
    forall last | IsLast(p, pieces, Some(last))
      ensures LastCoding(p, pieces) == Some(last)
    {
      OneLast(p, pieces, LastCoding(p, pieces), Some(last));
    }
  }

  lemma OneLast(p: Platform, pieces: seq<bytes>, a: Option<bytes>, b: Option<bytes>)
    requires IsLast(p, pieces, a) && IsLast(p, pieces, b) && b.Some?
    ensures a == b
  {
    var i :| 0 <= i < |pieces| && p.trim(pieces[i]) == b.value && b.value != []
             && forall j | i < j < |pieces| :: p.trim(pieces[j]) == [];
    if a.Some? {
      var k :| 0 <= k < |pieces| && p.trim(pieces[k]) == a.value && a.value != []
               && forall j | k < j < |pieces| :: p.trim(pieces[j]) == [];
      assert i == k;
    }
  }

  /** A length is read as the decimal number it is once trimmed, with the standard parser;
      what is not text is no length. */
  lemma LengthIsRead(p: Platform, value: bytes, n: nat)
    requires p.parseRadix == ParseRadix && n <= USIZE_MAX
    ensures p.isUtf8(value) && p.trim(value) == Decimal(n) ==> LengthNumber(p, value) == Some(n)
    ensures !p.isUtf8(value) ==> LengthNumber(p, value) == None
  {
    LengthReadsBack(n);
  }
}
