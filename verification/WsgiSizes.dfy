/** Size lines with blanks around the number and an extension behind it, as the WSGI
    worker's decoder reads them. */
module WsgiSizes {
  import opened Bytes
  import opened RoundTrip
  import opened WsgiChunked

  predicate Blank(s: bytes) {
    forall b | b in s :: IsSpace(b)
  }

  lemma {:induction false} LeftBlanksGo(blanks: bytes, s: bytes)
    requires Blank(blanks) && s != [] && !IsSpace(s[0])
    ensures StripLeft(blanks + s) == s
  {
    if blanks == [] {
      assert blanks + s == s;
    } else {
      assert (blanks + s)[1..] == blanks[1..] + s;
      LeftBlanksGo(blanks[1..], s);
    }
  }

  // What ends in something else than a blank is kept.
  lemma {:induction false} RightKeeps(s: bytes, more: bytes)
    requires s != [] && !IsSpace(s[|s| - 1])
    ensures s <= StripRight(s + more)
    ensures Blank(more) ==> StripRight(s + more) == s
    decreases |more|
  {
    if more == [] {
      assert s + more == s;
    } else if IsSpace(more[|more| - 1]) {
      var fewer := more[..|more| - 1];
      assert (s + more)[..|s + more| - 1] == s + fewer;
      RightKeeps(s, fewer);
    } else {
      assert more[|more| - 1] in more;
    }
  }

  lemma {:induction false} BeforeExtension(s: bytes, whole: bytes)
    requires SEMICOLON !in s && s + [SEMICOLON] <= whole
    ensures Before(whole, SEMICOLON) == s
    decreases |s|
  {
    if s != [] {
      assert (s + [SEMICOLON])[1..] == s[1..] + [SEMICOLON];
      assert whole[0] == (s + [SEMICOLON])[0] == s[0];
      assert s[1..] + [SEMICOLON] <= whole[1..];
      BeforeExtension(s[1..], whole[1..]);
    } else {
      assert whole[0] == SEMICOLON;
    }
  }

  predicate IsExtension(ext: bytes) {
    ext == [] || ext[0] == SEMICOLON
  }

  lemma SizeTextIs(before: bytes, number: bytes, ext: bytes, after: bytes)
    requires Blank(before) && Blank(after) && IsExtension(ext) && SEMICOLON !in number
    requires number != [] && !IsSpace(number[0]) && !IsSpace(number[|number| - 1])
    ensures SizeText(before + number + ext + after) == number
  {
    assert before + number + ext + after == before + (number + ext + after);
    LeftBlanksGo(before, number + ext + after);
    if ext == [] {
      assert number + ext + after == number + after;
      RightKeeps(number, after);
    } else {
      var kept := number + [SEMICOLON];
      assert number + ext + after == kept + (ext[1..] + after);
      RightKeeps(kept, ext[1..] + after);
      BeforeExtension(number, StripRight(kept + (ext[1..] + after)));
    }
  }

  lemma HexIsNoBlank(n: nat)
    ensures Hex(n) != [] && CR !in Hex(n) && SEMICOLON !in Hex(n)
    ensures !IsSpace(Hex(n)[0]) && !IsSpace(Hex(n)[|Hex(n)| - 1])
  {
    HexNumeralBytes(Hex(n));
  }

  /** Blanks around a size and an extension behind it make no difference to the body. */
  lemma PaddedSizeIsRead(pyInt: PyInt, maxBody: nat, before: bytes, n: nat, ext: bytes, after: bytes, rest: bytes,
                         raises: bool, body: bytes)
    requires ReadsHex(pyInt) && Blank(before) && Blank(after) && IsExtension(ext)
    requires CR !in before && CR !in ext && CR !in after
    ensures Decode(pyInt, maxBody, before + Hex(n) + ext + after + CRLF + rest, raises, body)
         == Decode(pyInt, maxBody, Hex(n) + CRLF + rest, raises, body)
  {
    var line := before + Hex(n) + ext + after;
    var all := line + CRLF + rest;
    HexIsNoBlank(n);
    FindLineEnd(line, rest);
    assert all[..|line|] == line && all[|line| + 2..] == rest;
    SizeTextIs(before, Hex(n), ext, after);
    DecodeLine(pyInt, maxBody, n, rest, raises, body);
  }
}
