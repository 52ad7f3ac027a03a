/** How much the calls on the WSGI input stream return. */
module ReaderAnswers {
  import opened Bytes
  import opened SyncReader

  /** A read takes as many bytes as it asks for, or all there are; the line iterator ends
      exactly at the end. */
  lemma ReadTakesSoMany(size: int, text: bytes)
    ensures var a := Answer(Read(size), text);
            |a| == 1 && a[0] <= text && |a[0]| == if 0 <= size < |text| then size else |text|
    ensures var a := Answer(NextLine, text); if text == [] then a == [] else |a| == 1 && IsLine(a[0], text, None)
  {
    LineIsLine(text, None);
  }

  // All lines but the last.
  function AllButLast(lines: seq<bytes>): seq<bytes> {
    if lines == [] then [] else lines[..|lines| - 1]
  }

  lemma OneMore(line: bytes, more: seq<bytes>)
    ensures |Concat([line] + more)| == |line| + |Concat(more)|
    ensures |Concat(AllButLast([line] + more))| == if more == [] then 0 else |line| + |Concat(AllButLast(more))|
  {
    assert ([line] + more)[1..] == more;
    if more == [] {
      assert AllButLast([line] + more) == [];
    } else {
      var front := AllButLast(more);
      assert AllButLast([line] + more) == [line] + front && ([line] + front)[1..] == front;
    }
  }

  // What has been read when `readlines` returns, after `before` bytes.
  ghost predicate ReachesHint(lines: seq<bytes>, text: bytes, hint: int, before: nat) {
    && (|Concat(lines)| == |text| || (hint > 0 && before + |Concat(lines)| >= hint))
    && (|lines| > 1 && hint > 0 ==> before + |Concat(AllButLast(lines))| < hint)
  }

  lemma {:induction false} LinesReachHint(text: bytes, hint: int, before: nat)
    ensures ReachesHint(Lines(text, hint, before), text, hint, before)
    decreases |text|
  {
    if text != [] {
      var line := Line(text, None);
      LineIsLine(text, None);
      var later := text[|line|..];
      if hint > 0 && before + |line| >= hint {
        OneMore(line, []);
        assert [line] + [] == [line];
      } else {
        LinesReachHint(later, hint, before + |line|);
        OneMore(line, Lines(later, hint, before + |line|));
      }
    }
  }

  /** `readlines` reads whole lines, and goes on exactly until they reach a positive hint
      or nothing is left. */
  lemma LinesUntilHint(text: bytes, hint: int)
    ensures var lines := Answer(ReadLines(hint), text);
            && (text != [] ==> lines != [] && IsLine(lines[0], text, None))
            && (|Concat(lines)| == |text| || (hint > 0 && |Concat(lines)| >= hint))
            && (|lines| > 1 && hint > 0 ==> |Concat(AllButLast(lines))| < hint)
  {
    LinesReachHint(text, hint, 0);
    LineIsLine(text, None);
  }
}
