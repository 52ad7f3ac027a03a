/** The WSGI input stream: file-like reads over chunks that arrive one at a time. */
module SyncReader {
  import opened Bytes
  import opened Sequences

  // What one blocking receive comes back with.
  datatype Arrival = Chunk(data: bytes) | Raised

  // An empty chunk or an exception ends the stream for good.
  predicate Ends(a: Arrival) {
    a.Raised? || a.data == []
  }

  function Next(queue: seq<Arrival>): Arrival {
    if queue == [] then Chunk([]) else queue[0]
  }

  function Later(queue: seq<Arrival>): seq<Arrival> {
    if queue == [] then [] else queue[1..]
  }

  /** The bytes of all chunks up to the end of the stream. */
  function Delivered(queue: seq<Arrival>): bytes {
    if Ends(Next(queue)) then [] else Next(queue).data + Delivered(Later(queue))
  }

  // What the sender of the chunks has in store.
  class Inbox {
    var queue: seq<Arrival>

    constructor (arrivals: seq<Arrival>)
      ensures queue == arrivals
    {
      queue := arrivals;
    }

    method Receive() returns (a: Arrival)
      modifies this
      ensures a == Next(old(queue)) && queue == Later(old(queue))
    {
      a := Next(queue);
      queue := Later(queue);
    }
  }

  // ------------------------------------------------------------------- lines

  // `line` is what a line reader limited to `max` bytes takes from the front of `text`.
  ghost predicate IsLine(line: bytes, text: bytes, max: Option<nat>) {
    && line <= text
    && (forall i | 0 <= i < |line| - 1 :: line[i] != LF)
    && (max.Some? ==> |line| <= max.value)
    && (|line| == |text| || (line != [] && line[|line| - 1] == LF) || (max.Some? && |line| == max.value))
  }

  lemma LinesAgree(a: bytes, b: bytes, text: bytes, max: Option<nat>)
    requires IsLine(a, text, max) && IsLine(b, text, max)
    ensures a == b
  {
    assert a == text[..|a|] && b == text[..|b|];
    assert 0 < |a| <= |b| ==> a[|a| - 1] == b[|a| - 1];
    assert 0 < |b| <= |a| ==> a[|b| - 1] == b[|b| - 1];
  }

  /** The first line of `text`, its line feed included, cut at `max` bytes. */
  function Line(text: bytes, max: Option<nat>): bytes {
    if text == [] || max == Some(0) then []
    else if text[0] == LF then [LF]
    else [text[0]] + Line(text[1..], if max.Some? then Some(max.value - 1) else None)
  }

  lemma {:induction false} LineIsLine(text: bytes, max: Option<nat>)
    ensures IsLine(Line(text, max), text, max)
    decreases |text|
  {
    if text != [] && max != Some(0) && text[0] != LF {
      var left := if max.Some? then Some(max.value - 1) else None;
      LineIsLine(text[1..], left);
      assert text == [text[0]] + text[1..];
      LineGrows(text[0], Line(text[1..], left), text[1..], max);
    }
  }

  lemma LineGrows(first: byte, line: bytes, text: bytes, max: Option<nat>)
    requires first != LF && max != Some(0)
    requires IsLine(line, text, if max.Some? then Some(max.value - 1) else None)
    ensures IsLine([first] + line, [first] + text, max)
  {
    var longer := [first] + line;
    assert forall i | 0 <= i < |longer| - 1 :: longer[i] == if i == 0 then first else line[i - 1];
  }

  lemma LineBreak(text: bytes)
    ensures var end := Find(text, [LF]);
            && (end.Some? ==>
                  end.value < |text| && text[end.value] == LF && forall i | 0 <= i < end.value :: text[i] != LF)
            && (end.None? ==> forall i | 0 <= i < |text| :: text[i] != LF)
  {
    forall i | 0 <= i < |text| && text[i] == LF
      ensures Occurs(text, [LF], i)
    {
      assert text[i..i + 1] == [LF];
    }
  }

  /** How many buffered bytes the next line takes, if that can be told already. */
  function LineEnd(buffer: bytes, max: Option<nat>, eof: bool): (n: Option<nat>)
    ensures n.Some? ==> n.value <= |buffer|
    ensures n.None? ==> !eof
  {
    var newline := Find(buffer, [LF]);
    if newline.Some? then Some(if max.Some? && newline.value + 1 > max.value then max.value else newline.value + 1)
    else if max.Some? && |buffer| >= max.value then Some(max.value)
    else if eof then Some(|buffer|)
    else None
  }

  lemma LineEndsThere(buffer: bytes, max: Option<nat>, eof: bool, later: bytes)
    requires LineEnd(buffer, max, eof).Some? && (eof ==> later == [])
    ensures buffer[..LineEnd(buffer, max, eof).value] == Line(buffer + later, max)
  {
    LineBreak(buffer);
    LineIsLine(buffer + later, max);
    LinesAgree(buffer[..LineEnd(buffer, max, eof).value], Line(buffer + later, max), buffer + later, max);
  }

  // The lines from `text` on, until their bytes, `before` included, reach a positive hint.
  function Lines(text: bytes, hint: int, before: nat): seq<bytes>
    decreases |text|
  {
    if text == [] then []
    else
      var line := Line(text, None);
      LineIsLine(text, None);
      [line] + if hint > 0 && before + |line| >= hint then [] else Lines(text[|line|..], hint, before + |line|)
  }

  // ---------------------------------------------------------- the flat stream

  datatype Call = Read(size: int) | ReadLine(limit: Option<int>) | ReadLines(hint: int) | NextLine

  // A missing, zero or negative line limit is no limit.
  function Limit(size: Option<int>): Option<nat> {
    if size.Some? && size.value > 0 then Some(size.value) else None
  }

  /** `readline(n)` returns at most `n` bytes, and the line that a reader limited to `n`
      bytes takes, unless `n` is zero and bytes are left: then it takes a whole line. */
  lemma ReadLineStaysWithin(n: nat, text: bytes)
    ensures |Line(text, Limit(Some(n)))| <= n <==> n > 0 || text == []
    ensures IsLine(Line(text, Limit(Some(n))), text, Some(n)) <==> n > 0 || text == []
    ensures n == 0 ==> IsLine(Line(text, Limit(Some(n))), text, None)
  {
    LineIsLine(text, Limit(Some(n)));
  }

  /** What a cursor over one byte string answers: the pieces it hands out. */
  function Answer(call: Call, text: bytes): seq<bytes> {
    match call
    case Read(size) => [if size < 0 || size > |text| then text else text[..size]]
    case ReadLine(limit) => [Line(text, Limit(limit))]
    case ReadLines(hint) => Lines(text, hint, 0)
    case NextLine => if text == [] then [] else [Line(text, None)]
  }

  lemma {:induction false} LinesFromFront(text: bytes, hint: int, before: nat)
    ensures Concat(Lines(text, hint, before)) <= text
    ensures hint <= 0 ==> Concat(Lines(text, hint, before)) == text
    decreases |text|
  {
    if text != [] {
      var line := Line(text, None);
      LineIsLine(text, None);
      var later := text[|line|..];
      var more := if hint > 0 && before + |line| >= hint then [] else Lines(later, hint, before + |line|);
      LinesFromFront(later, hint, before + |line|);
      ConcatFirst(line, more, later);
      assert text == line + later;
    }
  }

  // `lines` is what has been read of `text` so far, `unread` what has not.
  ghost predicate ReadSoFar(lines: seq<bytes>, total: nat, unread: bytes, text: bytes, hint: int) {
    && total == |Concat(lines)| && Concat(lines) + unread == text
    && lines + Lines(unread, hint, total) == Lines(text, hint, 0)
  }

  ghost predicate ReadAll(lines: seq<bytes>, unread: bytes, text: bytes, hint: int) {
    lines == Lines(text, hint, 0) && Concat(lines) + unread == text
  }

  lemma ReadStart(text: bytes, hint: int)
    ensures ReadSoFar([], 0, text, text, hint)
  {
  }

  lemma ReadNone(lines: seq<bytes>, total: nat, unread: bytes, text: bytes, hint: int)
    requires ReadSoFar(lines, total, unread, text, hint) && unread == []
    ensures ReadAll(lines, [], text, hint)
  {
    assert lines + [] == lines;
  }

  lemma ReadOne(lines: seq<bytes>, total: nat, unread: bytes, text: bytes, hint: int, line: bytes, later: bytes)
    requires ReadSoFar(lines, total, unread, text, hint)
    requires line == Line(unread, None) && line != [] && line + later == unread
    ensures |later| < |unread|
    ensures hint > 0 && total + |line| >= hint ==> ReadAll(lines + [line], later, text, hint)
    ensures !(hint > 0 && total + |line| >= hint) ==> ReadSoFar(lines + [line], total + |line|, later, text, hint)
  {
    LinesUnfold(unread, hint, total, line, later);
    var more := if hint > 0 && total + |line| >= hint then [] else Lines(later, hint, total + |line|);
    Associative(lines, [line], more);
    ConcatThen(lines, line, later);
  }

  lemma LinesUnfold(text: bytes, hint: int, before: nat, line: bytes, later: bytes)
    requires line == Line(text, None) && line != [] && line + later == text
    ensures Lines(text, hint, before)
         == [line] + if hint > 0 && before + |line| >= hint then [] else Lines(later, hint, before + |line|)
  {
    assert text != [] && text[|line|..] == later;
  }

  lemma ConcatFirst(line: bytes, more: seq<bytes>, later: bytes)
    requires Concat(more) <= later
    ensures Concat([line] + more) == line + Concat(more) && Concat([line] + more) <= line + later
  {
    assert ([line] + more)[1..] == more;
  }

  lemma ConcatOne(r: bytes)
    ensures Concat([r]) == r
  {
    assert [r][1..] == [];
  }

  /** Every answer is taken from the front of the stream, in order, without gaps. */
  lemma AnswersFromFront(call: Call, text: bytes)
    ensures Concat(Answer(call, text)) <= text
  {
    match call
    case ReadLines(hint) => LinesFromFront(text, hint, 0);
    case Read(_) =>
      ConcatOne(Answer(call, text)[0]);
    case ReadLine(limit) =>
      LineIsLine(text, Limit(limit));
      ConcatOne(Line(text, Limit(limit)));
    case NextLine =>
      LineIsLine(text, None);
      ConcatOne(Line(text, None));
  }

  function Rest(call: Call, text: bytes): (rest: bytes)
    ensures Concat(Answer(call, text)) + rest == text
  {
    AnswersFromFront(call, text);
    text[|Concat(Answer(call, text))|..]
  }

  function Answers(calls: seq<Call>, text: bytes): seq<seq<bytes>> {
    if calls == [] then [] else [Answer(calls[0], text)] + Answers(calls[1..], Rest(calls[0], text))
  }

  function RestAfter(calls: seq<Call>, text: bytes): bytes {
    if calls == [] then text else RestAfter(calls[1..], Rest(calls[0], text))
  }

  lemma {:induction false} AnswersThen(calls: seq<Call>, call: Call, text: bytes)
    ensures Answers(calls + [call], text) == Answers(calls, text) + [Answer(call, RestAfter(calls, text))]
    ensures RestAfter(calls + [call], text) == Rest(call, RestAfter(calls, text))
  {
    if calls == [] {
      assert [call][1..] == [];
    } else {
      assert (calls + [call])[1..] == calls[1..] + [call];
      AnswersThen(calls[1..], call, Rest(calls[0], text));
    }
  }

  function Flatten(answers: seq<seq<bytes>>): bytes {
    if answers == [] then [] else Concat(answers[0]) + Flatten(answers[1..])
  }

  /** No byte is lost, repeated or reordered by any sequence of calls. */
  lemma {:induction false} CallsConserveBytes(calls: seq<Call>, text: bytes)
    ensures Flatten(Answers(calls, text)) + RestAfter(calls, text) == text
    decreases |calls|
  {
    if calls != [] {
      CallsConserveBytes(calls[1..], Rest(calls[0], text));
    }
  }

  // --------------------------------------------------------------- the reader

  class SyncStreamReader {
    var buffer: bytes
    var eof: bool
    const channel: Inbox

    constructor (data: bytes, channel: Inbox)
      ensures this.channel == channel && Unread() == data + Delivered(channel.queue)
    {
      this.channel := channel;
      buffer := data;
      eof := false;
    }

    // The one flat stream the reader stands for.
    ghost function Unread(): bytes
      reads this, channel
    {
      buffer + if eof then [] else Delivered(channel.queue)
    }

    // One receive: its bytes join the buffer, or the stream is over.
    method Pull()
      requires !eof
      modifies this, channel
      ensures Unread() == old(Unread())
      ensures eof ==> buffer == old(buffer)
      ensures !eof ==> |channel.queue| < |old(channel.queue)|
    {
      var a := channel.Receive();
      if Ends(a) {
        eof := true;
      } else {
        assert buffer + Delivered(old(channel.queue)) == (buffer + a.data) + Delivered(channel.queue);
        buffer := buffer + a.data;
      }
    }

    // buffer[:n], and `del` of the same
    method TakeFront(n: nat) returns (r: bytes)
      requires n <= |buffer|
      modifies `buffer
      ensures r == old(buffer)[..n] && buffer == old(buffer)[n..]
      ensures r + Unread() == old(Unread())
    {
      r := buffer[..n];
      buffer := buffer[n..];
      assert old(buffer) == r + buffer;
    }

    method Read(size: int) returns (r: bytes)
      modifies this, channel
      ensures [r] == Answer(Call.Read(size), old(Unread())) && r + Unread() == old(Unread())
    {
      if size == 0 {
        return [];
      }
      if size < 0 {
        while !eof
          invariant Unread() == old(Unread())
          decreases !eof, |channel.queue|
        {
          Pull();
        }
        r := TakeFront(|buffer|);
        assert r + [] == r;
        return;
      }
      while |buffer| < size && !eof
        invariant Unread() == old(Unread())
        decreases !eof, |channel.queue|
      {
        Pull();
      }
      r := TakeFront(if size < |buffer| then size else |buffer|);
      assert r == old(Unread())[..|r|];
      assert r == Answer(Call.Read(size), old(Unread()))[0];
    }

    method ReadLine(size: Option<int>) returns (r: bytes)
      modifies this, channel
      ensures r == Line(old(Unread()), Limit(size)) && r + Unread() == old(Unread())
    {
      var max := Limit(size);
      while true
        invariant Unread() == old(Unread())
        decreases !eof, |channel.queue|
      {
        var end := LineEnd(buffer, max, eof);
        if end.Some? {
          LineEndsThere(buffer, max, eof, if eof then [] else Delivered(channel.queue));
          r := TakeFront(end.value);
          return;
        }
        Pull();
        if eof {
          break;
        }
      }
      LineEndsThere(buffer, max, true, []);
      assert buffer + [] == buffer;
      r := TakeFront(|buffer|);
    }

    // One round of `readlines`.
    method ReadOneMore(lines: seq<bytes>, total: nat, hint: int, ghost text: bytes)
      returns (more: seq<bytes>, read: nat, done: bool)
      requires ReadSoFar(lines, total, Unread(), text, hint)
      modifies this, channel
      ensures if done then ReadAll(more, Unread(), text, hint)
              else ReadSoFar(more, read, Unread(), text, hint) && |Unread()| < |old(Unread())|
    {
      ghost var unread := Unread();
      var line := ReadLine(Some(-1));
      if line == [] {
        ReadNone(lines, total, unread, text, hint);
        return lines, total, true;
      }
      ReadOne(lines, total, unread, text, hint, line, Unread());
      more, read := lines + [line], total + |line|;
      done := hint > 0 && read >= hint;
    }

    method ReadLines(hint: int) returns (lines: seq<bytes>)
      modifies this, channel
      ensures ReadAll(lines, Unread(), old(Unread()), hint)
    {
      lines := [];
      var total: nat, done := 0, false;
      ghost var text := Unread();
      ReadStart(text, hint);
      while !done
        invariant if done then ReadAll(lines, Unread(), text, hint) else ReadSoFar(lines, total, Unread(), text, hint)
        decreases !done, |Unread()|
      {
        lines, total, done := ReadOneMore(lines, total, hint, text);
      }
    }

    method NextLine() returns (r: Option<bytes>)
      modifies this, channel
      ensures Answer(Call.NextLine, old(Unread())) == (if r.Some? then [r.value] else [])
      ensures (if r.Some? then r.value else []) + Unread() == old(Unread())
    {
      var line := ReadLine(Some(-1));
      r := if line == [] then None else Some(line);
    }

    /** Any sequence of calls is answered as a cursor over the flat stream would
        answer it, whatever the chunk boundaries. */
    method Replay(calls: seq<Call>) returns (answers: seq<seq<bytes>>)
      modifies this, channel
      ensures answers == Answers(calls, old(Unread())) && Unread() == RestAfter(calls, old(Unread()))
    {
      answers := [];
      for i := 0 to |calls|
        invariant answers == Answers(calls[..i], old(Unread())) && Unread() == RestAfter(calls[..i], old(Unread()))
      {
        AnswersThen(calls[..i], calls[i], old(Unread()));
        assert calls[..i + 1] == calls[..i] + [calls[i]];
        var answer := Perform(calls[i]);
        answers := answers + [answer];
      }
      assert calls[..|calls|] == calls;
    }

    method Perform(call: Call) returns (answer: seq<bytes>)
      modifies this, channel
      ensures answer == Answer(call, old(Unread())) && Unread() == Rest(call, old(Unread()))
    {
      match call
      case Read(size) =>
        var r := Read(size);
        answer := [r];
        ConcatOne(r);
      case ReadLine(limit) =>
        var r := ReadLine(limit);
        answer := [r];
        ConcatOne(r);
      case ReadLines(hint) =>
        answer := ReadLines(hint);
      case NextLine =>
        var r := NextLine();
        answer := if r.Some? then [r.value] else [];
        if r.Some? { ConcatOne(r.value); }
    }
  }

  lemma {:induction false} ConcatThen(pieces: seq<bytes>, piece: bytes, rest: bytes)
    ensures Concat(pieces + [piece]) + rest == Concat(pieces) + (piece + rest)
    ensures |Concat(pieces + [piece])| == |Concat(pieces)| + |piece|
  {
    if pieces == [] {
      assert [piece][1..] == [];
    } else {
      assert (pieces + [piece])[1..] == pieces[1..] + [piece];
      ConcatThen(pieces[1..], piece, rest);
      var first, later := pieces[0], Concat(pieces[1..]);
      assert (first + Concat(pieces[1..] + [piece])) + rest == first + (Concat(pieces[1..] + [piece]) + rest);
      assert first + (later + (piece + rest)) == (first + later) + (piece + rest);
    }
  }
}
