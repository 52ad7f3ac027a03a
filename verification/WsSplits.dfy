/** Where a WebSocket stream breaks off, by its frames, and when cutting it up makes a
    difference. */
module WsSplits {
  import opened Bytes
  import opened Frames
  import opened Incremental
  import opened Sequences
  import opened WsAfterStop
  import opened WsMachine
  import opened WsWire

  // What the loop objects to in a frame: a control frame that is long or not final, a
  // continuation of nothing, a start inside a message, a text that is not UTF-8.
  predicate Violates(isUtf8: bytes -> bool, st: WsState, f: ClientFrame) {
    if f.opcode >= 0x8 then !f.fin || |f.payload| > 125
    else if f.opcode == 0x0 then
      st.fragOpcode == 0 || (f.fin && st.fragOpcode == TEXT && !isUtf8(st.fragments + f.payload))
    else if f.opcode == TEXT || f.opcode == BINARY then
      st.fragOpcode != 0 || (f.fin && f.opcode == TEXT && !isUtf8(f.payload))
    else false
  }

  lemma ViolatesExactly(isUtf8: bytes -> bool, st: WsState, f: ClientFrame)
    ensures Handle(isUtf8, st, f.opcode, f.fin, f.payload).stop <==> Violates(isUtf8, st, f)
  {
  }

  /** How many frames are in order before the first that is not. */
  function InOrder(isUtf8: bytes -> bool, st: WsState, frames: seq<ClientFrame>): (k: nat)
    ensures k <= |frames|
    decreases |frames|
  {
    if frames == [] || Violates(isUtf8, st, frames[0]) then 0
    else
      var f := frames[0];
      1 + InOrder(isUtf8, Handle(isUtf8, st, f.opcode, f.fin, f.payload).st, frames[1..])
  }

  lemma {:induction false} StopsInOrder(isUtf8: bytes -> bool, st: WsState, frames: seq<ClientFrame>)
    ensures HandleAll(isUtf8, st, frames).stop <==> InOrder(isUtf8, st, frames) < |frames|
    decreases |frames|
  {
    if frames != [] {
      var f := frames[0];
      ViolatesExactly(isUtf8, st, f);
      StopsInOrder(isUtf8, Handle(isUtf8, st, f.opcode, f.fin, f.payload).st, frames[1..]);
    }
  }

  lemma {:induction false} InOrderFront(isUtf8: bytes -> bool, st: WsState, frames: seq<ClientFrame>)
    requires InOrder(isUtf8, st, frames) < |frames|
    ensures var k := InOrder(isUtf8, st, frames);
            var before := HandleAll(isUtf8, st, frames[..k]);
            !before.stop && Violates(isUtf8, before.st, frames[k])
    decreases |frames|
  {
    var k, f := InOrder(isUtf8, st, frames), frames[0];
    ViolatesExactly(isUtf8, st, f);
    if k > 0 {
      var r := Handle(isUtf8, st, f.opcode, f.fin, f.payload);
      InOrderFront(isUtf8, r.st, frames[1..]);
      assert frames[..k][1..] == frames[1..][..k - 1];
    }
  }

  lemma {:induction false} WireSplits(frames: seq<ClientFrame>, k: nat)
    requires AllEncodable(frames) && k <= |frames|
    ensures Wire(frames) == Wire(frames[..k]) + Wire(frames[k..])
    decreases k
  {
    if k == 0 {
      assert frames[0..] == frames && [] + Wire(frames) == Wire(frames);
    } else {
      WireSplits(frames[1..], k - 1);
      assert frames[..k][1..] == frames[1..][..k - 1] && frames[k..] == frames[1..][k - 1..];
      Associative(WireFrame(frames[0]), Wire(frames[1..][..k - 1]), Wire(frames[k..]));
    }
  }

  lemma StopsRightThere(isUtf8: bytes -> bool, st: WsState, f: ClientFrame, tail: bytes)
    requires Encodable(f) && Violates(isUtf8, st, f)
    ensures var o := RunFrames(isUtf8, st, WireFrame(f) + tail); o.stopped && o.rest == tail
  {
    ViolatesExactly(isUtf8, st, f);
    StepWire(isUtf8, st, f, tail);
    LoopIsIncremental(isUtf8);
    UnfoldRun(Loop(isUtf8), ANY, st, WireFrame(f) + tail);
    assert (WireFrame(f) + tail)[|WireFrame(f)|..] == tail;
  }

  // `good` frames in order, one that is not, and whatever follows.
  lemma StopsBehind(isUtf8: bytes -> bool, st: WsState, good: seq<ClientFrame>, bad: ClientFrame, tail: bytes)
    requires AllEncodable(good) && Encodable(bad) && !HandleAll(isUtf8, st, good).stop
    requires Violates(isUtf8, HandleAll(isUtf8, st, good).st, bad)
    ensures var o := RunFrames(isUtf8, st, Wire(good) + (WireFrame(bad) + tail)); o.stopped && o.rest == tail
  {
    RunWire(isUtf8, st, good, WireFrame(bad) + tail);
    StopsRightThere(isUtf8, HandleAll(isUtf8, st, good).st, bad, tail);
  }

  lemma CutAtBad(frames: seq<ClientFrame>, k: nat, rest: bytes)
    requires AllEncodable(frames) && k < |frames|
    ensures Wire(frames) + rest == Wire(frames[..k]) + (WireFrame(frames[k]) + (Wire(frames[k + 1..]) + rest))
  {
    var good, bad, later := frames[..k], frames[k], frames[k + 1..];
    WireSplits(frames, k);
    assert frames[k..][0] == bad && frames[k..][1..] == later;
    Associative(Wire(good), WireFrame(bad) + Wire(later), rest);
    Associative(WireFrame(bad), Wire(later), rest);
  }

  lemma StopsBehindFirstBad(isUtf8: bytes -> bool, st: WsState, frames: seq<ClientFrame>, rest: bytes)
    requires AllEncodable(frames) && InOrder(isUtf8, st, frames) < |frames|
    ensures var o := RunFrames(isUtf8, st, Wire(frames) + rest);
            o.stopped && o.rest == Wire(frames[InOrder(isUtf8, st, frames) + 1..]) + rest
  {
    var k := InOrder(isUtf8, st, frames);
    InOrderFront(isUtf8, st, frames);
    CutAtBad(frames, k, rest);
    StopsBehind(isUtf8, st, frames[..k], frames[k], Wire(frames[k + 1..]) + rest);
  }

  lemma UnmaskedStaysUnread(isUtf8: bytes -> bool, st: WsState, frames: seq<ClientFrame>, rest: bytes)
    requires AllEncodable(frames) && InOrder(isUtf8, st, frames) == |frames| && !DecodeFrame(rest).Frame?
    ensures var o := RunFrames(isUtf8, st, Wire(frames) + rest);
            o.rest == rest && (o.stopped <==> DecodeFrame(rest).NotMasked?)
  {
    StopsInOrder(isUtf8, st, frames);
    RunWire(isUtf8, st, frames, rest);
    var all := HandleAll(isUtf8, st, frames);
    LoopIsIncremental(isUtf8);
    UnfoldRun(Loop(isUtf8), ANY, all.st, rest);
    RunRest(isUtf8, all.st, rest);
    assert rest[0..] == rest;
  }

  /** From every state, in a message or not: the bytes break off exactly if a frame
      violates the rules or an unmasked header follows the frames. */
  lemma BreaksOffExactlyWhen(isUtf8: bytes -> bool, st: WsState, unread: bytes)
    returns (frames: seq<ClientFrame>, rest: bytes)
    ensures AllEncodable(frames) && unread == Wire(frames) + rest && !DecodeFrame(rest).Frame?
    ensures RunFrames(isUtf8, st, unread).stopped
            <==> InOrder(isUtf8, st, frames) < |frames| || DecodeFrame(rest).NotMasked?
  {
    frames, rest := EveryStreamIsFrames(unread);
    if InOrder(isUtf8, st, frames) < |frames| {
      StopsBehindFirstBad(isUtf8, st, frames, rest);
    } else {
      UnmaskedStaysUnread(isUtf8, st, frames, rest);
    }
  }

  /** How many bytes it takes to meet the violation. */
  function Reach(isUtf8: bytes -> bool, st: WsState, frames: seq<ClientFrame>): nat
    requires AllEncodable(frames)
  {
    var k := InOrder(isUtf8, st, frames);
    if k < |frames| then |Wire(frames[..k])| + |WireFrame(frames[k])| else |Wire(frames)| + 2
  }

  lemma CutThere(first: bytes, later: bytes, front: bytes, more: bytes)
    requires front + more == first + later && |front| >= |first|
    ensures front == first + front[|first|..] && front[|first|..] + more == later
  {
    assert front[..|first|] == (front + more)[..|first|] == first;
    assert (front + more)[|first|..] == front[|first|..] + more && (first + later)[|first|..] == later;
  }

  // A run that breaks off leaves what was still to come unread.
  lemma StoppedLeaves(isUtf8: bytes -> bool, st: WsState, front: bytes, more: bytes)
    requires RunFrames(isUtf8, st, front).stopped
    ensures |RunFrames(isUtf8, st, front + more).rest| >= |more|
  {
    LoopIsIncremental(isUtf8);
    RunAppend(Loop(isUtf8), ANY, st, front, more);
  }

  // A prefix of such bytes breaks off exactly if it holds the bad frame.
  lemma FrontMeets(isUtf8: bytes -> bool, st: WsState, good: seq<ClientFrame>, bad: ClientFrame, tail: bytes,
                   front: bytes, more: bytes)
    requires AllEncodable(good) && Encodable(bad) && !HandleAll(isUtf8, st, good).stop
    requires Violates(isUtf8, HandleAll(isUtf8, st, good).st, bad)
    requires front + more == Wire(good) + (WireFrame(bad) + tail)
    ensures RunFrames(isUtf8, st, front).stopped <==> |front| >= |Wire(good)| + |WireFrame(bad)|
  {
    var wire := Wire(good) + WireFrame(bad);
    Associative(Wire(good), WireFrame(bad), tail);
    assert |front + more| == |wire| + |tail|;
    if |front| >= |wire| {
      CutThere(wire, tail, front, more);
      Associative(Wire(good), WireFrame(bad), front[|wire|..]);
      StopsBehind(isUtf8, st, good, bad, front[|wire|..]);
    } else if RunFrames(isUtf8, st, front).stopped {
      StopsBehind(isUtf8, st, good, bad, tail);
      StoppedLeaves(isUtf8, st, front, more);
    }
  }

  lemma FrontMeetsFrame(isUtf8: bytes -> bool, st: WsState, frames: seq<ClientFrame>, rest: bytes,
                        front: bytes, more: bytes)
    requires AllEncodable(frames) && InOrder(isUtf8, st, frames) < |frames| && front + more == Wire(frames) + rest
    ensures RunFrames(isUtf8, st, front).stopped <==> |front| >= Reach(isUtf8, st, frames)
  {
    var k := InOrder(isUtf8, st, frames);
    InOrderFront(isUtf8, st, frames);
    CutAtBad(frames, k, rest);
    FrontMeets(isUtf8, st, frames[..k], frames[k], Wire(frames[k + 1..]) + rest, front, more);
  }

  lemma FrontMeetsHeader(isUtf8: bytes -> bool, st: WsState, frames: seq<ClientFrame>, rest: bytes,
                         front: bytes, more: bytes)
    requires AllEncodable(frames) && InOrder(isUtf8, st, frames) == |frames| && front + more == Wire(frames) + rest
    requires DecodeFrame(rest).NotMasked?
    ensures RunFrames(isUtf8, st, front).stopped <==> |front| >= Reach(isUtf8, st, frames)
  {
    var wire := Wire(frames);
    assert |front + more| == |wire| + |rest|;
    if |front| >= |wire| {
      CutThere(wire, rest, front, more);
      StartOfHeader(front[|wire|..], more);
      UnmaskedStaysUnread(isUtf8, st, frames, front[|wire|..]);
    } else if RunFrames(isUtf8, st, front).stopped {
      UnmaskedStaysUnread(isUtf8, st, frames, rest);
      StoppedLeaves(isUtf8, st, front, more);
    }
  }

  lemma StartOfHeader(x: bytes, more: bytes)
    requires DecodeFrame(x + more).NotMasked?
    ensures DecodeFrame(x).NotMasked? <==> |x| >= 2
    ensures !DecodeFrame(x).Frame?
  {
    DecodersAgree(x + more);
    DecodersAgree(x);
    if |x| >= 2 {
      assert (x + more)[1] == x[1];
    }
  }

  lemma ButLastIsFront(unread: bytes, pieces: seq<bytes>)
    ensures unread + Concat(AllButLast(pieces)) <= unread + Concat(pieces)
    decreases |pieces|
  {
    if |pieces| > 1 {
      ButLast(unread, pieces);
      ButLastIsFront(unread + pieces[0], pieces[1..]);
    }
  }

  lemma BehindFirstBad(frames: seq<ClientFrame>, rest: bytes)
    requires AllEncodable(frames) && !DecodeFrame(rest).Frame?
    ensures DecodeFrame(Wire(frames) + rest).NeedMore? <==> frames == [] && DecodeFrame(rest).NeedMore?
  {
    if frames == [] {
      assert [] + rest == rest;
    } else {
      Associative(WireFrame(frames[0]), Wire(frames[1..]), rest);
      DecodeWire(frames[0], Wire(frames[1..]) + rest);
    }
  }

  // The condition on the runs and the one on the frames, for a prefix `front` of the bytes.
  ghost predicate RunsAgree(isUtf8: bytes -> bool, st: WsState, all: bytes, front: bytes) {
    var whole := RunFrames(isUtf8, st, all);
    !whole.stopped || DecodeFrame(whole.rest).NeedMore? || !RunFrames(isUtf8, st, front).stopped
  }

  ghost predicate FramesAgree(isUtf8: bytes -> bool, st: WsState, frames: seq<ClientFrame>, rest: bytes, size: nat)
    requires AllEncodable(frames)
  {
    var k := InOrder(isUtf8, st, frames);
    || (k == |frames| && DecodeFrame(rest).NeedMore?)
    || (k + 1 == |frames| && DecodeFrame(rest).NeedMore?)
    || size < Reach(isUtf8, st, frames)
  }

  lemma AgreeAtFrame(isUtf8: bytes -> bool, st: WsState, frames: seq<ClientFrame>, rest: bytes,
                     front: bytes, more: bytes)
    requires AllEncodable(frames) && InOrder(isUtf8, st, frames) < |frames| && !DecodeFrame(rest).Frame?
    requires front + more == Wire(frames) + rest
    ensures RunsAgree(isUtf8, st, front + more, front) <==> FramesAgree(isUtf8, st, frames, rest, |front|)
  {
    FrontMeetsFrame(isUtf8, st, frames, rest, front, more);
    NothingBehind(isUtf8, st, frames, rest);
  }

  lemma NothingBehind(isUtf8: bytes -> bool, st: WsState, frames: seq<ClientFrame>, rest: bytes)
    requires AllEncodable(frames) && InOrder(isUtf8, st, frames) < |frames| && !DecodeFrame(rest).Frame?
    ensures var o := RunFrames(isUtf8, st, Wire(frames) + rest);
            && o.stopped
            && (DecodeFrame(o.rest).NeedMore?
                <==> InOrder(isUtf8, st, frames) + 1 == |frames| && DecodeFrame(rest).NeedMore?)
  {
    StopsBehindFirstBad(isUtf8, st, frames, rest);
    BehindFirstBad(frames[InOrder(isUtf8, st, frames) + 1..], rest);
  }

  lemma AgreeAtHeader(isUtf8: bytes -> bool, st: WsState, frames: seq<ClientFrame>, rest: bytes,
                      front: bytes, more: bytes)
    requires AllEncodable(frames) && InOrder(isUtf8, st, frames) == |frames| && !DecodeFrame(rest).Frame?
    requires front + more == Wire(frames) + rest
    ensures RunsAgree(isUtf8, st, front + more, front) <==> FramesAgree(isUtf8, st, frames, rest, |front|)
  {
    UnmaskedStaysUnread(isUtf8, st, frames, rest);
    if DecodeFrame(rest).NotMasked? {
      FrontMeetsHeader(isUtf8, st, frames, rest, front, more);
    }
  }

  /** From a waiting connection, in a message or not, deliveries in pieces have the
      outcome of one delivery exactly if no frame violates the rules and no unmasked
      header follows, or the violating frame is the last and nothing to act on follows
      it, or the violation is met only in the last piece. */
  lemma SplitByFrames(isUtf8: bytes -> bool, st: WsState, unread: bytes, pieces: seq<bytes>)
    returns (frames: seq<ClientFrame>, rest: bytes)
    requires DecodeFrame(unread).NeedMore?
    ensures AllEncodable(frames) && unread + Concat(pieces) == Wire(frames) + rest && !DecodeFrame(rest).Frame?
    ensures FeedFrames(isUtf8, st, unread, pieces) == RunFrames(isUtf8, st, unread + Concat(pieces))
            <==> FramesAgree(isUtf8, st, frames, rest, |unread + Concat(AllButLast(pieces))|)
  {
    var all, front := unread + Concat(pieces), unread + Concat(AllButLast(pieces));
    frames, rest := EveryStreamIsFrames(all);
    ButLastIsFront(unread, pieces);
    var more := all[|front|..];
    assert front + more == all;
    assert RunsAgree(isUtf8, st, all, front) <==> FramesAgree(isUtf8, st, frames, rest, |front|) by {
      if InOrder(isUtf8, st, frames) < |frames| {
        AgreeAtFrame(isUtf8, st, frames, rest, front, more);
      } else {
        AgreeAtHeader(isUtf8, st, frames, rest, front, more);
      }
    }
    SplitExactlyWhenFrames(isUtf8, st, unread, pieces);
  }
}
