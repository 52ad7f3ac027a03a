/** The converse of transparency: the frame loop goes through exactly those client
    frames that whole messages and control frames are made of, with a message
    possibly unfinished, and skips frames with a reserved data opcode. */
module WsTolerance {
  import opened Bytes
  import opened Frames
  import opened Mask
  import opened Sequences
  import opened WsMachine
  import opened WsWire

  // The frames of the fragments so far of an unfinished message.
  function OpenFrames(opcode: byte, parts: seq<Part>): seq<ClientFrame> {
    if parts == [] then []
    else
      var p := parts[0];
      [ClientFrame(false, opcode, p.data, p.mask, p.form, p.rsv)] + p.controls + OpenFrames(0, parts[1..])
  }

  ghost predicate ToleratedOpen(opcode: byte, parts: seq<Part>) {
    parts != [] ==> (opcode == TEXT || opcode == BINARY) && forall i | 0 <= i < |parts| :: ToleratedPart(parts[i])
  }

  // Data opcodes 3 to 7 are reserved; the loop skips their frames.
  predicate Reserved(f: ClientFrame) {
    3 <= f.opcode < 8
  }

  ghost predicate Plain(frames: seq<ClientFrame>) {
    AllEncodable(frames) && forall i | 0 <= i < |frames| :: !Reserved(frames[i])
  }

  /** `frames` are those of whole units and of an unfinished message. */
  ghost predicate Spells(isUtf8: bytes -> bool, frames: seq<ClientFrame>, units: seq<Unit>, opcode: byte,
                         parts: seq<Part>) {
    && AllTolerated(isUtf8, units) && ToleratedOpen(opcode, parts)
    && frames == StreamFrames(units) + OpenFrames(opcode, parts)
  }

  // What the loop has made of such frames.
  ghost predicate Shows(closed: bool, units: seq<Unit>, opcode: byte, parts: seq<Part>, r: Reaction) {
    && !r.stop && r.st == WsState(if parts == [] then 0 else opcode, Data(parts), closed)
    && r.events == Expected(units) + ControlEvents(InterleavedControls(parts))
  }

  // --------------------------------------------- how the notions grow at the end

  lemma {:induction false} StreamSnoc(units: seq<Unit>, u: Unit)
    ensures StreamFrames(units + [u]) == StreamFrames(units) + UnitFrames(u)
    ensures Expected(units + [u]) == Expected(units) + Expected([u])
  {
    if units == [] {
      assert [u][1..] == [];
      assert UnitFrames(u) + [] == UnitFrames(u);
      assert [] + Expected([u]) == Expected([u]);
    } else {
      assert (units + [u])[1..] == units[1..] + [u];
      StreamSnoc(units[1..], u);
      Associative(UnitFrames(units[0]), StreamFrames(units[1..]), UnitFrames(u));
      var first := match units[0]
        case Control(f) => ControlEvents([f])
        case Message(opcode, parts) =>
          ControlEvents(InterleavedControls(parts)) + [Delivered(opcode, true, Data(parts))];
      Associative(first, Expected(units[1..]), Expected([u]));
    }
  }

  function Next(opcode: byte, parts: seq<Part>): byte {
    if parts == [] then opcode else 0
  }

  function OpenFrame(opcode: byte, fin: bool, p: Part): ClientFrame {
    ClientFrame(fin, opcode, p.data, p.mask, p.form, p.rsv)
  }

  lemma {:induction false} PartsSnoc(opcode: byte, parts: seq<Part>, p: Part)
    requires p.controls == []
    ensures OpenFrames(opcode, parts + [p]) == OpenFrames(opcode, parts) + [OpenFrame(Next(opcode, parts), false, p)]
    ensures PartFrames(opcode, parts + [p]) == OpenFrames(opcode, parts) + [OpenFrame(Next(opcode, parts), true, p)]
    ensures Data(parts + [p]) == Data(parts) + p.data
    ensures InterleavedControls(parts + [p]) == InterleavedControls(parts)
  {
    if parts == [] {
      assert [p][1..] == [];
    } else {
      var first, later := parts[0], parts[1..];
      assert (parts + [p])[1..] == later + [p];
      PartsSnoc(0, later, p);
      var head := [OpenFrame(opcode, false, first)] + first.controls;
      Associative(head, OpenFrames(0, later), [OpenFrame(0, false, p)]);
      Associative(head, OpenFrames(0, later), [OpenFrame(0, true, p)]);
      Associative(first.data, Data(later), p.data);
    }
  }

  function WithControl(parts: seq<Part>, f: ClientFrame): seq<Part>
    requires parts != []
  {
    var last := parts[|parts| - 1];
    parts[..|parts| - 1] + [last.(controls := last.controls + [f])]
  }

  lemma {:induction false} ControlSnoc(opcode: byte, parts: seq<Part>, f: ClientFrame)
    requires parts != []
    ensures OpenFrames(opcode, WithControl(parts, f)) == OpenFrames(opcode, parts) + [f]
    ensures Data(WithControl(parts, f)) == Data(parts)
    ensures InterleavedControls(WithControl(parts, f)) == InterleavedControls(parts) + [f]
  {
    var p, later := parts[0], parts[1..];
    var head := [OpenFrame(opcode, false, p)];
    if later == [] {
      assert WithControl(parts, f)[1..] == [];
      Associative(head, p.controls, [f]);
    } else {
      assert WithControl(parts, f)[0] == p && WithControl(parts, f)[1..] == WithControl(later, f);
      ControlSnoc(0, later, f);
      Associative(head + p.controls, OpenFrames(0, later), [f]);
      Associative(p.controls, InterleavedControls(later), [f]);
    }
  }

  // ------------------------------------------------------------- one more frame

  function PartOf(f: ClientFrame): Part {
    Part(f.payload, f.mask, f.form, f.rsv, [])
  }

  lemma ToleratedSnoc(isUtf8: bytes -> bool, units: seq<Unit>, u: Unit)
    requires AllTolerated(isUtf8, units) && Tolerated(isUtf8, u)
    ensures AllTolerated(isUtf8, units + [u])
  {
  }

  // A whole unit ends: `before` is what was unfinished so far.
  lemma UnitEnds(isUtf8: bytes -> bool, closed: bool, frames: seq<ClientFrame>, units: seq<Unit>,
                 before: seq<ClientFrame>,
                 shown: seq<WsEvent>, u: Unit, f: ClientFrame, events: seq<WsEvent>)
    requires AllTolerated(isUtf8, units) && Tolerated(isUtf8, u)
    requires frames == StreamFrames(units) + before && UnitFrames(u) == before + [f]
    requires Expected([u]) == shown + events
    ensures Spells(isUtf8, frames + [f], units + [u], 0, [])
    ensures Shows(closed, units + [u], 0, [],
                  Reaction(WsState(0, [], closed), (Expected(units) + shown) + events, false))
  {
    ToleratedSnoc(isUtf8, units, u);
    StreamSnoc(units, u);
    Associative(StreamFrames(units), before, [f]);
    assert StreamFrames(units + [u]) + [] == StreamFrames(units + [u]);
    Associative(Expected(units), shown, events);
    assert Expected(units + [u]) + [] == Expected(units + [u]);
  }

  // The unfinished message goes on.
  lemma MessageGoesOn(isUtf8: bytes -> bool, closed: bool, frames: seq<ClientFrame>, units: seq<Unit>,
                      opcode: byte, parts: seq<Part>, more: seq<Part>, f: ClientFrame, opcode1: byte,
                      events: seq<WsEvent>)
    requires Spells(isUtf8, frames, units, opcode, parts) && ToleratedOpen(opcode1, more) && more != []
    requires OpenFrames(opcode1, more) == OpenFrames(opcode, parts) + [f]
    requires ControlEvents(InterleavedControls(more)) == ControlEvents(InterleavedControls(parts)) + events
    ensures Spells(isUtf8, frames + [f], units, opcode1, more)
    ensures Shows(closed, units, opcode1, more,
                  Reaction(WsState(opcode1, Data(more), closed),
                           (Expected(units) + ControlEvents(InterleavedControls(parts))) + events, false))
  {
    Associative(StreamFrames(units), OpenFrames(opcode, parts), [f]);
    Associative(Expected(units), ControlEvents(InterleavedControls(parts)), events);
  }

  // A control frame between messages is a unit of its own.
  lemma ControlBetween(isUtf8: bytes -> bool, closed: bool, frames: seq<ClientFrame>, units: seq<Unit>,
                       opcode: byte, f: ClientFrame)
    requires Spells(isUtf8, frames, units, opcode, []) && ToleratedControl(f)
    ensures Spells(isUtf8, frames + [f], units + [Control(f)], opcode, [])
    ensures Shows(closed, units + [Control(f)], opcode, [],
                  Reaction(WsState(0, [], closed), (Expected(units) + []) + ControlEvents([f]), false))
  {
    assert Expected([Control(f)]) == ControlEvents([f]) + [] == ControlEvents([f]);
    assert [] + ControlEvents([f]) == ControlEvents([f]);
    UnitEnds(isUtf8, closed, frames, units, [], [], Control(f), f, ControlEvents([f]));
  }

  lemma ControlStep(isUtf8: bytes -> bool, closed: bool, frames: seq<ClientFrame>, units: seq<Unit>,
                    opcode: byte, parts: seq<Part>, f: ClientFrame)
    returns (units1: seq<Unit>, parts1: seq<Part>)
    requires Spells(isUtf8, frames, units, opcode, parts) && ToleratedControl(f)
    ensures Spells(isUtf8, frames + [f], units1, opcode, parts1)
    ensures Shows(closed, units1, opcode, parts1,
                  Reaction(WsState(if parts == [] then 0 else opcode, Data(parts), closed),
                           (Expected(units) + ControlEvents(InterleavedControls(parts))) + ControlEvents([f]), false))
  {
    if parts == [] {
      units1, parts1 := units + [Control(f)], [];
      ControlBetween(isUtf8, closed, frames, units, opcode, f);
    } else {
      units1, parts1 := units, WithControl(parts, f);
      ControlSnoc(opcode, parts, f);
      ControlEventsAppend(InterleavedControls(parts), [f]);
      MessageGoesOn(isUtf8, closed, frames, units, opcode, parts, parts1, f, opcode, ControlEvents([f]));
    }
  }

  lemma LastPartTolerated(isUtf8: bytes -> bool, opcode: byte, parts: seq<Part>, f: ClientFrame)
    requires ToleratedOpen(opcode, parts) && Encodable(f) && (opcode == TEXT || opcode == BINARY)
    requires opcode == TEXT ==> isUtf8(Data(parts) + f.payload)
    ensures Tolerated(isUtf8, Message(opcode, parts + [PartOf(f)]))
  {
    var p, more := PartOf(f), parts + [PartOf(f)];
    PartsSnoc(opcode, parts, p);
    assert more[|more| - 1] == p;
    forall i | 0 <= i < |more|
      ensures ToleratedPart(more[i])
    {
      if i < |parts| { assert more[i] == parts[i]; }
    }
  }

  // The final frame of a message, unfragmented or not.
  lemma LastFrameStep(isUtf8: bytes -> bool, closed: bool, frames: seq<ClientFrame>, units: seq<Unit>,
                      opcode: byte, parts: seq<Part>, f: ClientFrame)
    requires Spells(isUtf8, frames, units, opcode, parts) && Encodable(f) && (opcode == TEXT || opcode == BINARY)
    requires f.fin && f.opcode == Next(opcode, parts) && (opcode == TEXT ==> isUtf8(Data(parts) + f.payload))
    ensures var u := Message(opcode, parts + [PartOf(f)]);
            && Spells(isUtf8, frames + [f], units + [u], 0, [])
            && Shows(closed, units + [u], 0, [],
                     Reaction(WsState(0, [], closed),
                              (Expected(units) + ControlEvents(InterleavedControls(parts)))
                              + [Delivered(opcode, true, Data(parts) + f.payload)], false))
  {
    var u := Message(opcode, parts + [PartOf(f)]);
    var events := [Delivered(opcode, true, Data(parts) + f.payload)];
    PartsSnoc(opcode, parts, PartOf(f));
    LastPartTolerated(isUtf8, opcode, parts, f);
    assert Expected([u]) == ControlEvents(InterleavedControls(parts)) + events by {
      assert [u][1..] == [] && Expected([u]) == (ControlEvents(InterleavedControls(parts)) + events) + [];
    }
    UnitEnds(isUtf8, closed, frames, units, OpenFrames(opcode, parts), ControlEvents(InterleavedControls(parts)), u,
             f, events);
  }

  // A frame of a message that goes on.
  lemma OpenFrameStep(isUtf8: bytes -> bool, closed: bool, frames: seq<ClientFrame>, units: seq<Unit>,
                      opcode: byte, parts: seq<Part>, f: ClientFrame)
    requires Spells(isUtf8, frames, units, opcode, parts) && Encodable(f) && (opcode == TEXT || opcode == BINARY)
    requires !f.fin && f.opcode == Next(opcode, parts)
    ensures var more := parts + [PartOf(f)];
            && Spells(isUtf8, frames + [f], units, opcode, more)
            && Shows(closed, units, opcode, more,
                     Reaction(WsState(opcode, Data(parts) + f.payload, closed),
                              (Expected(units) + ControlEvents(InterleavedControls(parts))) + [], false))
  {
    var more := parts + [PartOf(f)];
    PartsSnoc(opcode, parts, PartOf(f));
    assert ToleratedOpen(opcode, more) by {
      forall i | 0 <= i < |more|
        ensures ToleratedPart(more[i])
      {
        if i < |parts| { assert more[i] == parts[i]; }
      }
    }
    assert ControlEvents(InterleavedControls(parts)) + [] == ControlEvents(InterleavedControls(parts));
    MessageGoesOn(isUtf8, closed, frames, units, opcode, parts, more, f, opcode, []);
  }

  /** A frame that the loop gets through continues such a stream. */
  lemma StepSpells(isUtf8: bytes -> bool, closed: bool, frames: seq<ClientFrame>, units: seq<Unit>,
                   opcode: byte, parts: seq<Part>, r0: Reaction, f: ClientFrame)
    returns (units1: seq<Unit>, opcode1: byte, parts1: seq<Part>)
    requires Spells(isUtf8, frames, units, opcode, parts) && Shows(closed, units, opcode, parts, r0)
    requires Encodable(f) && !Reserved(f) && !Handle(isUtf8, r0.st, f.opcode, f.fin, f.payload).stop
    ensures var r := Handle(isUtf8, r0.st, f.opcode, f.fin, f.payload);
            && Spells(isUtf8, frames + [f], units1, opcode1, parts1)
            && Shows(closed, units1, opcode1, parts1, Reaction(r.st, r0.events + r.events, false))
  {
    assert ControlEvents([f]) == [Delivered(f.opcode, true, f.payload)];
    if f.opcode >= 8 {
      opcode1 := opcode;
      units1, parts1 := ControlStep(isUtf8, closed, frames, units, opcode, parts, f);
    } else {
      opcode1 := if parts == [] then f.opcode else opcode;
      assert Spells(isUtf8, frames, units, opcode1, parts);
      assert [] + f.payload == f.payload;
      if f.fin {
        LastFrameStep(isUtf8, closed, frames, units, opcode1, parts, f);
        units1, parts1 := units + [Message(opcode1, parts + [PartOf(f)])], [];
        opcode1 := 0;
      } else {
        OpenFrameStep(isUtf8, closed, frames, units, opcode1, parts, f);
        units1, parts1 := units, parts + [PartOf(f)];
      }
    }
  }

  lemma {:induction false} StoppedStays(isUtf8: bytes -> bool, st: WsState, a: seq<ClientFrame>, b: seq<ClientFrame>)
    requires HandleAll(isUtf8, st, a).stop
    ensures HandleAll(isUtf8, st, a + b).stop
    decreases |a|
  {
    assert (a + b)[1..] == a[1..] + b;
    var r := Handle(isUtf8, st, a[0].opcode, a[0].fin, a[0].payload);
    if !r.stop { StoppedStays(isUtf8, r.st, a[1..], b); }
  }

  lemma {:induction false} PlainIsTolerated(isUtf8: bytes -> bool, closed: bool, frames: seq<ClientFrame>)
    returns (units: seq<Unit>, opcode: byte, parts: seq<Part>)
    requires Plain(frames) && !HandleAll(isUtf8, WsState(0, [], closed), frames).stop
    ensures Spells(isUtf8, frames, units, opcode, parts)
    ensures Shows(closed, units, opcode, parts, HandleAll(isUtf8, WsState(0, [], closed), frames))
  {
    var st := WsState(0, [], closed);
    if frames == [] {
      units, opcode, parts := [], 0, [];
    } else {
      var front, f := frames[..|frames| - 1], frames[|frames| - 1];
      assert frames == front + [f];
      if HandleAll(isUtf8, st, front).stop { StoppedStays(isUtf8, st, front, [f]); }
      var r0 := HandleAll(isUtf8, st, front);
      HandleAppend(isUtf8, st, front, [f]);
      HandleOne(isUtf8, r0.st, f);
      units, opcode, parts := PlainIsTolerated(isUtf8, closed, front);
      units, opcode, parts := StepSpells(isUtf8, closed, front, units, opcode, parts, r0, f);
    }
  }

  // ----------------------------------------------------------- reserved data opcodes

  function Unreserved(frames: seq<ClientFrame>): seq<ClientFrame> {
    if frames == [] then []
    else (if Reserved(frames[0]) then [] else [frames[0]]) + Unreserved(frames[1..])
  }

  /** Frames with a reserved data opcode are skipped, not refused: the loop does as if
      they were not there. */
  lemma {:induction false} ReservedFramesVanish(isUtf8: bytes -> bool, st: WsState, frames: seq<ClientFrame>)
    ensures HandleAll(isUtf8, st, frames) == HandleAll(isUtf8, st, Unreserved(frames))
    decreases |frames|
  {
    if frames != [] {
      var f, later := frames[0], Unreserved(frames[1..]);
      var r := Handle(isUtf8, st, f.opcode, f.fin, f.payload);
      if Reserved(f) {
        ReservedFramesVanish(isUtf8, st, frames[1..]);
        ThenThen([], [], HandleAll(isUtf8, st, frames[1..]));
        assert [] + later == later;
      } else {
        assert ([f] + later)[1..] == later;
        if !r.stop { ReservedFramesVanish(isUtf8, r.st, frames[1..]); }
      }
    }
  }

  lemma {:induction false} UnreservedIsPlain(frames: seq<ClientFrame>)
    requires AllEncodable(frames)
    ensures Plain(Unreserved(frames))
  {
    if frames != [] {
      UnreservedIsPlain(frames[1..]);
    }
  }

  /** Whatever the loop gets through without a violation are the frames of whole units
      and of an unfinished message, and was delivered as such. */
  lemma AcceptedIsTolerated(isUtf8: bytes -> bool, closed: bool, frames: seq<ClientFrame>)
    returns (units: seq<Unit>, opcode: byte, parts: seq<Part>)
    requires AllEncodable(frames) && !HandleAll(isUtf8, WsState(0, [], closed), frames).stop
    ensures Spells(isUtf8, Unreserved(frames), units, opcode, parts)
    ensures Shows(closed, units, opcode, parts, HandleAll(isUtf8, WsState(0, [], closed), frames))
  {
    UnreservedIsPlain(frames);
    ReservedFramesVanish(isUtf8, WsState(0, [], closed), frames);
    units, opcode, parts := PlainIsTolerated(isUtf8, closed, Unreserved(frames));
  }

  // ---------------------------------------------------------- and the other way

  lemma {:induction false} OpenIsAccepted(isUtf8: bytes -> bool, st: WsState, first: byte, opcode: byte,
                                          parts: seq<Part>)
    requires ToleratedOpen(opcode, parts) && (parts != [] ==> Expects(st, first, opcode))
    ensures !HandleAll(isUtf8, st, OpenFrames(first, parts)).stop
    decreases |parts|
  {
    if parts != [] {
      var p, later := parts[0], parts[1..];
      var frame := OpenFrame(first, false, p);
      var st1 := WsState(opcode, st.fragments + p.data, st.closed);
      assert ToleratedPart(p);
      PartReaction(isUtf8, st, first, opcode, false, p.data);
      HandleOne(isUtf8, st, frame);
      HandleControls(isUtf8, st1, p.controls);
      HandleAppend(isUtf8, st, [frame], p.controls);
      HandleAppend(isUtf8, st, [frame] + p.controls, OpenFrames(0, later));
      OpenIsAccepted(isUtf8, st1, 0, opcode, later);
    }
  }

  ghost predicate IsTolerated(isUtf8: bytes -> bool, frames: seq<ClientFrame>) {
    exists units, opcode, parts :: Spells(isUtf8, frames, units, opcode, parts)
  }

  /** The loop gets through a list of client frames if and only if, without those with
      a reserved data opcode, they are whole messages and control frames, then the
      start of a message. */
  lemma AcceptsExactlyTheTolerated(isUtf8: bytes -> bool, closed: bool, frames: seq<ClientFrame>)
    requires AllEncodable(frames)
    ensures !HandleAll(isUtf8, WsState(0, [], closed), frames).stop <==> IsTolerated(isUtf8, Unreserved(frames))
  {
    var st := WsState(0, [], closed);
    if !HandleAll(isUtf8, st, frames).stop {
      var units, opcode, parts := AcceptedIsTolerated(isUtf8, closed, frames);
    }
    forall units, opcode, parts | Spells(isUtf8, Unreserved(frames), units, opcode, parts)
      ensures !HandleAll(isUtf8, st, frames).stop
    {
      ReservedFramesVanish(isUtf8, st, frames);
      HandleStream(isUtf8, closed, units);
      HandleAppend(isUtf8, st, StreamFrames(units), OpenFrames(opcode, parts));
      OpenIsAccepted(isUtf8, st, opcode, opcode, parts);
    }
  }

  /** The same of bytes: every byte string is a list of frames and a rest without a
      complete one, and is gone through exactly if the list is tolerated and the rest
      does not begin with an unmasked header. */
  lemma AcceptsExactlyTheseBytes(isUtf8: bytes -> bool, closed: bool, unread: bytes)
    returns (frames: seq<ClientFrame>, rest: bytes)
    ensures AllEncodable(frames) && unread == Wire(frames) + rest && !DecodeFrame(rest).Frame?
    ensures RunFrames(isUtf8, WsState(0, [], closed), unread).stopped
            <==> !IsTolerated(isUtf8, Unreserved(frames)) || DecodeFrame(rest).NotMasked?
  {
    var st := WsState(0, [], closed);
    frames, rest := EveryStreamIsFrames(unread);
    AcceptsExactlyTheTolerated(isUtf8, closed, frames);
    var all := HandleAll(isUtf8, st, frames);
    if all.stop {
      RunWireStops(isUtf8, st, frames, rest);
    } else {
      RunWire(isUtf8, st, frames, rest);
      RunRest(isUtf8, all.st, rest);
    }
  }
}
