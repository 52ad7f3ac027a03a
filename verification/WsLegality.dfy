/** Client streams as the standard wants them (sections 5.2, 5.4 and 5.5 of RFC 6455),
    and the flaws with which the frame loop accepts others. */
module WsLegality {
  import opened Bytes
  import opened Frames
  import opened Incremental
  import opened Mask
  import opened Sequences
  import opened WsMachine
  import opened WsTolerance
  import opened WsWire

  // --------------------------------------------------------------- the standard

  // The most significant bit of a 64-bit length is zero.
  const MAX_PAYLOAD: nat := 0x7FFF_FFFF_FFFF_FFFF

  // A close frame may have a body: a status code and a reason.
  predicate CloseBody(isUtf8: bytes -> bool, payload: bytes) {
    payload == [] || (|payload| >= 2 && isUtf8(payload[2..]))
  }

  ghost predicate LegalControl(isUtf8: bytes -> bool, f: ClientFrame) {
    && 0x8 <= f.opcode <= 0xA && f.fin && |f.payload| <= 125
    && f.rsv == 0 && f.form == Short
    && (f.opcode == 0x8 ==> CloseBody(isUtf8, f.payload))
  }

  ghost predicate LegalPart(isUtf8: bytes -> bool, p: Part) {
    && |p.data| <= MAX_PAYLOAD && p.form == MinimalForm(|p.data|) && p.rsv == 0
    && forall i | 0 <= i < |p.controls| :: LegalControl(isUtf8, p.controls[i])
  }

  ghost predicate LegalParts(isUtf8: bytes -> bool, opcode: byte, parts: seq<Part>) {
    && (opcode == TEXT || opcode == BINARY)
    && forall i | 0 <= i < |parts| :: LegalPart(isUtf8, parts[i])
  }

  ghost predicate Legal(isUtf8: bytes -> bool, u: Unit) {
    match u
    case Control(f) => LegalControl(isUtf8, f)
    case Message(opcode, parts) =>
      && LegalParts(isUtf8, opcode, parts) && parts != [] && parts[|parts| - 1].controls == []
      && (opcode == TEXT ==> isUtf8(Data(parts)))
  }

  ghost predicate AllLegal(isUtf8: bytes -> bool, units: seq<Unit>) {
    forall i | 0 <= i < |units| :: Legal(isUtf8, units[i])
  }

  // Section 5.5.1: no data frame follows a close frame.
  predicate NoDataAfterClose(frames: seq<ClientFrame>) {
    forall i, j | 0 <= i < j < |frames| && frames[i].opcode == 0x8 :: frames[j].opcode >= 0x8
  }

  ghost predicate SpellsLegally(isUtf8: bytes -> bool, frames: seq<ClientFrame>, units: seq<Unit>, opcode: byte,
                                parts: seq<Part>) {
    && AllLegal(isUtf8, units) && (parts != [] ==> LegalParts(isUtf8, opcode, parts))
    && frames == StreamFrames(units) + OpenFrames(opcode, parts) && NoDataAfterClose(frames)
  }

  /** Whole messages and control frames, then the start of a message. */
  ghost predicate IsLegal(isUtf8: bytes -> bool, frames: seq<ClientFrame>) {
    exists units, opcode, parts :: SpellsLegally(isUtf8, frames, units, opcode, parts)
  }

  // ------------------------------------------- the flaws the loop does not look for

  /** A frame without a reserved opcode, a reserved bit, a length that is too long or
      written longer than need be, or a malformed close body. */
  predicate Proper(isUtf8: bytes -> bool, f: ClientFrame) {
    && (f.opcode <= 0x2 || 0x8 <= f.opcode <= 0xA)
    && f.rsv == 0
    && f.form == MinimalForm(|f.payload|) && |f.payload| <= MAX_PAYLOAD
    && (f.opcode == 0x8 ==> CloseBody(isUtf8, f.payload))
  }

  predicate AllProper(isUtf8: bytes -> bool, frames: seq<ClientFrame>) {
    forall i | 0 <= i < |frames| :: Proper(isUtf8, frames[i])
  }

  predicate Flawless(isUtf8: bytes -> bool, frames: seq<ClientFrame>) {
    AllProper(isUtf8, frames) && NoDataAfterClose(frames)
  }

  // ------------------------------------------------------ frame by frame, unit by unit

  lemma ProperAppend(isUtf8: bytes -> bool, a: seq<ClientFrame>, b: seq<ClientFrame>)
    ensures AllProper(isUtf8, a + b) <==> AllProper(isUtf8, a) && AllProper(isUtf8, b)
  {
    assert forall i | 0 <= i < |a| :: (a + b)[i] == a[i];
    assert forall i | 0 <= i < |b| :: (a + b)[|a| + i] == b[i];
  }

  lemma ControlsProper(isUtf8: bytes -> bool, frames: seq<ClientFrame>)
    requires ToleratedControls(frames)
    ensures AllProper(isUtf8, frames) <==> forall i | 0 <= i < |frames| :: LegalControl(isUtf8, frames[i])
  {
  }

  lemma PartProper(isUtf8: bytes -> bool, p: Part, f: ClientFrame)
    requires ToleratedPart(p) && f.opcode <= 0x2 && f.payload == p.data && f.form == p.form && f.rsv == p.rsv
    ensures AllProper(isUtf8, [f] + p.controls) <==> LegalPart(isUtf8, p)
  {
    ProperAppend(isUtf8, [f], p.controls);
    ControlsProper(isUtf8, p.controls);
    assert AllProper(isUtf8, [f]) <==> Proper(isUtf8, [f][0]);
  }

  ghost predicate EveryPart(isUtf8: bytes -> bool, parts: seq<Part>) {
    forall i | 0 <= i < |parts| :: LegalPart(isUtf8, parts[i])
  }

  ghost predicate TakenParts(parts: seq<Part>) {
    forall i | 0 <= i < |parts| :: ToleratedPart(parts[i])
  }

  lemma EveryPartFirst(isUtf8: bytes -> bool, parts: seq<Part>)
    requires parts != []
    ensures EveryPart(isUtf8, parts) <==> LegalPart(isUtf8, parts[0]) && EveryPart(isUtf8, parts[1..])
    ensures TakenParts(parts) <==> ToleratedPart(parts[0]) && TakenParts(parts[1..])
  {
    assert forall i | 1 <= i < |parts| :: parts[i] == parts[1..][i - 1];
  }

  lemma {:induction false} PartsProper(isUtf8: bytes -> bool, first: byte, parts: seq<Part>)
    requires first <= 0x2 && TakenParts(parts)
    ensures AllProper(isUtf8, PartFrames(first, parts)) <==> EveryPart(isUtf8, parts)
    ensures AllProper(isUtf8, OpenFrames(first, parts)) <==> EveryPart(isUtf8, parts)
    decreases |parts|
  {
    if parts != [] {
      var p, later := parts[0], parts[1..];
      EveryPartFirst(isUtf8, parts);
      PartsProper(isUtf8, 0, later);
      var last, open := OpenFrame(first, |parts| == 1, p), OpenFrame(first, false, p);
      PartProper(isUtf8, p, last);
      PartProper(isUtf8, p, open);
      ProperAppend(isUtf8, [last] + p.controls, PartFrames(0, later));
      ProperAppend(isUtf8, [open] + p.controls, OpenFrames(0, later));
    }
  }

  lemma UnitProper(isUtf8: bytes -> bool, u: Unit)
    requires Tolerated(isUtf8, u)
    ensures AllProper(isUtf8, UnitFrames(u)) <==> Legal(isUtf8, u)
  {
    match u
    case Control(f) => assert AllProper(isUtf8, [f]) <==> Proper(isUtf8, [f][0]);
    case Message(opcode, parts) => PartsProper(isUtf8, opcode, parts);
  }

  lemma LegalFirst(isUtf8: bytes -> bool, units: seq<Unit>)
    requires units != []
    ensures AllLegal(isUtf8, units) <==> Legal(isUtf8, units[0]) && AllLegal(isUtf8, units[1..])
    ensures AllTolerated(isUtf8, units) <==> Tolerated(isUtf8, units[0]) && AllTolerated(isUtf8, units[1..])
  {
    assert forall i | 1 <= i < |units| :: units[i] == units[1..][i - 1];
  }

  lemma {:induction false} StreamProper(isUtf8: bytes -> bool, units: seq<Unit>)
    requires AllTolerated(isUtf8, units)
    ensures AllProper(isUtf8, StreamFrames(units)) <==> AllLegal(isUtf8, units)
    decreases |units|
  {
    if units != [] {
      LegalFirst(isUtf8, units);
      UnitProper(isUtf8, units[0]);
      StreamProper(isUtf8, units[1..]);
      ProperAppend(isUtf8, UnitFrames(units[0]), StreamFrames(units[1..]));
    }
  }

  // ------------------------------------------------------------- legal is tolerated

  lemma LegalPartTolerated(isUtf8: bytes -> bool, p: Part)
    requires LegalPart(isUtf8, p)
    ensures ToleratedPart(p)
  {
  }

  lemma LegalIsTolerated(isUtf8: bytes -> bool, u: Unit)
    requires Legal(isUtf8, u)
    ensures Tolerated(isUtf8, u)
  {
    if u.Message? {
      forall i | 0 <= i < |u.parts|
        ensures ToleratedPart(u.parts[i])
      {
        LegalPartTolerated(isUtf8, u.parts[i]);
      }
    }
  }

  lemma SpelledLegally(isUtf8: bytes -> bool, frames: seq<ClientFrame>, units: seq<Unit>, opcode: byte,
                       parts: seq<Part>)
    requires SpellsLegally(isUtf8, frames, units, opcode, parts)
    ensures Spells(isUtf8, frames, units, opcode, parts)
  {
    forall i | 0 <= i < |units|
      ensures Tolerated(isUtf8, units[i])
    {
      LegalIsTolerated(isUtf8, units[i]);
    }
    forall i | parts != [] && 0 <= i < |parts|
      ensures ToleratedPart(parts[i])
    {
      LegalPartTolerated(isUtf8, parts[i]);
    }
  }

  lemma SpelledProperly(isUtf8: bytes -> bool, frames: seq<ClientFrame>, units: seq<Unit>, opcode: byte,
                        parts: seq<Part>)
    requires Spells(isUtf8, frames, units, opcode, parts)
    ensures Flawless(isUtf8, frames) <==> SpellsLegally(isUtf8, frames, units, opcode, parts)
  {
    StreamProper(isUtf8, units);
    ProperAppend(isUtf8, StreamFrames(units), OpenFrames(opcode, parts));
    if parts != [] {
      PartsProper(isUtf8, opcode, parts);
    }
  }

  lemma {:induction false} ProperIsUnreserved(isUtf8: bytes -> bool, frames: seq<ClientFrame>)
    requires AllProper(isUtf8, frames)
    ensures Unreserved(frames) == frames
    decreases |frames|
  {
    if frames != [] {
      assert forall i | 0 <= i < |frames[1..]| :: frames[1..][i] == frames[i + 1];
      assert Proper(isUtf8, frames[0]);
      ProperIsUnreserved(isUtf8, frames[1..]);
    }
  }

  /** Legal streams are the accepted ones without a flaw. Hence, of the lists that are
      free of reserved opcodes, reserved bits, overlong lengths, malformed close bodies
      and data after a close, the loop gets through exactly the legal ones. */
  lemma AcceptsExactlyTheLegal(isUtf8: bytes -> bool, closed: bool, frames: seq<ClientFrame>)
    requires AllEncodable(frames)
    ensures IsLegal(isUtf8, frames)
            <==> Flawless(isUtf8, frames) && !HandleAll(isUtf8, WsState(0, [], closed), frames).stop
  {
    AcceptsExactlyTheTolerated(isUtf8, closed, frames);
    forall units, opcode, parts | SpellsLegally(isUtf8, frames, units, opcode, parts)
      ensures Flawless(isUtf8, frames) && IsTolerated(isUtf8, Unreserved(frames))
    {
      SpelledLegally(isUtf8, frames, units, opcode, parts);
      SpelledProperly(isUtf8, frames, units, opcode, parts);
      ProperIsUnreserved(isUtf8, frames);
    }
    if Flawless(isUtf8, frames) && IsTolerated(isUtf8, Unreserved(frames)) {
      ProperIsUnreserved(isUtf8, frames);
      var units, opcode, parts :| Spells(isUtf8, frames, units, opcode, parts);
      SpelledProperly(isUtf8, frames, units, opcode, parts);
    }
  }

  // ------------------------------------------------------ what becomes of the flawed

  /** Any final control frame of at most 125 bytes is delivered and changes nothing else:
      one with an unknown opcode, with reserved bits, a malformed close, and whatever
      comes behind a close. */
  lemma ControlsGetThrough(isUtf8: bytes -> bool, st: WsState, f: ClientFrame, rest: bytes)
    requires ToleratedControl(f)
    ensures RunFrames(isUtf8, st, WireFrame(f) + rest)
         == After([Delivered(f.opcode, true, f.payload)], RunFrames(isUtf8, st, rest))
  {
    RunOneFrame(isUtf8, st, f, rest);
  }

  // The same frame with clear reserved bits and its length in the shortest form.
  function Mended(f: ClientFrame): ClientFrame {
    f.(rsv := 0, form := MinimalForm(|f.payload|))
  }

  /** Reserved bits and overlong lengths make no difference to anything. */
  lemma FormMakesNoDifference(isUtf8: bytes -> bool, st: WsState, f: ClientFrame, rest: bytes)
    requires Encodable(f)
    ensures Encodable(Mended(f))
    ensures var flawed := RunFrames(isUtf8, st, WireFrame(f) + rest);
            var mended := RunFrames(isUtf8, st, WireFrame(Mended(f)) + rest);
            flawed == mended
  {
    var g := Mended(f);
    StepWire(isUtf8, st, f, rest);
    StepWire(isUtf8, st, g, rest);
    LoopIsIncremental(isUtf8);
    UnfoldRun(Loop(isUtf8), ANY, st, WireFrame(f) + rest);
    UnfoldRun(Loop(isUtf8), ANY, st, WireFrame(g) + rest);
    assert (WireFrame(f) + rest)[|WireFrame(f)|..] == rest == (WireFrame(g) + rest)[|WireFrame(g)|..];
  }

  /** Each flaw alone gets through: an unknown control opcode, a reserved data opcode, a
      reserved bit, an overlong length, a close body of one byte, data after a close. */
  lemma EveryFlawGetsThrough(isUtf8: bytes -> bool, closed: bool)
    ensures
      var key := [0, 0, 0, 0];
      var close := ClientFrame(true, 0x8, [], key, Short, 0);
      var data := ClientFrame(true, BINARY, [], key, Short, 0);
      var flawed := [[close.(opcode := 0xB)], [data.(opcode := 0x3)], [data.(rsv := 0x40)], [data.(form := Medium)],
                     [close.(payload := [3])], [close, data]];
      forall i | 0 <= i < |flawed| ::
        && AllEncodable(flawed[i]) && !IsLegal(isUtf8, flawed[i])
        && !HandleAll(isUtf8, WsState(0, [], closed), flawed[i]).stop
  {
    var key := [0, 0, 0, 0];
    var close := ClientFrame(true, 0x8, [], key, Short, 0);
    var data := ClientFrame(true, BINARY, [], key, Short, 0);
    FlawedFrame(isUtf8, closed, close.(opcode := 0xB));
    FlawedFrame(isUtf8, closed, data.(opcode := 0x3));
    FlawedFrame(isUtf8, closed, data.(rsv := 0x40));
    FlawedFrame(isUtf8, closed, data.(form := Medium));
    FlawedFrame(isUtf8, closed, close.(payload := [3]));
    var st, pair := WsState(0, [], closed), [close, data];
    assert !NoDataAfterClose(pair) by {
      assert pair[0].opcode == 0x8 && pair[1].opcode < 0x8;
    }
    HandleOne(isUtf8, st, data);
    assert pair[1..] == [data];
    AcceptsExactlyTheLegal(isUtf8, closed, pair);
  }

  lemma FlawedFrame(isUtf8: bytes -> bool, closed: bool, f: ClientFrame)
    requires Encodable(f) && !Proper(isUtf8, f)
    requires !Handle(isUtf8, WsState(0, [], closed), f.opcode, f.fin, f.payload).stop
    ensures AllEncodable([f]) && !IsLegal(isUtf8, [f]) && !HandleAll(isUtf8, WsState(0, [], closed), [f]).stop
  {
    HandleOne(isUtf8, WsState(0, [], closed), f);
    assert !AllProper(isUtf8, [f]) by { assert !Proper(isUtf8, [f][0]); }
    AcceptsExactlyTheLegal(isUtf8, closed, [f]);
  }
}
