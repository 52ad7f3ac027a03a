/** The connection's WebSocket frame loop as a function of the unread bytes,
    and what it does to every client stream of messages (sections 5.2 to 5.5 of
    RFC 6455). */
module WsMachine {
  import opened Bytes
  import opened Mask
  import opened Frames
  import opened Incremental

  // Fragment reassembly state; `fragOpcode` is 0 outside a fragmented message.
  datatype WsState = WsState(fragOpcode: byte, fragments: bytes, closed: bool)

  datatype WsEvent =
    | Delivered(opcode: byte, fin: bool, payload: bytes)
    | Violation(code: nat, wire: bytes)

  datatype Reaction = Reaction(st: WsState, events: seq<WsEvent>, stop: bool)

  const TEXT: byte := 1
  const BINARY: byte := 2
  const PROTOCOL_ERROR: nat := 1002
  const INVALID_DATA: nat := 1007

  function CloseFrame(code: nat): bytes {
    ServerFrame(0x8, BigEndian(code, 2))
  }

  function Fail(st: WsState, code: nat): Reaction {
    Reaction(st.(closed := true), [Violation(code, CloseFrame(code))], true)
  }

  /** What one complete frame does: new state, events, and whether the loop breaks. */
  function Handle(isUtf8: bytes -> bool, st: WsState, opcode: byte, fin: bool, payload: bytes): Reaction {
    if opcode >= 0x8 then
      if |payload| > 125 || !fin then Fail(st, PROTOCOL_ERROR)
      else Reaction(st, [Delivered(opcode, fin, payload)], false)
    else if opcode == TEXT || opcode == BINARY then
      if st.fragOpcode != 0 then Fail(st, PROTOCOL_ERROR)
      else if fin then
        if opcode == TEXT && !isUtf8(payload) then Fail(st, INVALID_DATA)
        else Reaction(st, [Delivered(opcode, fin, payload)], false)
      else Reaction(st.(fragOpcode := opcode, fragments := payload), [], false)
    else if opcode == 0x0 then
      if st.fragOpcode == 0 then Fail(st, PROTOCOL_ERROR)
      else
        var full := st.fragments + payload;
        if !fin then Reaction(st.(fragments := full), [], false)
        else
          var reset := st.(fragOpcode := 0, fragments := []);
          if st.fragOpcode == TEXT && !isUtf8(full) then Fail(reset, INVALID_DATA)
          else Reaction(reset, [Delivered(st.fragOpcode, fin, full)], false)
    else Reaction(st, [], false) // reserved data opcodes are skipped
  }

  /** One iteration of the loop. */
  function FrameStep(isUtf8: bytes -> bool, st: WsState, unread: bytes): Step<WsState, WsEvent> {
    match DecodeFrame(unread)
    case NeedMore => Wait
    case NotMasked =>
      var r := Fail(st, PROTOCOL_ERROR);
      Take(0, r.st, r.events, true)
    case Frame(opcode, fin, payload, used) =>
      var r := Handle(isUtf8, st, opcode, fin, payload);
      Take(used, r.st, r.events, r.stop)
  }

  function Loop(isUtf8: bytes -> bool): Stepper<WsState, WsEvent> {
    (st: WsState, unread: bytes) => FrameStep(isUtf8, st, unread)
  }

  const ANY: WsState -> bool := _ => true

  lemma LoopIsIncremental(isUtf8: bytes -> bool)
    ensures Sound(Loop(isUtf8), ANY) && Stable(Loop(isUtf8), ANY)
  {
    forall st: WsState, a: bytes, b: bytes | Loop(isUtf8)(st, a).Take?
      ensures Loop(isUtf8)(st, a + b) == Loop(isUtf8)(st, a)
    {
      DecodeStable(a, b);
    }
  }

  /** The whole loop over the unread bytes. */
  ghost function RunFrames(isUtf8: bytes -> bool, st: WsState, unread: bytes): Outcome<WsState, WsEvent> {
    LoopIsIncremental(isUtf8);
    Run(Loop(isUtf8), ANY, st, unread)
  }

  /** One `feed_data` call per piece. As in the code, a violation does not stop
      later calls from running the loop again. */
  ghost function FeedFrames(isUtf8: bytes -> bool, st: WsState, unread: bytes, pieces: seq<bytes>)
    : Outcome<WsState, WsEvent>
  {
    LoopIsIncremental(isUtf8);
    FeedAll(Loop(isUtf8), ANY, st, unread, pieces)
  }

  // -------------------------------------------------------- client streams

  // `rsv` holds the three reserved bits of the first byte in their place.
  datatype ClientFrame = ClientFrame(fin: bool, opcode: byte, payload: bytes, mask: key, form: Form, rsv: byte)

  ghost predicate Encodable(f: ClientFrame) {
    f.opcode < 16 && Fits(f.form, |f.payload|) && f.rsv & 0x8F == 0
  }

  ghost predicate AllEncodable(frames: seq<ClientFrame>) {
    forall i | 0 <= i < |frames| :: Encodable(frames[i])
  }

  /** The bytes of a masked client frame. */
  function WireFrame(f: ClientFrame): bytes
    requires Fits(f.form, |f.payload|)
  {
    [FirstByte(f.fin, f.opcode) | f.rsv] + HeaderBytes(f.fin, f.opcode, true, |f.payload|, f.form)[1..]
    + f.mask + Unmasked(f.payload, f.mask)
  }

  function Wire(frames: seq<ClientFrame>): bytes
    requires AllEncodable(frames)
  {
    if frames == [] then [] else WireFrame(frames[0]) + Wire(frames[1..])
  }

  lemma WithoutRsv(fin: bool, opcode: byte, rsv: byte)
    requires rsv & 0x8F == 0
    ensures (FirstByte(fin, opcode) | rsv) & 0x8F == FirstByte(fin, opcode) & 0x8F == FirstByte(fin, opcode)
  {
  }

  lemma DecodePlain(fin: bool, opcode: byte, payload: bytes, mask: key, form: Form, rest: bytes)
    requires opcode < 16 && Fits(form, |payload|)
    ensures var head := HeaderBytes(fin, opcode, true, |payload|, form);
            DecodeFrame(head + mask + (Unmasked(payload, mask) + rest))
              == Frame(opcode, fin, payload, |head| + 4 + |payload|)
  {
    var head := HeaderBytes(fin, opcode, true, |payload|, form);
    var body := Unmasked(payload, mask);
    var buf := head + mask + (body + rest);
    ParseHeaderBytes(fin, opcode, |payload|, form, Some(mask), body + rest);
    DecodersAgree(buf);
    assert buf[|head| + 4..|head| + 4 + |body|] == body;
    UnmaskSelfInverse(payload, mask);
  }

  lemma Recut(first: byte, head: bytes, mask: bytes, body: bytes, rest: bytes)
    requires head != []
    ensures ([first] + head[1..] + mask + body) + rest == [first] + (head[1..] + mask + (body + rest))
    ensures head + mask + (body + rest) == [head[0]] + (head[1..] + mask + (body + rest))
  {
  }

  /** The frame decoder recovers every client frame: any masking key, any length
      form that holds the length, any reserved bits, anything after it. */
  lemma DecodeWire(f: ClientFrame, rest: bytes)
    requires Encodable(f)
    ensures DecodeFrame(WireFrame(f) + rest) == Frame(f.opcode, f.fin, f.payload, |WireFrame(f)|)
  {
    var head := HeaderBytes(f.fin, f.opcode, true, |f.payload|, f.form);
    var body := Unmasked(f.payload, f.mask);
    var first := FirstByte(f.fin, f.opcode) | f.rsv;
    DecodePlain(f.fin, f.opcode, f.payload, f.mask, f.form, rest);
    WithoutRsv(f.fin, f.opcode, f.rsv);
    RsvBitsAreIgnored(first, head[1..] + f.mask + (body + rest));
    Recut(first, head, f.mask, body, rest);
  }

  /** The loop's behaviour over frames instead of bytes. */
  function HandleAll(isUtf8: bytes -> bool, st: WsState, frames: seq<ClientFrame>): Reaction
    decreases |frames|
  {
    if frames == [] then Reaction(st, [], false)
    else
      var f := frames[0];
      var r := Handle(isUtf8, st, f.opcode, f.fin, f.payload);
      if r.stop then r else Then(r.events, HandleAll(isUtf8, r.st, frames[1..]))
  }

  function Then(events: seq<WsEvent>, r: Reaction): Reaction {
    r.(events := events + r.events)
  }

  lemma ThenThen(a: seq<WsEvent>, b: seq<WsEvent>, r: Reaction)
    ensures Then(a, Then(b, r)) == Then(a + b, r) && Then([], r) == r
  {
    assert a + (b + r.events) == (a + b) + r.events;
    assert [] + r.events == r.events;
  }

  lemma StepWire(isUtf8: bytes -> bool, st: WsState, f: ClientFrame, tail: bytes)
    requires Encodable(f)
    ensures var r := Handle(isUtf8, st, f.opcode, f.fin, f.payload);
            Loop(isUtf8)(st, WireFrame(f) + tail) == Take(|WireFrame(f)|, r.st, r.events, r.stop)
  {
    DecodeWire(f, tail);
  }

  lemma RunOneFrame(isUtf8: bytes -> bool, st: WsState, f: ClientFrame, tail: bytes)
    requires Encodable(f) && !Handle(isUtf8, st, f.opcode, f.fin, f.payload).stop
    ensures var r := Handle(isUtf8, st, f.opcode, f.fin, f.payload);
            RunFrames(isUtf8, st, WireFrame(f) + tail) == After(r.events, RunFrames(isUtf8, r.st, tail))
  {
    var first := WireFrame(f);
    StepWire(isUtf8, st, f, tail);
    LoopIsIncremental(isUtf8);
    UnfoldRun(Loop(isUtf8), ANY, st, first + tail);
    assert (first + tail)[|first|..] == tail;
  }

  lemma {:induction false} RunWire(isUtf8: bytes -> bool, st: WsState, frames: seq<ClientFrame>, rest: bytes)
    requires AllEncodable(frames)
    requires !HandleAll(isUtf8, st, frames).stop
    ensures var all := HandleAll(isUtf8, st, frames);
            RunFrames(isUtf8, st, Wire(frames) + rest) == After(all.events, RunFrames(isUtf8, all.st, rest))
    decreases |frames|
  {
    if frames == [] {
      assert Wire(frames) + rest == rest;
      AfterNothing(RunFrames(isUtf8, st, rest));
    } else {
      var f, tail := frames[0], Wire(frames[1..]) + rest;
      assert Wire(frames) + rest == WireFrame(f) + tail;
      RunOneFrame(isUtf8, st, f, tail);
      var r := Handle(isUtf8, st, f.opcode, f.fin, f.payload);
      RunWire(isUtf8, r.st, frames[1..], rest);
      var more := HandleAll(isUtf8, r.st, frames[1..]);
      AfterAfter(r.events, more.events, RunFrames(isUtf8, more.st, rest));
    }
  }

  lemma {:induction false} HandleAppend(isUtf8: bytes -> bool, st: WsState, a: seq<ClientFrame>, b: seq<ClientFrame>)
    requires !HandleAll(isUtf8, st, a).stop
    ensures var r := HandleAll(isUtf8, st, a);
            HandleAll(isUtf8, st, a + b) == Then(r.events, HandleAll(isUtf8, r.st, b))
    decreases |a|
  {
    if a == [] {
      assert a + b == b;
      ThenThen([], [], HandleAll(isUtf8, st, b));
    } else {
      assert (a + b)[1..] == a[1..] + b;
      var r := Handle(isUtf8, st, a[0].opcode, a[0].fin, a[0].payload);
      HandleAppend(isUtf8, r.st, a[1..], b);
      var more := HandleAll(isUtf8, r.st, a[1..]);
      ThenThen(r.events, more.events, HandleAll(isUtf8, more.st, b));
    }
  }

  // One fragment of a message, and the control frames sent before the next one.
  datatype Part = Part(data: bytes, mask: key, form: Form, rsv: byte, controls: seq<ClientFrame>)

  datatype Unit =
    | Control(frame: ClientFrame)
    | Message(opcode: byte, parts: seq<Part>)

  ghost predicate ToleratedControl(f: ClientFrame) {
    Encodable(f) && f.opcode >= 0x8 && f.fin && |f.payload| <= 125
  }

  ghost predicate ToleratedControls(frames: seq<ClientFrame>) {
    forall i | 0 <= i < |frames| :: ToleratedControl(frames[i])
  }

  ghost predicate ToleratedPart(p: Part) {
    Fits(p.form, |p.data|) && p.rsv & 0x8F == 0 && ToleratedControls(p.controls)
  }

  function Data(parts: seq<Part>): bytes {
    if parts == [] then [] else parts[0].data + Data(parts[1..])
  }

  ghost predicate ToleratedParts(parts: seq<Part>) {
    && parts != []
    && (forall i | 0 <= i < |parts| :: ToleratedPart(parts[i]))
    && parts[|parts| - 1].controls == []
  }

  ghost predicate Tolerated(isUtf8: bytes -> bool, u: Unit) {
    match u
    case Control(f) => ToleratedControl(f)
    case Message(opcode, parts) =>
      (opcode == TEXT || opcode == BINARY) && ToleratedParts(parts) && (opcode == TEXT ==> isUtf8(Data(parts)))
  }

  ghost predicate AllTolerated(isUtf8: bytes -> bool, units: seq<Unit>) {
    forall i | 0 <= i < |units| :: Tolerated(isUtf8, units[i])
  }

  /** Fragmentation: the first frame carries the opcode, the others opcode 0,
      only the last one FIN, with control frames in between. */
  function PartFrames(opcode: byte, parts: seq<Part>): seq<ClientFrame> {
    if parts == [] then []
    else
      var p := parts[0];
      [ClientFrame(|parts| == 1, opcode, p.data, p.mask, p.form, p.rsv)] + p.controls + PartFrames(0, parts[1..])
  }

  function UnitFrames(u: Unit): seq<ClientFrame> {
    match u
    case Control(f) => [f]
    case Message(opcode, parts) => PartFrames(opcode, parts)
  }

  function StreamFrames(units: seq<Unit>): seq<ClientFrame> {
    if units == [] then [] else UnitFrames(units[0]) + StreamFrames(units[1..])
  }

  // What the application must see: whole messages and control frames, in order of completion.

  function ControlEvents(frames: seq<ClientFrame>): seq<WsEvent> {
    if frames == [] then []
    else [Delivered(frames[0].opcode, true, frames[0].payload)] + ControlEvents(frames[1..])
  }

  function InterleavedControls(parts: seq<Part>): seq<ClientFrame> {
    if parts == [] then [] else parts[0].controls + InterleavedControls(parts[1..])
  }

  function Expected(units: seq<Unit>): seq<WsEvent> {
    if units == [] then []
    else
      (match units[0]
       case Control(f) => ControlEvents([f])
       case Message(opcode, parts) =>
         ControlEvents(InterleavedControls(parts)) + [Delivered(opcode, true, Data(parts))])
      + Expected(units[1..])
  }

  lemma {:induction false} HandleControls(isUtf8: bytes -> bool, st: WsState, frames: seq<ClientFrame>)
    requires ToleratedControls(frames)
    ensures HandleAll(isUtf8, st, frames) == Reaction(st, ControlEvents(frames), false)
  {
    if frames != [] {
      HandleControls(isUtf8, st, frames[1..]);
    }
  }

  lemma {:induction false} ControlEventsAppend(a: seq<ClientFrame>, b: seq<ClientFrame>)
    ensures ControlEvents(a + b) == ControlEvents(a) + ControlEvents(b)
  {
    if a == [] {
      assert a + b == b;
    } else {
      assert (a + b)[1..] == a[1..] + b;
      ControlEventsAppend(a[1..], b);
    }
  }

  ghost predicate Accepts(isUtf8: bytes -> bool, opcode: byte, full: bytes) {
    (opcode == TEXT || opcode == BINARY) && (opcode == TEXT ==> isUtf8(full))
  }

  // The opcode the next fragment must carry, and the one its message is delivered with.
  ghost predicate Expects(st: WsState, first: byte, opcode: byte) {
    if st.fragOpcode == 0 then first == opcode && opcode != 0 && st.fragments == []
    else first == 0 && opcode == st.fragOpcode
  }

  lemma PartReaction(isUtf8: bytes -> bool, st: WsState, first: byte, opcode: byte, fin: bool, data: bytes)
    requires Expects(st, first, opcode) && (opcode == TEXT || opcode == BINARY)
    requires fin ==> Accepts(isUtf8, opcode, st.fragments + data)
    ensures Handle(isUtf8, st, first, fin, data)
         == if fin then Reaction(WsState(0, [], st.closed), [Delivered(opcode, true, st.fragments + data)], false)
            else Reaction(WsState(opcode, st.fragments + data, st.closed), [], false)
  {
    assert [] + data == data;
  }

  /** A non-final fragment only collects its data; its control frames come through. */
  lemma MessageTail(isUtf8: bytes -> bool, st: WsState, st1: WsState, frame: ClientFrame, p: Part, rest: seq<Part>)
    requires ToleratedPart(p)
    requires Handle(isUtf8, st, frame.opcode, frame.fin, frame.payload) == Reaction(st1, [], false)
    ensures HandleAll(isUtf8, st, [frame] + p.controls + PartFrames(0, rest))
         == Then(ControlEvents(p.controls), HandleAll(isUtf8, st1, PartFrames(0, rest)))
  {
    HandleControls(isUtf8, st1, p.controls);
    HandleAppend(isUtf8, st1, p.controls, PartFrames(0, rest));
    var all := [frame] + p.controls + PartFrames(0, rest);
    assert all[1..] == p.controls + PartFrames(0, rest);
    ThenThen([], [], HandleAll(isUtf8, st1, all[1..]));
  }

  function Completed(st: WsState, opcode: byte, parts: seq<Part>): Reaction {
    Reaction(WsState(0, [], st.closed),
             ControlEvents(InterleavedControls(parts)) + [Delivered(opcode, true, st.fragments + Data(parts))],
             false)
  }

  lemma CompletedStep(st: WsState, opcode: byte, parts: seq<Part>)
    requires |parts| > 1
    ensures var st1 := WsState(opcode, st.fragments + parts[0].data, st.closed);
            Completed(st, opcode, parts) == Then(ControlEvents(parts[0].controls), Completed(st1, opcode, parts[1..]))
  {
    var p, rest := parts[0], parts[1..];
    assert st.fragments + (p.data + Data(rest)) == (st.fragments + p.data) + Data(rest);
    ControlEventsAppend(p.controls, InterleavedControls(rest));
    var a, b := ControlEvents(p.controls), ControlEvents(InterleavedControls(rest));
    var d := [Delivered(opcode, true, st.fragments + Data(parts))];
    assert (a + b) + d == a + (b + d);
  }

  lemma LastPart(isUtf8: bytes -> bool, st: WsState, first: byte, opcode: byte, parts: seq<Part>)
    requires ToleratedParts(parts) && |parts| == 1 && Expects(st, first, opcode)
    requires Accepts(isUtf8, opcode, st.fragments + Data(parts))
    ensures HandleAll(isUtf8, st, PartFrames(first, parts)) == Completed(st, opcode, parts)
  {
    var p := parts[0];
    var frame := ClientFrame(true, first, p.data, p.mask, p.form, p.rsv);
    assert Data(parts) == p.data && InterleavedControls(parts) == [];
    PartReaction(isUtf8, st, first, opcode, true, p.data);
    HandleOne(isUtf8, st, frame);
    assert PartFrames(first, parts) == [frame];
  }

  /** The fragments of one message, from any point of its reassembly. */
  lemma {:induction false} HandleParts(isUtf8: bytes -> bool, st: WsState, first: byte, opcode: byte, parts: seq<Part>)
    requires ToleratedParts(parts) && Expects(st, first, opcode)
    requires Accepts(isUtf8, opcode, st.fragments + Data(parts))
    ensures HandleAll(isUtf8, st, PartFrames(first, parts)) == Completed(st, opcode, parts)
    decreases |parts|
  {
    if |parts| == 1 {
      LastPart(isUtf8, st, first, opcode, parts);
    } else {
      var p := parts[0];
      var frame := ClientFrame(false, first, p.data, p.mask, p.form, p.rsv);
      var st1 := WsState(opcode, st.fragments + p.data, st.closed);
      PartReaction(isUtf8, st, first, opcode, false, p.data);
      MessageTail(isUtf8, st, st1, frame, p, parts[1..]);
      assert st.fragments + Data(parts) == st1.fragments + Data(parts[1..]);
      HandleParts(isUtf8, st1, 0, opcode, parts[1..]);
      CompletedStep(st, opcode, parts);
    }
  }

  lemma HandleOne(isUtf8: bytes -> bool, st: WsState, f: ClientFrame)
    ensures HandleAll(isUtf8, st, [f]) == Handle(isUtf8, st, f.opcode, f.fin, f.payload)
  {
    var r := Handle(isUtf8, st, f.opcode, f.fin, f.payload);
    assert r.events + [] == r.events;
  }

  lemma {:induction false} HandleStream(isUtf8: bytes -> bool, closed: bool, units: seq<Unit>)
    requires AllTolerated(isUtf8, units)
    ensures HandleAll(isUtf8, WsState(0, [], closed), StreamFrames(units))
         == Reaction(WsState(0, [], closed), Expected(units), false)
  {
    if units != [] {
      var st := WsState(0, [], closed);
      match units[0] {
        case Control(f) => HandleControls(isUtf8, st, [f]);
        case Message(opcode, parts) =>
          assert [] + Data(parts) == Data(parts);
          HandleParts(isUtf8, st, opcode, opcode, parts);
      }
      HandleAppend(isUtf8, st, UnitFrames(units[0]), StreamFrames(units[1..]));
      HandleStream(isUtf8, closed, units[1..]);
    }
  }

  lemma {:induction false} PartFramesEncodable(opcode: byte, parts: seq<Part>)
    requires opcode < 16 && forall i | 0 <= i < |parts| :: ToleratedPart(parts[i])
    ensures AllEncodable(PartFrames(opcode, parts))
  {
    if parts != [] { PartFramesEncodable(0, parts[1..]); }
  }

  lemma {:induction false} StreamEncodable(isUtf8: bytes -> bool, units: seq<Unit>)
    requires AllTolerated(isUtf8, units)
    ensures AllEncodable(StreamFrames(units))
  {
    if units != [] {
      assert Tolerated(isUtf8, units[0]);
      if units[0].Message? { PartFramesEncodable(units[0].opcode, units[0].parts); }
      StreamEncodable(isUtf8, units[1..]);
    }
  }

  function StreamWire(isUtf8: bytes -> bool, units: seq<Unit>): bytes
    requires AllTolerated(isUtf8, units)
  {
    StreamEncodable(isUtf8, units);
    Wire(StreamFrames(units))
  }

  /** WebSocket transparency: for every sequence of messages and control
      frames, every fragmentation, every masking key and length form, every
      interleaving of control frames and every split of the bytes over
      `feed_data` calls, the application receives exactly the messages and
      control frames that were sent, and nothing is left unread. */
  lemma Transparency(isUtf8: bytes -> bool, closed: bool, units: seq<Unit>, pieces: seq<bytes>)
    requires AllTolerated(isUtf8, units) && Concat(pieces) == StreamWire(isUtf8, units)
    ensures FeedFrames(isUtf8, WsState(0, [], closed), [], pieces)
         == Outcome(WsState(0, [], closed), Expected(units), [], false)
  {
    var st := WsState(0, [], closed);
    LoopIsIncremental(isUtf8);
    StreamEncodable(isUtf8, units);
    HandleStream(isUtf8, closed, units);
    RunWire(isUtf8, st, StreamFrames(units), []);
    SplitIndependence(Loop(isUtf8), ANY, st, [], pieces);
    var wire := StreamWire(isUtf8, units);
    assert wire + [] == wire && [] + Concat(pieces) == wire;
    assert Expected(units) + [] == Expected(units);
  }

  /** In WebSocket mode a closed connection is not final: the delivery after a
      violation is parsed and passed on as if nothing had happened. */
  lemma ClosedStillDelivers(isUtf8: bytes -> bool)
    ensures
      var stray := WireFrame(ClientFrame(true, 0, [], [0, 0, 0, 0], Short, 0));
      var good := WireFrame(ClientFrame(true, BINARY, [], [0, 0, 0, 0], Short, 0));
      && RunFrames(isUtf8, WsState(0, [], false), stray + good)
           == Outcome(WsState(0, [], true), [Violation(PROTOCOL_ERROR, CloseFrame(PROTOCOL_ERROR))], good, true)
      && RunFrames(isUtf8, WsState(0, [], true), good)
           == Outcome(WsState(0, [], true), [Delivered(BINARY, true, [])], [], false)
  {
    var s := ClientFrame(true, 0, [], [0, 0, 0, 0], Short, 0);
    var f := ClientFrame(true, BINARY, [], [0, 0, 0, 0], Short, 0);
    DecodeWire(s, WireFrame(f));
    assert (WireFrame(s) + WireFrame(f))[|WireFrame(s)|..] == WireFrame(f);
    var st := WsState(0, [], true);
    assert HandleAll(isUtf8, st, [f]) == Reaction(st, [Delivered(BINARY, true, [])], false);
    RunWire(isUtf8, st, [f], []);
    assert Wire([f]) + [] == WireFrame(f);
  }
}
