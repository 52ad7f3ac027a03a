/** The barrier: parties of a round share its generation; each has a box for its
    index, which is -1 when the round was broken and empty when it was reset. */
module Barrier {
  import opened Bytes
  import opened Sequences

  datatype State = State(parties: nat, generation: nat, waiters: seq<nat>, boxes: map<nat, Option<int>>,
                         aborted: bool, broken: bool)

  datatype Reply = Passed(index: int) | Parked | Failed

  datatype Result = Result(st: State, reply: Reply, woken: seq<nat>)

  // Puts `first`, `first + 1`, ... into the boxes of `waiters`.
  function Deal(boxes: map<nat, Option<int>>, waiters: seq<nat>, first: int): map<nat, Option<int>>
    decreases |waiters|
  {
    if waiters == [] then boxes else Deal(boxes[waiters[0] := Some(first)], waiters[1..], first + 1)
  }

  // Marks the boxes of `waiters` as broken.
  function Break(boxes: map<nat, Option<int>>, waiters: seq<nat>): map<nat, Option<int>>
    decreases |waiters|
  {
    if waiters == [] then boxes else Break(boxes[waiters[0] := Some(-1)], waiters[1..])
  }

  function ArriveStep(s: State, event: nat): Result {
    if s.aborted || s.broken then Result(s, Failed, [])
    else if |s.waiters| + 1 == s.parties then
      var dealt := Deal(s.boxes, s.waiters, 1);
      Result(s.(boxes := dealt, waiters := [], generation := s.generation + 1), Passed(0), s.waiters)
    else
      Result(s.(waiters := s.waiters + [event], boxes := s.boxes[event := None]), Parked, [])
  }

  // A waiting party of `generation` is cancelled.
  function CancelStep(s: State, generation: nat): Result {
    if generation != s.generation then Result(s, Failed, [])
    else
      Result(s.(broken := true, boxes := Break(s.boxes, s.waiters), waiters := [], generation := s.generation + 1),
             Failed, s.waiters)
  }

  // A party of `generation` runs on after its event was set.
  function ResumeReply(s: State, event: nat, generation: nat): Reply
    requires event in s.boxes
  {
    if s.aborted && generation == s.generation then Failed
    else if s.boxes[event] == Some(-1) then Failed
    else if s.boxes[event].None? then Failed
    else Passed(s.boxes[event].value)
  }

  function AbortStep(s: State): Result {
    Result(s.(aborted := true, broken := true, waiters := []), Failed, s.waiters)
  }

  function ResetStep(s: State): Result {
    Result(s.(waiters := [], generation := s.generation + 1, aborted := false, broken := false), Failed, s.waiters)
  }

  class Barrier {
    const parties: nat
    var generation: nat
    var waiters: seq<nat>
    var boxes: map<nat, Option<int>>
    var aborted: bool
    var broken: bool

    function Value(): State
      reads this
    {
      State(parties, generation, waiters, boxes, aborted, broken)
    }

    constructor (parties: nat)
      requires parties > 0
      ensures Value() == State(parties, 0, [], map[], false, false)
    {
      this.parties := parties;
      generation, waiters, boxes := 0, [], map[];
      aborted, broken := false, false;
    }

    // The part of `wait` before it suspends.
    method Arrive(event: nat) returns (reply: Reply, woken: seq<nat>)
      modifies this
      ensures Result(Value(), reply, woken) == ArriveStep(old(Value()), event)
    {
      if aborted {
        return Failed, [];
      }
      if broken {
        return Failed, [];
      }
      var n := |waiters| + 1;
      if n == parties {
        for i := 0 to |waiters|
          invariant waiters == old(waiters) && generation == old(generation) && !aborted && !broken
          invariant Deal(boxes, waiters[i..], i + 1) == Deal(old(boxes), waiters, 1)
        {
          boxes := boxes[waiters[i] := Some(i + 1)];
        }
        woken := waiters;
        waiters := [];
        generation := generation + 1;
        return Passed(0), woken;
      }
      waiters := waiters + [event];
      boxes := boxes[event := None];
      return Parked, [];
    }

    method CancelWaiter(mine: nat) returns (woken: seq<nat>)
      modifies this
      ensures Result(Value(), Failed, woken) == CancelStep(old(Value()), mine)
    {
      woken := [];
      if mine == generation {
        broken := true;
        woken := waiters;
        waiters := [];
        generation := generation + 1;
        for i := 0 to |woken|
          invariant waiters == [] && generation == old(generation) + 1 && broken && aborted == old(aborted)
          invariant Break(boxes, woken[i..]) == Break(old(boxes), woken)
        {
          boxes := boxes[woken[i] := Some(-1)];
        }
      }
    }

    method Resume(event: nat, mine: nat) returns (reply: Reply)
      requires event in boxes
      ensures reply == ResumeReply(Value(), event, mine)
    {
      if aborted && mine == generation {
        return Failed;
      }
      if boxes[event] == Some(-1) {
        return Failed;
      }
      if boxes[event].None? {
        return Failed;
      }
      return Passed(boxes[event].value);
    }

    method Abort() returns (woken: seq<nat>)
      modifies this
      ensures Result(Value(), Failed, woken) == AbortStep(old(Value()))
    {
      aborted, broken := true, true;
      woken := waiters;
      waiters := [];
    }

    method Reset() returns (woken: seq<nat>)
      modifies this
      ensures Result(Value(), Failed, woken) == ResetStep(old(Value()))
    {
      woken := waiters;
      waiters := [];
      generation := generation + 1;
      aborted, broken := false, false;
    }
  }

  // ------------------------------------------------------ the parties together

  // `gens`: the generation of each party that waits; `told`: the events that were
  // set; `rounds`: the completed rounds, each with its parties by index.
  datatype World = World(b: State, gens: map<nat, nat>, told: set<nat>, rounds: seq<seq<nat>>, passed: map<nat, int>,
                         failed: set<nat>, cancelled: set<nat>, used: set<nat>)

  datatype Step =
    | Come(event: nat)   // a party calls wait, with a fresh event
    | RunOn(event: nat)  // a party whose event was set
    | Cancel(event: nat) // a waiting party is cancelled
    | Abort
    | Reset

  function StepWorld(w: World, e: Step): World {
    match e
    case Come(event) =>
      if event in w.used then w
      else
        var r := ArriveStep(w.b, event);
        var next := w.(b := r.st, told := w.told + Members(r.woken), used := w.used + {event});
        (match r.reply
         case Passed(i) => next.(passed := w.passed[event := i], rounds := w.rounds + [[event] + w.b.waiters])
         case Parked => next.(gens := w.gens[event := w.b.generation])
         case Failed => next.(failed := w.failed + {event}))
    case RunOn(event) =>
      if event !in w.gens || event !in w.told || event !in w.b.boxes then w
      else
        var left := w.(gens := w.gens - {event});
        (match ResumeReply(w.b, event, w.gens[event])
         case Passed(i) => left.(passed := w.passed[event := i])
         case _ => left.(failed := w.failed + {event}))
    case Cancel(event) =>
      if event !in w.gens then w
      else
        var r := CancelStep(w.b, w.gens[event]);
        w.(b := r.st, told := w.told + Members(r.woken), gens := w.gens - {event}, cancelled := w.cancelled + {event})
    case Abort => var r := AbortStep(w.b); w.(b := r.st, told := w.told + Members(r.woken))
    case Reset => var r := ResetStep(w.b); w.(b := r.st, told := w.told + Members(r.woken))
  }

  // Where the party of index `i` in a completed round can be: about to be told its
  // index, back with it, or cancelled by its own task.
  predicate Settled(w: World, event: nat, i: int) {
    || (event in w.gens && w.gens[event] < w.b.generation && event in w.b.boxes && w.b.boxes[event] == Some(i))
    || (event in w.passed && w.passed[event] == i)
    || event in w.cancelled
  }

  ghost predicate RoundsSound(w: World) {
    forall r | 0 <= r < |w.rounds| ::
      && |w.rounds[r]| == w.b.parties && NoRepeats(w.rounds[r])
      && (forall i | 0 <= i < |w.rounds[r]| :: Settled(w, w.rounds[r][i], i))
  }

  ghost predicate InRound(w: World, event: nat, i: int) {
    exists r :: 0 <= r < |w.rounds| && 0 <= i < |w.rounds[r]| && w.rounds[r][i] == event
  }

  ghost predicate PassedSound(w: World) {
    && (forall e | e in w.passed :: InRound(w, e, w.passed[e]))
    && (forall e | e in w.gens :: e in w.b.boxes && w.gens[e] <= w.b.generation
                                  && (w.b.boxes[e].Some? && w.b.boxes[e].value != -1
                                      ==> InRound(w, e, w.b.boxes[e].value)))
  }

  ghost predicate WaitersSound(w: World) {
    && |w.b.waiters| < w.b.parties && NoRepeats(w.b.waiters)
    && (forall e | e in w.b.waiters ::
          e in w.gens && w.gens[e] == w.b.generation && e in w.b.boxes && w.b.boxes[e].None?)
  }

  // Exactly those waiting parties that are no longer queued were told.
  ghost predicate ToldSound(w: World) {
    w.told <= w.used && forall e | e in w.gens :: e in w.told <==> e !in w.b.waiters
  }

  // Every party is in one place.
  predicate Apart(w: World) {
    && w.gens.Keys !! w.passed.Keys && w.gens.Keys !! w.failed && w.gens.Keys !! w.cancelled
    && w.passed.Keys !! w.failed && w.failed !! w.cancelled
    && w.gens.Keys + w.passed.Keys + w.failed + w.cancelled <= w.used
  }

  ghost predicate Sound(w: World) {
    Apart(w) && PassedSound(w) && WaitersSound(w) && ToldSound(w) && RoundsSound(w)
  }

  // --------------------------------------------------------------- the boxes

  lemma {:induction false} DealGives(boxes: map<nat, Option<int>>, waiters: seq<nat>, first: int)
    requires NoRepeats(waiters)
    ensures var d := Deal(boxes, waiters, first);
            && (forall i | 0 <= i < |waiters| :: waiters[i] in d && d[waiters[i]] == Some(first + i))
            && (forall e | e !in waiters :: (e in d <==> e in boxes) && (e in boxes ==> d[e] == boxes[e]))
    decreases |waiters|
  {
    if waiters != [] {
      NoRepeatsRest(waiters);
      var later := waiters[1..];
      DealGives(boxes[waiters[0] := Some(first)], later, first + 1);
      assert forall i | 0 < i < |waiters| :: waiters[i] == later[i - 1];
      assert waiters == [waiters[0]] + later;
    }
  }

  lemma {:induction false} BreakGives(boxes: map<nat, Option<int>>, waiters: seq<nat>)
    ensures var d := Break(boxes, waiters);
            && (forall e | e in waiters :: e in d && d[e] == Some(-1))
            && (forall e | e !in waiters :: (e in d <==> e in boxes) && (e in boxes ==> d[e] == boxes[e]))
    decreases |waiters|
  {
    if waiters != [] {
      BreakGives(boxes[waiters[0] := Some(-1)], waiters[1..]);
      assert waiters == [waiters[0]] + waiters[1..];
    }
  }

  // ------------------------------------------------------------------ each step

  lemma StillInRound(w: World, next: World, event: nat, i: int)
    requires InRound(w, event, i) && w.rounds <= next.rounds
    ensures InRound(next, event, i)
  {
    var r :| 0 <= r < |w.rounds| && 0 <= i < |w.rounds[r]| && w.rounds[r][i] == event;
    assert next.rounds[r] == w.rounds[r];
  }

  /** The last party completes the round. */
  lemma CompleteKeeps(w: World, event: nat)
    requires Sound(w) && event !in w.used && ArriveStep(w.b, event).reply.Passed?
    ensures Sound(StepWorld(w, Come(event)))
  {
    var next := StepWorld(w, Come(event));
    var round := [event] + w.b.waiters;
    DealGives(w.b.boxes, w.b.waiters, 1);
    assert event !in w.b.waiters;
    NoRepeatsPrepend(event, w.b.waiters);
    assert next.rounds == w.rounds + [round];
    forall r | 0 <= r < |next.rounds|
      ensures |next.rounds[r]| == w.b.parties && NoRepeats(next.rounds[r])
      ensures forall i | 0 <= i < |next.rounds[r]| :: Settled(next, next.rounds[r][i], i)
    {
      if r < |w.rounds| {
        forall i | 0 <= i < |w.rounds[r]|
          ensures Settled(next, w.rounds[r][i], i)
        {
          assert Settled(w, w.rounds[r][i], i);
        }
      } else {
        forall i | 0 <= i < |round|
          ensures Settled(next, round[i], i)
        {
          if i > 0 { assert round[i] == w.b.waiters[i - 1]; }
        }
      }
    }
    CompletePassed(w, event);
  }

  lemma CompletePassed(w: World, event: nat)
    requires Sound(w) && event !in w.used && ArriveStep(w.b, event).reply.Passed?
    ensures PassedSound(StepWorld(w, Come(event)))
  {
    var next := StepWorld(w, Come(event));
    var last, round := |w.rounds|, [event] + w.b.waiters;
    DealGives(w.b.boxes, w.b.waiters, 1);
    assert next.rounds[last] == round && round[0] == event;
    forall e | e in next.passed
      ensures InRound(next, e, next.passed[e])
    {
      if e != event { StillInRound(w, next, e, w.passed[e]); }
    }
    forall e | e in next.gens
      ensures e in next.b.boxes && next.gens[e] <= next.b.generation
      ensures next.b.boxes[e].Some? && next.b.boxes[e].value != -1 ==> InRound(next, e, next.b.boxes[e].value)
    {
      if e in w.b.waiters {
        var i :| 0 <= i < |w.b.waiters| && w.b.waiters[i] == e;
        assert round[i + 1] == e && next.b.boxes[e] == Some(i + 1);
      } else if w.b.boxes[e].Some? && w.b.boxes[e].value != -1 {
        StillInRound(w, next, e, w.b.boxes[e].value);
      }
    }
  }

  // Steps that leave the completed rounds as they are.
  lemma RoundsStay(w: World, next: World)
    requires RoundsSound(w) && next.rounds == w.rounds && next.b.parties == w.b.parties
    requires forall r, i | 0 <= r < |w.rounds| && 0 <= i < |w.rounds[r]| && Settled(w, w.rounds[r][i], i) ::
               Settled(next, w.rounds[r][i], i)
    ensures RoundsSound(next)
  {
  }

  lemma PassedStays(w: World, next: World)
    requires PassedSound(w) && next.rounds == w.rounds
    requires forall e | e in next.passed ::
               (e in w.passed && next.passed[e] == w.passed[e]) || InRound(w, e, next.passed[e])
    requires forall e | e in next.gens ::
               && e in next.b.boxes && next.gens[e] <= next.b.generation
               && (next.b.boxes[e].Some? && next.b.boxes[e].value != -1 ==>
                     e in w.gens && next.b.boxes[e] == w.b.boxes[e])
    ensures PassedSound(next)
  {
    forall e, i: int | InRound(w, e, i)
      ensures InRound(next, e, i)
    {
      StillInRound(w, next, e, i);
    }
  }

  lemma ParkKeeps(w: World, event: nat)
    requires Sound(w) && event !in w.used && !ArriveStep(w.b, event).reply.Passed?
    ensures Sound(StepWorld(w, Come(event)))
  {
    var next := StepWorld(w, Come(event));
    assert event !in w.b.waiters;
    NoRepeatsAppend(w.b.waiters, event);
    RoundsStay(w, next);
    PassedStays(w, next);
  }

  lemma RunOnSettles(w: World, event: nat)
    requires Sound(w)
    ensures RoundsSound(StepWorld(w, RunOn(event)))
  {
    var next := StepWorld(w, RunOn(event));
    if next != w { RoundsStay(w, next); }
  }

  lemma RunOnTellsTheIndex(w: World, event: nat)
    requires Sound(w)
    ensures PassedSound(StepWorld(w, RunOn(event)))
  {
    var next := StepWorld(w, RunOn(event));
    if next != w { PassedStays(w, next); }
  }

  lemma RunOnKeeps(w: World, event: nat)
    requires Sound(w)
    ensures Sound(StepWorld(w, RunOn(event)))
  {
    RunOnSettles(w, event);
    RunOnTellsTheIndex(w, event);
  }

  lemma CancelKeeps(w: World, event: nat)
    requires Sound(w)
    ensures Sound(StepWorld(w, Cancel(event)))
  {
    var next := StepWorld(w, Cancel(event));
    if event in w.gens {
      BreakGives(w.b.boxes, w.b.waiters);
      RoundsStay(w, next);
      PassedStays(w, next);
    }
  }

  lemma AbortResetKeep(w: World)
    requires Sound(w)
    ensures Sound(StepWorld(w, Abort)) && Sound(StepWorld(w, Reset))
  {
    RoundsStay(w, StepWorld(w, Abort));
    PassedStays(w, StepWorld(w, Abort));
    RoundsStay(w, StepWorld(w, Reset));
    PassedStays(w, StepWorld(w, Reset));
  }

  lemma StepKeepsSound(w: World, e: Step)
    requires Sound(w)
    ensures Sound(StepWorld(w, e)) && StepWorld(w, e).b.parties == w.b.parties
  {
    match e
    case Come(event) =>
      if event !in w.used {
        if ArriveStep(w.b, event).reply.Passed? { CompleteKeeps(w, event); } else { ParkKeeps(w, event); }
      }
    case RunOn(event) => RunOnKeeps(w, event);
    case Cancel(event) => CancelKeeps(w, event);
    case Abort => AbortResetKeep(w);
    case Reset => AbortResetKeep(w);
  }

  function Start(parties: nat): World
    requires parties > 0
  {
    World(State(parties, 0, [], map[], false, false), map[], {}, [], map[], {}, {}, {})
  }

  function RunWorld(w: World, es: seq<Step>): World
    decreases |es|
  {
    if es == [] then w else RunWorld(StepWorld(w, es[0]), es[1..])
  }

  lemma {:induction false} AlwaysSound(w: World, es: seq<Step>)
    requires Sound(w)
    ensures Sound(RunWorld(w, es)) && RunWorld(w, es).b.parties == w.b.parties
    decreases |es|
  {
    if es != [] {
      var next := StepWorld(w, es[0]);
      assert Sound(next) && next.b.parties == w.b.parties by { StepKeepsSound(w, es[0]); }
      AlwaysSound(next, es[1..]);
    }
  }

  /** After any steps: fewer than `parties` wait; every completed round has one
      party for each index 0 .. parties - 1, which gets exactly that index unless
      its own task was cancelled, and is never failed by anybody else; every index
      that was handed out belongs to a completed round; and whoever waits without
      being queued was told to run on. */
  lemma RoundsHandOutEachIndexOnce(parties: nat, es: seq<Step>)
    requires parties > 0
    ensures var w := RunWorld(Start(parties), es);
            && |w.b.waiters| < parties
            && (forall r | 0 <= r < |w.rounds| ::
                  && |w.rounds[r]| == parties && NoRepeats(w.rounds[r])
                  && forall i | 0 <= i < parties :: Settled(w, w.rounds[r][i], i) && w.rounds[r][i] !in w.failed)
            && (forall e | e in w.passed :: InRound(w, e, w.passed[e]))
            && (forall e | e in w.gens :: e in w.b.waiters || e in w.told)
  {
    AlwaysSound(Start(parties), es);
  }
}
