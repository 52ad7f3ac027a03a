/** A barrier that was broken stays so until it is reset, and serves again from then on. */
module BarrierStates {
  import opened Bytes
  import opened Barrier
  import opened Sequences

  predicate Shut(w: World) {
    w.b.aborted || w.b.broken
  }

  // Between the two worlds nobody joined and no round was completed.
  ghost predicate NobodyJoined(w: World, next: World) {
    && Shut(next) && next.rounds == w.rounds && next.b.parties == w.b.parties
    && (next.b.waiters == w.b.waiters || next.b.waiters == [])
    && w.used <= next.used && w.failed <= next.failed
    && forall e | e in next.used && e !in w.used :: e in next.failed
  }

  lemma StepJoinsNobody(w: World, e: Step)
    requires Shut(w) && !e.Reset?
    ensures NobodyJoined(w, StepWorld(w, e))
  {
  }

  lemma JoinedByNeither(a: World, b: World, c: World)
    requires NobodyJoined(a, b) && NobodyJoined(b, c)
    ensures NobodyJoined(a, c)
  {
  }

  /** Once it is broken or aborted, whatever happens short of a reset: everybody who comes
      fails, nobody is queued, and no round is completed. */
  lemma {:induction false} ShutUntilReset(w: World, es: seq<Step>)
    requires Shut(w) && forall k | 0 <= k < |es| :: !es[k].Reset?
    ensures NobodyJoined(w, RunWorld(w, es))
    decreases |es|
  {
    if es != [] {
      var next := StepWorld(w, es[0]);
      StepJoinsNobody(w, es[0]);
      ShutUntilReset(next, es[1..]);
      JoinedByNeither(w, next, RunWorld(next, es[1..]));
    }
  }

  /** It shuts exactly by an abort, or by the cancellation of a party whose round is not
      over yet. */
  lemma ShutsExactlyBy(w: World, e: Step)
    requires Sound(w) && !Shut(w)
    ensures Shut(StepWorld(w, e)) <==> e.Abort? || (e.Cancel? && e.event in w.gens && w.gens[e.event] == w.b.generation)
  {
  }

  function Arrivals(events: seq<nat>): seq<Step> {
    if events == [] then [] else [Come(events[0])] + Arrivals(events[1..])
  }

  // The parties in `waiting` are queued, and nobody else; the others are yet to come.
  ghost predicate Filling(w: World, waiting: seq<nat>, events: seq<nat>) {
    && !Shut(w) && w.b.waiters == waiting && |waiting| + |events| == w.b.parties
    && NoRepeats(events) && forall e | e in events :: e !in w.used
  }

  lemma OneMoreWaits(w: World, waiting: seq<nat>, events: seq<nat>)
    requires Filling(w, waiting, events) && |events| > 1
    ensures var next := StepWorld(w, Come(events[0]));
            Filling(next, waiting + [events[0]], events[1..]) && next.rounds == w.rounds
  {
    NoRepeatsRest(events);
    assert forall e | e in events[1..] :: e in events;
  }

  /** As many newcomers as a round needs: the last one completes it, with everybody in it
      in the order of arrival but the last one first. */
  lemma {:induction false} NewcomersCompleteTheRound(w: World, waiting: seq<nat>, events: seq<nat>)
    requires Filling(w, waiting, events) && events != []
    ensures var next, last := RunWorld(w, Arrivals(events)), |events| - 1;
            && next.rounds == w.rounds + [[events[last]] + (waiting + events[..last])]
            && next.b.waiters == [] && !Shut(next)
    decreases |events|
  {
    var next, steps := StepWorld(w, Come(events[0])), Arrivals(events);
    assert steps[0] == Come(events[0]) && steps[1..] == Arrivals(events[1..]);
    if |events| == 1 {
      assert waiting + events[..0] == waiting;
      assert Arrivals(events[1..]) == [];
    } else {
      OneMoreWaits(w, waiting, events);
      NewcomersCompleteTheRound(next, waiting + [events[0]], events[1..]);
      assert (waiting + [events[0]]) + events[1..][..|events| - 2] == waiting + events[..|events| - 1];
      assert events[1..][|events| - 2] == events[|events| - 1];
    }
  }

  /** After a reset the barrier serves a full round of newcomers again, whatever happened
      before. */
  lemma ResetServesAgain(w: World, events: seq<nat>)
    requires |events| == w.b.parties && events != [] && NoRepeats(events) && forall e | e in events :: e !in w.used
    ensures var next, last := RunWorld(StepWorld(w, Reset), Arrivals(events)), |events| - 1;
            next.rounds == w.rounds + [[events[last]] + events[..last]] && !Shut(next)
  {
    var empty := StepWorld(w, Reset);
    NewcomersCompleteTheRound(empty, [], events);
    assert [] + events[..|events| - 1] == events[..|events| - 1];
  }
}
