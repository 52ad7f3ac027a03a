/** The semaphore: permits handed to waiters that may be cancelled before or after
    the grant, or live on closed loops. */
module Semaphore {
  import opened Sequences
  import opened WaiterQueue

  datatype State = State(value: int, max: nat, waiters: seq<Waiter>)

  datatype Reply = Done | Parked | ValueError

  datatype Result = Result(st: State, reply: Reply, woken: seq<Waiter>)

  function AcquireStep(s: State, w: Waiter): Result {
    if s.value > 0 then Result(s.(value := s.value - 1), Done, [])
    else Result(s.(waiters := s.waiters + [w]), Parked, [])
  }

  // A permit goes to the next waiter on an open loop, or back to the value.
  function HandOn(s: State, closed: set<nat>): Result {
    var r := Wake(s.waiters, 1, closed);
    Result(s.(value := if r.woken == [] then s.value + 1 else s.value, waiters := r.rest), Done, r.woken)
  }

  function ReleaseStep(s: State, closed: set<nat>): Result {
    if s.waiters == [] && s.value >= s.max then Result(s, ValueError, []) else HandOn(s, closed)
  }

  function CancelStep(s: State, event: nat, closed: set<nat>): Result {
    if event in Events(s.waiters) then Result(s.(waiters := Without(s.waiters, event)), Done, [])
    else HandOn(s, closed)
  }

  class Semaphore {
    var value: int
    const max: nat
    var waiters: seq<Waiter>

    function Value(): State
      reads this
    {
      State(value, max, waiters)
    }

    constructor (maxValue: nat)
      ensures Value() == State(maxValue, maxValue, [])
    {
      value, max := maxValue, maxValue;
      waiters := [];
    }

    method Acquire(w: Waiter) returns (reply: Reply)
      modifies this
      ensures Result(Value(), reply, []) == AcquireStep(old(Value()), w)
    {
      if value > 0 {
        value := value - 1;
        return Done;
      }
      waiters := waiters + [w];
      return Parked;
    }

    // The scan for a waiter whose loop still takes calls.
    method WakeNext(closed: set<nat>) returns (woken: seq<Waiter>)
      modifies `waiters
      ensures Woken(woken, waiters) == Wake(old(waiters), 1, closed)
    {
      while waiters != []
        invariant Wake(waiters, 1, closed) == Wake(old(waiters), 1, closed)
        decreases |waiters|
      {
        var next := waiters[0];
        waiters := waiters[1..];
        if next.home !in closed {
          assert Wake(waiters, 0, closed) == Woken([], waiters);
          return [next];
        }
      }
      return [];
    }

    method CancelWaiter(event: nat, closed: set<nat>) returns (woken: seq<Waiter>)
      modifies this
      ensures Result(Value(), Done, woken) == CancelStep(old(Value()), event, closed)
    {
      if event in Events(waiters) {
        waiters := Without(waiters, event);
        return [];
      }
      woken := WakeNext(closed);
      if woken == [] {
        value := value + 1;
      }
    }

    method Release(closed: set<nat>) returns (reply: Reply, woken: seq<Waiter>)
      modifies this
      ensures Result(Value(), reply, woken) == ReleaseStep(old(Value()), closed)
    {
      if waiters != [] {
        woken := WakeNext(closed);
        if woken == [] {
          value := value + 1;
        }
        return Done, woken;
      }
      if value >= max {
        return ValueError, [];
      }
      value := value + 1;
      return Done, [];
    }
  }

  // --------------------------------------------------------- the whole system

  // `granted`: waiters whose permit is on its way; `holders`: tasks that have one.
  datatype World = World(sem: State, granted: set<nat>, holders: nat, used: set<nat>)

  datatype Step =
    | Arrive(w: Waiter)
    | Resume(event: nat)
    | Cancel(event: nat)
    | Leave

  function StepWorld(w: World, e: Step, closed: set<nat>): World {
    match e
    case Arrive(waiter) =>
      if waiter.event in w.used then w
      else
        var r := AcquireStep(w.sem, waiter);
        World(r.st, w.granted, w.holders + (if r.reply == Done then 1 else 0), w.used + {waiter.event})
    case Resume(event) =>
      if event in w.granted then w.(granted := w.granted - {event}, holders := w.holders + 1) else w
    case Cancel(event) =>
      if event in Events(w.sem.waiters) || event in w.granted then
        var r := CancelStep(w.sem, event, closed);
        w.(sem := r.st, granted := (w.granted - {event}) + Events(r.woken))
      else w
    case Leave =>
      if w.holders == 0 then w
      else
        var r := ReleaseStep(w.sem, closed);
        w.(sem := r.st, granted := w.granted + Events(r.woken), holders := w.holders - 1)
  }

  ghost predicate Sound(w: World) {
    && w.sem.value >= 0 && w.sem.value + w.holders + |w.granted| == w.sem.max
    && (w.sem.waiters != [] ==> w.sem.value == 0)
    && Distinct(w.sem.waiters) && Events(w.sem.waiters) !! w.granted
    && Events(w.sem.waiters) + w.granted <= w.used
  }

  // A freed permit, in nobody's hand, is handed on or returned.
  lemma HandOnKeeps(sem: State, closed: set<nat>, granted: set<nat>, holders: nat, used: set<nat>)
    requires sem.value >= 0 && sem.value + holders + |granted| + 1 == sem.max
    requires sem.waiters != [] ==> sem.value == 0
    requires Distinct(sem.waiters) && Events(sem.waiters) !! granted && Events(sem.waiters) + granted <= used
    ensures var r := HandOn(sem, closed); Sound(World(r.st, granted + Events(r.woken), holders, used))
  {
    WakeMoves(sem.waiters, 1, closed, granted);
  }

  lemma ArriveKeeps(w: World, waiter: Waiter, closed: set<nat>)
    requires Sound(w)
    ensures Sound(StepWorld(w, Arrive(waiter), closed))
  {
    EventsAppend(w.sem.waiters, [waiter]);
    assert Events([waiter]) == {waiter.event} by { EventsCons([waiter]); }
  }

  lemma CancelParkedKeeps(w: World, event: nat, closed: set<nat>)
    requires Sound(w) && event in Events(w.sem.waiters)
    ensures Sound(StepWorld(w, Cancel(event), closed))
  {
    var left := Without(w.sem.waiters, event);
    WithoutInOrder(w.sem.waiters, event);
    SubsequenceDistinct(left, w.sem.waiters);
    assert StepWorld(w, Cancel(event), closed) == w.(sem := w.sem.(waiters := left)) by {
      assert (w.granted - {event}) + Events([]) == w.granted;
    }
  }

  lemma CancelGrantedKeeps(w: World, event: nat, closed: set<nat>)
    requires Sound(w) && event in w.granted && event !in Events(w.sem.waiters)
    ensures Sound(StepWorld(w, Cancel(event), closed))
  {
    HandOnKeeps(w.sem, closed, w.granted - {event}, w.holders, w.used);
  }

  lemma LeaveKeeps(w: World, closed: set<nat>)
    requires Sound(w) && w.holders > 0
    ensures Sound(StepWorld(w, Leave, closed))
  {
    HandOnKeeps(w.sem, closed, w.granted, w.holders - 1, w.used);
  }

  lemma SameMax(w: World, e: Step, closed: set<nat>)
    ensures StepWorld(w, e, closed).sem.max == w.sem.max
  {
  }

  lemma StepKeepsSound(w: World, e: Step, closed: set<nat>)
    requires Sound(w)
    ensures Sound(StepWorld(w, e, closed)) && StepWorld(w, e, closed).sem.max == w.sem.max
  {
    SameMax(w, e, closed);
    match e
    case Arrive(waiter) => ArriveKeeps(w, waiter, closed);
    case Resume(_) =>
    case Cancel(event) =>
      if event in Events(w.sem.waiters) {
        CancelParkedKeeps(w, event, closed);
      } else if event in w.granted {
        CancelGrantedKeeps(w, event, closed);
      }
    case Leave =>
      if w.holders > 0 { LeaveKeeps(w, closed); }
  }

  function RunWorld(w: World, es: seq<(Step, set<nat>)>): World
    decreases |es|
  {
    if es == [] then w else RunWorld(StepWorld(w, es[0].0, es[0].1), es[1..])
  }

  /** Permits are conserved and none is free while a task waits, whatever is
      cancelled and whichever loops close. */
  lemma {:induction false} PermitsAreConserved(w: World, es: seq<(Step, set<nat>)>)
    requires Sound(w)
    ensures Sound(RunWorld(w, es)) && RunWorld(w, es).sem.max == w.sem.max
    decreases |es|
  {
    if es != [] {
      var next := StepWorld(w, es[0].0, es[0].1);
      assert Sound(next) && next.sem.max == w.sem.max by { StepKeepsSound(w, es[0].0, es[0].1); }
      PermitsAreConserved(next, es[1..]);
    }
  }

  /** From the fresh semaphore on. */
  lemma PermitsAreAlwaysConserved(max: nat, es: seq<(Step, set<nat>)>)
    ensures var w := RunWorld(World(State(max, max, []), {}, 0, {}), es);
            Sound(w) && w.sem.value + w.holders + |w.granted| == max
  {
    PermitsAreConserved(World(State(max, max, []), {}, 0, {}), es);
  }

  /** A holder's release is never refused. */
  lemma LegalReleaseSucceeds(w: World, closed: set<nat>)
    requires Sound(w) && w.holders > 0
    ensures ReleaseStep(w.sem, closed).reply == Done
  {
  }

  /** A permit taken at once passes nobody. */
  lemma NobodyIsOvertaken(w: World, waiter: Waiter)
    requires Sound(w) && AcquireStep(w.sem, waiter).reply == Done
    ensures w.sem.waiters == []
  {
  }

  // ------------------------------------------------------------------- order

  function JoinedBy(w: World, e: Step): seq<Waiter> {
    if e.Arrive? && e.w.event !in w.used && AcquireStep(w.sem, e.w).reply == Parked then [e.w] else []
  }

  function GrantedBy(w: World, e: Step, closed: set<nat>): seq<Waiter> {
    match e
    case Cancel(event) =>
      if event in Events(w.sem.waiters) || event in w.granted then CancelStep(w.sem, event, closed).woken else []
    case Leave => if w.holders == 0 then [] else ReleaseStep(w.sem, closed).woken
    case _ => []
  }

  function Joined(w: World, es: seq<(Step, set<nat>)>): seq<Waiter>
    decreases |es|
  {
    if es == [] then [] else JoinedBy(w, es[0].0) + Joined(StepWorld(w, es[0].0, es[0].1), es[1..])
  }

  function Granted(w: World, es: seq<(Step, set<nat>)>): seq<Waiter>
    decreases |es|
  {
    if es == [] then [] else GrantedBy(w, es[0].0, es[0].1) + Granted(StepWorld(w, es[0].0, es[0].1), es[1..])
  }

  lemma HandsOnInOrder(sem: State, closed: set<nat>)
    ensures var r := HandOn(sem, closed); Subsequence(r.woken + r.st.waiters, sem.waiters)
  {
    WakeInOrder(sem.waiters, 1, closed);
  }

  lemma StepGrantsInOrder(w: World, e: Step, closed: set<nat>)
    ensures Subsequence(GrantedBy(w, e, closed) + StepWorld(w, e, closed).sem.waiters, w.sem.waiters + JoinedBy(w, e))
  {
    var queue, after := w.sem.waiters, StepWorld(w, e, closed).sem.waiters;
    assert queue + [] == queue && [] + after == after;
    if e.Leave? && w.holders > 0 && ReleaseStep(w.sem, closed).reply == Done {
      HandsOnInOrder(w.sem, closed);
    } else if e.Cancel? && e.event in Events(queue) {
      WithoutInOrder(queue, e.event);
    } else if e.Cancel? && e.event in w.granted {
      HandsOnInOrder(w.sem, closed);
    } else {
      SubsequenceSelf(after);
    }
  }

  /** Permits go to the waiters in the order they came; only those cancelled or on a
      closed loop are passed over. */
  lemma {:induction false} GrantsAreFifo(w: World, es: seq<(Step, set<nat>)>)
    ensures Subsequence(Granted(w, es) + RunWorld(w, es).sem.waiters, w.sem.waiters + Joined(w, es))
    decreases |es|
  {
    if es == [] {
      assert [] + w.sem.waiters == w.sem.waiters && w.sem.waiters + [] == w.sem.waiters;
      SubsequenceSelf(w.sem.waiters);
    } else {
      var next := StepWorld(w, es[0].0, es[0].1);
      StepGrantsInOrder(w, es[0].0, es[0].1);
      GrantsAreFifo(next, es[1..]);
      ChainFifo(GrantedBy(w, es[0].0, es[0].1), next.sem.waiters, w.sem.waiters, JoinedBy(w, es[0].0),
                Granted(next, es[1..]), RunWorld(w, es).sem.waiters, Joined(next, es[1..]));
    }
  }
}
