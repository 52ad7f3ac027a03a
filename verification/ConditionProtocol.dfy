/** The condition variable together with its lock: where every notification goes,
    and who holds the lock when `wait` is left. */
module ConditionProtocol {
  import opened Bytes
  import opened Condition
  import Lock
  import L = LockProtocol
  import opened Sequences
  import opened WaiterQueue

  // Where a task is in the loop that takes the lock again: about to call `acquire`,
  // waiting in it, or behind it.
  datatype Place = Top | Trying | Out

  // Where a task is inside `wait`: parked (still holding the lock at first), told
  // or not; or taking the lock again, with a cancellation to pass on or without.
  datatype Phase =
    | Asleep(event: nat, unlocked: bool, notified: bool)
    | Regaining(notified: bool, cancelled: bool, at: Place)

  type Phases = map<nat, Phase>

  // `issued`: waiters popped by `notify`; `returned`: normal returns of `wait`;
  // `spent`: notifications of cancelled tasks that found no waiter to travel to;
  // `lost`: those popped for a waiter whose loop was closed.
  datatype World = World(lock: L.World, queue: seq<Waiter>, phases: Phases, used: set<nat>,
                         issued: nat, returned: nat, spent: nat, lost: nat)

  datatype Step =
    | OfLock(e: L.Step)              // a step on the lock outside `wait`; a loop is closed
    | Park(task: nat, event: nat)    // enters `wait`
    | LetGo(task: nat)               // releases the lock in `wait`
    | Notify(n: int)
    | WakeUp(task: nat)              // its event was set
    | CancelSleep(task: nat)         // is cancelled while asleep
    | TryAgain(task: nat, event: nat) // calls `acquire` in the loop, with a fresh event
    | Acquired(task: nat)            // its `acquire` returns after its event was set
    | CancelAcquire(task: nat)       // its `acquire` raises the cancellation
    | Exit(task: nat)                // leaves `wait` behind the loop

  // Sets the events of `woken`.
  function Told(phases: Phases, woken: seq<Waiter>): Phases {
    map t | t in phases ::
      if phases[t].Asleep? && Waiter(phases[t].event, t) in woken
      then Asleep(phases[t].event, phases[t].unlocked, true) else phases[t]
  }

  function TaskOf(e: L.Step): nat {
    e.task
  }

  // Tasks inside `wait` do nothing else on the lock.
  function LockStep(w: World, e: L.Step): World {
    if e.Strand? || TaskOf(e) !in w.phases then w.(lock := L.StepWorld(w.lock, e)) else w
  }

  // Whether a task that can run is at this place of the loop.
  predicate IsAt(w: World, t: nat, at: Place) {
    t in w.phases && t !in w.lock.gone && w.phases[t].Regaining? && w.phases[t].at == at
  }

  function Moved(w: World, t: nat, at: Place, cancelled: bool): Phases
    requires t in w.phases && w.phases[t].Regaining?
  {
    w.phases[t := w.phases[t].(at := at, cancelled := w.phases[t].cancelled || cancelled)]
  }

  // The lock refuses its owner with an error, which leaves the loop at once.
  function AfterAcquire(w: World, t: nat, event: nat): Phases
    requires t in w.phases && w.phases[t].Regaining?
  {
    var reply := Lock.AcquireStep(w.lock.lock, Waiter(event, t), w.lock.finished, w.lock.gone).reply;
    Moved(w, t, if reply.Parked? then Trying else Out, reply.RuntimeError?)
  }

  // A notification that its receiver gives up travels to the next waiter.
  function Forward(w: World): World {
    var r := Wake(w.queue, 1, w.lock.gone);
    w.(queue := r.rest, phases := Told(w.phases, r.woken), spent := w.spent + 1 - |r.woken|)
  }

  function StepWorld(w: World, e: Step): World {
    match e
    case OfLock(step) => LockStep(w, step)
    case Park(t, event) =>
      if t in w.phases || t in w.lock.gone || event in w.used || t !in w.lock.inside then w
      else
        w.(queue := w.queue + [Waiter(event, t)], used := w.used + {event},
           phases := w.phases[t := Asleep(event, false, false)])
    case LetGo(t) =>
      if t !in w.phases || t in w.lock.gone || !w.phases[t].Asleep? || w.phases[t].unlocked then w
      else w.(lock := L.StepWorld(w.lock, L.Leave(t)), phases := w.phases[t := w.phases[t].(unlocked := true)])
    case Notify(n) =>
      var r, k := NotifyStep(w.queue, n, w.lock.gone), Count(n, w.queue);
      w.(queue := r.rest, phases := Told(w.phases, r.woken), issued := w.issued + k, lost := w.lost + k - |r.woken|)
    case WakeUp(t) =>
      if t !in w.phases || t in w.lock.gone then w
      else if !w.phases[t].Asleep? || !w.phases[t].unlocked || !w.phases[t].notified then w
      else w.(phases := w.phases[t := Regaining(true, false, Top)])
    case CancelSleep(t) =>
      if t !in w.phases || t in w.lock.gone || !w.phases[t].Asleep? || !w.phases[t].unlocked then w
      else
        var event := w.phases[t].event;
        var awake := w.(phases := w.phases[t := Regaining(false, true, Top)]);
        if event in Events(w.queue) then awake.(queue := Without(w.queue, event)) else Forward(awake)
    case TryAgain(t, event) =>
      if !IsAt(w, t, Top) || event in w.lock.used then w
      else w.(lock := L.StepWorld(w.lock, L.Enter(t, event)), phases := AfterAcquire(w, t, event))
    case Acquired(t) =>
      if !IsAt(w, t, Trying) || t !in w.lock.waiting || w.lock.waiting[t] !in w.lock.told then w
      else w.(lock := L.StepWorld(w.lock, L.Resume(t)), phases := Moved(w, t, Out, false))
    case CancelAcquire(t) =>
      if !IsAt(w, t, Trying) then w
      else w.(lock := L.StepWorld(w.lock, L.Cancel(t)), phases := Moved(w, t, Top, true))
    case Exit(t) =>
      if !IsAt(w, t, Out) then w
      else
        var gone, p := w.(phases := w.phases - {t}), w.phases[t];
        if !p.notified then gone
        else if p.cancelled then Forward(gone)
        else gone.(returned := w.returned + 1)
  }

  // The tasks a notification is with.
  function Carriers(phases: Phases): set<nat> {
    set t | t in phases && phases[t].notified
  }

  // The queue holds sleepers that were not told, and all of those that can run.
  ghost predicate Queued(queue: seq<Waiter>, phases: Phases, gone: set<nat>, used: set<nat>) {
    && Distinct(queue)
    && (forall x | x in queue :: Sleeps(phases, x.home, x.event) && !phases[x.home].notified)
    && (forall t | t in phases && phases[t].Asleep? :: phases[t].event in used)
    && (forall t, u | t in phases && u in phases && phases[t].Asleep? && phases[u].Asleep?
                      && phases[t].event == phases[u].event ::
          t == u)
    && (forall t | t in phases && phases[t].Asleep? && !phases[t].notified && t !in gone ::
          Waiter(phases[t].event, t) in queue)
  }

  predicate Sleeps(phases: Phases, t: nat, event: nat) {
    t in phases && phases[t].Asleep? && phases[t].event == event
  }

  // Sleepers hold the lock until they let go of it, the others once they are behind
  // the loop.
  predicate Placed(p: Phase, waiting: bool, inside: bool) {
    match p
    case Asleep(_, unlocked, _) => !waiting && inside != unlocked
    case Regaining(_, _, at) => waiting == at.Trying? && inside == at.Out?
  }

  ghost predicate LockFits(phases: Phases, lock: L.World) {
    forall t | t in phases :: t !in lock.finished && Placed(phases[t], t in lock.waiting, t in lock.inside)
  }

  ghost predicate Accounted(w: World, travelling: nat) {
    w.issued == w.returned + w.spent + w.lost + |Carriers(w.phases)| + travelling
  }

  ghost predicate Sound(w: World) {
    && L.Sound(w.lock) && LockFits(w.phases, w.lock)
    && Queued(w.queue, w.phases, w.lock.gone, w.used)
    && Accounted(w, 0)
  }

  // ------------------------------------------------------ telling some sleepers

  function Homes(q: seq<Waiter>): set<nat> {
    set x | x in q :: x.home
  }

  lemma HomesCount(q: seq<Waiter>)
    requires forall i, j | 0 <= i < j < |q| :: q[i].home != q[j].home
    ensures |Homes(q)| == |q|
  {
    var homes := seq(|q|, i requires 0 <= i < |q| => Waiter(q[i].home, 0));
    EventsCount(homes);
    assert Homes(q) == Events(homes) by {
      assert forall i | 0 <= i < |q| :: homes[i].event == q[i].home && q[i] in q;
    }
  }

  lemma DistinctApart(a: seq<Waiter>, b: seq<Waiter>)
    requires Distinct(a + b)
    ensures forall x | x in b :: x !in a
  {
    forall i, j | 0 <= i < |a| && 0 <= j < |b|
      ensures a[i] != b[j]
    {
      assert (a + b)[i].event != (a + b)[|a| + j].event;
    }
  }

  /** Telling `woken` and keeping `rest` loses nobody who can run. */
  lemma TellKeeps(queue: seq<Waiter>, woken: seq<Waiter>, rest: seq<Waiter>, phases: Phases, gone: set<nat>,
                  used: set<nat>)
    requires Queued(queue, phases, gone, used) && Distinct(woken + rest)
    requires forall x | x in woken || x in rest :: x in queue
    requires forall x | x in queue && x.home !in gone :: x in woken || x in rest
    ensures Queued(rest, Told(phases, woken), gone, used)
    ensures |Carriers(Told(phases, woken))| == |Carriers(phases)| + |woken|
  {
    EventsAppend(woken, rest);
    DistinctApart(woken, rest);
    ToldCount(woken, phases);
  }

  lemma ToldCount(woken: seq<Waiter>, phases: Phases)
    requires Distinct(woken) && forall x | x in woken :: Sleeps(phases, x.home, x.event) && !phases[x.home].notified
    ensures |Carriers(Told(phases, woken))| == |Carriers(phases)| + |woken|
  {
    assert forall i, j | 0 <= i < j < |woken| ::
        woken[i] in woken && woken[j] in woken && woken[i].home != woken[j].home;
    HomesCount(woken);
    assert Carriers(Told(phases, woken)) == Carriers(phases) + Homes(woken);
    assert Carriers(phases) !! Homes(woken);
  }

  lemma ToldLocks(phases: Phases, woken: seq<Waiter>, lock: L.World)
    requires LockFits(phases, lock)
    ensures LockFits(Told(phases, woken), lock)
  {
  }

  lemma ForwardKeeps(w: World)
    requires L.Sound(w.lock) && LockFits(w.phases, w.lock)
    requires Queued(w.queue, w.phases, w.lock.gone, w.used) && Accounted(w, 1)
    ensures Sound(Forward(w))
    ensures Forward(w).spent > w.spent ==> Forward(w).queue == []
  {
    var r := Wake(w.queue, 1, w.lock.gone);
    WakeSplits(w.queue, 1, w.lock.gone);
    TellKeeps(w.queue, r.woken, r.rest, w.phases, w.lock.gone, w.used);
    ToldLocks(w.phases, r.woken, w.lock);
  }

  lemma WakeSplits(queue: seq<Waiter>, n: int, gone: set<nat>)
    requires Distinct(queue)
    ensures var r := Wake(queue, n, gone);
            && Distinct(r.woken + r.rest)
            && (forall x | x in r.woken || x in r.rest :: x in queue)
            && (forall x | x in queue && x.home !in gone :: x in r.woken || x in r.rest)
  {
    var r := Wake(queue, n, gone);
    WakeInOrder(queue, n, gone);
    SubsequenceDistinct(r.woken + r.rest, queue);
    WakeMembers(queue, n, gone);
    forall x | x in queue && x.home !in gone
      ensures x in r.woken || x in r.rest
    {
      WakeKeepsOpen(queue, n, gone, x);
    }
  }

  lemma NotifySplits(queue: seq<Waiter>, n: int, gone: set<nat>)
    requires Distinct(queue)
    ensures var r := NotifyStep(queue, n, gone);
            && Distinct(r.woken + r.rest)
            && (forall x | x in r.woken || x in r.rest :: x in queue)
            && (forall x | x in queue && x.home !in gone :: x in r.woken || x in r.rest)
  {
    var k := Count(n, queue);
    var popped, rest := queue[..k], queue[k..];
    assert queue == popped + rest;
    EventsAppend(popped, rest);
    var r := Wake(popped, k, gone);
    WakeSplits(popped, k, gone);
    assert r.rest == [];
    EventsAppend(r.woken, r.rest);
    assert r.woken + [] == r.woken;
    WakeInOrder(popped, k, gone);
    SubsequenceDistinct(r.woken + r.rest, popped);
    EventsAppend(r.woken, rest);
  }

  // ------------------------------------------------------------------ each step

  lemma LockStepKeeps(w: World, e: L.Step)
    requires Sound(w)
    ensures Sound(LockStep(w, e))
  {
    L.StepKeepsSound(w.lock, e);
  }

  lemma ParkKeeps(w: World, t: nat, event: nat)
    requires Sound(w)
    ensures Sound(StepWorld(w, Park(t, event)))
  {
    var next := StepWorld(w, Park(t, event));
    if next != w {
      var queue := w.queue;
      forall x | x in queue
        ensures x.event in w.used && x.home != t
      {
      }
      EventsAppend(queue, [Waiter(event, t)]);
      EventsCons([Waiter(event, t)]);
      assert forall i | 0 <= i < |queue| :: queue[i] in queue;
      assert Carriers(next.phases) == Carriers(w.phases);
    }
  }

  lemma LetGoKeeps(w: World, t: nat)
    requires Sound(w)
    ensures Sound(StepWorld(w, LetGo(t)))
  {
    L.StepKeepsSound(w.lock, L.Leave(t));
    assert Carriers(StepWorld(w, LetGo(t)).phases) == Carriers(w.phases);
  }

  lemma NotifyKeeps(w: World, n: int)
    requires Sound(w)
    ensures Sound(StepWorld(w, Notify(n)))
  {
    var r := NotifyStep(w.queue, n, w.lock.gone);
    NotifySplits(w.queue, n, w.lock.gone);
    TellKeeps(w.queue, r.woken, r.rest, w.phases, w.lock.gone, w.used);
    ToldLocks(w.phases, r.woken, w.lock);
  }

  lemma WakeUpKeeps(w: World, t: nat)
    requires Sound(w)
    ensures Sound(StepWorld(w, WakeUp(t)))
  {
    assert Carriers(StepWorld(w, WakeUp(t)).phases) == Carriers(w.phases);
  }

  lemma CancelSleepKeeps(w: World, t: nat)
    requires Sound(w)
    ensures Sound(StepWorld(w, CancelSleep(t)))
  {
    if t in w.phases && t !in w.lock.gone && w.phases[t].Asleep? && w.phases[t].unlocked {
      var event := w.phases[t].event;
      var awake := w.(phases := w.phases[t := Regaining(false, true, Top)]);
      if event in Events(w.queue) {
        CancelQueuedKeeps(w, t);
      } else {
        if Waiter(event, t) in w.queue { MemberEvent(w.queue, Waiter(event, t)); }
        forall x | x in w.queue
          ensures x.home != t
        {
          MemberEvent(w.queue, x);
        }
        assert Carriers(w.phases) == Carriers(awake.phases) + {t};
        ForwardKeeps(awake);
      }
    }
  }

  lemma CancelQueuedKeeps(w: World, t: nat)
    requires Sound(w) && t in w.phases && w.phases[t].Asleep? && w.phases[t].unlocked
    requires w.phases[t].event in Events(w.queue)
    ensures Sound(w.(phases := w.phases[t := Regaining(false, true, Top)],
                     queue := Without(w.queue, w.phases[t].event)))
  {
    var event := w.phases[t].event;
    var left := Without(w.queue, event);
    WithoutMembers(w.queue, event);
    var i :| 0 <= i < |w.queue| && w.queue[i].event == event;
    assert w.queue[i] in w.queue && w.queue[i].home == t;
    assert Carriers(w.phases[t := Regaining(false, true, Top)]) == Carriers(w.phases);
  }

  // A task that is taking the lock moves: no sleeper and no notification is touched.
  lemma MoveKeeps(w: World, t: nat, p: Phase, lock: L.World)
    requires Sound(w) && t in w.phases && w.phases[t].Regaining? && p.Regaining?
    requires p.notified == w.phases[t].notified
    requires L.Sound(lock) && lock.gone == w.lock.gone && lock.finished == w.lock.finished
    requires Placed(p, t in lock.waiting, t in lock.inside)
    requires forall u | u != t ::
               (u in lock.waiting <==> u in w.lock.waiting) && (u in lock.inside <==> u in w.lock.inside)
    ensures Sound(w.(lock := lock, phases := w.phases[t := p]))
  {
    assert Carriers(w.phases[t := p]) == Carriers(w.phases);
  }

  lemma TryAgainKeeps(w: World, t: nat, event: nat)
    requires Sound(w)
    ensures Sound(StepWorld(w, TryAgain(t, event)))
  {
    if IsAt(w, t, Top) && event !in w.lock.used {
      var lock := L.StepWorld(w.lock, L.Enter(t, event));
      L.StepKeepsSound(w.lock, L.Enter(t, event));
      assert t !in w.lock.waiting && t !in w.lock.inside;
      MoveKeeps(w, t, AfterAcquire(w, t, event)[t], lock);
    }
  }

  lemma AcquiredKeeps(w: World, t: nat)
    requires Sound(w)
    ensures Sound(StepWorld(w, Acquired(t)))
  {
    if StepWorld(w, Acquired(t)) != w {
      L.StepKeepsSound(w.lock, L.Resume(t));
      MoveKeeps(w, t, Moved(w, t, Out, false)[t], L.StepWorld(w.lock, L.Resume(t)));
    }
  }

  lemma CancelAcquireKeeps(w: World, t: nat)
    requires Sound(w)
    ensures Sound(StepWorld(w, CancelAcquire(t)))
  {
    if IsAt(w, t, Trying) {
      L.StepKeepsSound(w.lock, L.Cancel(t));
      MoveKeeps(w, t, Moved(w, t, Top, true)[t], L.StepWorld(w.lock, L.Cancel(t)));
    }
  }

  lemma ExitKeeps(w: World, t: nat)
    requires Sound(w)
    ensures Sound(StepWorld(w, Exit(t)))
  {
    if IsAt(w, t, Out) {
      var gone := w.(phases := w.phases - {t});
      assert Carriers(gone.phases) == Carriers(w.phases) - {t};
      assert Queued(gone.queue, gone.phases, gone.lock.gone, gone.used);
      if w.phases[t].notified && w.phases[t].cancelled { ForwardKeeps(gone); }
    }
  }

  lemma StepKeepsSound(w: World, e: Step)
    requires Sound(w)
    ensures Sound(StepWorld(w, e))
  {
    match e
    case OfLock(step) => LockStepKeeps(w, step);
    case Park(t, event) => ParkKeeps(w, t, event);
    case LetGo(t) => LetGoKeeps(w, t);
    case Notify(n) => NotifyKeeps(w, n);
    case WakeUp(t) => WakeUpKeeps(w, t);
    case CancelSleep(t) => CancelSleepKeeps(w, t);
    case TryAgain(t, event) => TryAgainKeeps(w, t, event);
    case Acquired(t) => AcquiredKeeps(w, t);
    case CancelAcquire(t) => CancelAcquireKeeps(w, t);
    case Exit(t) => ExitKeeps(w, t);
  }

  function RunWorld(w: World, es: seq<Step>): World
    decreases |es|
  {
    if es == [] then w else RunWorld(StepWorld(w, es[0]), es[1..])
  }

  function Start(): World {
    World(L.Start(), [], map[], {}, 0, 0, 0, 0)
  }

  lemma StartSound()
    ensures Sound(Start())
  {
  }

  lemma {:induction false} AlwaysSound(w: World, es: seq<Step>)
    requires Sound(w)
    ensures Sound(RunWorld(w, es))
    decreases |es|
  {
    if es != [] {
      StepKeepsSound(w, es[0]);
      AlwaysSound(StepWorld(w, es[0]), es[1..]);
    }
  }

  /** After any steps, every notification either returned from `wait`, or is with a
      task still in `wait`, or was spent with no waiter left, or was lost on a
      closed loop; and whoever can run and was not told is queued. */
  lemma NotificationsAreAccountedFor(es: seq<Step>)
    ensures var w := RunWorld(Start(), es);
            && w.issued == w.returned + |Carriers(w.phases)| + w.spent + w.lost
            && (forall t | t in w.phases && w.phases[t].Asleep? && !w.phases[t].notified && t !in w.lock.gone ::
                  Waiter(w.phases[t].event, t) in w.queue)
  {
    StartSound();
    AlwaysSound(Start(), es);
  }

  /** A task that is behind the loop, and so one that leaves `wait`, normally or
      cancelled, owns the lock, however often it was cancelled on the way. */
  lemma ExitHoldsTheLock(es: seq<Step>, t: nat)
    ensures var w := RunWorld(Start(), es);
            && (t in w.phases && w.phases[t].Regaining? && w.phases[t].at == Out ==> w.lock.lock.owner == Some(t))
            && (StepWorld(w, Exit(t)) != w ==> w.lock.lock.owner == Some(t) && t !in StepWorld(w, Exit(t)).phases)
  {
    StartSound();
    AlwaysSound(Start(), es);
    var w := RunWorld(Start(), es);
    if t in w.phases && w.phases[t].Regaining? && w.phases[t].at == Out {
      assert Placed(w.phases[t], t in w.lock.waiting, t in w.lock.inside);
      assert t in w.lock.inside && t !in w.lock.finished;
    }
  }

  /** `acquire` never refuses a task in the loop as its owner, and a cancellation that
      met the loop is passed on when the task leaves. */
  lemma CancellationIsRemembered(w: World, e: Step, t: nat)
    requires Sound(w) && t in w.phases && w.phases[t].Regaining?
    ensures var next := StepWorld(w, e);
            && (e.CancelAcquire? && e.task == t && next != w ==> t in next.phases && next.phases[t].cancelled)
            && (w.phases[t].cancelled && t in next.phases ==> next.phases[t].Regaining? && next.phases[t].cancelled)
            && (w.phases[t].cancelled && e == Exit(t) ==> next.returned == w.returned)
            && (w.phases[t].at == Top ==> w.lock.lock.owner != Some(t))
  {
    assert Placed(w.phases[t], t in w.lock.waiting, t in w.lock.inside);
  }

  /** A notification is spent only when a cancellation finds nobody left to tell. */
  lemma SpentOnlyWithNobodyLeft(w: World, e: Step)
    requires Sound(w)
    ensures StepWorld(w, e).spent > w.spent ==> (e.CancelSleep? || e.Exit?) && StepWorld(w, e).queue == []
  {
  }

  /** `notify` loses a notification exactly when one of the waiters it pops is on a
      closed loop; nothing else loses any. */
  lemma LostExactlyOnClosedLoops(w: World, e: Step)
    ensures StepWorld(w, e).lost > w.lost
       <==> e.Notify? && exists i | 0 <= i < Count(e.n, w.queue) :: w.queue[i].home in w.lock.gone
  {
    if e.Notify? {
      var k := Count(e.n, w.queue);
      AllOpenAllWoken(w.queue[..k], w.lock.gone);
    }
  }

  lemma {:induction false} AllOpenAllWoken(queue: seq<Waiter>, closed: set<nat>)
    ensures |Wake(queue, |queue|, closed).woken| < |queue| <==> exists i | 0 <= i < |queue| :: queue[i].home in closed
  {
    if queue != [] {
      AllOpenAllWoken(queue[1..], closed);
      WakeAll(queue, |queue|, closed);
      assert (exists i | 0 <= i < |queue| :: queue[i].home in closed)
        <==> queue[0].home in closed || exists i | 0 <= i < |queue[1..]| :: queue[1..][i].home in closed by {
        assert forall i | 0 <= i < |queue[1..]| :: queue[1..][i] == queue[i + 1];
      }
    }
  }

  /** The loss is real: told to wake one, `notify` picks the stranded waiter, and
      the one that could run sleeps on. */
  lemma NotifyLosesToAStrandedWaiter(w: World, a: Waiter, b: Waiter)
    requires w.queue == [a, b] && a.home in w.lock.gone && b.home !in w.lock.gone
    ensures var next := StepWorld(w, Notify(1));
            next.queue == [b] && next.phases == w.phases && next.lost == w.lost + 1
  {
    assert w.queue[..1] == [a] && w.queue[1..] == [b] && [a][1..] == [];
    assert Told(w.phases, []) == w.phases;
  }

  lemma RunFirst(w: World, e: Step, rest: seq<Step>, next: World)
    requires StepWorld(w, e) == next
    ensures RunWorld(w, [e] + rest) == RunWorld(next, rest)
  {
    assert ([e] + rest)[1..] == rest;
  }

  // The lock when nobody has it, after `used` events and with the loops in `gone` closed.
  function FreeLock(used: set<nat>, gone: set<nat>): L.World {
    L.World(Lock.State(None, []), {}, map[], used, {}, {}, gone)
  }

  function Scene(lock: L.World, queue: seq<Waiter>, phases: Phases, used: set<nat>): World {
    World(lock, queue, phases, used, 0, 0, 0, 0)
  }

  // Task `t` takes the free lock, parks in `wait` and lets go of the lock.
  lemma FallAsleep(queue: seq<Waiter>, phases: Phases, events: set<nat>, locks: set<nat>, t: nat, event: nat,
                   rest: seq<Step>)
    requires t !in phases && event !in events && event !in locks
    ensures RunWorld(Scene(FreeLock(locks, {}), queue, phases, events),
                     [OfLock(L.Enter(t, event))] + ([Park(t, event)] + ([LetGo(t)] + rest)))
         == RunWorld(Scene(FreeLock(locks + {event}, {}), queue + [Waiter(event, t)],
                           phases[t := Asleep(event, true, false)], events + {event}), rest)
  {
    var start := Scene(FreeLock(locks, {}), queue, phases, events);
    assert Events([]) == {} && {} + Events([]) == {};
    var taken := L.World(Lock.State(Some(t), []), {t}, map[], locks + {event}, {}, {}, {});
    assert L.StepWorld(start.lock, L.Enter(t, event)) == taken;
    var inside := start.(lock := taken);
    RunFirst(start, OfLock(L.Enter(t, event)), [Park(t, event)] + ([LetGo(t)] + rest), inside);
    var parked := Scene(taken, queue + [Waiter(event, t)], phases[t := Asleep(event, false, false)], events + {event});
    RunFirst(inside, Park(t, event), [LetGo(t)] + rest, parked);
    assert {t} - {t} == {};
    assert L.StepWorld(taken, L.Leave(t)) == FreeLock(locks + {event}, {});
    var asleep := phases[t := Asleep(event, true, false)];
    assert parked.phases[t := Asleep(event, true, false)] == asleep;
    RunFirst(parked, LetGo(t), rest, Scene(FreeLock(locks + {event}, {}), parked.queue, asleep, parked.used));
  }

  // Two tasks fall asleep, the loop of the first is closed, and one is to be woken.
  function StrandedRun(): seq<Step> {
    [OfLock(L.Enter(1, 1))] + ([Park(1, 1)] + ([LetGo(1)] +
    ([OfLock(L.Enter(2, 2))] + ([Park(2, 2)] + ([LetGo(2)] + ([OfLock(L.Strand(1))] + [Notify(1)]))))))
  }

  /** A run from the start that gets there: task 2 can run, and is not told. */
  lemma ANotificationGetsLost()
    ensures var w := RunWorld(Start(), StrandedRun());
            && w.issued == 1 && w.lost == 1 && w.queue == [Waiter(2, 2)] && 2 !in w.lock.gone
            && 2 in w.phases && w.phases[2] == Asleep(2, true, false)
  {
    var first, second := Asleep(1, true, false), Asleep(2, true, false);
    assert Start() == Scene(FreeLock({}, {}), [], map[], {});
    FallAsleep([], map[], {}, {}, 1, 1,
               [OfLock(L.Enter(2, 2))] + ([Park(2, 2)] + ([LetGo(2)] + ([OfLock(L.Strand(1))] + [Notify(1)]))));
    assert [] + [Waiter(1, 1)] == [Waiter(1, 1)] && {} + {1} == {1} && {1} + {2} == {1, 2};
    FallAsleep([Waiter(1, 1)], map[1 := first], {1}, {1}, 2, 2, [OfLock(L.Strand(1))] + [Notify(1)]);
    var queue, phases := [Waiter(1, 1)] + [Waiter(2, 2)], map[1 := first][2 := second];
    var both := Scene(FreeLock({1, 2}, {}), queue, phases, {1, 2});
    var stranded := Scene(FreeLock({1, 2}, {1}), queue, phases, {1, 2});
    assert {} + {1} == {1};
    RunFirst(both, OfLock(L.Strand(1)), [Notify(1)], stranded);
    NotifyLosesToAStrandedWaiter(stranded, Waiter(1, 1), Waiter(2, 2));
    RunFirst(stranded, Notify(1), [], StepWorld(stranded, Notify(1)));
  }
}
