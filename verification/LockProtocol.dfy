/** The lock among all the tasks that use it: who is inside, who waits, who was
    cancelled, finished or stranded on a closed loop. */
module LockProtocol {
  import opened Bytes
  import opened Lock
  import opened Sequences
  import opened WaiterQueue

  // `inside`: tasks that acquired and did not release; `waiting`: tasks in
  // `acquire`, with their events; `told`: the events that were set; `gone`: tasks
  // that no longer run, because they finished or because their loop is closed.
  datatype World = World(lock: State, inside: set<nat>, waiting: map<nat, nat>, used: set<nat>, told: set<nat>,
                         finished: set<nat>, gone: set<nat>)

  function Start(): World {
    World(State(None, []), {}, map[], {}, {}, {}, {})
  }

  datatype Step =
    | Enter(task: nat, event: nat)  // calls acquire, with a fresh event
    | Resume(task: nat)             // runs on after its event was set
    | Cancel(task: nat)             // is cancelled while in acquire
    | Leave(task: nat)              // calls release
    | Finish(task: nat)             // ends, releasing or not
    | Strand(task: nat)             // its loop is closed

  function StepWorld(w: World, e: Step): World {
    match e
    case Enter(task, event) =>
      if task in w.gone || task in w.waiting || event in w.used then w
      else
        var r := AcquireStep(w.lock, Waiter(event, task), w.finished, w.gone);
        w.(lock := r.st, used := w.used + {event}, told := w.told + Events(r.woken),
           inside := if r.reply == Acquired then w.inside + {task} else w.inside,
           waiting := if r.reply == Parked then w.waiting[task := event] else w.waiting)
    case Resume(task) =>
      if task in w.gone || task !in w.waiting || w.waiting[task] !in w.told then w
      else w.(inside := w.inside + {task}, waiting := w.waiting - {task})
    case Cancel(task) =>
      if task in w.gone || task !in w.waiting then w
      else
        var r := CancelStep(w.lock, Waiter(w.waiting[task], task), w.gone);
        w.(lock := r.st, told := w.told + Events(r.woken), waiting := w.waiting - {task})
    case Leave(task) =>
      if task in w.gone || task !in w.inside then w
      else
        var r := ReleaseStep(w.lock, task, w.gone);
        w.(lock := r.st, told := w.told + Events(r.woken), inside := w.inside - {task})
    case Finish(task) => w.(finished := w.finished + {task}, gone := w.gone + {task})
    case Strand(task) => w.(gone := w.gone + {task})
  }

  // The queue holds tasks that wait, under their own events.
  ghost predicate QueueSound(queue: seq<Waiter>, waiting: map<nat, nat>, used: set<nat>) {
    && Distinct(queue)
    && (forall x | x in queue :: x.home in waiting && waiting[x.home] == x.event)
    && (forall t | t in waiting :: waiting[t] in used)
    && (forall t, u | t in waiting && u in waiting && waiting[t] == waiting[u] :: t == u)
  }

  ghost predicate Sound(w: World) {
    && w.finished <= w.gone && w.inside !! w.waiting.Keys
    && QueueSound(w.lock.waiters, w.waiting, w.used)
    && (w.lock.owner.None? ==> w.lock.waiters == [])
    // whoever is inside and did not finish owns the lock
    && (forall t | t in w.inside && t !in w.finished :: w.lock.owner == Some(t))
    // whoever waits and can run is queued or has been granted the lock
    && (forall t | t in w.waiting && t !in w.gone ::
          w.lock.owner == Some(t) || Waiter(w.waiting[t], t) in w.lock.waiters)
    // the owner is inside, or was told and is on its way there
    && (w.lock.owner.Some? ==>
          var t := w.lock.owner.value;
          t in w.inside || (t in w.waiting && w.waiting[t] !in Events(w.lock.waiters) && w.waiting[t] in w.told))
    // nobody else who can run was told
    && w.told <= w.used
    && (forall t | t in w.waiting && t !in w.gone && w.waiting[t] in w.told :: w.lock.owner == Some(t))
  }

  // The lock is given up: nobody who runs is inside, all who wait are queued.
  ghost predicate Vacant(queue: seq<Waiter>, w: World) {
    && w.finished <= w.gone && w.inside !! w.waiting.Keys
    && QueueSound(queue, w.waiting, w.used)
    && (forall t | t in w.inside :: t in w.finished)
    && (forall t | t in w.waiting && t !in w.gone :: Waiter(w.waiting[t], t) in queue && w.waiting[t] !in w.told)
    && w.told <= w.used
  }

  lemma HandOverKeeps(s: State, w: World)
    requires Vacant(s.waiters, w)
    ensures var r := HandOver(s, w.gone); Sound(w.(lock := r.st, told := w.told + Events(r.woken)))
  {
    var queue := s.waiters;
    var r := Wake(queue, 1, w.gone);
    WakeMoves(queue, 1, w.gone, {});
    WakeMembers(queue, 1, w.gone);
    if r.woken != [] {
      assert r.woken == [r.woken[0]] && r.woken[0] in queue;
      EventsCons(r.woken);
    }
    forall t | t in w.waiting && t !in w.gone
      ensures Waiter(w.waiting[t], t) in r.woken || Waiter(w.waiting[t], t) in r.rest
    {
      WakeKeepsOpen(queue, 1, w.gone, Waiter(w.waiting[t], t));
    }
  }

  lemma EnterKeeps(w: World, task: nat, event: nat)
    requires Sound(w)
    ensures Sound(StepWorld(w, Enter(task, event)))
  {
    if task !in w.gone && task !in w.waiting && event !in w.used && w.lock.owner != Some(task) {
      var r := Recovered(w.lock, w.finished, w.gone);
      var recovered := w.(lock := r.st, told := w.told + Events(r.woken));
      assert w.told + Events([]) == w.told;
      if w.lock.owner.Some? && w.lock.owner.value in w.finished {
        HandOverKeeps(w.lock, w);
      }
      JoinKeeps(recovered, task, event);
    }
  }

  lemma JoinKeeps(w: World, task: nat, event: nat)
    requires Sound(w) && task !in w.gone && task !in w.waiting && event !in w.used && w.lock.owner != Some(task)
    ensures w.lock.owner.None? ==>
              Sound(w.(lock := w.lock.(owner := Some(task)), used := w.used + {event}, inside := w.inside + {task}))
    ensures w.lock.owner.Some? ==>
              Sound(w.(lock := w.lock.(waiters := w.lock.waiters + [Waiter(event, task)]), used := w.used + {event},
                       waiting := w.waiting[task := event]))
  {
    var queue := w.lock.waiters;
    EventsAppend(queue, [Waiter(event, task)]);
    EventsCons([Waiter(event, task)]);
    assert forall i | 0 <= i < |queue| :: queue[i].event in w.used;
  }

  lemma CancelKeeps(w: World, task: nat)
    requires Sound(w)
    ensures Sound(StepWorld(w, Cancel(task)))
  {
    if task !in w.gone && task in w.waiting {
      var event := w.waiting[task];
      var left := Without(w.lock.waiters, event);
      var after := w.(waiting := w.waiting - {task});
      WithoutKeepsSound(w, task);
      if event !in Events(w.lock.waiters) && w.lock.owner == Some(task) {
        HandOverKeeps(w.lock.(waiters := left), after);
      }
    }
  }

  lemma WithoutKeepsSound(w: World, task: nat)
    requires Sound(w) && task !in w.gone && task in w.waiting
    ensures var left, after := Without(w.lock.waiters, w.waiting[task]), w.(waiting := w.waiting - {task});
            && (w.waiting[task] !in Events(w.lock.waiters) ==> w.lock.owner == Some(task) && Vacant(left, after))
            && (w.waiting[task] in Events(w.lock.waiters) ==> Sound(after.(lock := w.lock.(waiters := left))))
  {
    var queue, event := w.lock.waiters, w.waiting[task];
    var left := Without(queue, event);
    WithoutMembers(queue, event);
    if event !in Events(queue) {
      if Waiter(event, task) in queue { MemberEvent(queue, Waiter(event, task)); }
    } else {
      var i :| 0 <= i < |queue| && queue[i].event == event;
      assert queue[i].home == task;
    }
  }

  lemma LeaveKeeps(w: World, task: nat)
    requires Sound(w)
    ensures Sound(StepWorld(w, Leave(task)))
  {
    if task !in w.gone && task in w.inside {
      HandOverKeeps(w.lock, w.(inside := w.inside - {task}));
    }
  }

  lemma StepKeepsSound(w: World, e: Step)
    requires Sound(w)
    ensures Sound(StepWorld(w, e))
  {
    match e
    case Enter(task, event) => EnterKeeps(w, task, event);
    case Resume(task) =>
    case Cancel(task) => CancelKeeps(w, task);
    case Leave(task) => LeaveKeeps(w, task);
    case Finish(task) =>
    case Strand(task) =>
  }

  function RunWorld(w: World, es: seq<Step>): World
    decreases |es|
  {
    if es == [] then w else RunWorld(StepWorld(w, es[0]), es[1..])
  }

  lemma {:induction false} AlwaysSound(w: World, es: seq<Step>)
    requires Sound(w)
    ensures Sound(RunWorld(w, es))
    decreases |es|
  {
    if es != [] {
      StepKeepsSound(w, es[0]);
      AlwaysSound(StepWorld(w, es[0]), es[1..]);
    }
  }

  /** Mutual exclusion, and no lost hand-over, after any steps of any tasks: at
      most one unfinished task is inside, and it owns the lock; while the lock is
      free, nobody queues and nobody who can run waits; whoever waits and can run
      is queued, or owns the lock and was told so. */
  lemma LockIsSafe(es: seq<Step>, t: nat, u: nat)
    ensures var w := RunWorld(Start(), es);
            && (t in w.inside && u in w.inside && t !in w.finished && u !in w.finished ==>
                  t == u && w.lock.owner == Some(t))
            && (w.lock.owner.None? ==> w.lock.waiters == [] && (t in w.waiting ==> t in w.gone))
            && (t in w.waiting && t !in w.gone ==>
                  || (w.lock.owner == Some(t) && w.waiting[t] in w.told)
                  || Waiter(w.waiting[t], t) in w.lock.waiters)
  {
    AlwaysSound(Start(), es);
  }

  // ------------------------------------------------------------------- order

  // The calls on the lock, each with the tasks that finished or are gone by then.
  datatype Call = Acquire(w: Waiter) | CancelWaiter(w: Waiter) | Release(task: nat)

  datatype Op = Op(call: Call, finished: set<nat>, gone: set<nat>)

  function Apply(op: Op, s: State): Result {
    match op.call
    case Acquire(w) => AcquireStep(s, w, op.finished, op.gone)
    case CancelWaiter(w) => CancelStep(s, w, op.gone)
    case Release(task) => ReleaseStep(s, task, op.gone)
  }

  function JoinedBy(op: Op, r: Result): seq<Waiter> {
    if op.call.Acquire? && r.reply == Parked then [op.call.w] else []
  }

  function Run(s: State, ops: seq<Op>): State
    decreases |ops|
  {
    if ops == [] then s else Run(Apply(ops[0], s).st, ops[1..])
  }

  function Joined(s: State, ops: seq<Op>): seq<Waiter>
    decreases |ops|
  {
    if ops == [] then [] else var r := Apply(ops[0], s); JoinedBy(ops[0], r) + Joined(r.st, ops[1..])
  }

  function Granted(s: State, ops: seq<Op>): seq<Waiter>
    decreases |ops|
  {
    if ops == [] then [] else var r := Apply(ops[0], s); r.woken + Granted(r.st, ops[1..])
  }

  lemma HandOverInOrder(s: State, gone: set<nat>)
    ensures var r := HandOver(s, gone); Subsequence(r.woken + r.st.waiters, s.waiters)
  {
    WakeInOrder(s.waiters, 1, gone);
  }

  lemma AcquireInOrder(s: State, w: Waiter, finished: set<nat>, gone: set<nat>)
    requires s.owner.None? ==> s.waiters == []
    ensures var r := AcquireStep(s, w, finished, gone);
            && (r.st.owner.None? ==> r.st.waiters == [])
            && Subsequence(r.woken + r.st.waiters, s.waiters + if r.reply == Parked then [w] else [])
  {
    var r := AcquireStep(s, w, finished, gone);
    var before := Recovered(s, finished, gone);
    assert s.waiters + [] == s.waiters && [] + s.waiters == s.waiters;
    SubsequenceSelf(s.waiters);
    HandOverInOrder(s, gone);
    if r.reply == Parked {
      SubsequenceAppend(before.woken + before.st.waiters, s.waiters, [w]);
      Associative(before.woken, before.st.waiters, [w]);
    } else if r.reply == Acquired {
      assert r.st.waiters == [] && r.woken + r.st.waiters == [];
    }
  }

  lemma StepGrantsInOrder(op: Op, s: State)
    requires s.owner.None? ==> s.waiters == []
    ensures var r := Apply(op, s);
            && (r.st.owner.None? ==> r.st.waiters == [])
            && Subsequence(r.woken + r.st.waiters, s.waiters + JoinedBy(op, r))
  {
    assert s.waiters + [] == s.waiters && [] + s.waiters == s.waiters;
    match op.call
    case Acquire(w) => AcquireInOrder(s, w, op.finished, op.gone);
    case CancelWaiter(w) =>
      var left := Without(s.waiters, w.event);
      WithoutInOrder(s.waiters, w.event);
      assert [] + left == left;
      if w.event !in Events(s.waiters) && s.owner == Some(w.home) {
        HandOverInOrder(s.(waiters := left), op.gone);
        var r := Apply(op, s);
        SubsequenceTrans(r.woken + r.st.waiters, left, s.waiters);
      }
    case Release(task) =>
      SubsequenceSelf(s.waiters);
      HandOverInOrder(s, op.gone);
  }

  /** The lock goes to the waiters in the order they came; only those cancelled,
      finished or stranded are passed over. */
  lemma {:induction false} HandOverIsFifo(s: State, ops: seq<Op>)
    requires s.owner.None? ==> s.waiters == []
    ensures Subsequence(Granted(s, ops) + Run(s, ops).waiters, s.waiters + Joined(s, ops))
    decreases |ops|
  {
    if ops == [] {
      assert [] + s.waiters == s.waiters && s.waiters + [] == s.waiters;
      SubsequenceSelf(s.waiters);
    } else {
      var r := Apply(ops[0], s);
      StepGrantsInOrder(ops[0], s);
      HandOverIsFifo(r.st, ops[1..]);
      ChainFifo(r.woken, r.st.waiters, s.waiters, JoinedBy(ops[0], r),
                Granted(r.st, ops[1..]), Run(s, ops).waiters, Joined(r.st, ops[1..]));
    }
  }
}
