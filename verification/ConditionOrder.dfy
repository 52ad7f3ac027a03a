/** The order in which notifications reach the waiters of a condition variable. */
module ConditionOrder {
  import opened Condition
  import opened ConditionProtocol
  import opened Sequences
  import opened WaiterQueue

  // Who a step adds to the queue, and who it tells from it.
  function JoinedBy(w: World, e: Step): seq<Waiter> {
    if e.Park? && StepWorld(w, e) != w then [Waiter(e.event, e.task)] else []
  }

  // A cancelled task passes its notification on.
  predicate Forwards(w: World, e: Step) {
    match e
    case CancelSleep(t) =>
      && t in w.phases && t !in w.lock.gone && w.phases[t].Asleep? && w.phases[t].unlocked
      && w.phases[t].event !in Events(w.queue)
    case Exit(t) => IsAt(w, t, Out) && w.phases[t].notified && w.phases[t].cancelled
    case _ => false
  }

  function ToldBy(w: World, e: Step): seq<Waiter> {
    if e.Notify? then NotifyStep(w.queue, e.n, w.lock.gone).woken
    else if Forwards(w, e) then Wake(w.queue, 1, w.lock.gone).woken
    else []
  }

  function AllJoined(w: World, es: seq<Step>): seq<Waiter>
    decreases |es|
  {
    if es == [] then [] else JoinedBy(w, es[0]) + AllJoined(StepWorld(w, es[0]), es[1..])
  }

  function AllTold(w: World, es: seq<Step>): seq<Waiter>
    decreases |es|
  {
    if es == [] then [] else ToldBy(w, es[0]) + AllTold(StepWorld(w, es[0]), es[1..])
  }

  lemma NotifiesInOrder(queue: seq<Waiter>, n: int, gone: set<nat>)
    ensures var r := NotifyStep(queue, n, gone); Subsequence(r.woken + r.rest, queue)
  {
    var k := Count(n, queue);
    var r := Wake(queue[..k], k, gone);
    WakeInOrder(queue[..k], k, gone);
    assert r.rest == [] && r.woken + [] == r.woken;
    SubsequenceAppend(r.woken, queue[..k], queue[k..]);
    assert queue == queue[..k] + queue[k..];
  }

  // What a step leaves of the queue.
  lemma QueueAfter(w: World, e: Step)
    ensures var after := StepWorld(w, e).queue;
            if e.Notify? then after == NotifyStep(w.queue, e.n, w.lock.gone).rest
            else if Forwards(w, e) then after == Wake(w.queue, 1, w.lock.gone).rest
            else if e.CancelSleep? && after != w.queue then
              e.task in w.phases && w.phases[e.task].Asleep? && after == Without(w.queue, w.phases[e.task].event)
            else after == w.queue + JoinedBy(w, e)
  {
    assert w.queue + [] == w.queue;
  }

  lemma StepTellsInOrder(w: World, e: Step)
    ensures Subsequence(ToldBy(w, e) + StepWorld(w, e).queue, w.queue + JoinedBy(w, e))
  {
    var queue, after := w.queue, StepWorld(w, e).queue;
    QueueAfter(w, e);
    assert queue + [] == queue && [] + after == after;
    if e.Notify? {
      NotifiesInOrder(queue, e.n, w.lock.gone);
    } else if Forwards(w, e) {
      WakeInOrder(queue, 1, w.lock.gone);
    } else if e.CancelSleep? && after != queue {
      WithoutInOrder(queue, w.phases[e.task].event);
    } else {
      SubsequenceSelf(after);
    }
  }

  /** Notifications, first hand and forwarded, reach the waiters in the order they
      parked; only those cancelled or on a closed loop are passed over. */
  lemma {:induction false} NotificationsAreFifo(w: World, es: seq<Step>)
    ensures Subsequence(AllTold(w, es) + RunWorld(w, es).queue, w.queue + AllJoined(w, es))
    decreases |es|
  {
    if es == [] {
      assert [] + w.queue == w.queue && w.queue + [] == w.queue;
      SubsequenceSelf(w.queue);
    } else {
      var next := StepWorld(w, es[0]);
      StepTellsInOrder(w, es[0]);
      NotificationsAreFifo(next, es[1..]);
      ChainFifo(ToldBy(w, es[0]), next.queue, w.queue, JoinedBy(w, es[0]),
                AllTold(next, es[1..]), RunWorld(w, es).queue, AllJoined(next, es[1..]));
    }
  }
}
