/** What the calls on the cross-loop primitives answer, and to whom they pass on what is
    given back. */
module SyncAnswers {
  import opened Bytes
  import opened WaiterQueue
  import opened Sequences
  import Barrier
  import CapacityLimiter
  import Condition
  import Lock
  import RwLock
  import Semaphore

  // The first of those that can run, if any.
  function FirstOpen(queue: seq<Waiter>, gone: set<nat>): seq<Waiter> {
    OpenOnes(queue, gone)[..Fewer(1, |OpenOnes(queue, gone)|)]
  }

  // --------------------------------------------------------------------- lock

  /** The owner is refused; a free lock is taken; one whose owner runs on is waited for;
      one whose owner has finished goes to the first waiter that can run, and to the
      newcomer if there is none. */
  lemma LockAcquireAnswers(s: Lock.State, w: Waiter, finished: set<nat>, gone: set<nat>)
    ensures var r, first := Lock.AcquireStep(s, w, finished, gone), FirstOpen(s.waiters, gone);
            if s.owner == Some(w.home) then r == Lock.Result(s, Lock.RuntimeError, [])
            else if s.owner.None? then r == Lock.Result(s.(owner := Some(w.home)), Lock.Acquired, [])
            else if s.owner.value !in finished then
              r == Lock.Result(s.(waiters := s.waiters + [w]), Lock.Parked, [])
            else if first == [] then r == Lock.Result(Lock.State(Some(w.home), []), Lock.Acquired, [])
            else
              && r.reply == Lock.Parked && r.st.owner == Some(first[0].home) && r.woken == first
              && r.st.waiters != [] && r.st.waiters[|r.st.waiters| - 1] == w
  {
    WakesTheFirst(s.waiters, 1, gone);
  }

  /** Only the owner can release; anybody else gets the error, and the lock stays as it
      was. The first waiter that can run becomes the owner and is told; without one the
      lock is free. */
  lemma LockReleaseAnswers(s: Lock.State, task: nat, gone: set<nat>)
    ensures var r, first := Lock.ReleaseStep(s, task, gone), FirstOpen(s.waiters, gone);
            if s.owner != Some(task) then r == Lock.Result(s, Lock.RuntimeError, [])
            else
              && r.reply == Lock.Done && r.woken == first
              && r.st.owner == (if first == [] then None else Some(first[0].home))
              && (first == [] ==> r.st.waiters == [])
  {
    WakesTheFirst(s.waiters, 1, gone);
  }

  /** A waiter that is cancelled in the queue just leaves it; one that owns the lock
      already passes it on as a release would; one that has neither leaves the lock alone. */
  lemma LockCancelAnswers(s: Lock.State, w: Waiter, gone: set<nat>)
    requires Distinct(s.waiters)
    ensures var r := Lock.CancelStep(s, w, gone);
            if w.event in Events(s.waiters) then
              && r.st.owner == s.owner && r.woken == []
              && forall x | x in r.st.waiters || x in s.waiters ::
                   x in r.st.waiters <==> x in s.waiters && x.event != w.event
            else if s.owner == Some(w.home) then
              r == Lock.ReleaseStep(s.(waiters := Without(s.waiters, w.event)), w.home, gone)
            else r.st.owner == s.owner && r.woken == []
  {
    WithoutMembers(s.waiters, w.event);
  }

  // ---------------------------------------------------------------- semaphore

  /** A permit is given at once exactly if one is left; otherwise the task is the last to
      wait. */
  lemma SemaphoreAcquireAnswers(s: Semaphore.State, w: Waiter)
    ensures var r := Semaphore.AcquireStep(s, w);
            && (r.reply == Semaphore.Done <==> s.value > 0) && r.woken == []
            && r.st == if s.value > 0 then s.(value := s.value - 1) else s.(waiters := s.waiters + [w])
  {
  }

  /** A release beyond the maximum is an error and changes nothing; otherwise the first
      waiter that can run gets the permit, or it is free again. The permit of a waiter
      that is cancelled after the grant goes the same way. */
  lemma SemaphoreReleaseAnswers(s: Semaphore.State, event: nat, closed: set<nat>)
    ensures var r, first := Semaphore.ReleaseStep(s, closed), FirstOpen(s.waiters, closed);
            if s.waiters == [] && s.value >= s.max then r == Semaphore.Result(s, Semaphore.ValueError, [])
            else
              && r.reply == Semaphore.Done && r.woken == first
              && r.st.value == s.value + (if first == [] then 1 else 0) && (first == [] ==> r.st.waiters == [])
    ensures var r, first := Semaphore.CancelStep(s, event, closed), FirstOpen(s.waiters, closed);
            if event in Events(s.waiters) then
              r.st == s.(waiters := Without(s.waiters, event)) && r.woken == []
            else r.woken == first && r.st.value == s.value + if first == [] then 1 else 0
  {
    WakesTheFirst(s.waiters, 1, closed);
  }

  // ---------------------------------------------------------- capacity limiter

  /** A token is given at once exactly if fewer are borrowed than the capacity. */
  lemma LimiterAcquireAnswers(s: CapacityLimiter.State, w: Waiter)
    ensures var r := CapacityLimiter.AcquireStep(s, w);
            && (r.reply == CapacityLimiter.Done <==> s.borrowed < s.total.Floor) && r.woken == []
            && r.st == if s.borrowed < s.total.Floor then s.(borrowed := s.borrowed + 1)
                       else s.(waiters := s.waiters + [w])
  {
  }

  /** A release without a borrowed token is an error and changes nothing; otherwise the
      token goes to the first waiter that can run, unless the capacity has shrunk below
      what is still borrowed. */
  lemma LimiterReleaseAnswers(s: CapacityLimiter.State, closed: set<nat>)
    ensures var r, first := CapacityLimiter.ReleaseStep(s, closed), FirstOpen(s.waiters, closed);
            if s.borrowed <= 0 then r == CapacityLimiter.Result(s, CapacityLimiter.ValueError, [])
            else
              && r.reply == CapacityLimiter.Done && r.st.total == s.total
              && r.woken == (if s.borrowed > s.total.Floor then [] else first)
              && r.st.borrowed == s.borrowed - 1 + |r.woken|
  {
    WakesTheFirst(s.waiters, 1, closed);
  }

  lemma LimiterCancelAnswers(s: CapacityLimiter.State, event: nat, closed: set<nat>)
    ensures var r, first := CapacityLimiter.CancelStep(s, event, closed), FirstOpen(s.waiters, closed);
            if event in Events(s.waiters) then
              r.st == s.(waiters := Without(s.waiters, event)) && r.woken == []
            else
              && r.woken == (if s.borrowed > s.total.Floor then [] else first) && r.st.total == s.total
              && r.st.borrowed == s.borrowed - 1 + |r.woken|
  {
    WakesTheFirst(s.waiters, 1, closed);
  }

  /** A total that is not positive is an error and changes nothing. Otherwise as many of
      the waiters that can run are let in, in order, as the new capacity has room for. */
  lemma LimiterResizeAnswers(s: CapacityLimiter.State, value: real, closed: set<nat>)
    ensures var r, open := CapacityLimiter.ResizeStep(s, value, closed), OpenOnes(s.waiters, closed);
            if value <= 0.0 then r == CapacityLimiter.Result(s, CapacityLimiter.ValueError, [])
            else
              && r.reply == CapacityLimiter.Done && r.st.total == value
              && r.woken == open[..Fewer(value.Floor - s.borrowed, |open|)]
              && r.st.borrowed == s.borrowed + |r.woken|
  {
    WakesTheFirst(s.waiters, if value > 0.0 then value.Floor - s.borrowed else 0, closed);
  }

  // ---------------------------------------------------------------- condition

  /** `notify(n)` takes the first `n` waiters out of the queue, or all of them, and wakes
      those among them that can run; for a number that is not positive it does nothing. */
  lemma NotifyAnswers(queue: seq<Waiter>, n: int, gone: set<nat>)
    ensures var r, k := Condition.NotifyStep(queue, n, gone), Fewer(n, |queue|);
            r.woken == OpenOnes(queue[..k], gone) && r.rest == queue[k..]
  {
    var k := Fewer(n, |queue|);
    WakesTheFirst(queue[..k], k, gone);
    OpenAreFewer(queue[..k], gone);
  }

  lemma {:induction false} OpenAreFewer(queue: seq<Waiter>, gone: set<nat>)
    ensures |OpenOnes(queue, gone)| <= |queue|
    ensures (forall x | x in queue :: x.home !in gone) ==> OpenOnes(queue, gone) == queue
  {
    if queue != [] {
      OpenAreFewer(queue[1..], gone);
      assert queue == [queue[0]] + queue[1..];
    }
  }

  /** So with everybody able to run, exactly the first `n` are woken, or all. */
  lemma NotifyWakesTheFirst(queue: seq<Waiter>, n: int, gone: set<nat>)
    requires forall x | x in queue :: x.home !in gone
    ensures Condition.NotifyStep(queue, n, gone).woken == queue[..Fewer(n, |queue|)]
  {
    NotifyAnswers(queue, n, gone);
    OpenAreFewer(queue[..Fewer(n, |queue|)], gone);
  }

  // ------------------------------------------------------------------- barrier

  /** An arrival fails exactly at a barrier that was broken or aborted and not reset, and
      changes nothing there; the one that makes up the number passes with index 0 and
      wakes all others; any other one waits. */
  lemma BarrierArriveAnswers(s: Barrier.State, event: nat)
    ensures var r := Barrier.ArriveStep(s, event);
            && (r.reply == Barrier.Failed <==> s.aborted || s.broken)
            && (r.reply == Barrier.Failed ==> r.st == s && r.woken == [])
            && (r.reply.Passed? <==> !s.aborted && !s.broken && |s.waiters| + 1 == s.parties)
            && (r.reply.Passed? ==>
                  && r.reply == Barrier.Passed(0) && r.woken == s.waiters && r.st.waiters == []
                  && r.st.generation == s.generation + 1)
            && (r.reply == Barrier.Parked ==>
                  && r.woken == [] && r.st == s.(waiters := s.waiters + [event], boxes := s.boxes[event := None]))
  {
  }

  // What each of the parties is told as it arrives.
  function Replies(s: Barrier.State, events: seq<nat>): seq<Barrier.Reply>
    decreases |events|
  {
    if events == [] then []
    else var r := Barrier.ArriveStep(s, events[0]); [r.reply] + Replies(r.st, events[1..])
  }

  /** As many parties as are missing fill the round: all wait, until the last one passes. */
  lemma {:induction false} PartiesFillTheRound(s: Barrier.State, events: seq<nat>)
    requires !s.aborted && !s.broken && events != [] && |s.waiters| + |events| == s.parties
    ensures var replies := Replies(s, events);
            && |replies| == |events| && replies[|events| - 1] == Barrier.Passed(0)
            && forall i | 0 <= i < |events| - 1 :: replies[i] == Barrier.Parked
    decreases |events|
  {
    if |events| > 1 {
      var r := Barrier.ArriveStep(s, events[0]);
      PartiesFillTheRound(r.st, events[1..]);
    }
  }

  /** Every party of a round that is complete passes with its place in the order of
      arrival, even if the barrier is broken, aborted or reset before it runs on. */
  lemma CompleteRoundPasses(s: Barrier.State, event: nat, i: nat, generation: nat)
    requires NoRepeats(s.waiters) && i < |s.waiters| && generation <= s.generation
    requires Barrier.ArriveStep(s, event).reply.Passed?
    ensures var after := Barrier.ArriveStep(s, event).st;
            && s.waiters[i] in after.boxes
            && Barrier.ResumeReply(after, s.waiters[i], generation) == Barrier.Passed(i + 1)
            && Barrier.ResumeReply(Barrier.AbortStep(after).st, s.waiters[i], generation) == Barrier.Passed(i + 1)
            && Barrier.ResumeReply(Barrier.ResetStep(after).st, s.waiters[i], generation) == Barrier.Passed(i + 1)
  {
    Barrier.DealGives(s.boxes, s.waiters, 1);
  }

  /** A cancelled party breaks its round, an abort or a reset ends it: all who wait are
      woken, and fail. */
  lemma EndedRoundFails(s: Barrier.State, event: nat)
    requires event in s.waiters && event in s.boxes && s.boxes[event].None?
    ensures var r := Barrier.CancelStep(s, s.generation);
            && r.woken == s.waiters && r.st.waiters == [] && r.st.broken && event in r.st.boxes
            && Barrier.ResumeReply(r.st, event, s.generation) == Barrier.Failed
    ensures var r := Barrier.AbortStep(s);
            && r.woken == s.waiters && r.st.waiters == [] && r.st.aborted && r.st.broken
            && Barrier.ResumeReply(r.st, event, s.generation) == Barrier.Failed
    ensures var r := Barrier.ResetStep(s);
            && r.woken == s.waiters && r.st.waiters == [] && !r.st.aborted && !r.st.broken
            && Barrier.ResumeReply(r.st, event, s.generation) == Barrier.Failed
  {
    Barrier.BreakGives(s.boxes, s.waiters);
  }

  /** A party of an earlier round breaks nothing when it is cancelled. */
  lemma LateCancelIsHarmless(s: Barrier.State, generation: nat)
    requires generation != s.generation
    ensures Barrier.CancelStep(s, generation).st == s && Barrier.CancelStep(s, generation).woken == []
  {
  }

  // ----------------------------------------------------------- read-write lock

  /** A reader is let in exactly if no writer is inside and none is waiting, a writer
      exactly if nobody is inside and no writer is waiting; whoever asks to wait for it
      waits last. */
  lemma EnterAnswers(s: RwLock.State, f: RwLock.fut)
    ensures var r := RwLock.EnterRead(s, f);
            && (r.got <==> !s.writer && s.pending == 0) && r.woken == []
            && r.st == if r.got then s.(readers := s.readers + 1) else s.(readQueue := s.readQueue + [f])
    ensures var r := RwLock.EnterWrite(s, f);
            && (r.got <==> !s.writer && s.readers == 0 && s.pending == 0) && r.woken == []
            && r.st == if r.got then s.(writer := true)
                       else s.(pending := s.pending + 1, writeQueue := s.writeQueue + [f])
    ensures RwLock.TryRead(s).got == RwLock.EnterRead(s, f).got
    ensures RwLock.TryWrite(s).got == RwLock.EnterWrite(s, f).got
    ensures !RwLock.TryRead(s).got ==> RwLock.TryRead(s).st == s
    ensures !RwLock.TryWrite(s).got ==> RwLock.TryWrite(s).st == s
  {
  }

  /** The last reader to leave lets the first waiting writer in; a writer that leaves
      lets the next writer in, or else all waiting readers. */
  lemma LeaveAnswers(s: RwLock.State)
    requires s.pending == |s.writeQueue|
    ensures var r := RwLock.LeaveRead(s);
            if s.readers <= 1 && s.writeQueue != [] then
              && r.woken == [s.writeQueue[0]] && r.st.writer && r.st.writeQueue == s.writeQueue[1..]
              && r.st.pending == s.pending - 1
            else r.woken == [] && r.st == s.(readers := if s.readers == 0 then 0 else s.readers - 1)
    ensures var r := RwLock.LeaveWrite(s);
            if s.writeQueue != [] then
              && r.woken == [s.writeQueue[0]] && r.st.writer && r.st.writeQueue == s.writeQueue[1..]
              && r.st.readQueue == s.readQueue && r.st.pending == s.pending - 1
            else
              && r.woken == s.readQueue && !r.st.writer && r.st.readQueue == []
              && r.st.readers == s.readers + |s.readQueue|
  {
  }
}
