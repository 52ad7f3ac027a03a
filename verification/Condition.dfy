/** The condition variable: waiters behind a lock, notifications that travel on
    when their receiver is cancelled. */
module Condition {
  import opened Sequences
  import opened WaiterQueue

  function Count(n: int, queue: seq<Waiter>): (k: nat)
    ensures k <= |queue|
  {
    if n <= 0 then 0 else if n < |queue| then n else |queue|
  }

  /** `notify` pops up to `n` waiters first and wakes those whose loop is open. */
  function NotifyStep(queue: seq<Waiter>, n: int, closed: set<nat>): Woken {
    var k := Count(n, queue);
    Woken(Wake(queue[..k], k, closed).woken, queue[k..])
  }

  class Condition {
    var waiters: seq<Waiter>

    constructor ()
      ensures waiters == []
    {
      waiters := [];
    }

    method Park(w: Waiter)
      modifies this
      ensures waiters == old(waiters) + [w]
    {
      waiters := waiters + [w];
    }

    method PopWaiters(n: nat) returns (popped: seq<Waiter>)
      modifies this
      ensures popped == old(waiters)[..Count(n, old(waiters))] && waiters == old(waiters)[Count(n, old(waiters))..]
    {
      var count := if n < |waiters| then n else |waiters|;
      popped := [];
      for i := 0 to count
        invariant popped == old(waiters)[..i] && waiters == old(waiters)[i..]
      {
        popped := popped + [waiters[0]];
        waiters := waiters[1..];
      }
    }

    method Notify(n: int, closed: set<nat>) returns (woken: seq<Waiter>)
      modifies this
      ensures Woken(woken, waiters) == NotifyStep(old(waiters), n, closed)
    {
      woken := [];
      if n <= 0 {
        assert waiters[0..] == waiters;
        return;
      }
      var popped := PopWaiters(n);
      ghost var left := Wake(popped, |popped|, closed).woken;
      assert popped[0..] == popped;
      for i := 0 to |popped|
        invariant left == Wake(popped[i..], |popped| - i, closed).woken
            && waiters == old(waiters)[Count(n, old(waiters))..]
        invariant woken + left == Wake(popped, |popped|, closed).woken
      {
        WakeAll(popped[i..], |popped| - i, closed);
        if popped[i].home !in closed {
          Associative(woken, [popped[i]], Wake(popped[i + 1..], |popped| - i - 1, closed).woken);
          woken := woken + [popped[i]];
        }
        left := Wake(popped[i + 1..], |popped| - i - 1, closed).woken;
      }
      assert woken + [] == woken;
    }

    method NotifyAll(closed: set<nat>) returns (woken: seq<Waiter>)
      modifies this
      ensures waiters == [] && woken == Wake(old(waiters), |old(waiters)|, closed).woken
    {
      assert waiters[..|waiters|] == waiters;
      woken := Notify(|waiters|, closed);
    }

    method DiscardWaiter(event: nat) returns (wasPresent: bool)
      modifies this
      ensures wasPresent == (event in Events(old(waiters))) && waiters == Without(old(waiters), event)
    {
      wasPresent := event in Events(waiters);
      waiters := Without(waiters, event);
    }

    method ForwardNotify(closed: set<nat>) returns (woken: seq<Waiter>)
      modifies this
      ensures Woken(woken, waiters) == Wake(old(waiters), 1, closed)
    {
      while waiters != []
        invariant Wake(waiters, 1, closed) == Wake(old(waiters), 1, closed)
        decreases |waiters|
      {
        var next := waiters[0];
        waiters := waiters[1..];
        if next.home !in closed {
          assert Wake(waiters, 0, closed) == Woken([], waiters);
          return [next];
        }
      }
      return [];
    }
  }

  // Enough wake-ups for everybody: one more or less makes no difference.
  lemma {:induction false} WakeAll(queue: seq<Waiter>, n: nat, closed: set<nat>)
    requires queue != [] && n >= |queue|
    ensures Wake(queue, n, closed).woken
         == (if queue[0].home in closed then [] else [queue[0]]) + Wake(queue[1..], n - 1, closed).woken
  {
    EnoughIsEnough(queue[1..], n - 1, closed);
  }

  lemma {:induction false} EnoughIsEnough(queue: seq<Waiter>, n: nat, closed: set<nat>)
    requires n >= |queue|
    ensures Wake(queue, n + 1, closed).woken == Wake(queue, n, closed).woken
  {
    if queue != [] {
      if queue[0].home in closed {
        EnoughIsEnough(queue[1..], n, closed);
      } else {
        EnoughIsEnough(queue[1..], n - 1, closed);
      }
    }
  }
}
