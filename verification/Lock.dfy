/** The fair mutex: ownership is handed from task to task; an owner that finished
    without releasing is replaced by the next task that comes. */
module Lock {
  import opened Bytes
  import opened Sequences
  import opened WaiterQueue

  // Waiters are kept with their task.
  datatype State = State(owner: Option<nat>, waiters: seq<Waiter>)

  datatype Reply = Acquired | Parked | Done | RuntimeError

  datatype Result = Result(st: State, reply: Reply, woken: seq<Waiter>)

  /** Hands the lock to the first waiter that can still run, or frees it. */
  function HandOver(s: State, gone: set<nat>): Result {
    var r := Wake(s.waiters, 1, gone);
    Result(State(if r.woken == [] then None else Some(r.woken[0].home), r.rest), Done, r.woken)
  }

  // A finished owner is replaced first.
  function Recovered(s: State, finished: set<nat>, gone: set<nat>): Result {
    if s.owner.Some? && s.owner.value in finished then HandOver(s, gone) else Result(s, Done, [])
  }

  function AcquireStep(s: State, w: Waiter, finished: set<nat>, gone: set<nat>): Result {
    if s.owner == Some(w.home) then Result(s, RuntimeError, [])
    else
      var r := Recovered(s, finished, gone);
      if r.st.owner.None? then Result(r.st.(owner := Some(w.home)), Acquired, [])
      else Result(r.st.(waiters := r.st.waiters + [w]), Parked, r.woken)
  }

  function CancelStep(s: State, w: Waiter, gone: set<nat>): Result {
    var left := s.(waiters := Without(s.waiters, w.event));
    if w.event !in Events(s.waiters) && s.owner == Some(w.home) then HandOver(left, gone)
    else Result(left, Done, [])
  }

  function ReleaseStep(s: State, task: nat, gone: set<nat>): Result {
    if s.owner != Some(task) then Result(s, RuntimeError, []) else HandOver(s, gone)
  }

  class Lock {
    var owner: Option<nat>
    var waiters: seq<Waiter>

    function Value(): State
      reads this
    {
      State(owner, waiters)
    }

    constructor ()
      ensures Value() == State(None, [])
    {
      owner, waiters := None, [];
    }

    method ReleaseLocked(gone: set<nat>) returns (woken: seq<Waiter>)
      modifies this
      ensures Result(Value(), Done, woken) == HandOver(old(Value()), gone)
    {
      while waiters != []
        invariant Wake(waiters, 1, gone) == Wake(old(waiters), 1, gone)
        decreases |waiters|
      {
        var next := waiters[0];
        waiters := waiters[1..];
        if next.home !in gone {
          assert Wake(waiters, 0, gone) == Woken([], waiters);
          owner := Some(next.home);
          return [next];
        }
      }
      owner := None;
      return [];
    }

    method Acquire(w: Waiter, finished: set<nat>, gone: set<nat>) returns (reply: Reply, woken: seq<Waiter>)
      modifies this
      ensures Result(Value(), reply, woken) == AcquireStep(old(Value()), w, finished, gone)
    {
      if owner == Some(w.home) {
        return RuntimeError, [];
      }
      woken := [];
      if owner.Some? && owner.value in finished {
        woken := ReleaseLocked(gone);
      }
      if owner.None? {
        owner := Some(w.home);
        return Acquired, [];
      }
      waiters := waiters + [w];
      reply := Parked;
    }

    method CancelWaiter(w: Waiter, gone: set<nat>) returns (woken: seq<Waiter>)
      modifies this
      ensures Result(Value(), Done, woken) == CancelStep(old(Value()), w, gone)
    {
      var wasWaiter := w.event in Events(waiters);
      waiters := Without(waiters, w.event);
      woken := [];
      if owner == Some(w.home) && !wasWaiter {
        woken := ReleaseLocked(gone);
      }
    }

    method Release(task: nat, gone: set<nat>) returns (reply: Reply, woken: seq<Waiter>)
      modifies this
      ensures Result(Value(), reply, woken) == ReleaseStep(old(Value()), task, gone)
    {
      if owner != Some(task) {
        return RuntimeError, [];
      }
      woken := ReleaseLocked(gone);
      reply := Done;
    }
  }
}
