/** The capacity limiter: tokens handed to waiters that may be cancelled before or
    after the grant, may live on closed loops, and may see the total resized. */
module CapacityLimiter {
  import opened Sequences
  import opened WaiterQueue

  datatype State = State(total: real, borrowed: int, waiters: seq<Waiter>)

  // int(total_tokens)
  function Capacity(s: State): int {
    s.total.Floor
  }

  datatype Reply = Done | Parked | ValueError

  datatype Result = Result(st: State, reply: Reply, woken: seq<Waiter>)

  datatype Op = Acquire(w: Waiter) | CancelWaiter(event: nat) | Release | SetTotal(value: real)

  function AcquireStep(s: State, w: Waiter): Result {
    if s.borrowed < Capacity(s) then Result(s.(borrowed := s.borrowed + 1), Done, [])
    else Result(s.(waiters := s.waiters + [w]), Parked, [])
  }

  function ReleaseStep(s: State, closed: set<nat>): Result {
    if s.borrowed <= 0 then Result(s, ValueError, [])
    else if s.borrowed - 1 >= Capacity(s) then Result(s.(borrowed := s.borrowed - 1), Done, [])
    else
      var r := Wake(s.waiters, 1, closed);
      Result(s.(borrowed := s.borrowed - 1 + |r.woken|, waiters := r.rest), Done, r.woken)
  }

  // The token of a cancelled waiter that had been granted one goes to the next
  // waiter, unless the total has shrunk meanwhile.
  function CancelStep(s: State, event: nat, closed: set<nat>): Result {
    if event in Events(s.waiters) then Result(s.(waiters := Without(s.waiters, event)), Done, [])
    else
      var r := Wake(s.waiters, if s.borrowed <= Capacity(s) then 1 else 0, closed);
      Result(s.(borrowed := s.borrowed - 1 + |r.woken|, waiters := r.rest), Done, r.woken)
  }

  function ResizeStep(s: State, value: real, closed: set<nat>): Result {
    if value <= 0.0 then Result(s, ValueError, [])
    else
      var r := Wake(s.waiters, value.Floor - s.borrowed, closed);
      Result(State(value, s.borrowed + |r.woken|, r.rest), Done, r.woken)
  }

  function Apply(op: Op, s: State, closed: set<nat>): Result {
    match op
    case Acquire(w) => AcquireStep(s, w)
    case CancelWaiter(event) => CancelStep(s, event, closed)
    case Release => ReleaseStep(s, closed)
    case SetTotal(value) => ResizeStep(s, value, closed)
  }

  class CapacityLimiter {
    var total: real
    var borrowed: int
    var waiters: seq<Waiter>

    function Value(): State
      reads this
    {
      State(total, borrowed, waiters)
    }

    constructor (total: real)
      requires total > 0.0
      ensures Value() == State(total, 0, [])
    {
      this.total := total;
      borrowed := 0;
      waiters := [];
    }

    method Acquire(w: Waiter) returns (reply: Reply)
      modifies this
      ensures forall closed: set<nat> :: Result(Value(), reply, []) == Apply(Op.Acquire(w), old(Value()), closed)
    {
      if borrowed < total.Floor {
        borrowed := borrowed + 1;
        return Done;
      }
      waiters := waiters + [w];
      return Parked;
    }

    method CancelWaiter(event: nat, closed: set<nat>) returns (woken: seq<Waiter>)
      modifies this
      ensures Result(Value(), Done, woken) == Apply(Op.CancelWaiter(event), old(Value()), closed)
    {
      if event in Events(waiters) {
        waiters := Without(waiters, event);
        return [];
      }
      var capacity := total.Floor;
      while waiters != [] && borrowed <= capacity
        invariant borrowed == old(borrowed) && total == old(total)
        invariant Wake(waiters, 1, closed) == Wake(old(waiters), 1, closed)
        invariant borrowed > capacity ==> waiters == old(waiters)
        decreases |waiters|
      {
        var next := waiters[0];
        waiters := waiters[1..];
        if next.home !in closed {
          assert Wake(waiters, 0, closed) == Woken([], waiters);
          return [next];
        }
      }
      borrowed := borrowed - 1;
      return [];
    }

    method Release(closed: set<nat>) returns (reply: Reply, woken: seq<Waiter>)
      modifies this
      ensures Result(Value(), reply, woken) == Apply(Op.Release, old(Value()), closed)
    {
      if borrowed <= 0 {
        return ValueError, [];
      }
      borrowed := borrowed - 1;
      var capacity := total.Floor;
      if borrowed < capacity {
        while waiters != []
          invariant borrowed == old(borrowed) - 1 && total == old(total)
          invariant Wake(waiters, 1, closed) == Wake(old(waiters), 1, closed)
          decreases |waiters|
        {
          var next := waiters[0];
          waiters := waiters[1..];
          if next.home !in closed {
            assert Wake(waiters, 0, closed) == Woken([], waiters);
            borrowed := borrowed + 1;
            return Done, [next];
          }
        }
      }
      return Done, [];
    }

    method SetTotal(value: real, closed: set<nat>) returns (reply: Reply, woken: seq<Waiter>)
      modifies this
      ensures Result(Value(), reply, woken) == Apply(Op.SetTotal(value), old(Value()), closed)
    {
      if value <= 0.0 {
        return ValueError, [];
      }
      total := value;
      var capacity := total.Floor;
      woken := [];
      ghost var whole := Wake(waiters, capacity - borrowed, closed);
      ghost var left := whole;
      while waiters != [] && borrowed < capacity
        invariant total == value && borrowed == old(borrowed) + |woken|
        invariant left == Wake(waiters, capacity - borrowed, closed)
        invariant whole == Woken(woken + left.woken, left.rest)
        decreases |waiters|
      {
        var next := waiters[0];
        waiters := waiters[1..];
        if next.home !in closed {
          left := Wake(waiters, capacity - borrowed - 1, closed);
          Associative(woken, [next], left.woken);
          woken := woken + [next];
          borrowed := borrowed + 1;
        }
      }
      assert woken + [] == woken;
      reply := Done;
    }
  }

  // --------------------------------------------------------- the whole system

  // `granted`: waiters whose token is on its way; `holders`: tasks that have one.
  datatype World = World(lim: State, granted: set<nat>, holders: nat, used: set<nat>)

  datatype Step =
    | Arrive(w: Waiter)    // a task asks for a token with a fresh event
    | Resume(event: nat)   // a granted task runs on
    | Cancel(event: nat)   // a waiting task is cancelled, before or after the grant
    | Leave                // a holder gives its token back
    | Resize(value: real)

  function StepWorld(w: World, e: Step, closed: set<nat>): World {
    match e
    case Arrive(waiter) =>
      if waiter.event in w.used then w
      else
        var r := AcquireStep(w.lim, waiter);
        World(r.st, w.granted, w.holders + (if r.reply == Done then 1 else 0), w.used + {waiter.event})
    case Resume(event) =>
      if event in w.granted then w.(granted := w.granted - {event}, holders := w.holders + 1) else w
    case Cancel(event) =>
      if event in Events(w.lim.waiters) || event in w.granted then
        var r := CancelStep(w.lim, event, closed);
        w.(lim := r.st, granted := (w.granted - {event}) + Events(r.woken))
      else w
    case Leave =>
      if w.holders == 0 then w
      else
        var r := ReleaseStep(w.lim, closed);
        w.(lim := r.st, granted := w.granted + Events(r.woken), holders := w.holders - 1)
    case Resize(value) =>
      var r := ResizeStep(w.lim, value, closed);
      w.(lim := r.st, granted := w.granted + Events(r.woken))
  }

  ghost predicate Sound(w: World) {
    && w.lim.borrowed == w.holders + |w.granted|
    && (w.lim.waiters != [] ==> w.lim.borrowed >= Capacity(w.lim))
    && Distinct(w.lim.waiters) && Events(w.lim.waiters) !! w.granted
    && Events(w.lim.waiters) + w.granted <= w.used
  }

  lemma ArriveKeeps(w: World, waiter: Waiter, closed: set<nat>)
    requires Sound(w)
    ensures Sound(StepWorld(w, Arrive(waiter), closed))
  {
    EventsAppend(w.lim.waiters, [waiter]);
    assert Events([waiter]) == {waiter.event} by { EventsCons([waiter]); }
  }

  // Handing tokens to up to `n` waiters keeps the accounts.
  lemma GrantKeeps(total: real, base: int, waiters: seq<Waiter>, n: int, closed: set<nat>,
                   granted: set<nat>, holders: nat, used: set<nat>)
    requires base == holders + |granted|
    requires Distinct(waiters) && Events(waiters) !! granted && Events(waiters) + granted <= used
    requires waiters != [] ==> base + (if n > 0 then n else 0) >= total.Floor
    ensures var r := Wake(waiters, n, closed);
            Sound(World(State(total, base + |r.woken|, r.rest), granted + Events(r.woken), holders, used))
  {
    WakeMoves(waiters, n, closed, granted);
  }

  lemma CancelParkedKeeps(w: World, event: nat, closed: set<nat>)
    requires Sound(w) && event in Events(w.lim.waiters)
    ensures Sound(StepWorld(w, Cancel(event), closed))
  {
    var left := Without(w.lim.waiters, event);
    WithoutInOrder(w.lim.waiters, event);
    SubsequenceDistinct(left, w.lim.waiters);
    assert StepWorld(w, Cancel(event), closed) == w.(lim := w.lim.(waiters := left)) by {
      assert (w.granted - {event}) + Events([]) == w.granted;
    }
  }

  lemma CancelGrantedKeeps(w: World, event: nat, closed: set<nat>)
    requires Sound(w) && event in w.granted
    ensures Sound(StepWorld(w, Cancel(event), closed))
  {
    GrantKeeps(w.lim.total, w.lim.borrowed - 1, w.lim.waiters, if w.lim.borrowed <= Capacity(w.lim) then 1 else 0,
               closed,
               w.granted - {event}, w.holders, w.used);
  }

  lemma CancelKeeps(w: World, event: nat, closed: set<nat>)
    requires Sound(w)
    ensures Sound(StepWorld(w, Cancel(event), closed))
  {
    if event in Events(w.lim.waiters) {
      CancelParkedKeeps(w, event, closed);
    } else if event in w.granted {
      CancelGrantedKeeps(w, event, closed);
    }
  }

  lemma LeaveKeeps(w: World, closed: set<nat>)
    requires Sound(w)
    ensures Sound(StepWorld(w, Leave, closed))
  {
    if w.holders > 0 {
      var n := if w.lim.borrowed - 1 >= Capacity(w.lim) then 0 else 1;
      assert w.granted + Events([]) == w.granted;
      GrantKeeps(w.lim.total, w.lim.borrowed - 1, w.lim.waiters, n, closed, w.granted, w.holders - 1, w.used);
    }
  }

  lemma ResizeKeeps(w: World, value: real, closed: set<nat>)
    requires Sound(w)
    ensures Sound(StepWorld(w, Resize(value), closed))
  {
    assert w.granted + Events([]) == w.granted;
    if value > 0.0 {
      GrantKeeps(value, w.lim.borrowed, w.lim.waiters, value.Floor - w.lim.borrowed, closed, w.granted, w.holders,
                 w.used);
    }
  }

  lemma StepKeepsSound(w: World, e: Step, closed: set<nat>)
    requires Sound(w)
    ensures Sound(StepWorld(w, e, closed))
  {
    match e
    case Arrive(waiter) => ArriveKeeps(w, waiter, closed);
    case Resume(event) =>
    case Cancel(event) => CancelKeeps(w, event, closed);
    case Leave => LeaveKeeps(w, closed);
    case Resize(value) => ResizeKeeps(w, value, closed);
  }

  // Each step comes with the loops that are closed by then.
  function RunWorld(w: World, es: seq<(Step, set<nat>)>): World
    decreases |es|
  {
    if es == [] then w else RunWorld(StepWorld(w, es[0].0, es[0].1), es[1..])
  }

  /** Tokens are conserved, and nobody waits while one is free: in every reachable
      state the borrowed tokens are those held and those on their way, and a
      parked task means that they reach the capacity. */
  lemma {:induction false} TokensAreConserved(w: World, es: seq<(Step, set<nat>)>)
    requires Sound(w)
    ensures Sound(RunWorld(w, es))
    decreases |es|
  {
    if es != [] {
      StepKeepsSound(w, es[0].0, es[0].1);
      TokensAreConserved(StepWorld(w, es[0].0, es[0].1), es[1..]);
    }
  }

  /** From the fresh limiter on, whatever its total. */
  lemma TokensAreAlwaysConserved(total: real, es: seq<(Step, set<nat>)>)
    ensures Sound(RunWorld(World(State(total, 0, []), {}, 0, {}), es))
  {
    TokensAreConserved(World(State(total, 0, []), {}, 0, {}), es);
  }

  /** A holder can always give its token back. */
  lemma HoldersMayLeave(w: World, closed: set<nat>)
    requires Sound(w) && w.holders > 0
    ensures ReleaseStep(w.lim, closed).reply == Done
  {
  }

  /** A task that gets a token at once passed nobody, and tokens are only lent
      out below the capacity. */
  lemma NobodyIsOvertaken(w: World, waiter: Waiter)
    requires Sound(w) && AcquireStep(w.lim, waiter).reply == Done
    ensures w.lim.waiters == [] && w.lim.borrowed < Capacity(w.lim)
  {
  }

  lemma NeverRisesAtCapacity(w: World, e: Step, closed: set<nat>)
    requires Sound(w)
    ensures var next := StepWorld(w, e, closed).lim;
            next.borrowed > w.lim.borrowed ==> w.lim.borrowed < Capacity(next) && next.borrowed <= Capacity(next)
  {
  }

  // ------------------------------------------------------------------- order

  function Joined(s: State, ops: seq<(Op, set<nat>)>): seq<Waiter>
    decreases |ops|
  {
    if ops == [] then []
    else
      var r := Apply(ops[0].0, s, ops[0].1);
      JoinedBy(ops[0].0, r) + Joined(r.st, ops[1..])
  }

  function JoinedBy(op: Op, r: Result): seq<Waiter> {
    if op.Acquire? && r.reply == Parked then [op.w] else []
  }

  function Granted(s: State, ops: seq<(Op, set<nat>)>): seq<Waiter>
    decreases |ops|
  {
    if ops == [] then []
    else
      var r := Apply(ops[0].0, s, ops[0].1);
      r.woken + Granted(r.st, ops[1..])
  }

  function Run(s: State, ops: seq<(Op, set<nat>)>): State
    decreases |ops|
  {
    if ops == [] then s else Run(Apply(ops[0].0, s, ops[0].1).st, ops[1..])
  }

  lemma StepGrantsInOrder(op: Op, s: State, closed: set<nat>)
    ensures var r := Apply(op, s, closed);
            Subsequence(r.woken + r.st.waiters, s.waiters + JoinedBy(op, r))
  {
    var r := Apply(op, s, closed);
    if op.Acquire? {
      assert [] + r.st.waiters == r.st.waiters && s.waiters + [] == s.waiters;
      SubsequenceSelf(r.st.waiters);
    } else {
      StepWakesInOrder(op, s, closed);
      assert s.waiters + [] == s.waiters;
    }
  }

  lemma StepWakesInOrder(op: Op, s: State, closed: set<nat>)
    requires !op.Acquire?
    ensures var r := Apply(op, s, closed); Subsequence(r.woken + r.st.waiters, s.waiters)
  {
    match op
    case CancelWaiter(event) =>
      if event in Events(s.waiters) {
        WithoutInOrder(s.waiters, event);
        assert [] + Without(s.waiters, event) == Without(s.waiters, event);
      } else {
        WakeInOrder(s.waiters, if s.borrowed <= Capacity(s) then 1 else 0, closed);
      }
    case Release => WakeInOrder(s.waiters, if 0 < s.borrowed <= Capacity(s) then 1 else 0, closed);
    case SetTotal(value) => WakeInOrder(s.waiters, if value > 0.0 then value.Floor - s.borrowed else 0, closed);
  }

  /** Tokens go to the waiters in the order they came; only those cancelled or
      on a closed loop are passed over. */
  lemma {:induction false} GrantsAreFifo(s: State, ops: seq<(Op, set<nat>)>)
    ensures Subsequence(Granted(s, ops) + Run(s, ops).waiters, s.waiters + Joined(s, ops))
    decreases |ops|
  {
    if ops == [] {
      assert [] + s.waiters == s.waiters && s.waiters + [] == s.waiters;
      SubsequenceSelf(s.waiters);
    } else {
      var r := Apply(ops[0].0, s, ops[0].1);
      StepGrantsInOrder(ops[0].0, s, ops[0].1);
      GrantsAreFifo(r.st, ops[1..]);
      ChainFifo(r.woken, r.st.waiters, s.waiters, JoinedBy(ops[0].0, r),
                Granted(r.st, ops[1..]), Run(s, ops).waiters, Joined(r.st, ops[1..]));
    }
  }
}
