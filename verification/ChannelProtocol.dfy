/** What holds of the channel in every reachable state: over every sequence of
    steps by any number of senders, receivers, selects and closers. */
module ChannelProtocol {
  import opened Channel
  import opened Sequences

  function Run<T>(s: State<T>, ops: seq<Op<T>>): State<T>
    decreases |ops|
  {
    if ops == [] then s else Run(Apply(ops[0], s).st, ops[1..])
  }

  // ----------------------------------------------------------- the invariant

  /** Parked getters find nothing to take; a closed channel keeps nobody waiting;
      an unbounded one never makes a sender wait. */
  predicate Valid<T>(s: State<T>) {
    && (s.getters != [] ==> s.buffer == [])
    && (s.isClosed ==> s.getters == [] && s.putters == [] && s.watchers == [])
    && (s.maxsize == 0 ==> s.putters == [])
  }

  lemma StepKeepsValid<T>(op: Op<T>, s: State<T>)
    requires Valid(s)
    ensures Valid(Apply(op, s).st)
    ensures Apply(op, s).st.maxsize == s.maxsize
    ensures s.isClosed ==> Apply(op, s).st.isClosed
  {
  }

  lemma {:induction false} AlwaysValid<T>(s: State<T>, ops: seq<Op<T>>)
    requires Valid(s)
    ensures Valid(Run(s, ops)) && Run(s, ops).maxsize == s.maxsize
    decreases |ops|
  {
    if ops != [] {
      StepKeepsValid(ops[0], s);
      AlwaysValid(Apply(ops[0], s).st, ops[1..]);
    }
  }

  /** Closed for ever: no waiter is ever queued again, and the buffer only drains. */
  lemma {:induction false} ClosedForEver<T>(s: State<T>, ops: seq<Op<T>>)
    requires Valid(s) && s.isClosed
    ensures var e := Run(s, ops);
            && e.isClosed && e.getters == [] && e.putters == [] && e.watchers == []
            && |e.buffer| <= |s.buffer| && e.buffer == s.buffer[|s.buffer| - |e.buffer|..]
    decreases |ops|
  {
    if ops != [] {
      var next := Apply(ops[0], s).st;
      StepKeepsValid(ops[0], s);
      assert next.buffer == s.buffer[|s.buffer| - |next.buffer|..];
      ClosedForEver(next, ops[1..]);
    }
  }

  // --------------------------------------------- linearisation to a FIFO queue

  // The items a step lets in, and those it hands out.
  function AcceptedBy<T>(op: Op<T>, r: Result<T>): seq<T> {
    if op.Send? && r.reply == Yes then [op.item] else []
  }

  function HandedOut<T>(r: Result<T>): seq<T> {
    if r.wakes.gift.Gift? then [r.wakes.gift.item]
    else if r.reply.Item? then [r.reply.item]
    else []
  }

  function Accepted<T>(s: State<T>, ops: seq<Op<T>>): seq<T>
    decreases |ops|
  {
    if ops == [] then []
    else var r := Apply(ops[0], s); AcceptedBy(ops[0], r) + Accepted(r.st, ops[1..])
  }

  function Delivered<T>(s: State<T>, ops: seq<Op<T>>): seq<T>
    decreases |ops|
  {
    if ops == [] then []
    else var r := Apply(ops[0], s); HandedOut(r) + Delivered(r.st, ops[1..])
  }

  lemma SendIsFifo<T>(item: T, s: State<T>)
    requires Valid(s)
    ensures var r := TrySend(s, item); s.buffer + AcceptedBy(Send(item), r) == HandedOut(r) + r.st.buffer
  {
  }

  lemma OthersTakeFromFront<T>(op: Op<T>, s: State<T>)
    requires Valid(s) && !op.Send?
    ensures var r := Apply(op, s);
            var n := |HandedOut(r)|;
            n <= |s.buffer| && HandedOut(r) == s.buffer[..n] && r.st.buffer == s.buffer[n..]
  {
  }

  lemma StepIsFifo<T>(op: Op<T>, s: State<T>)
    requires Valid(s)
    ensures var r := Apply(op, s); s.buffer + AcceptedBy(op, r) == HandedOut(r) + r.st.buffer
  {
    if op.Send? {
      SendIsFifo(op.item, s);
    } else {
      OthersTakeFromFront(op, s);
      SplitThere(s.buffer, HandedOut(Apply(op, s)), Apply(op, s).st.buffer);
    }
  }

  lemma SplitThere<T>(q: seq<T>, front: seq<T>, rest: seq<T>)
    requires |front| <= |q| && front == q[..|front|] && rest == q[|front|..]
    ensures q + [] == front + rest
  {
  }

  /** At any moment the accepted items are the delivered ones followed by the
      buffer: the channel is a FIFO queue, whoever sends and receives. */
  lemma {:induction false} ChannelIsFifo<T>(s: State<T>, ops: seq<Op<T>>)
    requires Valid(s)
    ensures s.buffer + Accepted(s, ops) == Delivered(s, ops) + Run(s, ops).buffer
    decreases |ops|
  {
    if ops == [] {
      assert s.buffer + [] == [] + s.buffer;
    } else {
      var r := Apply(ops[0], s);
      StepKeepsValid(ops[0], s);
      StepIsFifo(ops[0], s);
      ChannelIsFifo(r.st, ops[1..]);
      Regroup(s.buffer, AcceptedBy(ops[0], r), Accepted(r.st, ops[1..]),
              HandedOut(r), r.st.buffer, Delivered(r.st, ops[1..]), Run(s, ops).buffer);
    }
  }

  /** From the open channel on: what was accepted is what was delivered and what is
      buffered, and the invariant holds. */
  lemma EveryChannelIsFifo<T>(maxsize: nat, ops: seq<Op<T>>)
    ensures var s := Open<T>(maxsize);
            Valid(Run(s, ops)) && Accepted(s, ops) == Delivered(s, ops) + Run(s, ops).buffer
  {
    AlwaysValid(Open<T>(maxsize), ops);
    ChannelIsFifo(Open<T>(maxsize), ops);
    assert [] + Accepted(Open<T>(maxsize), ops) == Accepted(Open<T>(maxsize), ops);
  }

  /** `try_recv` never takes an item while a getter is parked. */
  lemma NoOvertaking<T>(s: State<T>, op: Op<T>)
    requires Valid(s) && s.getters != [] && (op.Recv? || op.RegisterGetter?)
    ensures !Apply(op, s).reply.Item? && s.getters <= Apply(op, s).st.getters
  {
  }

  // ------------------------------------------------------- waiters are FIFO

  datatype Kind = Getters | Putters | Watchers

  function Queue<T>(k: Kind, s: State<T>): seq<fut> {
    match k
    case Getters => s.getters
    case Putters => s.putters
    case Watchers => s.watchers
  }

  // Who a step adds to the queue, and who it serves from it (the closed error
  // serves nobody).
  function JoinedBy<T>(k: Kind, op: Op<T>, r: Result<T>): seq<fut> {
    match op
    case RegisterGetter(f) => if k == Getters && r.reply == No then [f] else []
    case RegisterPutter(f) => if k == Putters && r.reply == No then [f] else []
    case RegisterWatcher(f) => if k == Watchers && r.reply == Yes then [f] else []
    case _ => []
  }

  function ServedBy<T>(k: Kind, op: Op<T>, r: Result<T>): seq<fut> {
    match k
    case Getters => if r.wakes.gift.Gift? then [r.wakes.gift.to] else []
    case Putters => r.wakes.room
    case Watchers => if op.Close? then [] else r.wakes.pokes
  }

  function Joined<T>(k: Kind, s: State<T>, ops: seq<Op<T>>): seq<fut>
    decreases |ops|
  {
    if ops == [] then []
    else var r := Apply(ops[0], s); JoinedBy(k, ops[0], r) + Joined(k, r.st, ops[1..])
  }

  function Served<T>(k: Kind, s: State<T>, ops: seq<Op<T>>): seq<fut>
    decreases |ops|
  {
    if ops == [] then []
    else var r := Apply(ops[0], s); ServedBy(k, ops[0], r) + Served(k, r.st, ops[1..])
  }

  // What a step serves comes off the front of what is left of the queue after a
  // leaver is taken out and a newcomer added.
  ghost predicate FromFront(left: seq<fut>, served: seq<fut>, after: seq<fut>) {
    |served| <= |left| && served == left[..|served|] && after == left[|served|..]
  }

  lemma FrontInOrder(queue: seq<fut>, left: seq<fut>, served: seq<fut>, after: seq<fut>, joined: seq<fut>)
    requires Subsequence(left, queue + joined) && FromFront(left, served, after)
    ensures Subsequence(served + after, queue + joined)
  {
    assert served + after == left;
  }

  lemma GettersFromFront<T>(op: Op<T>, s: State<T>)
    requires Valid(s) && !op.Close?
    ensures var r := Apply(op, s);
            FromFront(if op.UnregisterGetter? then Removed(s.getters, op.f) else s.getters + JoinedBy(Getters, op, r),
                      ServedBy(Getters, op, r), r.st.getters)
  {
    match op
    case Send(item) =>
      assert s.getters + [] == s.getters;
    case UnregisterGetter(f) =>
      var left := Removed(s.getters, f);
      assert left == s.getters || left[0..] == left;
    case _ =>
  }

  lemma PuttersFromFront<T>(op: Op<T>, s: State<T>)
    requires Valid(s) && !op.Close?
    ensures var r := Apply(op, s);
            FromFront(if op.UnregisterPutter? then Removed(s.putters, op.f) else s.putters + JoinedBy(Putters, op, r),
                      ServedBy(Putters, op, r), r.st.putters)
  {
  }

  lemma WatchersFromFront<T>(op: Op<T>, s: State<T>)
    requires Valid(s) && !op.Close?
    ensures var r := Apply(op, s);
            FromFront(if op.UnregisterWatcher? then Removed(s.watchers, op.f)
                      else s.watchers + JoinedBy(Watchers, op, r),
                      ServedBy(Watchers, op, r), r.st.watchers)
  {
  }

  predicate LeavesBy<T>(k: Kind, op: Op<T>) {
    match k
    case Getters => op.UnregisterGetter?
    case Putters => op.UnregisterPutter?
    case Watchers => op.UnregisterWatcher?
  }

  lemma StepServesFromFront<T>(k: Kind, op: Op<T>, s: State<T>)
    requires Valid(s) && !op.Close?
    ensures var r := Apply(op, s);
            FromFront(if LeavesBy(k, op) then Removed(Queue(k, s), op.f) else Queue(k, s) + JoinedBy(k, op, r),
                      ServedBy(k, op, r), Queue(k, r.st))
  {
    match k
    case Getters => GettersFromFront(op, s);
    case Putters => PuttersFromFront(op, s);
    case Watchers => WatchersFromFront(op, s);
  }

  lemma StepServesInOrder<T>(k: Kind, op: Op<T>, s: State<T>)
    requires Valid(s)
    ensures var r := Apply(op, s);
            Subsequence(ServedBy(k, op, r) + Queue(k, r.st), Queue(k, s) + JoinedBy(k, op, r))
  {
    var r := Apply(op, s);
    var queue, joined, served, after := Queue(k, s), JoinedBy(k, op, r), ServedBy(k, op, r), Queue(k, r.st);
    if op.Close? {
      assert served + after == [];
    } else {
      StepServesFromFront(k, op, s);
      if LeavesBy(k, op) {
        RemovedIsSubsequence(queue, op.f);
        assert joined == [] && queue + joined == queue;
        FrontInOrder(queue, Removed(queue, op.f), served, after, joined);
      } else {
        SubsequenceSelf(queue + joined);
        FrontInOrder(queue, queue + joined, served, after, joined);
      }
    }
  }

  /** Each of the three queues serves its waiters in the order they registered;
      those that left or were closed out are skipped, nobody else. */
  lemma {:induction false} WaitersAreFifo<T>(k: Kind, s: State<T>, ops: seq<Op<T>>)
    requires Valid(s)
    ensures Subsequence(Served(k, s, ops) + Queue(k, Run(s, ops)), Queue(k, s) + Joined(k, s, ops))
    decreases |ops|
  {
    if ops == [] {
      assert [] + Queue(k, s) == Queue(k, s) && Queue(k, s) + [] == Queue(k, s);
      SubsequenceSelf(Queue(k, s));
    } else {
      var r := Apply(ops[0], s);
      StepKeepsValid(ops[0], s);
      StepServesInOrder(k, ops[0], s);
      WaitersAreFifo(k, r.st, ops[1..]);
      ChainFifo(ServedBy(k, ops[0], r), Queue(k, r.st), Queue(k, s), JoinedBy(k, ops[0], r),
                Served(k, r.st, ops[1..]), Queue(k, Run(s, ops)), Joined(k, r.st, ops[1..]));
    }
  }

  // ------------------------------------------------------- nobody is forgotten

  // Who is told that the channel was closed: getters and senders with the error,
  // selects with a poke that lets them look for themselves.
  function ClosedOut<T>(k: Kind, op: Op<T>, r: Result<T>): seq<fut> {
    if k == Watchers then (if op.Close? then r.wakes.pokes else []) else r.wakes.failed
  }

  /** A parked waiter stays parked until it is served, leaves by itself or is told
      that the channel was closed. */
  lemma NobodyIsForgotten<T>(k: Kind, op: Op<T>, s: State<T>, f: fut)
    requires Valid(s) && f in Queue(k, s)
    ensures var r := Apply(op, s);
            || f in Queue(k, r.st) || f in ServedBy(k, op, r) || f in ClosedOut(k, op, r)
            || (LeavesBy(k, op) && op.f == f)
  {
    var r := Apply(op, s);
    if op.Close? {
      assert f in s.getters + s.putters || f in s.watchers;
    } else {
      StepServesFromFront(k, op, s);
      if LeavesBy(k, op) {
        if op.f != f { StaysIn(Queue(k, s), op.f, f); }
        InFrontOrAfter(Removed(Queue(k, s), op.f), ServedBy(k, op, r), Queue(k, r.st));
      } else {
        InFrontOrAfter(Queue(k, s) + JoinedBy(k, op, r), ServedBy(k, op, r), Queue(k, r.st));
      }
    }
  }

  lemma InFrontOrAfter(left: seq<fut>, served: seq<fut>, after: seq<fut>)
    requires FromFront(left, served, after)
    ensures forall f | f in left :: f in served || f in after
  {
    assert left == served + after;
  }

  lemma {:induction false} StaysIn(queue: seq<fut>, x: fut, f: fut)
    requires f in queue && f != x
    ensures f in Removed(queue, x)
  {
    if queue[0] != f { StaysIn(queue[1..], x, f); }
  }
}
