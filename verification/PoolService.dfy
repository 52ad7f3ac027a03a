/** What a worker of the pool is served: which task a pop returns, when it returns none,
    and what a worker that keeps polling gets. */
module PoolService {
  import opened Bytes
  import opened Pool
  import opened PoolProtocol
  import opened Sequences

  /** The tasks a worker is served from, in the order it comes to them: its buffer, the
      global queue if it may look there, its own queue. */
  function Line<T>(s: State<T>, i: nat, polls: bool): seq<T>
    requires WellFormed(s) && i < |s.buffers|
  {
    s.buffers[i] + (if s.closing || polls then s.global else []) + s.locals[i]
  }

  lemma Fronts<T>(a: seq<T>, b: seq<T>, c: seq<T>)
    ensures a != [] ==> (a + b + c)[0] == a[0] && (a + b + c)[1..] == a[1..] + b + c
    ensures a == [] && b != [] ==> (a + b + c)[0] == b[0] && (a + b + c)[1..] == b[1..] + c
    ensures a == [] && b == [] ==> a + b + c == c
    ensures a + b + c == [] <==> a == [] && b == [] && c == []
  {
  }

  lemma BatchThenRest<T>(global: seq<T>, own: seq<T>, n: nat)
    requires 0 < n <= |global|
    ensures global[1..n] + global[n..] + own == global[1..] + own
  {
    assert global[1..n] + global[n..] == global[1..];
  }

  /** A pop returns the front of the worker's line and takes it off; it returns nothing
      exactly if the line is empty: the error when the pool is closed, no work when it is
      open. */
  lemma PopServesTheLine<T>(s: State<T>, i: nat, polls: bool)
    requires WellFormed(s) && i < |s.buffers|
    ensures var line, r := Line(s, i, polls), Pop(s, i, polls);
            if line == [] then r.st == s && r.reply == if s.closing then Closed else NoWork
            else r.reply == Task(line[0]) && WellFormed(r.st) && i < |r.st.buffers| && Line(r.st, i, polls) == line[1..]
                 && r.st.closing == s.closing
  {
    var buffer, shared, own := s.buffers[i], if s.closing || polls then s.global else [], s.locals[i];
    Fronts(buffer, shared, own);
    if buffer == [] && shared != [] {
      BatchThenRest(s.global, own, Least(BatchSize(|s.global|, |s.locals|, s.closing), |s.global|));
    } else if buffer == [] && own != [] {
      Fronts([], shared, own[1..]);
    }
  }

  /** An open pool has no work for a worker exactly if its buffer and its own queue are
      empty, and it does not poll or the global queue is empty. */
  lemma NoWorkExactlyWhen<T>(s: State<T>, i: nat, polls: bool)
    requires WellFormed(s) && i < |s.buffers| && !s.closing
    ensures Pop(s, i, polls).reply == NoWork
       <==> s.buffers[i] == [] && s.locals[i] == [] && (!polls || s.global == [])
  {
    PopServesTheLine(s, i, polls);
    Fronts(s.buffers[i], if polls then s.global else [], s.locals[i]);
  }

  // ------------------------------------------------ a worker that keeps polling

  function Polled<T>(s: State<T>, i: nat, n: nat): seq<Reply<T>>
    requires Bounded(s)
    decreases n
  {
    if n == 0 then []
    else
      StepKeepsBounded(PopWork(i, true), s);
      var r := Apply(PopWork(i, true), s);
      [r.reply] + Polled(r.st, i, n - 1)
  }

  function AsTasks<T>(line: seq<T>): seq<Reply<T>> {
    if line == [] then [] else [Task(line[0])] + AsTasks(line[1..])
  }

  /** A worker that keeps polling gets every task that is ahead of it, in order, and only
      then no work. */
  lemma {:induction false} PollingGetsEverything<T>(s: State<T>, i: nat)
    requires Bounded(s) && i < |s.buffers| && !s.closing
    ensures var line := Line(s, i, true);
            Polled(s, i, |line| + 1) == AsTasks(line) + [NoWork]
    decreases |Line(s, i, true)|
  {
    var line := Line(s, i, true);
    PopServesTheLine(s, i, true);
    StepKeepsBounded(PopWork(i, true), s);
    var r := Apply(PopWork(i, true), s);
    if line == [] {
      assert Polled(r.st, i, 0) == [];
    } else {
      PollingGetsEverything(r.st, i);
    }
  }

  // ------------------------------------------------------- workers among others

  // Nothing is left that this worker could get.
  predicate Idle<T>(s: State<T>, i: nat)
    requires WellFormed(s)
  {
    s.global == [] && (i < |s.buffers| ==> s.buffers[i] == [] && s.locals[i] == [])
  }

  predicate IsPush<T>(op: Op<T>) {
    op.PushGlobal? || op.PushLocal?
  }

  lemma StepStaysIdle<T>(op: Op<T>, s: State<T>, i: nat)
    requires Bounded(s) && Idle(s, i) && !IsPush(op)
    ensures Bounded(Apply(op, s).st) && Idle(Apply(op, s).st, i)
  {
    StepKeepsBounded(op, s);
    if op.PopWork? && op.index < |s.buffers| && op.index != i && i < |s.buffers| {
      PopLeavesOthersAlone(s, op.index, op.polls, i);
    }
  }

  lemma {:induction false} StaysIdle<T>(s: State<T>, ops: seq<Op<T>>, i: nat)
    requires Bounded(s) && Idle(s, i) && forall k | 0 <= k < |ops| :: !IsPush(ops[k])
    ensures Idle(Run(s, ops), i)
    decreases |ops|
  {
    if ops != [] {
      StepStaysIdle(ops[0], s, i);
      StaysIdle(Apply(ops[0], s).st, ops[1..], i);
    }
  }

  // The workers that polled and were told that there is no work.
  function ToldNoWork<T>(s: State<T>, ops: seq<Op<T>>): set<nat>
    requires Bounded(s)
    decreases |ops|
  {
    if ops == [] then {}
    else
      var r := Apply(ops[0], s);
      StepKeepsBounded(ops[0], s);
      (if ops[0].PopWork? && ops[0].polls && r.reply.NoWork? then {ops[0].index} else {}) + ToldNoWork(r.st, ops[1..])
  }

  lemma {:induction false} ToldIsIdle<T>(s: State<T>, ops: seq<Op<T>>, i: nat)
    requires Bounded(s) && i < |s.buffers| && i in ToldNoWork(s, ops)
    requires forall k | 0 <= k < |ops| :: !IsPush(ops[k])
    ensures Idle(Run(s, ops), i)
    decreases |ops|
  {
    var r := Apply(ops[0], s);
    StepKeepsBounded(ops[0], s);
    if ops[0].PopWork? && ops[0].polls && ops[0].index == i && r.reply.NoWork? {
      PopServesTheLine(s, i, true);
      Fronts(s.buffers[i], s.global, s.locals[i]);
      StaysIdle(r.st, ops[1..], i);
    } else {
      ToldIsIdle(r.st, ops[1..], i);
    }
  }

  /** However the workers interleave: once each of them has polled and been told that
      there is no work, and nothing was pushed meanwhile, every task has been handed
      out. */
  lemma AllIdleMeansDrained<T>(s: State<T>, ops: seq<Op<T>>)
    requires Bounded(s) && s.buffers != []
    requires forall k | 0 <= k < |ops| :: !IsPush(ops[k])
    requires forall i: nat | i < |s.buffers| :: i in ToldNoWork(s, ops)
    ensures IsDrained(Run(s, ops))
  {
    var e := Run(s, ops);
    forall i | 0 <= i < |e.buffers|
      ensures e.global == [] && e.buffers[i] == [] && e.locals[i] == []
    {
      ToldIsIdle(s, ops, i);
    }
    assert e.global == [] by { ToldIsIdle(s, ops, 0); }
  }

  // -------------------------------------------------------------------- pushes

  /** A push is accepted exactly if it is a task, the pool is open and the worker exists;
      a refused one changes nothing. An accepted task can be got: it is last in the line
      of the worker it is for, or in that of every worker that polls. */
  lemma PushAnswers<T>(s: State<T>, i: nat, task: Option<T>)
    requires WellFormed(s) && s.globalOpen && s.localsOpen && s.locals != []
    ensures var r := LocalPush(s, i, task);
            && (r.reply == TypeError <==> task.None?) && (r.reply == OutOfRange <==> task.Some? && i >= |s.locals|)
            && (r.reply == Accepted <==> task.Some? && i < |s.locals|)
            && (r.reply != Accepted ==> r.st == s)
    ensures var r := GlobalPush(s, task);
            if task.None? then r == Result(s, TypeError)
            else r == Result(s.(global := s.global + [task.value]), Accepted)
  {
  }

  lemma PushedTaskIsInLine<T>(s: State<T>, i: nat, task: T)
    requires WellFormed(s) && !s.closing && s.localsOpen && s.globalOpen && i < |s.locals|
    ensures var r := LocalPush(s, i, Some(task));
            WellFormed(r.st) && i < |r.st.buffers|
            && (if |s.locals[i]| < LOCAL_CAPACITY then Line(r.st, i, true) == Line(s, i, true) + [task]
                else r.st.global == s.global + [task] && r.st.locals == s.locals)
  {
    Associative(s.buffers[i] + s.global, s.locals[i], [task]);
  }

  /** Once either kind of sender is gone, no push of that kind is accepted. */
  lemma ClosedRefuses<T>(s: State<T>, i: nat, task: T)
    requires WellFormed(s)
    ensures !s.globalOpen ==> GlobalPush(s, Some(task)) == Result(s, Closed)
    ensures !s.localsOpen ==> LocalPush(s, i, Some(task)) == Result(s, Closed)
    ensures var e := SetFlag(DropLocals(DropGlobal(s))); e.closing && !e.globalOpen && !e.localsOpen
  {
  }

  lemma Share(length: nat, workers: nat)
    requires workers > 0
    ensures var n := length / workers + 1; (n - 1) * workers <= length < n * workers
  {
    assert length == length / workers * workers + length % workers;
  }

  /** What a worker takes off the global queue goes into its buffer in order, but for the
      first, which is returned. A closed pool gives all that fits; an open one the
      smallest share with which all workers together would leave nothing, if it fits. */
  lemma PulledIsAShare<T>(s: State<T>, i: nat, polls: bool)
    requires WellFormed(s) && i < |s.buffers| && s.buffers[i] == [] && (s.closing || polls) && s.global != []
    ensures var e := Pop(s, i, polls).st;
            var n, workers := |s.global| - |e.global|, |s.locals|;
            && 0 < n <= MAX_BATCH && e.global == s.global[n..] && |e.buffers| == |s.buffers|
            && e.buffers[i] == s.global[1..n] && e.locals == s.locals
            && (if s.closing then n == |s.global| || n == MAX_BATCH
                else || (n - 1) * workers <= |s.global| < n * workers
                     || n == |s.global| || (n == MAX_BATCH && n < |s.global| / workers + 1))
  {
    Share(|s.global|, |s.locals|);
  }

  // ------------------------------------------------------------------- drained

  lemma {:induction false} EmptyBag<T>(queues: seq<seq<T>>)
    ensures Bag(queues) == multiset{} <==> forall i | 0 <= i < |queues| :: queues[i] == []
  {
    if queues != [] {
      EmptyBag(queues[1..]);
      assert forall i | 1 <= i < |queues| :: queues[i] == queues[1..][i - 1];
      assert |Bag(queues)| == |queues[0]| + |Bag(queues[1..])|;
    }
  }

  /** A pool is drained exactly if it holds no task anywhere. */
  lemma DrainedMeansEmpty<T>(s: State<T>)
    ensures IsDrained(s) <==> Contents(s) == multiset{}
  {
    EmptyBag(s.locals);
    EmptyBag(s.buffers);
    assert |Contents(s)| == |s.global| + |Bag(s.locals)| + |Bag(s.buffers)|;
  }
}
