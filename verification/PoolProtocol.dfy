/** The worker pool under any sequence of pushes, pops and the steps of `close`. */
module PoolProtocol {
  import opened Bytes
  import opened Pool
  import opened Sequences

  datatype Op<T> =
    | PushGlobal(task: Option<T>)
    | PushLocal(index: nat, task: Option<T>)
    | PopWork(index: nat, polls: bool)
    | CloseGlobal
    | CloseLocals
    | CloseFlag

  function Apply<T>(op: Op<T>, s: State<T>): Result<T>
    requires WellFormed(s)
  {
    match op
    case PushGlobal(task) => GlobalPush(s, task)
    case PushLocal(index, task) => LocalPush(s, index, task)
    case PopWork(index, polls) => Pop(s, index, polls)
    case CloseGlobal => Result(DropGlobal(s), NoWork)
    case CloseLocals => Result(DropLocals(s), NoWork)
    case CloseFlag => Result(SetFlag(s), NoWork)
  }

  /** Local queues and batch buffers stay within their bounds. */
  predicate Bounded<T>(s: State<T>) {
    && WellFormed(s)
    && (forall i | 0 <= i < |s.locals| :: |s.locals[i]| <= LOCAL_CAPACITY)
    && (forall i | 0 <= i < |s.buffers| :: |s.buffers[i]| < MAX_BATCH)
  }

  lemma StepKeepsBounded<T>(op: Op<T>, s: State<T>)
    requires Bounded(s)
    ensures Bounded(Apply(op, s).st)
    ensures |Apply(op, s).st.locals| == |s.locals| && (s.closing ==> Apply(op, s).st.closing)
  {
  }

  function Run<T>(s: State<T>, ops: seq<Op<T>>): (e: State<T>)
    requires Bounded(s)
    ensures Bounded(e) && |e.locals| == |s.locals| && (s.closing ==> e.closing)
    decreases |ops|
  {
    if ops == [] then s
    else
      StepKeepsBounded(ops[0], s);
      Run(Apply(ops[0], s).st, ops[1..])
  }

  // ------------------------------------------------------------- conservation

  function Bag<T>(queues: seq<seq<T>>): multiset<T> {
    if queues == [] then multiset{} else multiset(queues[0]) + Bag(queues[1..])
  }

  lemma {:induction false} BagUpdate<T>(queues: seq<seq<T>>, i: nat, q: seq<T>)
    requires i < |queues|
    ensures Bag(queues[i := q]) + multiset(queues[i]) == Bag(queues) + multiset(q)
  {
    var first, later := multiset(queues[0]), queues[1..];
    if i == 0 {
      assert queues[0 := q][1..] == later;
      Swap(multiset(q), Bag(later), first);
    } else {
      BagUpdate(later, i - 1, q);
      assert queues[i := q][1..] == later[i - 1 := q];
      Assoc(first, Bag(later[i - 1 := q]), multiset(queues[i]));
      Assoc(first, Bag(later), multiset(q));
    }
  }

  lemma Swap<T>(a: multiset<T>, b: multiset<T>, c: multiset<T>)
    ensures (a + b) + c == (c + b) + a
  {
  }

  lemma Assoc<T>(a: multiset<T>, b: multiset<T>, c: multiset<T>)
    ensures (a + b) + c == a + (b + c)
  {
  }

  // A queue changes from `q` to `q1` plus what is in `out`; nothing else moves.
  lemma BagMoves<T>(queues: seq<seq<T>>, i: nat, q1: seq<T>, into: multiset<T>, out: multiset<T>)
    requires i < |queues| && multiset(queues[i]) + into == out + multiset(q1)
    ensures Bag(queues) + into == out + Bag(queues[i := q1])
  {
    BagUpdate(queues, i, q1);
    Cancel(Bag(queues), Bag(queues[i := q1]), multiset(queues[i]), multiset(q1), into, out);
  }

  lemma Cancel<T>(b: multiset<T>, b1: multiset<T>, q: multiset<T>, q1: multiset<T>, into: multiset<T>, out: multiset<T>)
    requires b1 + q == b + q1 && q + into == out + q1
    ensures b + into == out + b1
  {
    forall x
      ensures (b + into)[x] == (out + b1)[x]
    {
      assert (b1 + q)[x] == (b + q1)[x] && (q + into)[x] == (out + q1)[x];
    }
  }

  function Contents<T>(s: State<T>): multiset<T> {
    multiset(s.global) + Bag(s.locals) + Bag(s.buffers)
  }

  predicate ToLocal<T>(s: State<T>, op: Op<T>) {
    op.PushLocal? && op.index < |s.locals| && |s.locals[op.index]| < LOCAL_CAPACITY
  }

  function TakenIn<T>(op: Op<T>, r: Result<T>): multiset<T> {
    if r.reply.Accepted? && (op.PushGlobal? || op.PushLocal?) && op.task.Some? then multiset{op.task.value}
    else multiset{}
  }

  function HandedOut<T>(r: Result<T>): multiset<T> {
    if r.reply.Task? then multiset{r.reply.task} else multiset{}
  }

  // The three kinds of queues change, together by what comes in and goes out.
  lemma Balance<T>(g: multiset<T>, l: multiset<T>, b: multiset<T>, g1: multiset<T>, l1: multiset<T>, b1: multiset<T>,
                   into: multiset<T>, moved: multiset<T>, out: multiset<T>)
    requires || (g + into == out + g1 && l1 == l && b1 == b)
             || (g1 == g && l + into == out + l1 && b1 == b)
             || (g1 == g && l1 == l && b + into == out + b1)
             || (into == multiset{} && g == out + moved + g1 && l1 == l && b + moved == b1)
    ensures (g + l + b) + into == out + (g1 + l1 + b1)
  {
    forall x
      ensures ((g + l + b) + into)[x] == (out + (g1 + l1 + b1))[x]
    {
      assert (g + into)[x] == g[x] + into[x] && (l + into)[x] == l[x] + into[x] && (b + into)[x] == b[x] + into[x];
      assert (out + g1)[x] == out[x] + g1[x] && (out + l1)[x] == out[x] + l1[x] && (out + b1)[x] == out[x] + b1[x];
      assert (out + moved + g1)[x] == out[x] + moved[x] + g1[x] && (b + moved)[x] == b[x] + moved[x];
    }
  }

  lemma GlobalPushConserves<T>(s: State<T>, task: T)
    ensures Contents(s) + multiset{task} == multiset{} + Contents(s.(global := s.global + [task]))
  {
    assert multiset(s.global + [task]) == multiset(s.global) + multiset{task};
    Balance(multiset(s.global), Bag(s.locals), Bag(s.buffers),
            multiset(s.global + [task]), Bag(s.locals), Bag(s.buffers), multiset{task}, multiset{}, multiset{});
  }

  lemma LocalPushConserves<T>(s: State<T>, index: nat, task: T)
    requires index < |s.locals|
    ensures Contents(s) + multiset{task}
         == multiset{} + Contents(s.(locals := s.locals[index := s.locals[index] + [task]]))
  {
    var q := s.locals[index];
    assert multiset(q + [task]) == multiset(q) + multiset{task};
    BagMoves(s.locals, index, q + [task], multiset{task}, multiset{});
    Balance(multiset(s.global), Bag(s.locals), Bag(s.buffers), multiset(s.global), Bag(s.locals[index := q + [task]]),
            Bag(s.buffers), multiset{task}, multiset{}, multiset{});
  }

  lemma PushConserves<T>(op: Op<T>, s: State<T>)
    requires WellFormed(s) && (op.PushGlobal? || op.PushLocal?) && Apply(op, s).reply.Accepted?
    ensures var r := Apply(op, s); Contents(s) + TakenIn(op, r) == HandedOut(r) + Contents(r.st)
  {
    if ToLocal(s, op) {
      LocalPushConserves(s, op.index, op.task.value);
    } else {
      GlobalPushConserves(s, op.task.value);
    }
  }

  lemma BufferPopConserves<T>(s: State<T>, index: nat)
    requires index < |s.buffers| && s.buffers[index] != []
    ensures Contents(s) + multiset{}
         == multiset{s.buffers[index][0]} + Contents(s.(buffers := s.buffers[index := s.buffers[index][1..]]))
  {
    var q := s.buffers[index];
    assert q == [q[0]] + q[1..];
    BagMoves(s.buffers, index, q[1..], multiset{}, multiset{q[0]});
    Balance(multiset(s.global), Bag(s.locals), Bag(s.buffers), multiset(s.global), Bag(s.locals),
            Bag(s.buffers[index := q[1..]]), multiset{}, multiset{}, multiset{q[0]});
  }

  lemma BatchPopConserves<T>(s: State<T>, index: nat, n: nat)
    requires index < |s.buffers| && s.buffers[index] == [] && 0 < n <= |s.global|
    ensures Contents(s) + multiset{}
         == multiset{s.global[0]} + Contents(s.(global := s.global[n..], buffers := s.buffers[index := s.global[1..n]]))
  {
    var batch, left := s.global[1..n], s.global[n..];
    assert s.global == [s.global[0]] + batch + left;
    BagMoves(s.buffers, index, batch, multiset(batch), multiset{});
    Balance(multiset(s.global), Bag(s.locals), Bag(s.buffers), multiset(left), Bag(s.locals),
            Bag(s.buffers[index := batch]), multiset{}, multiset(batch), multiset{s.global[0]});
  }

  lemma LocalPopConserves<T>(s: State<T>, index: nat)
    requires index < |s.locals| && s.locals[index] != []
    ensures Contents(s) + multiset{}
         == multiset{s.locals[index][0]} + Contents(s.(locals := s.locals[index := s.locals[index][1..]]))
  {
    var q := s.locals[index];
    assert q == [q[0]] + q[1..];
    BagMoves(s.locals, index, q[1..], multiset{}, multiset{q[0]});
    Balance(multiset(s.global), Bag(s.locals), Bag(s.buffers), multiset(s.global), Bag(s.locals[index := q[1..]]),
            Bag(s.buffers), multiset{}, multiset{}, multiset{q[0]});
  }

  lemma PopConserves<T>(s: State<T>, index: nat, polls: bool)
    requires WellFormed(s)
    ensures var r := Pop(s, index, polls); Contents(s) + multiset{} == HandedOut(r) + Contents(r.st)
  {
    if index < |s.buffers| {
      if s.buffers[index] != [] {
        BufferPopConserves(s, index);
      } else if (s.closing || polls) && s.global != [] {
        BatchPopConserves(s, index, Least(BatchSize(|s.global|, |s.locals|, s.closing), |s.global|));
      } else if s.locals[index] != [] {
        LocalPopConserves(s, index);
      }
    }
  }

  lemma RefusalMovesNothing<T>(op: Op<T>, s: State<T>)
    requires WellFormed(s) && !op.PopWork? && !Apply(op, s).reply.Accepted?
    ensures var e := Apply(op, s).st; e.global == s.global && e.locals == s.locals && e.buffers == s.buffers
    ensures !Apply(op, s).reply.Task?
  {
  }

  lemma StepConserves<T>(op: Op<T>, s: State<T>)
    requires WellFormed(s)
    ensures var r := Apply(op, s); Contents(s) + TakenIn(op, r) == HandedOut(r) + Contents(r.st)
  {
    if op.PopWork? {
      PopConserves(s, op.index, op.polls);
    } else if Apply(op, s).reply.Accepted? {
      PushConserves(op, s);
    } else {
      RefusalMovesNothing(op, s);
    }
  }

  function AllTakenIn<T>(s: State<T>, ops: seq<Op<T>>): multiset<T>
    requires Bounded(s)
    decreases |ops|
  {
    if ops == [] then multiset{}
    else
      var r := Apply(ops[0], s);
      StepKeepsBounded(ops[0], s);
      TakenIn(ops[0], r) + AllTakenIn(r.st, ops[1..])
  }

  function AllHandedOut<T>(s: State<T>, ops: seq<Op<T>>): multiset<T>
    requires Bounded(s)
    decreases |ops|
  {
    if ops == [] then multiset{}
    else
      var r := Apply(ops[0], s);
      StepKeepsBounded(ops[0], s);
      HandedOut(r) + AllHandedOut(r.st, ops[1..])
  }

  /** Every accepted task is either still queued or was returned, once. */
  lemma {:induction false} TasksAreConserved<T>(s: State<T>, ops: seq<Op<T>>)
    requires Bounded(s)
    ensures Contents(s) + AllTakenIn(s, ops) == AllHandedOut(s, ops) + Contents(Run(s, ops))
    decreases |ops|
  {
    if ops != [] {
      StepConserves(ops[0], s);
      StepKeepsBounded(ops[0], s);
      var r := Apply(ops[0], s);
      TasksAreConserved(r.st, ops[1..]);
      ChainBags(Contents(s), TakenIn(ops[0], r), HandedOut(r), Contents(r.st), AllTakenIn(r.st, ops[1..]),
                AllHandedOut(r.st, ops[1..]), Contents(Run(s, ops)));
    }
  }

  function Fresh<T>(workers: nat): (s: State<T>)
    ensures Bounded(s)
  {
    State([], true, seq(workers, i => []), true, seq(workers, i => []), false)
  }

  lemma {:induction false} NothingInside<T>(queues: seq<seq<T>>)
    requires forall i | 0 <= i < |queues| :: queues[i] == []
    ensures Bag(queues) == multiset{}
  {
    if queues != [] {
      NothingInside(queues[1..]);
    }
  }

  /** From the fresh pool on: what was accepted is what was returned and what is queued. */
  lemma TasksAreAlwaysConserved<T>(workers: nat, ops: seq<Op<T>>)
    ensures var s := Fresh<T>(workers); AllTakenIn(s, ops) == AllHandedOut(s, ops) + Contents(Run(s, ops))
  {
    var s := Fresh<T>(workers);
    NothingInside(s.locals);
    TasksAreConserved(s, ops);
    assert Contents(s) + AllTakenIn(s, ops) == AllTakenIn(s, ops);
  }

  lemma ChainBags<T>(c: multiset<T>, in1: multiset<T>, out1: multiset<T>, c1: multiset<T>,
                     in2: multiset<T>, out2: multiset<T>, c2: multiset<T>)
    requires c + in1 == out1 + c1 && c1 + in2 == out2 + c2
    ensures c + (in1 + in2) == (out1 + out2) + c2
  {
    Assoc(c, in1, in2);
    Assoc(out1, c1, in2);
    Assoc(out1, out2, c2);
  }

  // --------------------------------------------------------- affinity and order

  /** A pop touches no queue and no buffer of another worker. */
  lemma PopLeavesOthersAlone<T>(s: State<T>, index: nat, polls: bool, other: nat)
    requires WellFormed(s) && other < |s.locals| && other != index
    ensures var e := Pop(s, index, polls).st; e.locals[other] == s.locals[other] && e.buffers[other] == s.buffers[other]
  {
  }

  predicate FromLocal<T>(s: State<T>, index: nat, polls: bool)
    requires WellFormed(s)
  {
    index < |s.buffers| && s.buffers[index] == [] && !((s.closing || polls) && s.global != []) && s.locals[index] != []
  }

  // What enters and leaves the queue of worker `i`, and what enters the global
  // queue and comes out of it through worker `i`.

  function LocalIn<T>(i: nat, op: Op<T>, s: State<T>, r: Result<T>): seq<T> {
    if ToLocal(s, op) && op.index == i && r.reply.Accepted? && op.task.Some? then [op.task.value] else []
  }

  function LocalOut<T>(i: nat, op: Op<T>, s: State<T>, r: Result<T>): seq<T>
    requires WellFormed(s)
  {
    if op.PopWork? && op.index == i && FromLocal(s, i, op.polls) && r.reply.Task? then [r.reply.task] else []
  }

  function GlobalIn<T>(op: Op<T>, s: State<T>, r: Result<T>): seq<T> {
    if (op.PushGlobal? || (op.PushLocal? && !ToLocal(s, op))) && r.reply.Accepted? && op.task.Some?
    then [op.task.value] else []
  }

  function GlobalOut<T>(i: nat, op: Op<T>, s: State<T>, r: Result<T>): seq<T>
    requires WellFormed(s)
  {
    if op.PopWork? && op.index == i && !FromLocal(s, i, op.polls) && r.reply.Task? then [r.reply.task] else []
  }

  datatype Flow<T> = Flow(localIn: seq<T>, localOut: seq<T>, globalIn: seq<T>, globalOut: seq<T>)

  function Flows<T>(i: nat, s: State<T>, ops: seq<Op<T>>): Flow<T>
    requires Bounded(s)
    decreases |ops|
  {
    if ops == [] then Flow([], [], [], [])
    else
      var r := Apply(ops[0], s);
      StepKeepsBounded(ops[0], s);
      var later := Flows(i, r.st, ops[1..]);
      Flow(LocalIn(i, ops[0], s, r) + later.localIn, LocalOut(i, ops[0], s, r) + later.localOut,
           GlobalIn(ops[0], s, r) + later.globalIn, GlobalOut(i, ops[0], s, r) + later.globalOut)
  }

  lemma PopLocalFifo<T>(i: nat, index: nat, polls: bool, s: State<T>)
    requires Bounded(s) && i < |s.locals|
    ensures var op: Op<T> := PopWork(index, polls);
            var r := Apply(op, s);
            |r.st.locals| == |s.locals| && s.locals[i] == LocalOut(i, op, s, r) + r.st.locals[i]
  {
    var local := s.locals[i];
    if index == i && FromLocal(s, i, polls) {
      assert [local[0]] + local[1..] == local;
    } else {
      assert [] + local == local;
    }
  }

  lemma StepLocalFifo<T>(i: nat, op: Op<T>, s: State<T>)
    requires Bounded(s) && i < |s.locals|
    ensures var r := Apply(op, s);
            |r.st.locals| == |s.locals| && s.locals[i] + LocalIn(i, op, s, r) == LocalOut(i, op, s, r) + r.st.locals[i]
  {
    var local, r := s.locals[i], Apply(op, s);
    assert local + [] == local;
    if op.PopWork? {
      PopLocalFifo(i, op.index, op.polls, s);
    } else {
      assert [] + r.st.locals[i] == r.st.locals[i];
    }
  }

  /** Affinity: the tasks in a worker's own queue are returned to that worker, in
      the order they were pushed, and to nobody else. */
  lemma {:induction false} LocalTasksAreFifo<T>(i: nat, s: State<T>, ops: seq<Op<T>>)
    requires Bounded(s) && i < |s.locals|
    ensures s.locals[i] + Flows(i, s, ops).localIn == Flows(i, s, ops).localOut + Run(s, ops).locals[i]
    decreases |ops|
  {
    if ops == [] {
      assert s.locals[i] + [] == [] + s.locals[i];
    } else {
      var r := Apply(ops[0], s);
      StepKeepsBounded(ops[0], s);
      StepLocalFifo(i, ops[0], s);
      LocalTasksAreFifo(i, r.st, ops[1..]);
      var later := Flows(i, r.st, ops[1..]);
      Regroup(s.locals[i], LocalIn(i, ops[0], s, r), later.localIn,
              LocalOut(i, ops[0], s, r), r.st.locals[i], later.localOut, Run(s, ops).locals[i]);
    }
  }

  // What worker `i` may still get of the global tasks.
  function Ahead<T>(i: nat, s: State<T>): seq<T>
    requires WellFormed(s) && i < |s.buffers|
  {
    s.buffers[i] + s.global
  }

  lemma {:induction false} DropIsSubsequence<T>(a: seq<T>, q: seq<T>, n: nat)
    requires n <= |q|
    ensures Subsequence(a + q[n..], a + q)
  {
    SuffixIsSubsequence(q, n);
    SubsequencePrepend(a, q[n..], q);
  }

  lemma {:induction false} SuffixIsSubsequence<T>(q: seq<T>, n: nat)
    requires n <= |q|
    ensures Subsequence(q[n..], q)
  {
    SubsequenceSelf(q);
    if n > 0 {
      SuffixIsSubsequence(q[1..], n - 1);
      assert q[1..][n - 1..] == q[n..];
      SubsequenceLonger(q[n..], q);
    }
  }

  lemma TakeFirst<T>(q: seq<T>, rest: seq<T>)
    requires q != []
    ensures [q[0]] + (q[1..] + rest) == q + rest
  {
  }

  lemma TakeBatch<T>(q: seq<T>, n: nat)
    requires 0 < n <= |q|
    ensures [q[0]] + (q[1..n] + q[n..]) == q
  {
  }

  // A worker's own pop moves the front of what is ahead of it, or nothing.
  lemma OwnPopInOrder<T>(i: nat, polls: bool, s: State<T>)
    requires Bounded(s) && i < |s.buffers|
    ensures var op: Op<T> := PopWork(i, polls);
            var r := Apply(op, s);
            WellFormed(r.st) && i < |r.st.buffers| && GlobalOut(i, op, s, r) + Ahead(i, r.st) == Ahead(i, s)
  {
    var q, buffer := s.global, s.buffers[i];
    if buffer != [] {
      TakeFirst(buffer, q);
    } else if (s.closing || polls) && q != [] {
      TakeBatch(q, Least(BatchSize(|q|, |s.locals|, s.closing), |q|));
      assert [] + q == q;
    } else {
      assert [] + Ahead(i, s) == Ahead(i, s);
    }
  }

  lemma OthersPopInOrder<T>(i: nat, index: nat, polls: bool, s: State<T>)
    requires Bounded(s) && i < |s.buffers| && index != i
    ensures var r := Pop(s, index, polls);
            WellFormed(r.st) && i < |r.st.buffers| && Subsequence(Ahead(i, r.st), Ahead(i, s))
  {
    var r := Pop(s, index, polls);
    var n := |s.global| - |r.st.global|;
    assert r.st.global == s.global[n..];
    DropIsSubsequence(s.buffers[i], s.global, n);
  }

  lemma PopGlobalInOrder<T>(i: nat, index: nat, polls: bool, s: State<T>)
    requires Bounded(s) && i < |s.buffers|
    ensures var op: Op<T> := PopWork(index, polls);
            var r := Apply(op, s);
            WellFormed(r.st) && i < |r.st.buffers| && Subsequence(GlobalOut(i, op, s, r) + Ahead(i, r.st), Ahead(i, s))
  {
    if index == i {
      OwnPopInOrder(i, polls, s);
      SubsequenceSelf(Ahead(i, s));
    } else {
      OthersPopInOrder(i, index, polls, s);
      assert [] + Ahead(i, Pop(s, index, polls).st) == Ahead(i, Pop(s, index, polls).st);
    }
  }

  lemma StepGlobalInOrder<T>(i: nat, op: Op<T>, s: State<T>)
    requires Bounded(s) && i < |s.buffers|
    ensures var r := Apply(op, s);
            WellFormed(r.st) && i < |r.st.buffers|
            && Subsequence(GlobalOut(i, op, s, r) + Ahead(i, r.st), Ahead(i, s) + GlobalIn(op, s, r))
  {
    var r := Apply(op, s);
    if op.PopWork? {
      PopGlobalInOrder(i, op.index, op.polls, s);
      assert Ahead(i, s) + [] == Ahead(i, s);
    } else {
      SubsequenceSelf(Ahead(i, s) + GlobalIn(op, s, r));
      Associative(s.buffers[i], s.global, GlobalIn(op, s, r));
      assert s.global + [] == s.global;
      assert [] + Ahead(i, r.st) == Ahead(i, r.st);
    }
  }

  /** Each worker gets global tasks in the order they were pushed: what it got, then
      what its buffer and the global queue hold, leaves out some pushed tasks (those
      others took) but never reorders them. */
  lemma {:induction false} GlobalTasksInOrder<T>(i: nat, s: State<T>, ops: seq<Op<T>>)
    requires Bounded(s) && i < |s.buffers|
    ensures Subsequence(Flows(i, s, ops).globalOut + Ahead(i, Run(s, ops)), Ahead(i, s) + Flows(i, s, ops).globalIn)
    decreases |ops|
  {
    if ops == [] {
      assert [] + Ahead(i, s) == Ahead(i, s) && Ahead(i, s) + [] == Ahead(i, s);
      SubsequenceSelf(Ahead(i, s));
    } else {
      var r := Apply(ops[0], s);
      StepKeepsBounded(ops[0], s);
      StepGlobalInOrder(i, ops[0], s);
      GlobalTasksInOrder(i, r.st, ops[1..]);
      var later := Flows(i, r.st, ops[1..]);
      ChainFifo(GlobalOut(i, ops[0], s, r), Ahead(i, r.st), Ahead(i, s), GlobalIn(ops[0], s, r),
                later.globalOut, Ahead(i, Run(s, ops)), later.globalIn);
    }
  }

  // ------------------------------------------------------------------ draining

  /** While draining, every worker gets a task, or the error once nothing is left
      for it. */
  lemma DrainingPopAnswers<T>(s: State<T>, index: nat, polls: bool)
    requires Bounded(s) && s.closing && index < |s.buffers|
    ensures var r := Pop(s, index, polls);
            r.reply.Task? || (r.reply.Closed? && r.st == s && DoneFor(s, index))
  {
  }

  lemma TaskUsesUpWork<T>(s: State<T>, index: nat, polls: bool)
    requires WellFormed(s) && Pop(s, index, polls).reply.Task?
    ensures |Contents(Pop(s, index, polls).st)| == |Contents(s)| - 1
  {
    PopConserves(s, index, polls);
    var r := Pop(s, index, polls);
    assert |Contents(s) + multiset{}| == |HandedOut(r)| + |Contents(r.st)|;
  }

  predicate DoneFor<T>(s: State<T>, index: nat) {
    && s.closing && s.global == []
    && (index < |s.locals| ==> s.locals[index] == [])
    && (index < |s.buffers| ==> s.buffers[index] == [])
  }

  /** After closing, every pop that returns a task uses up some of what was queued
      when the flag was set; so only that many can. */
  lemma {:induction false} DrainingEnds<T>(s: State<T>, ops: seq<Op<T>>)
    requires Bounded(s) && s.closing
    ensures |AllHandedOut(s, ops)| + |Contents(Run(s, ops))| == |Contents(s)|
    decreases |ops|
  {
    TasksAreConserved(s, ops);
    NothingTakenIn(s, ops);
    assert Contents(s) + multiset{} == Contents(s);
  }

  lemma {:induction false} NothingTakenIn<T>(s: State<T>, ops: seq<Op<T>>)
    requires Bounded(s) && s.closing
    ensures AllTakenIn(s, ops) == multiset{}
    decreases |ops|
  {
    if ops != [] {
      StepKeepsBounded(ops[0], s);
      NothingTakenIn(Apply(ops[0], s).st, ops[1..]);
    }
  }

  lemma {:induction false} DoneForEver<T>(s: State<T>, ops: seq<Op<T>>, index: nat)
    requires Bounded(s) && DoneFor(s, index)
    ensures DoneFor(Run(s, ops), index)
    decreases |ops|
  {
    if ops != [] {
      StepKeepsBounded(ops[0], s);
      DoneForEver(Apply(ops[0], s).st, ops[1..], index);
    }
  }

  // The workers that got the error.
  function Dismissed<T>(s: State<T>, ops: seq<Op<T>>): set<nat>
    requires Bounded(s)
    decreases |ops|
  {
    if ops == [] then {}
    else
      var r := Apply(ops[0], s);
      StepKeepsBounded(ops[0], s);
      (if ops[0].PopWork? && r.reply.Closed? then {ops[0].index} else {}) + Dismissed(r.st, ops[1..])
  }

  lemma {:induction false} DismissedIsDone<T>(s: State<T>, ops: seq<Op<T>>, index: nat)
    requires Bounded(s) && index < |s.buffers| && index in Dismissed(s, ops)
    ensures DoneFor(Run(s, ops), index)
    decreases |ops|
  {
    var r := Apply(ops[0], s);
    StepKeepsBounded(ops[0], s);
    if ops[0].PopWork? && r.reply.Closed? && ops[0].index == index {
      assert DoneFor(r.st, index);
      DoneForEver(r.st, ops[1..], index);
    } else {
      DismissedIsDone(r.st, ops[1..], index);
    }
  }

  /** Once every worker got the error the pool is drained, and stays so whatever
      is called afterwards. */
  lemma AllDismissedMeansDrained<T>(s: State<T>, ops: seq<Op<T>>, later: seq<Op<T>>)
    requires Bounded(s) && s.buffers != []
    requires forall i | 0 <= i < |s.buffers| :: i in Dismissed(s, ops)
    ensures IsDrained(Run(s, ops)) && IsDrained(Run(Run(s, ops), later))
  {
    var e := Run(s, ops);
    forall i | 0 <= i < |s.buffers|
      ensures DoneFor(e, i)
    {
      DismissedIsDone(s, ops, i);
    }
    AllDoneIsDrained(e);
    forall i | 0 <= i < |e.buffers|
      ensures DoneFor(Run(e, later), i)
    {
      DoneForEver(e, later, i);
    }
    AllDoneIsDrained(Run(e, later));
  }

  lemma AllDoneIsDrained<T>(s: State<T>)
    requires WellFormed(s) && s.buffers != [] && forall i | 0 <= i < |s.buffers| :: DoneFor(s, i)
    ensures IsDrained(s)
  {
    assert DoneFor(s, 0);
    forall i | 0 <= i < |s.buffers|
      ensures s.buffers[i] == [] && s.locals[i] == []
    {
      assert DoneFor(s, i);
    }
  }
}
