/** The worker pool's queues: one global, one bounded queue and one batch buffer
    per worker. */
module Pool {
  import opened Bytes

  const LOCAL_CAPACITY: nat := 256
  const MAX_BATCH: nat := 128

  // `globalOpen`, `localsOpen`: the senders are still there; `closing`: the flag
  // that `close` sets after it dropped them.
  datatype State<T> = State(global: seq<T>, globalOpen: bool, locals: seq<seq<T>>, localsOpen: bool,
                            buffers: seq<seq<T>>, closing: bool)

  datatype Reply<T> = Accepted | Task(task: T) | NoWork | TypeError | Closed | OutOfRange

  datatype Result<T> = Result(st: State<T>, reply: Reply<T>)

  /** A pool is well formed when every worker has its queue and its buffer, and
      the flag is set last when closing. */
  predicate WellFormed<T>(s: State<T>) {
    && |s.locals| == |s.buffers|
    && (s.closing ==> !s.globalOpen && !s.localsOpen)
  }

  // A missing task would read as "no work" and is rejected.
  function GlobalPush<T>(s: State<T>, task: Option<T>): Result<T> {
    if task.None? then Result(s, TypeError)
    else if s.closing || !s.globalOpen then Result(s, Closed)
    else Result(s.(global := s.global + [task.value]), Accepted)
  }

  function LocalPush<T>(s: State<T>, index: nat, task: Option<T>): Result<T> {
    if task.None? then Result(s, TypeError)
    else if s.closing || !s.localsOpen || s.locals == [] then Result(s, Closed)
    else if index >= |s.locals| then Result(s, OutOfRange)
    else if |s.locals[index]| < LOCAL_CAPACITY then
      Result(s.(locals := s.locals[index := s.locals[index] + [task.value]]), Accepted)
    else GlobalPush(s, task)
  }

  // How much a worker takes from the global queue at once.
  function BatchSize(length: nat, workers: nat, draining: bool): (n: nat)
    ensures n <= MAX_BATCH
    ensures length > 0 ==> n > 0
  {
    var wanted := if draining then length else if workers == 0 then 1 else length / workers + 1;
    if wanted < MAX_BATCH then wanted else MAX_BATCH
  }

  function Least(a: nat, b: nat): nat {
    if a < b then a else b
  }

  // `polls`: the worker may look at the global queue, where others look too.
  function Pop<T>(s: State<T>, index: nat, polls: bool): Result<T>
    requires WellFormed(s)
  {
    if index >= |s.buffers| then Result(s, if !s.closing then NoWork else if s.global == [] then Closed else NoWork)
    else if s.buffers[index] != [] then
      Result(s.(buffers := s.buffers[index := s.buffers[index][1..]]), Task(s.buffers[index][0]))
    else if (s.closing || polls) && s.global != [] then
      var n := Least(BatchSize(|s.global|, |s.locals|, s.closing), |s.global|);
      Result(s.(global := s.global[n..], buffers := s.buffers[index := s.global[1..n]]), Task(s.global[0]))
    else PopLocal(s, index)
  }

  function PopLocal<T>(s: State<T>, index: nat): Result<T>
    requires WellFormed(s) && index < |s.buffers|
  {
    if s.locals[index] != [] then
      Result(s.(locals := s.locals[index := s.locals[index][1..]]), Task(s.locals[index][0]))
    else Result(s, if s.closing && s.global == [] && s.buffers[index] == [] then Closed else NoWork)
  }

  predicate IsDrained<T>(s: State<T>) {
    && s.global == []
    && (forall i | 0 <= i < |s.buffers| :: s.buffers[i] == [])
    && (forall i | 0 <= i < |s.locals| :: s.locals[i] == [])
  }

  class NativeWorkerPool<T> {
    var global: seq<T>
    var globalOpen: bool
    var locals: seq<seq<T>>
    var localsOpen: bool
    var buffers: seq<seq<T>>
    var closing: bool

    function Value(): State<T>
      reads this
    {
      State(global, globalOpen, locals, localsOpen, buffers, closing)
    }

    constructor (workers: nat)
      ensures Value() == State([], true, seq(workers, i => []), true, seq(workers, i => []), false)
      ensures WellFormed(Value())
    {
      global, globalOpen, localsOpen, closing := [], true, true, false;
      locals, buffers := seq(workers, i => []), seq(workers, i => []);
    }

    method PushGlobal(task: Option<T>) returns (reply: Reply<T>)
      modifies this
      ensures Result(Value(), reply) == GlobalPush(old(Value()), task)
    {
      if task.None? {
        return TypeError;
      }
      if closing {
        return Closed;
      }
      if !globalOpen {
        return Closed;
      }
      global := global + [task.value];
      return Accepted;
    }

    method PushLocal(index: nat, task: Option<T>) returns (reply: Reply<T>)
      requires WellFormed(Value())
      modifies this
      ensures Result(Value(), reply) == LocalPush(old(Value()), index, task)
    {
      if task.None? {
        return TypeError;
      }
      if closing {
        return Closed;
      }
      if !localsOpen || locals == [] {
        return Closed;
      }
      if index >= |locals| {
        return OutOfRange;
      }
      if |locals[index]| < LOCAL_CAPACITY {
        locals := locals[index := locals[index] + [task.value]];
        return Accepted;
      }
      reply := PushGlobal(task);
    }

    // Moves up to a batch from the global queue into the worker's empty buffer.
    method PullBatch(index: nat)
      requires WellFormed(Value()) && index < |buffers| && buffers[index] == [] && global != []
      modifies this
      ensures var was := old(Value());
              var n := Least(BatchSize(|was.global|, |was.locals|, was.closing), |was.global|);
              n > 0 && Value() == was.(global := was.global[n..], buffers := was.buffers[index := was.global[..n]])
    {
      var batch := BatchSize(|global|, |locals|, closing);
      var buffer := [];
      ghost var was := Value();
      var i := 0;
      while i < batch && global != []
        invariant i == |buffer| <= |was.global| && i <= batch
        invariant buffer == was.global[..i] && global == was.global[i..]
        invariant Value() == was.(global := global)
      {
        buffer := buffer + [global[0]];
        global := global[1..];
        i := i + 1;
      }
      buffers := buffers[index := buffer];
    }

    method PopWork(index: nat, polls: bool) returns (reply: Reply<T>)
      requires WellFormed(Value())
      modifies this
      ensures Result(Value(), reply) == Pop(old(Value()), index, polls)
    {
      if index < |buffers| {
        if buffers[index] != [] {
          var task := buffers[index][0];
          buffers := buffers[index := buffers[index][1..]];
          return Task(task);
        }
        if (closing || polls) && global != [] {
          PullBatch(index);
          var task := buffers[index][0];
          buffers := buffers[index := buffers[index][1..]];
          return Task(task);
        }
        if locals[index] != [] {
          var task := locals[index][0];
          locals := locals[index := locals[index][1..]];
          return Task(task);
        }
      }
      if closing {
        var bufferEmpty := index >= |buffers| || buffers[index] == [];
        var localEmpty := index >= |locals| || locals[index] == [];
        return if global == [] && bufferEmpty && localEmpty then Closed else NoWork;
      }
      return NoWork;
    }

    method DrainedNow() returns (drained: bool)
      requires WellFormed(Value())
      ensures drained == IsDrained(Value())
    {
      if global != [] {
        return false;
      }
      for i := 0 to |buffers|
        invariant forall j | 0 <= j < i :: buffers[j] == []
      {
        if |buffers[i]| != 0 {
          return false;
        }
      }
      for i := 0 to |locals|
        invariant forall j | 0 <= j < i :: locals[j] == []
      {
        if |locals[i]| != 0 {
          return false;
        }
      }
      return true;
    }

    // The three steps of `close`, in the order in which others may see them.
    method Close()
      modifies this
      ensures Value() == SetFlag(DropLocals(DropGlobal(old(Value()))))
    {
      globalOpen := false;
      localsOpen := false;
      closing := true;
    }
  }

  function DropGlobal<T>(s: State<T>): State<T> {
    s.(globalOpen := false)
  }

  function DropLocals<T>(s: State<T>): State<T> {
    s.(localsOpen := false)
  }

  // Only after both kinds of senders are gone.
  function SetFlag<T>(s: State<T>): State<T> {
    if s.globalOpen || s.localsOpen then s else s.(closing := true)
  }
}
