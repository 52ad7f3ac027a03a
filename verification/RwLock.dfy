/** The read-write lock with writer preference. Every method runs under the mutex
    of its state and hands back the waiters to wake. */
module RwLock {
  import opened Sequences

  // A waiter stands for its future.
  type fut = nat

  datatype State = State(readers: nat, writer: bool, pending: nat, readQueue: seq<fut>, writeQueue: seq<fut>)

  function Free(): State {
    State(0, false, 0, [], [])
  }

  datatype Result = Result(st: State, got: bool, woken: seq<fut>)

  function TryRead(s: State): Result {
    if !s.writer && s.pending == 0 then Result(s.(readers := s.readers + 1), true, []) else Result(s, false, [])
  }

  function EnterRead(s: State, f: fut): Result {
    var r := TryRead(s);
    if r.got then r else Result(s.(readQueue := s.readQueue + [f]), false, [])
  }

  function TryWrite(s: State): Result {
    if !s.writer && s.readers == 0 && s.pending == 0 then Result(s.(writer := true), true, []) else Result(s, false, [])
  }

  function EnterWrite(s: State, f: fut): Result {
    var r := TryWrite(s);
    if r.got then r else Result(s.(pending := s.pending + 1, writeQueue := s.writeQueue + [f]), false, [])
  }

  // counters are decremented only while positive
  function Less(n: nat, k: nat): nat {
    if n >= k then n - k else n
  }

  function AdmitWriter(s: State): Result
    requires s.writeQueue != []
  {
    Result(s.(writer := true, pending := Less(s.pending, 1), writeQueue := s.writeQueue[1..]), true, [s.writeQueue[0]])
  }

  function AdmitReaders(s: State): Result {
    Result(s.(readers := s.readers + |s.readQueue|, readQueue := []), true, s.readQueue)
  }

  function LeaveRead(s: State): Result {
    var left := s.(readers := Less(s.readers, 1));
    if left.readers == 0 && left.writeQueue != [] then AdmitWriter(left) else Result(left, true, [])
  }

  function LeaveWrite(s: State): Result {
    var left := s.(writer := false);
    if left.writeQueue != [] then AdmitWriter(left) else AdmitReaders(left)
  }

  function RemoveReader(s: State, f: fut): Result {
    Result(s.(readQueue := Removed(s.readQueue, f)), true, [])
  }

  function RemoveWriter(s: State, f: fut): Result {
    var removed := |s.writeQueue| - |Removed(s.writeQueue, f)|;
    var left := s.(writeQueue := Removed(s.writeQueue, f), pending := Less(s.pending, removed));
    if left.pending == 0 && !left.writer then AdmitReaders(left) else Result(left, true, [])
  }

  class RawAsyncRWMutex {
    var readers: nat
    var writer: bool
    var pending: nat
    var readQueue: seq<fut>
    var writeQueue: seq<fut>

    function Value(): State
      reads this
    {
      State(readers, writer, pending, readQueue, writeQueue)
    }

    constructor ()
      ensures Value() == Free()
    {
      readers, writer, pending := 0, false, 0;
      readQueue, writeQueue := [], [];
    }

    method TryAcquireRead() returns (got: bool)
      modifies this
      ensures Result(Value(), got, []) == TryRead(old(Value()))
    {
      if !writer && pending == 0 {
        readers := readers + 1;
        return true;
      }
      return false;
    }

    method AcquireReadOrRegister(f: fut) returns (got: bool)
      modifies this
      ensures Result(Value(), got, []) == EnterRead(old(Value()), f)
    {
      if !writer && pending == 0 {
        readers := readers + 1;
        return true;
      }
      readQueue := readQueue + [f];
      return false;
    }

    method ReleaseRead() returns (woken: seq<fut>)
      modifies this
      ensures Result(Value(), true, woken) == LeaveRead(old(Value()))
    {
      if readers > 0 {
        readers := readers - 1;
      }
      if readers == 0 && writeQueue != [] {
        woken := NextWriter();
      } else {
        woken := [];
      }
    }

    method TryAcquireWrite() returns (got: bool)
      modifies this
      ensures Result(Value(), got, []) == TryWrite(old(Value()))
    {
      if !writer && readers == 0 && pending == 0 {
        writer := true;
        return true;
      }
      return false;
    }

    method AcquireWriteOrRegister(f: fut) returns (got: bool)
      modifies this
      ensures Result(Value(), got, []) == EnterWrite(old(Value()), f)
    {
      if !writer && readers == 0 && pending == 0 {
        writer := true;
        return true;
      }
      pending := pending + 1;
      writeQueue := writeQueue + [f];
      return false;
    }

    method NextWriter() returns (woken: seq<fut>)
      requires writeQueue != []
      modifies this
      ensures Result(Value(), true, woken) == AdmitWriter(old(Value()))
    {
      woken := [writeQueue[0]];
      writeQueue := writeQueue[1..];
      writer := true;
      if pending > 0 {
        pending := pending - 1;
      }
    }

    method ReleaseWrite() returns (woken: seq<fut>)
      modifies this
      ensures Result(Value(), true, woken) == LeaveWrite(old(Value()))
    {
      writer := false;
      if writeQueue != [] {
        woken := NextWriter();
      } else {
        woken := readQueue;
        readQueue := [];
        readers := readers + |woken|;
      }
    }

    method RemoveWaiter(f: fut, isWriter: bool) returns (woken: seq<fut>)
      modifies this
      ensures Result(Value(), true, woken)
           == if isWriter then RemoveWriter(old(Value()), f) else RemoveReader(old(Value()), f)
    {
      woken := [];
      if isWriter {
        var initial := |writeQueue|;
        writeQueue := Removed(writeQueue, f);
        var removed := initial - |writeQueue|;
        if removed > 0 && pending >= removed {
          pending := pending - removed;
        }
        if pending == 0 && !writer && readQueue != [] {
          woken := readQueue;
          readQueue := [];
          readers := readers + |woken|;
        }
      } else {
        readQueue := Removed(readQueue, f);
      }
    }
  }
}
