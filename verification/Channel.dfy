/** The channel core: a bounded buffer, three waiter queues and direct hand-off.
    Every method runs under the channel's mutex and is one step; the wake-ups it
    collects are dispatched after the mutex is released. */
module Channel {
  import opened Sequences

  // A waiter stands for its future.
  type fut = nat

  datatype State<T> = State(buffer: seq<T>, maxsize: nat, isClosed: bool,
                            getters: seq<fut>, putters: seq<fut>, watchers: seq<fut>)

  function Open<T>(maxsize: nat): State<T> {
    State([], maxsize, false, [], [], [])
  }

  datatype Gift<T> = NoGift | Gift(to: fut, item: T)

  // The collected wake-ups, by kind: an item for a getter (never more than one),
  // room for putters, the closed error, an item to look at for select watchers.
  datatype Wakes<T> = Wakes(gift: Gift<T>, room: seq<fut>, failed: seq<fut>, pokes: seq<fut>)

  datatype Reply<T> = Yes | No | Item(item: T) | ClosedError

  datatype Result<T> = Result(st: State<T>, reply: Reply<T>, wakes: Wakes<T>)

  function Quiet<T>(): Wakes<T> {
    Wakes(NoGift, [], [], [])
  }

  datatype Op<T> =
    | Send(item: T)
    | Recv
    | RegisterGetter(f: fut)
    | UnregisterGetter(f: fut)
    | RegisterPutter(f: fut)
    | UnregisterPutter(f: fut)
    | RegisterWatcher(f: fut)
    | UnregisterWatcher(f: fut)
    | ForwardSelect
    | Close

  predicate HasRoom<T>(s: State<T>) {
    s.maxsize == 0 || |s.buffer| < s.maxsize
  }

  function FirstOf(queue: seq<fut>): seq<fut> {
    if queue == [] then [] else [queue[0]]
  }

  function AfterFirst(queue: seq<fut>): seq<fut> {
    if queue == [] then [] else queue[1..]
  }

  function TrySend<T>(s: State<T>, item: T): Result<T> {
    if s.isClosed then Result(s, ClosedError, Quiet())
    else if s.getters != [] then
      var woken := if s.maxsize > 0 && |s.buffer| < s.maxsize then s.putters else [];
      Result(s.(getters := s.getters[1..], putters := s.putters[|woken|..]), Yes,
             Wakes(Gift(s.getters[0], item), woken, [], []))
    else if s.watchers != [] then
      Result(s.(buffer := s.buffer + [item], watchers := s.watchers[1..]), Yes, Wakes(NoGift, [], [], [s.watchers[0]]))
    else if s.maxsize > 0 && |s.buffer| >= s.maxsize then Result(s, No, Quiet())
    else Result(s.(buffer := s.buffer + [item]), Yes, Quiet())
  }

  function TakeItem<T>(s: State<T>): Result<T>
    requires s.buffer != []
  {
    var woken := if s.maxsize > 0 then FirstOf(s.putters) else [];
    Result(s.(buffer := s.buffer[1..], putters := s.putters[|woken|..]), Item(s.buffer[0]),
           Wakes(NoGift, woken, [], []))
  }

  function TryRecv<T>(s: State<T>): Result<T> {
    if s.buffer != [] then TakeItem(s)
    else Result(s, if s.isClosed then ClosedError else No, Quiet())
  }

  function AddGetter<T>(s: State<T>, f: fut): Result<T> {
    if s.getters == [] && s.buffer != [] then TakeItem(s)
    else if s.isClosed then Result(s, ClosedError, Quiet())
    else Result(s.(getters := s.getters + [f]), No, Quiet())
  }

  function DropGetter<T>(s: State<T>, f: fut): Result<T> {
    var left := s.(getters := Removed(s.getters, f));
    if f in s.getters then Result(left, Yes, Quiet())
    else if left.buffer == [] then Result(left, No, Quiet())
    else if left.getters != [] then
      Result(left.(buffer := left.buffer[1..], getters := left.getters[1..]), No,
             Wakes(Gift(left.getters[0], left.buffer[0]), [], [], []))
    else Result(left.(watchers := AfterFirst(left.watchers)), No, Wakes(NoGift, [], [], FirstOf(left.watchers)))
  }

  function AddPutter<T>(s: State<T>, f: fut): Result<T> {
    if s.isClosed then Result(s, ClosedError, Quiet())
    else if s.putters == [] && HasRoom(s) then Result(s, Yes, Quiet())
    else Result(s.(putters := s.putters + [f]), No, Quiet())
  }

  function DropPutter<T>(s: State<T>, f: fut): Result<T> {
    var left := s.(putters := Removed(s.putters, f));
    if f in s.putters then Result(left, Yes, Quiet())
    else if HasRoom(left) then
      Result(left.(putters := AfterFirst(left.putters)), No, Wakes(NoGift, FirstOf(left.putters), [], []))
    else Result(left, No, Quiet())
  }

  function AddWatcher<T>(s: State<T>, f: fut): Result<T> {
    if s.isClosed || s.buffer != [] then Result(s, No, Quiet())
    else Result(s.(watchers := s.watchers + [f]), Yes, Quiet())
  }

  function DropWatcher<T>(s: State<T>, f: fut): Result<T> {
    Result(s.(watchers := Removed(s.watchers, f)), if f in s.watchers then Yes else No, Quiet())
  }

  function Forward<T>(s: State<T>): Result<T> {
    if s.buffer != [] && s.getters == [] then
      Result(s.(watchers := AfterFirst(s.watchers)), Yes, Wakes(NoGift, [], [], FirstOf(s.watchers)))
    else Result(s, Yes, Quiet())
  }

  function CloseAll<T>(s: State<T>): Result<T> {
    if s.isClosed then Result(s, Yes, Quiet())
    else Result(s.(isClosed := true, getters := [], putters := [], watchers := []), Yes,
                Wakes(NoGift, [], s.getters + s.putters, s.watchers))
  }

  function Apply<T>(op: Op<T>, s: State<T>): Result<T> {
    match op
    case Send(item) => TrySend(s, item)
    case Recv => TryRecv(s)
    case RegisterGetter(f) => AddGetter(s, f)
    case UnregisterGetter(f) => DropGetter(s, f)
    case RegisterPutter(f) => AddPutter(s, f)
    case UnregisterPutter(f) => DropPutter(s, f)
    case RegisterWatcher(f) => AddWatcher(s, f)
    case UnregisterWatcher(f) => DropWatcher(s, f)
    case ForwardSelect => Forward(s)
    case Close => CloseAll(s)
  }

  class RawAsyncChannel<T> {
    var buffer: seq<T>
    const maxsize: nat
    var isClosed: bool
    var getters: seq<fut>
    var putters: seq<fut>
    var watchers: seq<fut>

    function Value(): State<T>
      reads this
    {
      State(buffer, maxsize, isClosed, getters, putters, watchers)
    }

    constructor (maxsize: nat)
      ensures Value() == Open(maxsize)
    {
      this.maxsize := maxsize;
      buffer, isClosed := [], false;
      getters, putters, watchers := [], [], [];
    }

    // Pops the oldest putter, if any.
    method PopPutter() returns (woken: seq<fut>)
      modifies `putters
      ensures woken == FirstOf(old(putters)) && putters == AfterFirst(old(putters))
    {
      woken := FirstOf(putters);
      putters := AfterFirst(putters);
    }

    method PopItem() returns (item: T, room: seq<fut>)
      requires buffer != []
      modifies `buffer, `putters
      ensures Result(Value(), Item(item), Wakes(NoGift, room, [], [])) == TakeItem(old(Value()))
    {
      item, room := buffer[0], [];
      buffer := buffer[1..];
      if maxsize > 0 {
        room := PopPutter();
      }
    }

    method TrySend(item: T) returns (reply: Reply<T>, toWake: Wakes<T>)
      modifies this
      ensures Result(Value(), reply, toWake) == Apply(Send(item), old(Value()))
    {
      if isClosed {
        return ClosedError, Quiet();
      }
      if getters != [] {
        var getter, room := getters[0], [];
        getters := getters[1..];
        if maxsize > 0 {
          while putters != [] && |buffer| < maxsize
            invariant room + putters == old(putters)
            invariant |buffer| >= maxsize ==> room == []
            invariant buffer == old(buffer) && getters == old(getters[1..])
            invariant watchers == old(watchers) && isClosed == old(isClosed)
            decreases |putters|
          {
            room := room + [putters[0]];
            putters := putters[1..];
          }
        }
        assert room == if maxsize > 0 && |buffer| < maxsize then old(putters) else [];
        assert putters == old(putters)[|room|..];
        return Yes, Wakes(Gift(getter, item), room, [], []);
      }
      if watchers != [] {
        var watcher := watchers[0];
        watchers := watchers[1..];
        buffer := buffer + [item];
        return Yes, Wakes(NoGift, [], [], [watcher]);
      }
      if maxsize > 0 && |buffer| >= maxsize {
        return No, Quiet();
      }
      buffer := buffer + [item];
      return Yes, Quiet();
    }

    method TryRecv() returns (reply: Reply<T>, toWake: Wakes<T>)
      modifies this
      ensures Result(Value(), reply, toWake) == Apply(Recv, old(Value()))
    {
      if buffer != [] {
        var item, room := PopItem();
        return Item(item), Wakes(NoGift, room, [], []);
      }
      return if isClosed then ClosedError else No, Quiet();
    }

    method RegisterGetter(f: fut) returns (reply: Reply<T>, toWake: Wakes<T>)
      modifies this
      ensures Result(Value(), reply, toWake) == Apply(Op.RegisterGetter(f), old(Value()))
    {
      if getters == [] && buffer != [] {
        var item, room := PopItem();
        return Item(item), Wakes(NoGift, room, [], []);
      }
      if isClosed {
        return ClosedError, Quiet();
      }
      getters := getters + [f];
      return No, Quiet();
    }

    method UnregisterGetter(f: fut) returns (reply: Reply<T>, toWake: Wakes<T>)
      modifies this
      ensures Result(Value(), reply, toWake) == Apply(Op.UnregisterGetter(f), old(Value()))
    {
      var before := |getters|;
      getters := Removed(getters, f);
      var removed := |getters| != before;
      toWake := Quiet();
      if !removed && buffer != [] {
        if getters != [] {
          toWake := toWake.(gift := Gift(getters[0], buffer[0]));
          getters, buffer := getters[1..], buffer[1..];
        } else if watchers != [] {
          toWake := toWake.(pokes := [watchers[0]]);
          watchers := watchers[1..];
        }
      }
      reply := if removed then Yes else No;
    }

    method RegisterPutter(f: fut) returns (reply: Reply<T>)
      modifies this
      ensures Result(Value(), reply, Quiet()) == Apply(Op.RegisterPutter(f), old(Value()))
    {
      if isClosed {
        return ClosedError;
      }
      if putters == [] && (maxsize == 0 || |buffer| < maxsize) {
        return Yes;
      }
      putters := putters + [f];
      return No;
    }

    method UnregisterPutter(f: fut) returns (reply: Reply<T>, toWake: Wakes<T>)
      modifies this
      ensures Result(Value(), reply, toWake) == Apply(Op.UnregisterPutter(f), old(Value()))
    {
      var before := |putters|;
      putters := Removed(putters, f);
      var removed := |putters| != before;
      var room := [];
      if !removed && (maxsize == 0 || |buffer| < maxsize) {
        room := PopPutter();
      }
      return if removed then Yes else No, Wakes(NoGift, room, [], []);
    }

    method RegisterSelectWatcher(f: fut) returns (reply: Reply<T>)
      modifies this
      ensures Result(Value(), reply, Quiet()) == Apply(RegisterWatcher(f), old(Value()))
    {
      if isClosed && buffer == [] {
        return No;
      }
      if buffer != [] {
        return No;
      }
      watchers := watchers + [f];
      return Yes;
    }

    method UnregisterSelectWatcher(f: fut) returns (reply: Reply<T>)
      modifies this
      ensures Result(Value(), reply, Quiet()) == Apply(UnregisterWatcher(f), old(Value()))
    {
      var before := |watchers|;
      watchers := Removed(watchers, f);
      return if |watchers| != before then Yes else No;
    }

    method ForwardSelectWakeup() returns (toWake: Wakes<T>)
      modifies this
      ensures Result(Value(), Yes, toWake) == Apply(ForwardSelect, old(Value()))
    {
      toWake := Quiet();
      if buffer != [] && getters == [] {
        toWake := toWake.(pokes := FirstOf(watchers));
        watchers := AfterFirst(watchers);
      }
    }

    method Close() returns (toWake: Wakes<T>)
      modifies this
      ensures Result(Value(), Yes, toWake) == Apply(Op.Close, old(Value()))
    {
      if isClosed {
        return Quiet();
      }
      isClosed := true;
      toWake := Wakes(NoGift, [], getters + putters, watchers);
      getters, putters, watchers := [], [], [];
    }
  }
}
