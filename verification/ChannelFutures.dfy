/** The wake-up of a waiter on its own loop: complete its future, or send the item
    again when the future can no longer take it. */
module ChannelFutures {
  import opened Bytes
  import opened Channel
  import opened ChannelReceivers

  class Future<T> {
    var done: bool
    var failed: bool
    var value: Option<T>

    constructor ()
      ensures !done && !failed && value.None?
    {
      done, failed, value := false, false, None;
    }

    // set_result and set_exception refuse a future that is done.
    method Complete(value: Option<T>, failed: bool) returns (ok: bool)
      modifies this
      ensures ok == !old(done) && done
      ensures if ok then this.value == value && this.failed == failed
              else this.value == old(this.value) && this.failed == old(this.failed)
    {
      if done {
        return false;
      }
      done, this.value, this.failed := true, value, failed;
      return true;
    }
  }

  // The account of items describes these objects.
  ghost predicate Describes<T>(w: World<T>, ch: RawAsyncChannel<T>, future: Future<T>, to: fut)
    reads ch, future
  {
    w.ch == ch.Value() && (to in w.done <==> future.done)
  }

  // The account after a wake-up that left the channel like `ch`, and what became of its item.
  ghost function Accounted<T>(w: World<T>, to: fut, item: T, ch: State<T>, taken: bool, reply: Reply<T>,
                              toWake: Wakes<T>): World<T> {
    var gone := multiset{item};
    w.(ch := ch, done := w.done + {to},
       flights := w.flights + if toWake.gift.Gift? then [Flight(toWake.gift.to, toWake.gift.item)] else [],
       fulfilled := w.fulfilled + if taken then gone else multiset{},
       dropped := w.dropped + if taken || reply == Yes then multiset{} else gone)
  }

  /** `item` is missing for senders that are only told of room; `failed` marks the
      closed error. The wake-up of a receiver is the landing of its item in any account
      `w` of items that describes the channel and the future. */
  method WakeFut<T>(future: Future<T>, ch: RawAsyncChannel<T>, item: Option<T>, failed: bool,
                    ghost to: fut, ghost w: World<T>)
    returns (taken: bool, reply: Reply<T>, toWake: Wakes<T>)
    requires Describes(w, ch, future, to)
    modifies future, ch
    ensures future.done && taken == !old(future.done)
    ensures taken ==> future.value == item && future.failed == failed
    ensures taken ==> ch.Value() == old(ch.Value()) && toWake == Quiet()
    ensures !taken ==>
              && future.value == old(future.value) && future.failed == old(future.failed)
              && if item.Some? && !failed then Result(ch.Value(), reply, toWake) == TrySend(old(ch.Value()), item.value)
                 else ch.Value() == old(ch.Value()) && toWake == Quiet()
    ensures item.Some? && !failed ==>
              && Land(w, Flight(to, item.value)) == Accounted(w, to, item.value, ch.Value(), taken, reply, toWake)
              && Describes(Land(w, Flight(to, item.value)), ch, future, to)
  {
    reply, toWake := No, Quiet();
    taken := future.Complete(item, failed);
    if !taken && item.Some? && !failed {
      if ch.isClosed {
        reply := ClosedError;
      } else {
        reply, toWake := ch.TrySend(item.value);
      }
    }
    if item.Some? && !failed {
      LandIsAccounted(w, to, item.value, taken, ch.Value(), reply, toWake);
    }
  }

  lemma LandIsAccounted<T>(w: World<T>, to: fut, item: T, taken: bool, ch: State<T>, reply: Reply<T>, toWake: Wakes<T>)
    requires taken <==> to !in w.done
    requires if taken then ch == w.ch && toWake == Quiet() else Result(ch, reply, toWake) == TrySend(w.ch, item)
    ensures Land(w, Flight(to, item)) == Accounted(w, to, item, ch, taken, reply, toWake)
  {
    assert w.flights + [] == w.flights;
    assert w.fulfilled + multiset{} == w.fulfilled && w.dropped + multiset{} == w.dropped;
    assert to in w.done ==> w.done + {to} == w.done;
  }
}
