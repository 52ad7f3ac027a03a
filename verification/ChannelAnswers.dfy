/** What the calls on a channel answer, told through the calls that come after them. */
module ChannelAnswers {
  import opened Channel
  import opened ChannelProtocol
  import opened Sequences

  predicate Full<T>(s: State<T>) {
    s.maxsize > 0 && |s.buffer| >= s.maxsize
  }

  // ------------------------------------------------------------------ senders

  /** Told that there is room, a sender finds the channel as it was, and its next send is
      accepted. Told that there is none, it is the last of the parked senders; that is
      the answer exactly if one is parked already or the bounded buffer is full. */
  lemma RoomMeansRoom<T>(s: State<T>, f: fut, item: T)
    requires !s.isClosed
    ensures var r := Apply(RegisterPutter(f), s);
            && (r.reply == Yes ==> r.st == s && TrySend(r.st, item).reply == Yes)
            && (r.reply != Yes ==> r.reply == No && r.st == s.(putters := s.putters + [f]))
            && (r.reply == No <==> s.putters != [] || Full(s))
            && r.wakes == Quiet()
  {
  }

  /** A sender that parks on a full channel is woken, and nobody else, by the receive that
      makes room. */
  lemma ReceiveWakesTheSender<T>(s: State<T>, f: fut)
    requires Valid(s) && !s.isClosed && Full(s) && s.putters == [] && s.buffer != []
    ensures var parked := Apply(RegisterPutter(f), s).st;
            var r := Apply(Recv, parked);
            && f in parked.putters && r.reply == Item(s.buffer[0]) && r.wakes == Quiet().(room := [f])
            && r.st == s.(buffer := s.buffer[1..])
  {
    assert [f][1..] == [] && [] + [f] == [f];
  }

  /** The same from the open channel. */
  lemma FullRegisterReceive<T>(x: T, f: fut)
    ensures var s := Run(Open(1), [Send(x), RegisterPutter(f)]);
            && s.putters == [f] && s.buffer == [x]
            && Apply(Recv, s).wakes.room == [f] && Apply(Recv, s).reply == Item(x)
  {
    var ops := [Send(x), RegisterPutter(f)];
    var sent, parked := State([x], 1, false, [], [], []), State([x], 1, false, [], [f], []);
    assert [] + [x] == [x] && [] + [f] == [f];
    assert Apply(ops[0], Open(1)).st == sent && Apply(ops[1], sent).st == parked;
    assert ops[1..] == [ops[1]] && [ops[1]][1..] == [];
    assert Run(Open(1), ops) == Run(sent, [ops[1]]) == Run(parked, []);
  }

  /** A send is refused exactly if the channel is closed, or full with nobody to take the
      item; then nothing changes. It is never refused behind an answer that said so. */
  lemma SendAnswers<T>(s: State<T>, item: T)
    ensures var r := TrySend(s, item);
            && (r.reply == ClosedError <==> s.isClosed)
            && (r.reply == No <==> !s.isClosed && Full(s) && s.getters == [] && s.watchers == [])
            && (r.reply == Yes || (r.st == s && r.wakes == Quiet()))
  {
  }

  /** An accepted item goes to the oldest parked receiver, else to the end of the buffer,
      where the oldest parked select is told of it. Room that shows on the way is passed
      on to all parked senders. */
  lemma AcceptedItemGoesTo<T>(s: State<T>, item: T)
    requires Valid(s) && TrySend(s, item).reply == Yes
    ensures var r := TrySend(s, item);
            if s.getters != [] then
              && r.wakes.gift == Gift(s.getters[0], item) && r.st.buffer == s.buffer && r.wakes.pokes == []
              && (s.maxsize > 0 ==> r.wakes.room == s.putters && r.st.putters == [])
            else
              && r.wakes.gift == NoGift && r.st.buffer == s.buffer + [item] && r.wakes.room == []
              && r.wakes.pokes == (if s.watchers == [] then [] else [s.watchers[0]])
  {
  }

  // ---------------------------------------------------------------- receivers

  /** A receive takes the oldest item if there is one; otherwise it is the error exactly
      if the channel is closed, and the channel stays as it was. */
  lemma ReceiveAnswers<T>(s: State<T>)
    ensures var r := TryRecv(s);
            if s.buffer != [] then r.reply == Item(s.buffer[0]) && r.st.buffer == s.buffer[1..]
            else r.reply == (if s.isClosed then ClosedError else No) && r.st == s && r.wakes == Quiet()
  {
  }

  /** A receiver that registers gets what a receive would have got; only where that finds
      nothing, on an open channel, it parks, and the next item that is sent is handed to
      it if it is the first. */
  lemma RegisterReceives<T>(s: State<T>, f: fut, item: T)
    requires Valid(s)
    ensures var r := Apply(RegisterGetter(f), s);
            if TryRecv(s).reply != No then r == TryRecv(s)
            else
              && r.reply == No && r.st == s.(getters := s.getters + [f]) && r.wakes == Quiet()
              && (s.getters == [] ==> TrySend(r.st, item).wakes.gift == Gift(f, item))
  {
    assert s.getters == [] ==> (s.getters + [f])[0] == f;
  }

  // ------------------------------------------------------------------ selects

  /** A select parks exactly on a channel that is open and empty: wherever a receive would
      find an item or the error it is told to look instead. */
  lemma WatcherParksExactlyWhen<T>(s: State<T>, f: fut)
    ensures var r := Apply(RegisterWatcher(f), s);
            && (r.reply == Yes <==> TryRecv(s).reply == No)
            && r.st == (if r.reply == Yes then s.(watchers := s.watchers + [f]) else s)
            && (r.reply == Yes || r.reply == No) && r.wakes == Quiet()
  {
  }

  /** A poke that is passed on reaches the oldest parked select if an item is there and no
      receiver is parked. */
  lemma PassedOnTo<T>(s: State<T>)
    ensures var r := Apply(ForwardSelect, s);
            && r.wakes.pokes == (if s.buffer != [] && s.getters == [] && s.watchers != [] then [s.watchers[0]] else [])
            && r.wakes.gift == NoGift && r.wakes.room == [] && r.st.buffer == s.buffer
  {
  }

  // ------------------------------------------------------------- giving up

  /** Giving up a place in a queue is answered by whether one was still there, and then
      takes nothing but that away. */
  lemma LeavingAnswers<T>(k: Kind, op: Op<T>, s: State<T>)
    requires LeavesBy(k, op)
    ensures var r := Apply(op, s);
            && (r.reply == Yes || r.reply == No) && (r.reply == Yes <==> op.f in Queue(k, s))
            && (r.reply == Yes ==>
                  && op.f !in Queue(k, r.st) && r.wakes == Quiet() && r.st.buffer == s.buffer
                  && forall j | j != k :: Queue(j, r.st) == Queue(j, s))
  {
    RemovedIsGone(Queue(k, s), op.f);
  }

  lemma {:induction false} RemovedIsGone(queue: seq<nat>, x: nat)
    ensures x !in Removed(queue, x)
    ensures x !in queue ==> Removed(queue, x) == queue
  {
    if queue != [] { RemovedIsGone(queue[1..], x); }
  }

  /** A receiver that gives up when it was served already leaves no item behind unseen:
      the oldest parked receiver gets it or, as there is none beside an item in any
      reachable state, the oldest parked select is told to look. A sender passes on the
      room it was told of. */
  lemma ServedAndGone<T>(s: State<T>, f: fut)
    ensures var r := Apply(UnregisterGetter(f), s);
            f !in s.getters && s.buffer != [] ==>
              if s.getters != [] then r.wakes.gift == Gift(s.getters[0], s.buffer[0]) && r.wakes.pokes == []
              else r.wakes.gift == NoGift && r.wakes.pokes == FirstOf(s.watchers)
    ensures Valid(s) && s.buffer != [] ==> s.getters == []
    ensures var r := Apply(UnregisterPutter(f), s);
            f !in s.putters && !Full(s) ==> r.wakes.room == FirstOf(s.putters)
  {
    RemovedIsGone(s.getters, f);
    RemovedIsGone(s.putters, f);
  }

  // -------------------------------------------------------------------- close

  /** Closing tells everybody once: receivers and senders get the error, selects are told
      to look. Afterwards nothing is accepted, the buffered items are still received, in
      order, and then every call is answered with the error. */
  lemma CloseTellsEverybody<T>(s: State<T>, item: T, f: fut)
    requires !s.isClosed
    ensures var r := Apply(Op.Close, s);
            && r.st == State(s.buffer, s.maxsize, true, [], [], [])
            && r.wakes == Wakes(NoGift, [], s.getters + s.putters, s.watchers)
            && Apply(Op.Close, r.st) == Result(r.st, Yes, Quiet())
            && TrySend(r.st, item).reply == ClosedError
            && Apply(RegisterPutter(f), r.st).reply == ClosedError
            && (s.buffer == [] ==>
                  && TryRecv(r.st).reply == ClosedError && Apply(RegisterGetter(f), r.st).reply == ClosedError)
            && (s.buffer != [] ==> TryRecv(r.st).reply == Item(s.buffer[0]))
  {
  }
}
