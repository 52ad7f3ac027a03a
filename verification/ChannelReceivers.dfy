/** No item is lost or duplicated when receivers are cancelled: an item handed to
    a receiver that can no longer take it is sent again. */
module ChannelReceivers {
  import opened Channel
  import opened ChannelProtocol

  // An item on its way to the future of a receiver.
  datatype Flight<T> = Flight(to: fut, item: T)

  // `done`: the futures that are completed or cancelled. The multisets collect
  // what the application sent, what receivers took from the channel themselves,
  // what their futures were given, and what a failed resend let go.
  datatype World<T> = World(ch: State<T>, flights: seq<Flight<T>>, done: set<fut>,
                            sent: multiset<T>, taken: multiset<T>, fulfilled: multiset<T>, dropped: multiset<T>)

  function Start<T>(maxsize: nat): World<T> {
    World(Open(maxsize), [], {}, multiset{}, multiset{}, multiset{}, multiset{})
  }

  datatype Step<T> =
    | AppSend(item: T)
    | Other(op: Op<T>)   // any other call on the channel
    | Settle(f: fut)     // a future is cancelled, or fails
    | Arrive(i: nat)     // the i-th flight reaches the loop of its receiver

  function Launched<T>(r: Result<T>): seq<Flight<T>> {
    if r.wakes.gift.Gift? then [Flight(r.wakes.gift.to, r.wakes.gift.item)] else []
  }

  function TakenBy<T>(r: Result<T>): multiset<T> {
    if r.reply.Item? then multiset{r.reply.item} else multiset{}
  }

  /** Completing the future: the item again goes through the channel when it
      cannot be delivered, and is let go when the channel refuses it. */
  function Land<T>(w: World<T>, g: Flight<T>): World<T> {
    if g.to !in w.done then w.(fulfilled := w.fulfilled + multiset{g.item}, done := w.done + {g.to})
    else
      var r := TrySend(w.ch, g.item);
      if r.reply == Yes then w.(ch := r.st, flights := w.flights + Launched(r))
      else w.(dropped := w.dropped + multiset{g.item})
  }

  function StepWorld<T>(w: World<T>, e: Step<T>): World<T> {
    match e
    case AppSend(item) =>
      var r := TrySend(w.ch, item);
      if r.reply == Yes then w.(ch := r.st, flights := w.flights + Launched(r), sent := w.sent + multiset{item}) else w
    case Other(op) =>
      if op.Send? then w
      else
        var r := Apply(op, w.ch);
        w.(ch := r.st, flights := w.flights + Launched(r), taken := w.taken + TakenBy(r))
    case Settle(f) => w.(done := w.done + {f})
    case Arrive(i) =>
      if i >= |w.flights| then w else Land(w.(flights := w.flights[..i] + w.flights[i + 1..]), w.flights[i])
  }

  function RunWorld<T>(w: World<T>, es: seq<Step<T>>): World<T>
    decreases |es|
  {
    if es == [] then w else RunWorld(StepWorld(w, es[0]), es[1..])
  }

  function Items<T>(flights: seq<Flight<T>>): multiset<T> {
    if flights == [] then multiset{} else multiset{flights[0].item} + Items(flights[1..])
  }

  lemma {:induction false} ItemsAppend<T>(a: seq<Flight<T>>, b: seq<Flight<T>>)
    ensures Items(a + b) == Items(a) + Items(b)
  {
    if a == [] {
      assert a + b == b;
    } else {
      assert (a + b)[1..] == a[1..] + b;
      ItemsAppend(a[1..], b);
    }
  }

  lemma ItemsWithout<T>(flights: seq<Flight<T>>, i: nat)
    requires i < |flights|
    ensures Items(flights) == Items(flights[..i] + flights[i + 1..]) + multiset{flights[i].item}
  {
    assert flights == flights[..i] + flights[i..];
    ItemsAppend(flights[..i], flights[i..]);
    ItemsAppend(flights[..i], flights[i + 1..]);
    assert flights[i..][1..] == flights[i + 1..];
  }

  // Where the items of a channel are.
  function Held<T>(ch: State<T>, flights: seq<Flight<T>>): multiset<T> {
    multiset(ch.buffer) + Items(flights)
  }

  ghost predicate Conserved<T>(w: World<T>) {
    Valid(w.ch) && w.sent == Held(w.ch, w.flights) + w.taken + w.fulfilled + w.dropped
  }

  lemma SplitMultiset<T>(a: seq<T>, b: seq<T>, c: seq<T>, d: seq<T>)
    requires a + b == c + d
    ensures multiset(a) + multiset(b) == multiset(c) + multiset(d)
  {
    assert multiset(a + b) == multiset(c + d);
  }

  lemma HandedOutWhere<T>(op: Op<T>, ch: State<T>)
    ensures var r := Apply(op, ch); multiset(HandedOut(r)) == Items(Launched(r)) + TakenBy(r)
  {
    var r := Apply(op, ch);
    assert r.wakes.gift.Gift? ==> !r.reply.Item?;
    assert Launched(r) != [] ==> Launched(r)[1..] == [];
  }

  lemma StepHolds<T>(op: Op<T>, ch: State<T>, flights: seq<Flight<T>>)
    requires Valid(ch)
    ensures var r := Apply(op, ch);
            Held(ch, flights) + multiset(AcceptedBy(op, r)) == Held(r.st, flights + Launched(r)) + TakenBy(r)
  {
    var r := Apply(op, ch);
    StepIsFifo(op, ch);
    SplitMultiset(ch.buffer, AcceptedBy(op, r), HandedOut(r), r.st.buffer);
    HandedOutWhere(op, ch);
    ItemsAppend(flights, Launched(r));
    Rearrange(multiset(ch.buffer), multiset(AcceptedBy(op, r)), multiset(r.st.buffer), Items(Launched(r)), TakenBy(r),
              Items(flights));
  }

  lemma Rearrange<T>(b: multiset<T>, accepted: multiset<T>, b1: multiset<T>, launched: multiset<T>, taken: multiset<T>,
                     flights: multiset<T>)
    requires b + accepted == (launched + taken) + b1
    ensures (b + flights) + accepted == (b1 + (flights + launched)) + taken
  {
    assert (b + flights) + accepted == (b + accepted) + flights;
  }

  lemma SendHolds<T>(ch: State<T>, flights: seq<Flight<T>>, item: T)
    requires Valid(ch) && TrySend(ch, item).reply == Yes
    ensures var r := TrySend(ch, item);
            Valid(r.st) && Held(r.st, flights + Launched(r)) == Held(ch, flights) + multiset{item}
  {
    StepKeepsValid(Send(item), ch);
    StepHolds(Send(item), ch, flights);
  }

  lemma StepConserves<T>(w: World<T>, e: Step<T>)
    requires Conserved(w)
    ensures Conserved(StepWorld(w, e))
  {
    match e
    case AppSend(item) =>
      if TrySend(w.ch, item).reply == Yes { SendHolds(w.ch, w.flights, item); }
    case Other(op) =>
      if !op.Send? { OtherConserves(w, op); }
    case Settle(_) =>
    case Arrive(i) =>
      if i < |w.flights| {
        ItemsWithout(w.flights, i);
        LandConserves(w.(flights := w.flights[..i] + w.flights[i + 1..]), w.flights[i]);
      }
  }

  lemma OtherConserves<T>(w: World<T>, op: Op<T>)
    requires Conserved(w) && !op.Send?
    ensures Conserved(StepWorld(w, Other(op)))
  {
    StepKeepsValid(op, w.ch);
    StepHolds(op, w.ch, w.flights);
    assert AcceptedBy(op, Apply(op, w.ch)) == [];
    assert Held(w.ch, w.flights) + multiset{} == Held(w.ch, w.flights);
  }

  lemma LandConserves<T>(w: World<T>, g: Flight<T>)
    requires Valid(w.ch) && w.sent == Held(w.ch, w.flights) + multiset{g.item} + w.taken + w.fulfilled + w.dropped
    ensures Conserved(Land(w, g))
  {
    if TrySend(w.ch, g.item).reply == Yes { SendHolds(w.ch, w.flights, g.item); }
  }

  /** Conservation: whatever is cancelled and whenever, every sent item is in the
      buffer, under way, taken, in a receiver's future, or was let go, and no
      item is there twice. */
  lemma {:induction false} NothingIsLostOrDuplicated<T>(w: World<T>, es: seq<Step<T>>)
    requires Conserved(w)
    ensures Conserved(RunWorld(w, es))
    decreases |es|
  {
    if es != [] {
      StepConserves(w, es[0]);
      NothingIsLostOrDuplicated(StepWorld(w, es[0]), es[1..]);
    }
  }

  /** From the open channel on. */
  lemma NothingIsEverLostOrDuplicated<T>(maxsize: nat, es: seq<Step<T>>)
    ensures Conserved(RunWorld(Start<T>(maxsize), es))
  {
    assert Conserved(Start<T>(maxsize));
    NothingIsLostOrDuplicated(Start<T>(maxsize), es);
  }

  /** An item is let go exactly when it comes back to a closed channel, or to a
      full one that nobody waits on. */
  lemma DropsExactlyWhen<T>(w: World<T>, e: Step<T>)
    ensures StepWorld(w, e).dropped != w.dropped
       <==> && e.Arrive? && e.i < |w.flights| && w.flights[e.i].to in w.done
            && (w.ch.isClosed || (w.ch.maxsize > 0 && |w.ch.buffer| >= w.ch.maxsize && w.ch.getters == []
                && w.ch.watchers == []))
  {
    if e.Arrive? && e.i < |w.flights| {
      var g := w.flights[e.i];
      assert (w.dropped + multiset{g.item})[g.item] == w.dropped[g.item] + 1;
    }
  }

  /** So an open unbounded channel never lets an item go. */
  lemma {:induction false} OpenUnboundedDropsNothing<T>(w: World<T>, es: seq<Step<T>>)
    requires Valid(w.ch) && w.ch.maxsize == 0 && w.dropped == multiset{}
    requires !RunWorld(w, es).ch.isClosed
    ensures RunWorld(w, es).dropped == multiset{}
    decreases |es|
  {
    if es != [] {
      var next := StepWorld(w, es[0]);
      StaysClosed(w, es);
      StepStaysClosed(w, es[0]);
      DropsExactlyWhen(w, es[0]);
      OpenUnboundedDropsNothing(next, es[1..]);
    }
  }

  lemma StepStaysClosed<T>(w: World<T>, e: Step<T>)
    requires Valid(w.ch)
    ensures w.ch.isClosed ==> StepWorld(w, e).ch.isClosed
    ensures StepWorld(w, e).ch.maxsize == w.ch.maxsize && Valid(StepWorld(w, e).ch)
  {
    match e
    case AppSend(item) => StepKeepsValid(Send(item), w.ch);
    case Other(op) => StepKeepsValid(op, w.ch);
    case Settle(_) =>
    case Arrive(i) => if i < |w.flights| { StepKeepsValid(Send(w.flights[i].item), w.ch); }
  }

  lemma {:induction false} StaysClosed<T>(w: World<T>, es: seq<Step<T>>)
    requires Valid(w.ch)
    ensures w.ch.isClosed ==> RunWorld(w, es).ch.isClosed
    decreases |es|
  {
    if es != [] {
      StepStaysClosed(w, es[0]);
      StaysClosed(StepWorld(w, es[0]), es[1..]);
    }
  }

  lemma RunFirst<T>(w: World<T>, e: Step<T>, rest: seq<Step<T>>, next: World<T>)
    requires StepWorld(w, e) == next
    ensures RunWorld(w, [e] + rest) == RunWorld(next, rest)
  {
    assert ([e] + rest)[1..] == rest;
  }

  // A bounded channel on which only this was sent, and a receiver with one item on its way.
  function Scene<T>(ch: State<T>, flights: seq<Flight<T>>, done: set<fut>, sent: multiset<T>, dropped: multiset<T>)
    : World<T>
  {
    World(ch, flights, done, sent, multiset{}, multiset{}, dropped)
  }

  lemma HandOver<T>(a: T, rest: seq<Step<T>>)
    ensures RunWorld(Start(1), [Other(RegisterGetter(1))] + ([AppSend(a)] + rest))
         == RunWorld(Scene(Open(1), [Flight(1, a)], {}, multiset{a}, multiset{}), rest)
  {
    var waiting := Scene<T>(State([], 1, false, [1], [], []), [], {}, multiset{}, multiset{});
    assert StepWorld(Start<T>(1), Other(RegisterGetter(1))) == waiting;
    RunFirst(Start(1), Other(RegisterGetter(1)), [AppSend(a)] + rest, waiting);
    var handed := Scene(Open(1), [Flight(1, a)], {}, multiset{a}, multiset{});
    assert StepWorld(waiting, AppSend(a)) == handed;
    RunFirst(waiting, AppSend(a), rest, handed);
  }

  lemma ComesBack<T>(a: T, b: T)
    ensures RunWorld(Scene(Open(1), [Flight(1, a)], {1}, multiset{a}, multiset{}), [AppSend(b)] + [Arrive(0)])
         == Scene(State([b], 1, false, [], [], []), [], {1}, multiset{a, b}, multiset{a})
  {
    var cancelled := Scene(Open(1), [Flight(1, a)], {1}, multiset{a}, multiset{});
    var full := Scene(State([b], 1, false, [], [], []), [Flight(1, a)], {1}, multiset{a, b}, multiset{});
    assert [Flight(1, a)] + [] == [Flight(1, a)] && [] + [b] == [b];
    assert StepWorld(cancelled, AppSend(b)) == full;
    RunFirst(cancelled, AppSend(b), [Arrive(0)], full);
    assert full.flights[..0] + full.flights[1..] == [];
    RunFirst(full, Arrive(0), [], Scene(full.ch, [], {1}, multiset{a, b}, multiset{a}));
  }

  /** On a full channel the resend is refused and the item is gone: the receiver
      was cancelled before `a` arrived, and `b` took the room meanwhile. */
  lemma BoundedChannelLosesAnItem<T>(a: T, b: T)
    ensures var w := RunWorld(Start(1), [Other(RegisterGetter(1)), AppSend(a), Settle(1), AppSend(b), Arrive(0)]);
            w.sent == multiset{a, b} && w.ch.buffer == [b] && w.flights == [] && w.dropped == multiset{a}
  {
    var rest := [Settle(1)] + ([AppSend(b)] + [Arrive(0)]);
    assert [Other(RegisterGetter(1)), AppSend(a), Settle(1), AppSend(b), Arrive(0)]
        == [Other(RegisterGetter(1))] + ([AppSend(a)] + rest);
    HandOver(a, rest);
    RunFirst(Scene(Open(1), [Flight(1, a)], {}, multiset{a}, multiset{}), Settle(1), [AppSend(b)] + [Arrive(0)],
             Scene(Open(1), [Flight(1, a)], {1}, multiset{a}, multiset{}));
    ComesBack(a, b);
  }
}
