/** No wake-up is lost: no slot idles while a sender sleeps, no item waits while
    a select sleeps, and how far select watchers can stretch the capacity. */
module ChannelWakeups {
  import opened Channel
  import opened ChannelProtocol

  // ------------------------------------------------------- sleeping senders

  // A step of anybody, or the renewed attempt of a sender that was woken.
  datatype SenderStep<T> = Do(op: Op<T>) | Retry(f: fut, item: T)

  // `woken`: the senders told of room that neither tried again nor gave up yet.
  datatype Senders<T> = Senders(ch: State<T>, woken: multiset<fut>)

  function OpOf<T>(e: SenderStep<T>): Op<T> {
    if e.Retry? then Send(e.item) else e.op
  }

  // A sender gives its wake-up back by unregistering when it is no longer queued.
  function Consumed<T>(e: SenderStep<T>, r: Result<T>): multiset<fut> {
    if e.Retry? then multiset{e.f}
    else if e.op.UnregisterPutter? && r.reply == No then multiset{e.op.f}
    else multiset{}
  }

  function SendersStep<T>(w: Senders<T>, e: SenderStep<T>): Senders<T> {
    var r := Apply(OpOf(e), w.ch);
    Senders(r.st, (w.woken - Consumed(e, r)) + multiset(r.wakes.room))
  }

  function SendersRun<T>(w: Senders<T>, es: seq<SenderStep<T>>): Senders<T>
    decreases |es|
  {
    if es == [] then w else SendersRun(SendersStep(w, es[0]), es[1..])
  }

  predicate NoIdleSlot<T>(w: Senders<T>) {
    && Valid(w.ch)
    && (w.ch.putters != [] ==> |w.ch.buffer| + |w.woken| >= w.ch.maxsize)
  }

  lemma OneLess(m: multiset<fut>, f: fut)
    ensures |m - multiset{f}| >= |m| - 1
  {
    if f !in m { assert m - multiset{f} == m; }
  }

  lemma StepLeavesNoIdleSlot<T>(w: Senders<T>, e: SenderStep<T>)
    requires NoIdleSlot(w)
    ensures NoIdleSlot(SendersStep(w, e))
  {
    var r := Apply(OpOf(e), w.ch);
    StepKeepsValid(OpOf(e), w.ch);
    if e.Retry? {
      OneLess(w.woken, e.f);
    } else if e.op.UnregisterPutter? {
      OneLess(w.woken, e.op.f);
    }
    var left := |w.woken - Consumed(e, r)|;
    assert |SendersStep(w, e).woken| == left + |r.wakes.room|;
    RoomIsCovered(OpOf(e), w.ch, |w.woken|, left, e.Retry?);
  }

  // The same on plain numbers: `left` of the `woken` wake-ups are still unused.
  lemma RoomIsCovered<T>(op: Op<T>, s: State<T>, woken: nat, left: nat, retry: bool)
    requires Valid(s) && (s.putters != [] ==> |s.buffer| + woken >= s.maxsize)
    requires retry ==> op.Send?
    requires var r := Apply(op, s);
             left >= woken - if retry || (op.UnregisterPutter? && r.reply == No) then 1 else 0
    ensures var r := Apply(op, s);
            r.st.putters != [] ==> |r.st.buffer| + left + |r.wakes.room| >= s.maxsize
  {
  }

  /** While a sender is parked, the buffered items and the wake-ups on their way
      to other senders fill the channel; an unbounded channel parks nobody. */
  lemma {:induction false} NoSenderSleepsBesideASlot<T>(w: Senders<T>, es: seq<SenderStep<T>>)
    requires NoIdleSlot(w)
    ensures NoIdleSlot(SendersRun(w, es))
    decreases |es|
  {
    if es != [] {
      StepLeavesNoIdleSlot(w, es[0]);
      NoSenderSleepsBesideASlot(SendersStep(w, es[0]), es[1..]);
    }
  }

  /** From the open channel on. */
  lemma NoSenderEverSleepsBesideASlot<T>(maxsize: nat, es: seq<SenderStep<T>>)
    ensures NoIdleSlot(SendersRun(Senders(Open<T>(maxsize), multiset{}), es))
  {
    NoSenderSleepsBesideASlot(Senders(Open<T>(maxsize), multiset{}), es);
  }

  // ------------------------------------------------------- sleeping selects

  // A step of anybody; a poked select looks for its item; a poke reaches a select
  // that was already decided, and is forwarded; a select is given up although
  // it had been poked.
  datatype SelectStep<T> = Act(op: Op<T>) | Look(f: fut) | PassOn(f: fut) | GiveUp(f: fut)

  datatype Selects<T> = Selects(ch: State<T>, poked: multiset<fut>)

  function SelectsStep<T>(w: Selects<T>, e: SelectStep<T>): Selects<T> {
    match e
    case Act(op) => var r := Apply(op, w.ch); Selects(r.st, w.poked + multiset(r.wakes.pokes))
    case Look(f) => Selects(TryRecv(w.ch).st, w.poked - multiset{f})
    case PassOn(f) => var r := Forward(w.ch); Selects(r.st, (w.poked - multiset{f}) + multiset(r.wakes.pokes))
    case GiveUp(f) => w.(poked := w.poked - multiset{f})
  }

  function SelectsRun<T>(w: Selects<T>, es: seq<SelectStep<T>>): Selects<T>
    decreases |es|
  {
    if es == [] then w else SelectsRun(SelectsStep(w, es[0]), es[1..])
  }

  predicate NoIdleItem<T>(w: Selects<T>) {
    Valid(w.ch) && (w.ch.watchers != [] ==> |w.ch.buffer| <= |w.poked|)
  }

  // The select given up was not poked, or nobody else sleeps, or a poke is to spare.
  predicate Harmless<T>(w: Selects<T>, f: fut) {
    f !in w.poked || w.ch.watchers == [] || |w.ch.buffer| < |w.poked|
  }

  /** Giving up a select leaves no item beside a sleeping select exactly if that is
      harmless. */
  lemma GiveUpExactlyWhen<T>(w: Selects<T>, f: fut)
    requires NoIdleItem(w)
    ensures NoIdleItem(SelectsStep(w, GiveUp(f))) <==> Harmless(w, f)
  {
    if f in w.poked {
      assert |w.poked - multiset{f}| == |w.poked| - 1;
    } else {
      assert w.poked - multiset{f} == w.poked;
    }
  }

  lemma StepLeavesNoIdleItem<T>(w: Selects<T>, e: SelectStep<T>)
    requires NoIdleItem(w) && (e.GiveUp? ==> Harmless(w, e.f))
    ensures NoIdleItem(SelectsStep(w, e))
  {
    match e
    case Act(op) =>
      StepKeepsValid(op, w.ch);
      var r := Apply(op, w.ch);
      assert |SelectsStep(w, e).poked| == |w.poked| + |r.wakes.pokes|;
      PokesCover(op, w.ch, |w.poked|, |w.poked|);
    case Look(f) =>
      StepKeepsValid(Recv, w.ch);
      OneLess(w.poked, f);
    case PassOn(f) =>
      StepKeepsValid(ForwardSelect, w.ch);
      OneLess(w.poked, f);
      var left := |w.poked - multiset{f}|;
      assert |SelectsStep(w, e).poked| == left + |Forward(w.ch).wakes.pokes|;
      PokesCover(ForwardSelect, w.ch, |w.poked|, left);
    case GiveUp(f) =>
      GiveUpExactlyWhen(w, f);
  }

  lemma PokesCover<T>(op: Op<T>, s: State<T>, poked: nat, left: nat)
    requires Valid(s) && (s.watchers != [] ==> |s.buffer| <= poked)
    requires left >= poked - if op.ForwardSelect? then 1 else 0
    ensures var r := Apply(op, s);
            r.st.watchers != [] ==> |r.st.buffer| <= left + |r.wakes.pokes|
  {
  }

  ghost predicate GivesUpSafely<T>(w: Selects<T>, es: seq<SelectStep<T>>) {
    forall i | 0 <= i < |es| && es[i].GiveUp? :: Harmless(SelectsRun(w, es[..i]), es[i].f)
  }

  lemma {:induction false} SelectsRunThen<T>(w: Selects<T>, es: seq<SelectStep<T>>, e: SelectStep<T>)
    ensures SelectsRun(w, es + [e]) == SelectsStep(SelectsRun(w, es), e)
    decreases |es|
  {
    if es == [] {
      assert [e][1..] == [];
    } else {
      assert (es + [e])[1..] == es[1..] + [e];
      SelectsRunThen(SelectsStep(w, es[0]), es[1..], e);
    }
  }

  lemma SelectsRunNext<T>(w: Selects<T>, es: seq<SelectStep<T>>, i: nat)
    requires i < |es|
    ensures SelectsRun(w, es[..i + 1]) == SelectsStep(SelectsRun(w, es[..i]), es[i])
  {
    assert es[..i + 1] == es[..i] + [es[i]];
    SelectsRunThen(w, es[..i], es[i]);
  }

  lemma {:induction false} SafeSoFar<T>(w: Selects<T>, es: seq<SelectStep<T>>, i: nat)
    requires NoIdleItem(w) && GivesUpSafely(w, es) && i <= |es|
    ensures NoIdleItem(SelectsRun(w, es[..i]))
  {
    if i > 0 {
      SafeSoFar(w, es, i - 1);
      SelectsRunNext(w, es, i - 1);
      StepLeavesNoIdleItem(SelectsRun(w, es[..i - 1]), es[i - 1]);
    }
  }

  /** All along a run, every buffered item has a poke under way while a select sleeps,
      exactly if every select that is given up on the way is given up harmlessly. */
  lemma NoSelectSleepsBesideAnItem<T>(w: Selects<T>, es: seq<SelectStep<T>>)
    requires NoIdleItem(w)
    ensures (forall i | 0 <= i <= |es| :: NoIdleItem(SelectsRun(w, es[..i]))) <==> GivesUpSafely(w, es)
  {
    if GivesUpSafely(w, es) {
      forall i | 0 <= i <= |es|
        ensures NoIdleItem(SelectsRun(w, es[..i]))
      {
        SafeSoFar(w, es, i);
      }
    }
    if forall i | 0 <= i <= |es| :: NoIdleItem(SelectsRun(w, es[..i])) {
      forall i | 0 <= i < |es| && es[i].GiveUp?
        ensures Harmless(SelectsRun(w, es[..i]), es[i].f)
      {
        SelectsRunNext(w, es, i);
        assert NoIdleItem(SelectsRun(w, es[..i])) && NoIdleItem(SelectsRun(w, es[..i + 1]));
        GiveUpExactlyWhen(SelectsRun(w, es[..i]), es[i].f);
      }
    }
  }

  function NoSelects<T>(maxsize: nat): Selects<T> {
    Selects(Open(maxsize), multiset{})
  }

  /** From the open channel on. */
  lemma NoSelectEverSleepsBesideAnItem<T>(maxsize: nat, es: seq<SelectStep<T>>)
    ensures (forall i | 0 <= i <= |es| :: NoIdleItem(SelectsRun(NoSelects<T>(maxsize), es[..i])))
            <==> GivesUpSafely(NoSelects(maxsize), es)
  {
    NoSelectSleepsBesideAnItem(NoSelects(maxsize), es);
  }

  /** A poked select that is given up takes its poke along: the item stays, and
      nobody tells the select that still waits. */
  lemma AbandonedSelectLosesAWakeup<T>(item: T)
    ensures SelectsRun(NoSelects(0), [Act(RegisterWatcher(1)), Act(RegisterWatcher(2)), Act(Send(item)), GiveUp(1)])
            == Selects(State([item], 0, false, [], [], [2]), multiset{})
  {
    var a, b, c := Act(RegisterWatcher(1)), Act(RegisterWatcher(2)), Act(Send(item));
    var w1, w2 := Selects(State([], 0, false, [], [], [1]), multiset{}),
                  Selects(State([], 0, false, [], [], [1, 2]), multiset{});
    var w3 := Selects(State([item], 0, false, [], [], [2]), multiset{1});
    assert [1, 2][1..] == [2];
    SelectsFirst(NoSelects(0), a, [b, c, GiveUp(1)], w1);
    SelectsFirst(w1, b, [c, GiveUp(1)], w2);
    SelectsFirst(w2, c, [GiveUp(1)], w3);
    SelectsFirst(w3, GiveUp(1), [], w3.(poked := multiset{}));
  }

  lemma SelectsFirst<T>(w: Selects<T>, e: SelectStep<T>, rest: seq<SelectStep<T>>, next: Selects<T>)
    requires SelectsStep(w, e) == next
    ensures SelectsRun(w, [e] + rest) == SelectsRun(next, rest)
  {
    assert ([e] + rest)[1..] == rest;
  }

  // ---------------------------------------------------------- capacity bound

  // `peak`: the watchers parked when the buffer last became non-empty.
  datatype Peaked<T> = Peaked(ch: State<T>, peak: nat)

  function PeakedStep<T>(w: Peaked<T>, op: Op<T>): Peaked<T> {
    var next := Apply(op, w.ch).st;
    Peaked(next, if w.ch.buffer == [] && next.buffer != [] then |w.ch.watchers| else w.peak)
  }

  function PeakedRun<T>(w: Peaked<T>, ops: seq<Op<T>>): Peaked<T>
    decreases |ops|
  {
    if ops == [] then w else PeakedRun(PeakedStep(w, ops[0]), ops[1..])
  }

  predicate WithinBound<T>(w: Peaked<T>) {
    w.ch.maxsize > 0 && w.ch.buffer != [] ==>
      |w.ch.buffer| + |w.ch.watchers| <= if w.peak > w.ch.maxsize then w.peak else w.ch.maxsize
  }

  lemma StepWithinBound<T>(w: Peaked<T>, op: Op<T>)
    requires WithinBound(w)
    ensures WithinBound(PeakedStep(w, op))
  {
  }

  /** A bounded buffer exceeds its capacity only by items pushed past it for select
      watchers that were already parked when it last became non-empty. */
  lemma {:induction false} CapacityHolds<T>(w: Peaked<T>, ops: seq<Op<T>>)
    requires WithinBound(w)
    ensures WithinBound(PeakedRun(w, ops)) && PeakedRun(w, ops).ch == Run(w.ch, ops)
    decreases |ops|
  {
    if ops != [] {
      StepWithinBound(w, ops[0]);
      CapacityHolds(PeakedStep(w, ops[0]), ops[1..]);
    }
  }

  /** From the open channel on. */
  lemma CapacityAlwaysHolds<T>(maxsize: nat, ops: seq<Op<T>>)
    ensures WithinBound(PeakedRun(Peaked(Open<T>(maxsize), 0), ops))
  {
    CapacityHolds(Peaked(Open<T>(maxsize), 0), ops);
  }

  /** Without selects, the buffer never exceeds its capacity. */
  lemma {:induction false} CapacityWithoutSelects<T>(s: State<T>, ops: seq<Op<T>>)
    requires s.maxsize > 0 && s.watchers == [] && |s.buffer| <= s.maxsize
    requires forall i | 0 <= i < |ops| :: !ops[i].RegisterWatcher?
    ensures |Run(s, ops).buffer| <= s.maxsize
    decreases |ops|
  {
    if ops != [] {
      CapacityWithoutSelects(Apply(ops[0], s).st, ops[1..]);
    }
  }

  // A send is let past the capacity for the sake of a parked select.
  predicate Stretches<T>(s: State<T>, op: Op<T>) {
    op.Send? && !s.isClosed && s.getters == [] && s.watchers != [] && |s.buffer| >= s.maxsize
  }

  /** A step takes the buffer past its capacity exactly if it stretches it. */
  lemma StretchExactlyWhen<T>(s: State<T>, op: Op<T>)
    requires s.maxsize > 0
    ensures var after := Apply(op, s).st;
            |after.buffer| > s.maxsize && |after.buffer| > |s.buffer| <==> Stretches(s, op)
  {
  }

  lemma {:induction false} RunThen<T>(s: State<T>, ops: seq<Op<T>>, op: Op<T>)
    ensures Run(s, ops + [op]) == Run(Run(s, ops), [op])
    decreases |ops|
  {
    if ops == [] {
      assert [] + [op] == [op];
    } else {
      assert (ops + [op])[1..] == ops[1..] + [op];
      RunThen(Apply(ops[0], s).st, ops[1..], op);
    }
  }

  lemma OneStep<T>(s: State<T>, op: Op<T>)
    ensures Run(s, [op]) == Apply(op, s).st && Apply(op, s).st.maxsize == s.maxsize
  {
    assert [op][1..] == [];
  }

  lemma RunNext<T>(s: State<T>, ops: seq<Op<T>>, i: nat)
    requires i < |ops|
    ensures Run(s, ops[..i + 1]) == Apply(ops[i], Run(s, ops[..i])).st
  {
    assert ops[..i + 1] == ops[..i] + [ops[i]];
    RunThen(s, ops[..i], ops[i]);
    OneStep(Run(s, ops[..i]), ops[i]);
  }

  lemma {:induction false} SameMaxsize<T>(s: State<T>, ops: seq<Op<T>>)
    ensures Run(s, ops).maxsize == s.maxsize
    decreases |ops|
  {
    if ops != [] {
      OneStep(s, ops[0]);
      SameMaxsize(Apply(ops[0], s).st, ops[1..]);
    }
  }

  lemma {:induction false} WithinSoFar<T>(s: State<T>, ops: seq<Op<T>>, i: nat)
    requires s.maxsize > 0 && |s.buffer| <= s.maxsize && i <= |ops|
    requires forall j | 0 <= j < i :: !Stretches(Run(s, ops[..j]), ops[j])
    ensures |Run(s, ops[..i]).buffer| <= s.maxsize
  {
    if i > 0 {
      WithinSoFar(s, ops, i - 1);
      RunNext(s, ops, i - 1);
      SameMaxsize(s, ops[..i - 1]);
      StretchExactlyWhen(Run(s, ops[..i - 1]), ops[i - 1]);
    }
  }

  /** A bounded buffer stays within its capacity all along a run exactly if no send of
      the run finds it full, without a getter and with a parked select. */
  lemma CapacityExactlyWhen<T>(s: State<T>, ops: seq<Op<T>>)
    requires s.maxsize > 0 && |s.buffer| <= s.maxsize
    ensures (forall i | 0 <= i <= |ops| :: |Run(s, ops[..i]).buffer| <= s.maxsize)
            <==> (forall i | 0 <= i < |ops| :: !Stretches(Run(s, ops[..i]), ops[i]))
  {
    if forall i | 0 <= i < |ops| :: !Stretches(Run(s, ops[..i]), ops[i]) {
      forall i | 0 <= i <= |ops|
        ensures |Run(s, ops[..i]).buffer| <= s.maxsize
      {
        WithinSoFar(s, ops, i);
      }
    }
    if forall i | 0 <= i <= |ops| :: |Run(s, ops[..i]).buffer| <= s.maxsize {
      forall i | 0 <= i < |ops|
        ensures !Stretches(Run(s, ops[..i]), ops[i])
      {
        RunNext(s, ops, i);
        SameMaxsize(s, ops[..i]);
        StretchExactlyWhen(Run(s, ops[..i]), ops[i]);
        assert |Run(s, ops[..i + 1]).buffer| <= s.maxsize;
      }
    }
  }

  /** With them it can: two parked watchers let two items past a capacity of one. */
  lemma SelectsStretchTheCapacity<T>(a: T, b: T)
    ensures var parked := AddWatcher(AddWatcher<T>(Open(1), 1).st, 2).st;
            TrySend(TrySend(parked, a).st, b).st.buffer == [a, b]
  {
    assert AddWatcher(AddWatcher<T>(Open(1), 1).st, 2).st.watchers == [1, 2];
  }
}
