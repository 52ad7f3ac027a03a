/** Incremental parsing loops: a step function is applied to the unread bytes
    until it asks for more input, or breaks off. Both the HTTP body reader and
    the WebSocket frame loop have this shape. */
module Incremental {
  import opened Bytes
  import opened Sequences

  datatype Step<+S, +E> =
    | Wait
    | Take(used: nat, st: S, events: seq<E>, stop: bool)

  datatype Outcome<+S, +E> = Outcome(st: S, events: seq<E>, rest: bytes, stopped: bool)

  type Stepper<!S, !E> = (S, bytes) -> Step<S, E>

  /** Steps stay inside `inv`, never overrun the input and, unless they break off, consume some of it. */
  ghost predicate Sound<S(!new), E(!new)>(step: Stepper<S, E>, inv: S -> bool) {
    forall st: S, a: bytes | inv(st) && step(st, a).Take? ::
      var t := step(st, a);
      inv(t.st) && t.used <= |a| && (t.stop || t.used > 0)
  }

  /** A step that is taken is the same step when more bytes follow. */
  ghost predicate Stable<S(!new), E(!new)>(step: Stepper<S, E>, inv: S -> bool) {
    forall st: S, a: bytes, b: bytes | inv(st) && step(st, a).Take? :: step(st, a + b) == step(st, a)
  }

  ghost function After<S, E>(events: seq<E>, o: Outcome<S, E>): Outcome<S, E> {
    Outcome(o.st, events + o.events, o.rest, o.stopped)
  }

  lemma AfterNothing<S, E>(o: Outcome<S, E>)
    ensures After([], o) == o
  {
    assert [] + o.events == o.events;
  }

  lemma AfterAfter<S, E>(a: seq<E>, b: seq<E>, o: Outcome<S, E>)
    ensures After(a, After(b, o)) == After(a + b, o)
  {
    assert a + (b + o.events) == (a + b) + o.events;
  }

  ghost function Run<S(!new), E(!new)>(step: Stepper<S, E>, inv: S -> bool, st: S, unread: bytes): (o: Outcome<S, E>)
    requires Sound(step, inv) && inv(st)
    ensures inv(o.st) && |o.rest| <= |unread|
    ensures !o.stopped ==> step(o.st, o.rest).Wait?
    decreases |unread|
  {
    var t := step(st, unread);
    if t.Wait? then Outcome(st, [], unread, false)
    else if t.stop then Outcome(t.st, t.events, unread[t.used..], true)
    else After(t.events, Run(step, inv, t.st, unread[t.used..]))
  }

  /** One iteration of the loop. */
  ghost predicate Unfolded<S(!new), E(!new)>(step: Stepper<S, E>, inv: S -> bool, st: S, unread: bytes)
    requires Sound(step, inv) && inv(st)
  {
    var t, r := step(st, unread), Run(step, inv, st, unread);
    if t.Wait? then r == Outcome(st, [], unread, false)
    else if t.stop then r == Outcome(t.st, t.events, unread[t.used..], true)
    else r == After(t.events, Run(step, inv, t.st, unread[t.used..]))
  }

  lemma UnfoldRun<S(!new), E(!new)>(step: Stepper<S, E>, inv: S -> bool, st: S, unread: bytes)
    requires Sound(step, inv) && inv(st)
    ensures Unfolded(step, inv, st, unread)
  {
  }

  /** Bytes that arrive later continue a run where it waited; a run that broke
      off leaves them unread. */
  lemma {:induction false} RunAppend<S(!new), E(!new)>(step: Stepper<S, E>, inv: S -> bool, st: S, a: bytes, b: bytes)
    requires Sound(step, inv) && Stable(step, inv) && inv(st)
    ensures var r := Run(step, inv, st, a);
            Run(step, inv, st, a + b)
              == if r.stopped then r.(rest := r.rest + b)
                 else After(r.events, Run(step, inv, r.st, r.rest + b))
    decreases |a|
  {
    var t := step(st, a);
    if t.Wait? {
      AfterNothing(Run(step, inv, st, a + b));
    } else {
      assert step(st, a + b) == t;
      var tail := a[t.used..];
      assert (a + b)[t.used..] == tail + b;
      if !t.stop {
        RunAppend(step, inv, t.st, tail, b);
        var r := Run(step, inv, t.st, tail);
        if !r.stopped {
          AfterAfter(t.events, r.events, Run(step, inv, r.st, r.rest + b));
        }
      }
    }
  }

  lemma {:induction false} RunIgnoresInvariant<S(!new), E(!new)>(
      step: Stepper<S, E>, inv: S -> bool, weaker: S -> bool, st: S, unread: bytes)
    requires Sound(step, inv) && Sound(step, weaker) && inv(st) && weaker(st)
    ensures Run(step, inv, st, unread) == Run(step, weaker, st, unread)
    decreases |unread|
  {
    var t := step(st, unread);
    if t.Take? && !t.stop { RunIgnoresInvariant(step, inv, weaker, t.st, unread[t.used..]); }
  }

  /** One call per piece of input. A run that broke off does not stop later
      calls from running the loop again. */
  ghost function FeedAll<S(!new), E(!new)>(step: Stepper<S, E>, inv: S -> bool, st: S, unread: bytes,
                                           pieces: seq<bytes>)
    : (o: Outcome<S, E>)
    requires Sound(step, inv) && inv(st)
    decreases |pieces|
  {
    if pieces == [] then Outcome(st, [], unread, false)
    else
      var r := Run(step, inv, st, unread + pieces[0]);
      var t := FeedAll(step, inv, r.st, r.rest, pieces[1..]);
      Outcome(t.st, r.events + t.events, t.rest, r.stopped || t.stopped)
  }

  lemma {:induction false} FeedIgnoresInvariant<S(!new), E(!new)>(
      step: Stepper<S, E>, inv: S -> bool, weaker: S -> bool, st: S, unread: bytes, pieces: seq<bytes>)
    requires Sound(step, inv) && Sound(step, weaker) && inv(st) && weaker(st)
    ensures FeedAll(step, inv, st, unread, pieces) == FeedAll(step, weaker, st, unread, pieces)
    decreases |pieces|
  {
    if pieces != [] {
      RunIgnoresInvariant(step, inv, weaker, st, unread + pieces[0]);
      var r := Run(step, inv, st, unread + pieces[0]);
      FeedIgnoresInvariant(step, inv, weaker, r.st, r.rest, pieces[1..]);
    }
  }

  /** However the bytes are cut up, the events, the state and the unread bytes
      are those of one whole delivery up to the point where it breaks off; the
      events of the whole delivery are always a prefix. */
  lemma {:induction false} SplitIndependence<S(!new), E(!new)>(
      step: Stepper<S, E>, inv: S -> bool, st: S, unread: bytes, pieces: seq<bytes>)
    requires Sound(step, inv) && Stable(step, inv) && inv(st)
    requires step(st, unread).Wait?
    ensures var whole := Run(step, inv, st, unread + Concat(pieces));
            var split := FeedAll(step, inv, st, unread, pieces);
            && whole.events <= split.events
            && (whole.stopped ==> split.stopped)
            && (!whole.stopped ==> split == whole)
    decreases |pieces|
  {
    var all := unread + Concat(pieces);
    if pieces == [] {
      assert all == unread;
    } else {
      var first := unread + pieces[0];
      assert all == first + Concat(pieces[1..]);
      RunAppend(step, inv, st, first, Concat(pieces[1..]));
      var r := Run(step, inv, st, first);
      if !r.stopped {
        SplitIndependence(step, inv, r.st, r.rest, pieces[1..]);
      }
    }
  }

  /** A state in which a run broke off never takes another step. */
  ghost predicate InertAfterStop<S(!new), E(!new)>(step: Stepper<S, E>, inv: S -> bool) {
    forall st: S, a: bytes, b: bytes | inv(st) && step(st, a).Take? && step(st, a).stop ::
      step(step(st, a).st, b).Wait?
  }

  lemma {:induction false} StoppedIsInert<S(!new), E(!new)>(step: Stepper<S, E>, inv: S -> bool, st: S, unread: bytes)
    requires Sound(step, inv) && InertAfterStop(step, inv) && inv(st)
    ensures var r := Run(step, inv, st, unread); r.stopped ==> forall b: bytes :: step(r.st, b).Wait?
    decreases |unread|
  {
    var t := step(st, unread);
    if t.Take? && !t.stop { StoppedIsInert(step, inv, t.st, unread[t.used..]); }
  }

  lemma {:induction false} FeedInert<S(!new), E(!new)>(
      step: Stepper<S, E>, inv: S -> bool, st: S, unread: bytes, pieces: seq<bytes>)
    requires Sound(step, inv) && inv(st) && forall b: bytes :: step(st, b).Wait?
    ensures FeedAll(step, inv, st, unread, pieces) == Outcome(st, [], unread + Concat(pieces), false)
    decreases |pieces|
  {
    if pieces == [] {
      assert unread + Concat(pieces) == unread;
    } else {
      var first := unread + pieces[0];
      FeedInert(step, inv, st, first, pieces[1..]);
      assert first + Concat(pieces[1..]) == unread + Concat(pieces);
    }
  }

  /** When breaking off is final, cutting the bytes up changes nothing at all. */
  lemma {:induction false} SplitExact<S(!new), E(!new)>(
      step: Stepper<S, E>, inv: S -> bool, st: S, unread: bytes, pieces: seq<bytes>)
    requires Sound(step, inv) && Stable(step, inv) && InertAfterStop(step, inv) && inv(st)
    requires step(st, unread).Wait?
    ensures FeedAll(step, inv, st, unread, pieces) == Run(step, inv, st, unread + Concat(pieces))
    decreases |pieces|
  {
    var all := unread + Concat(pieces);
    if pieces == [] {
      assert all == unread;
    } else {
      var first, later := unread + pieces[0], pieces[1..];
      assert all == first + Concat(later);
      RunAppend(step, inv, st, first, Concat(later));
      var r := Run(step, inv, st, first);
      if r.stopped {
        StoppedIsInert(step, inv, st, first);
        FeedInert(step, inv, r.st, r.rest, later);
        assert r.events + [] == r.events;
      } else {
        SplitExact(step, inv, r.st, r.rest, later);
      }
    }
  }

  // ------------------------------------------------- when breaking off is not final

  /** Every iteration leaves a trace: it takes bytes or says something. */
  ghost predicate Noticeable<S(!new), E(!new)>(step: Stepper<S, E>, inv: S -> bool) {
    forall st: S, a: bytes | inv(st) && step(st, a).Take? :: step(st, a).used > 0 || step(st, a).events != []
  }

  lemma {:induction false} FeedShrinks<S(!new), E(!new)>(
      step: Stepper<S, E>, inv: S -> bool, st: S, unread: bytes, pieces: seq<bytes>)
    requires Sound(step, inv) && inv(st)
    ensures |FeedAll(step, inv, st, unread, pieces).rest| <= |unread + Concat(pieces)|
    decreases |pieces|
  {
    if pieces != [] {
      var r := Run(step, inv, st, unread + pieces[0]);
      FeedShrinks(step, inv, r.st, r.rest, pieces[1..]);
    }
  }

  /** Further calls leave everything as it is exactly if there are none, or the loop
      waits on all that is there in the end. */
  lemma {:induction false} FeedQuiet<S(!new), E(!new)>(
      step: Stepper<S, E>, inv: S -> bool, st: S, unread: bytes, pieces: seq<bytes>)
    requires Sound(step, inv) && Stable(step, inv) && Noticeable(step, inv) && inv(st)
    ensures var all, split := unread + Concat(pieces), FeedAll(step, inv, st, unread, pieces);
            && (pieces == [] || step(st, all).Wait? ==> split == Outcome(st, [], all, false))
            && (split.events == [] && split.rest == all ==> pieces == [] || step(st, all).Wait?)
    decreases |pieces|
  {
    var all := unread + Concat(pieces);
    if pieces == [] {
      assert all == unread;
    } else {
      var first, later := unread + pieces[0], pieces[1..];
      assert all == first + Concat(later);
      if step(st, first).Wait? {
        FeedQuiet(step, inv, st, first, later);
        assert later == [] ==> all == first;
      } else {
        assert step(st, all) == step(st, first);
        var r := Run(step, inv, st, first);
        FeedShrinks(step, inv, r.st, r.rest, later);
      }
    }
  }

  function AllButLast(pieces: seq<bytes>): seq<bytes> {
    if pieces == [] then [] else pieces[..|pieces| - 1]
  }

  lemma AfterSame<S, E>(events: seq<E>, a: Outcome<S, E>, b: Outcome<S, E>)
    ensures After(events, a) == After(events, b) <==> a == b
  {
    assert (events + a.events)[|events|..] == a.events && (events + b.events)[|events|..] == b.events;
  }

  // One delivery, then the others: from where the first one left off.
  lemma FeedThen<S(!new), E(!new)>(step: Stepper<S, E>, inv: S -> bool, st: S, unread: bytes, pieces: seq<bytes>)
    requires Sound(step, inv) && inv(st) && pieces != []
    ensures var r := Run(step, inv, st, unread + pieces[0]);
            var t := FeedAll(step, inv, r.st, r.rest, pieces[1..]);
            FeedAll(step, inv, st, unread, pieces) == After(r.events, t.(stopped := r.stopped || t.stopped))
  {
  }

  lemma BrokenOff<S(!new), E(!new)>(step: Stepper<S, E>, inv: S -> bool, r: Outcome<S, E>, later: seq<bytes>)
    requires Sound(step, inv) && Stable(step, inv) && Noticeable(step, inv) && inv(r.st) && r.stopped
    ensures var t, all := FeedAll(step, inv, r.st, r.rest, later), r.rest + Concat(later);
            After(r.events, t.(stopped := true)) == r.(rest := all) <==> later == [] || step(r.st, all).Wait?
  {
    var t, all := FeedAll(step, inv, r.st, r.rest, later), r.rest + Concat(later);
    FeedQuiet(step, inv, r.st, r.rest, later);
    assert r.events + [] == r.events;
    AfterSame(r.events, t.(stopped := true), Outcome(r.st, [], all, true));
  }

  lemma ButLast(unread: bytes, pieces: seq<bytes>)
    requires pieces != []
    ensures unread + Concat(pieces) == (unread + pieces[0]) + Concat(pieces[1..])
    ensures |pieces| > 1 ==>
              unread + Concat(AllButLast(pieces)) == (unread + pieces[0]) + Concat(AllButLast(pieces[1..]))
    ensures |pieces| == 1 ==> unread + Concat(AllButLast(pieces)) == unread
  {
    Cons(unread, pieces);
    if |pieces| == 1 {
      assert unread + Concat([]) == unread;
    } else {
      var front := AllButLast(pieces);
      assert front[0] == pieces[0] && front[1..] == AllButLast(pieces[1..]);
      Cons(unread, front);
    }
  }

  lemma Cons(unread: bytes, pieces: seq<bytes>)
    requires pieces != []
    ensures unread + Concat(pieces) == (unread + pieces[0]) + Concat(pieces[1..])
  {
    Associative(unread, pieces[0], Concat(pieces[1..]));
  }

  // When the split of an input has the outcome of one delivery.
  ghost predicate Harmless<S(!new), E(!new)>(step: Stepper<S, E>, inv: S -> bool, st: S, unread: bytes,
                                             pieces: seq<bytes>)
    requires Sound(step, inv) && inv(st)
  {
    var whole := Run(step, inv, st, unread + Concat(pieces));
    || !whole.stopped
    || step(whole.st, whole.rest).Wait?
    || !Run(step, inv, st, unread + Concat(AllButLast(pieces))).stopped
  }

  lemma HarmlessLater<S(!new), E(!new)>(step: Stepper<S, E>, inv: S -> bool, st: S, unread: bytes, pieces: seq<bytes>)
    requires Sound(step, inv) && Stable(step, inv) && inv(st) && pieces != []
    requires !Run(step, inv, st, unread + pieces[0]).stopped
    ensures var r := Run(step, inv, st, unread + pieces[0]);
            && Run(step, inv, st, unread + Concat(pieces))
                 == After(r.events, Run(step, inv, r.st, r.rest + Concat(pieces[1..])))
            && (Harmless(step, inv, st, unread, pieces) <==> Harmless(step, inv, r.st, r.rest, pieces[1..]))
  {
    var first, later := unread + pieces[0], pieces[1..];
    var r := Run(step, inv, st, first);
    ButLast(unread, pieces);
    RunAppend(step, inv, st, first, Concat(later));
    if later == [] {
      assert r.rest + Concat(later) == r.rest;
    } else {
      RunAppend(step, inv, st, first, Concat(AllButLast(later)));
    }
  }

  lemma HarmlessBroken<S(!new), E(!new)>(step: Stepper<S, E>, inv: S -> bool, st: S, unread: bytes, pieces: seq<bytes>)
    requires Sound(step, inv) && Stable(step, inv) && inv(st) && pieces != [] && step(st, unread).Wait?
    requires Run(step, inv, st, unread + pieces[0]).stopped
    ensures var r, later := Run(step, inv, st, unread + pieces[0]), pieces[1..];
            && Run(step, inv, st, unread + Concat(pieces)) == r.(rest := r.rest + Concat(later))
            && (Harmless(step, inv, st, unread, pieces)
                <==> later == [] || step(r.st, r.rest + Concat(later)).Wait?)
  {
    var first, later := unread + pieces[0], pieces[1..];
    ButLast(unread, pieces);
    RunAppend(step, inv, st, first, Concat(later));
    RunAppend(step, inv, st, first, Concat(AllButLast(later)));
  }

  /** A split has the outcome of one delivery exactly if the whole never breaks off, or
      the bytes behind the break are nothing to act on, or no call follows the break. */
  lemma {:induction false} SplitExactlyWhen<S(!new), E(!new)>(
      step: Stepper<S, E>, inv: S -> bool, st: S, unread: bytes, pieces: seq<bytes>)
    requires Sound(step, inv) && Stable(step, inv) && Noticeable(step, inv) && inv(st)
    requires step(st, unread).Wait?
    ensures FeedAll(step, inv, st, unread, pieces) == Run(step, inv, st, unread + Concat(pieces))
            <==> Harmless(step, inv, st, unread, pieces)
    decreases |pieces|
  {
    if pieces == [] {
      assert unread + Concat(pieces) == unread;
    } else {
      var r, later := Run(step, inv, st, unread + pieces[0]), pieces[1..];
      FeedThen(step, inv, st, unread, pieces);
      if r.stopped {
        HarmlessBroken(step, inv, st, unread, pieces);
        BrokenOff(step, inv, r, later);
      } else {
        HarmlessLater(step, inv, st, unread, pieces);
        SplitExactlyWhen(step, inv, r.st, r.rest, later);
        AfterSame(r.events, FeedAll(step, inv, r.st, r.rest, later),
                  Run(step, inv, r.st, r.rest + Concat(later)));
      }
    }
  }
}
