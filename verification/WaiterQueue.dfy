/** The ordered waiters of a cross-loop primitive. Waking a waiter fails when its
    event loop is closed; such a waiter is dropped and the next one is tried. */
module WaiterQueue {
  import opened Sequences

  // A waiting task, by its event and its home: the event loop that has to take the
  // wake-up or, where the source keeps the task itself, that task.
  datatype Waiter = Waiter(event: nat, home: nat)

  datatype Woken = Woken(woken: seq<Waiter>, rest: seq<Waiter>)

  /** Wakes up to `n` waiters from the front, passing over closed homes. */
  function Wake(queue: seq<Waiter>, n: int, closed: set<nat>): (r: Woken)
    ensures |r.woken| <= if n > 0 then n else 0
    ensures r.rest != [] && n > 0 ==> |r.woken| == n
    ensures |r.woken| + |r.rest| <= |queue|
    ensures forall i | 0 <= i < |r.woken| :: r.woken[i].home !in closed
  {
    if queue == [] || n <= 0 then Woken([], queue)
    else if queue[0].home in closed then Wake(queue[1..], n, closed)
    else
      var r := Wake(queue[1..], n - 1, closed);
      Woken([queue[0]] + r.woken, r.rest)
  }

  // popping an event from the ordered dict
  function Without(queue: seq<Waiter>, event: nat): (r: seq<Waiter>)
    ensures |r| <= |queue|
  {
    if queue == [] then []
    else if queue[0].event == event then Without(queue[1..], event)
    else [queue[0]] + Without(queue[1..], event)
  }

  function Events(queue: seq<Waiter>): set<nat> {
    set i | 0 <= i < |queue| :: queue[i].event
  }

  predicate Distinct(queue: seq<Waiter>) {
    forall i, j | 0 <= i < j < |queue| :: queue[i].event != queue[j].event
  }

  // The waiters that can take a wake-up, in order.
  function OpenOnes(queue: seq<Waiter>, closed: set<nat>): seq<Waiter> {
    if queue == [] then [] else (if queue[0].home in closed then [] else [queue[0]]) + OpenOnes(queue[1..], closed)
  }

  function Fewer(n: int, most: nat): nat {
    if n <= 0 then 0 else if n < most then n else most
  }

  /** The first `n` that can take it are woken, no more and no fewer; the queue is used up
      if there are not that many. */
  lemma {:induction false} WakesTheFirst(queue: seq<Waiter>, n: int, closed: set<nat>)
    ensures var r, open := Wake(queue, n, closed), OpenOnes(queue, closed);
            var k := Fewer(n, |open|);
            && r.woken == open[..k] && OpenOnes(r.rest, closed) == open[k..]
            && (n > |open| ==> r.rest == []) && (n <= 0 ==> r.rest == queue)
  {
    if queue != [] && n > 0 {
      if queue[0].home in closed {
        WakesTheFirst(queue[1..], n, closed);
      } else {
        WakesTheFirst(queue[1..], n - 1, closed);
        var open := OpenOnes(queue[1..], closed);
        CutBehindFirst(queue[0], open, Fewer(n - 1, |open|));
        assert OpenOnes(queue, closed) == [queue[0]] + open;
      }
    }
  }

  lemma CutBehindFirst(x: Waiter, q: seq<Waiter>, k: nat)
    requires k <= |q|
    ensures ([x] + q)[..k + 1] == [x] + q[..k] && ([x] + q)[k + 1..] == q[k..]
  {
  }

  lemma {:induction false} WakeInOrder(queue: seq<Waiter>, n: int, closed: set<nat>)
    ensures var r := Wake(queue, n, closed); Subsequence(r.woken + r.rest, queue)
  {
    var r := Wake(queue, n, closed);
    if queue == [] || n <= 0 {
      SubsequenceSelf(queue);
      assert [] + queue == queue;
    } else if queue[0].home in closed {
      WakeInOrder(queue[1..], n, closed);
      SubsequenceLonger(r.woken + r.rest, queue);
    } else {
      WakeInOrder(queue[1..], n - 1, closed);
      assert (r.woken + r.rest)[1..] == r.woken[1..] + r.rest;
    }
  }

  lemma {:induction false} WithoutInOrder(queue: seq<Waiter>, event: nat)
    ensures Subsequence(Without(queue, event), queue)
    ensures event !in Events(Without(queue, event))
  {
    if queue != [] {
      WithoutInOrder(queue[1..], event);
      if queue[0].event == event {
        SubsequenceLonger(Without(queue, event), queue);
      }
    }
  }

  lemma {:induction false} SubsequenceDistinct(a: seq<Waiter>, b: seq<Waiter>)
    requires Subsequence(a, b)
    ensures Events(a) <= Events(b)
    ensures Distinct(b) ==> Distinct(a)
    decreases |b|
  {
    if a != [] {
      EventsCons(b);
      if a[0] == b[0] {
        SubsequenceDistinct(a[1..], b[1..]);
        EventsCons(a);
        if Distinct(b) { DistinctCons(a, b); }
      } else {
        SubsequenceDistinct(a, b[1..]);
      }
    }
  }

  lemma EventsCons(q: seq<Waiter>)
    requires q != []
    ensures Events(q) == {q[0].event} + Events(q[1..])
  {
    forall i | 0 <= i < |q|
      ensures q[i].event in {q[0].event} + Events(q[1..])
    {
      if i > 0 { assert q[i] == q[1..][i - 1]; }
    }
    assert forall i | 0 <= i < |q[1..]| :: q[1..][i] == q[i + 1];
  }

  lemma DistinctCons(a: seq<Waiter>, b: seq<Waiter>)
    requires a != [] && b != [] && a[0] == b[0] && Distinct(b) && Distinct(a[1..]) && Events(a[1..]) <= Events(b[1..])
    ensures Distinct(a)
  {
    forall i, j | 0 <= i < j < |a|
      ensures a[i].event != a[j].event
    {
      assert a[j] == a[1..][j - 1];
      if i == 0 {
        assert a[j].event in Events(b[1..]);
      } else {
        assert a[i] == a[1..][i - 1];
      }
    }
  }

  lemma EventsAppend(a: seq<Waiter>, b: seq<Waiter>)
    ensures Events(a + b) == Events(a) + Events(b)
    ensures Distinct(a + b) ==> Distinct(a) && Distinct(b) && Events(a) !! Events(b)
    ensures Distinct(a) && Distinct(b) && Events(a) !! Events(b) ==> Distinct(a + b)
  {
    var q := a + b;
    assert forall i | 0 <= i < |a| :: q[i] == a[i];
    assert forall i | 0 <= i < |b| :: q[|a| + i] == b[i];
    if Distinct(q) {
      forall i, j | 0 <= i < |a| && 0 <= j < |b|
        ensures a[i].event != b[j].event
      {
        assert q[i].event != q[|a| + j].event;
      }
      forall i, j | 0 <= i < j < |b|
        ensures b[i].event != b[j].event
      {
        assert q[|a| + i].event != q[|a| + j].event;
      }
    }
    if Distinct(a) && Distinct(b) && Events(a) !! Events(b) {
      forall i, j | 0 <= i < j < |q|
        ensures q[i].event != q[j].event
      {
        assert i < |a| ==> a[i].event in Events(a);
        assert j >= |a| ==> b[j - |a|].event in Events(b);
      }
    }
  }

  lemma {:induction false} EventsCount(q: seq<Waiter>)
    requires Distinct(q)
    ensures |Events(q)| == |q|
  {
    if q != [] {
      EventsCons(q);
      assert forall i, j | 0 <= i < j < |q[1..]| :: q[1..][i] == q[i + 1] && q[1..][j] == q[j + 1];
      EventsCount(q[1..]);
    }
  }

  /** A wake-up moves events from the queue to the woken, once each. */
  lemma WakeMoves(queue: seq<Waiter>, n: int, closed: set<nat>, granted: set<nat>)
    requires Distinct(queue) && Events(queue) !! granted
    ensures var r := Wake(queue, n, closed);
            && Distinct(r.rest) && Events(r.rest) + Events(r.woken) <= Events(queue)
            && Events(r.rest) !! granted + Events(r.woken)
            && |granted + Events(r.woken)| == |granted| + |r.woken|
  {
    var r := Wake(queue, n, closed);
    WakeInOrder(queue, n, closed);
    SubsequenceDistinct(r.woken + r.rest, queue);
    EventsAppend(r.woken, r.rest);
    EventsCount(r.woken);
  }

  /** Nobody whose home is open is lost. */
  lemma {:induction false} WakeKeepsOpen(queue: seq<Waiter>, n: int, closed: set<nat>, w: Waiter)
    requires w in queue && w.home !in closed
    ensures var r := Wake(queue, n, closed); w in r.woken || w in r.rest
  {
    if n > 0 && w in queue[1..] {
      WakeKeepsOpen(queue[1..], if queue[0].home in closed then n else n - 1, closed, w);
    }
  }

  lemma {:induction false} SubsequenceMember(a: seq<Waiter>, b: seq<Waiter>, w: Waiter)
    requires Subsequence(a, b) && w in a
    ensures w in b
    decreases |b|
  {
    if a[0] == b[0] {
      if w != a[0] { SubsequenceMember(a[1..], b[1..], w); }
    } else {
      SubsequenceMember(a, b[1..], w);
    }
  }

  lemma {:induction false} WithoutKeeps(queue: seq<Waiter>, event: nat, w: Waiter)
    requires w in queue && w.event != event
    ensures w in Without(queue, event)
  {
    if queue[0] != w { WithoutKeeps(queue[1..], event, w); }
  }

  lemma MemberEvent(queue: seq<Waiter>, x: Waiter)
    requires x in queue
    ensures x.event in Events(queue)
  {
    var i :| 0 <= i < |queue| && queue[i] == x;
    assert queue[i].event in Events(queue);
  }

  lemma WakeMembers(queue: seq<Waiter>, n: int, gone: set<nat>)
    ensures var r := Wake(queue, n, gone); forall x | x in r.rest || x in r.woken :: x in queue
  {
    var r := Wake(queue, n, gone);
    WakeInOrder(queue, n, gone);
    forall x | x in r.rest || x in r.woken
      ensures x in queue
    {
      SubsequenceMember(r.woken + r.rest, queue, x);
    }
  }

  lemma WithoutMembers(queue: seq<Waiter>, event: nat)
    ensures var left := Without(queue, event);
            && (Distinct(queue) ==> Distinct(left))
            && forall x | x in left || x in queue :: x in left <==> x in queue && x.event != event
  {
    var left := Without(queue, event);
    WithoutInOrder(queue, event);
    SubsequenceDistinct(left, queue);
    forall x | x in left
      ensures x in queue && x.event != event
    {
      SubsequenceMember(left, queue, x);
      MemberEvent(left, x);
    }
    forall x | x in queue && x.event != event
      ensures x in left
    {
      WithoutKeeps(queue, event, x);
    }
  }
}
