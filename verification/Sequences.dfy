/** Facts about sequences that the solver only finds when told to look. */
module Sequences {
  lemma Associative<T>(a: seq<T>, b: seq<T>, c: seq<T>)
    ensures (a + b) + c == a + (b + c)
  {
  }

  // Two steps of a queue that loses nothing: `a`, then `more`, joined at the back
  // while `d`, then `d2`, left at the front.
  lemma Regroup<T>(b: seq<T>, a: seq<T>, more: seq<T>, d: seq<T>, b1: seq<T>, d2: seq<T>, e: seq<T>)
    requires b + a == d + b1 && b1 + more == d2 + e
    ensures b + (a + more) == (d + d2) + e
  {
    Associative(b, a, more);
    Associative(d, b1, more);
    Associative(d, d2, e);
  }

  // `a` arises from `b` by leaving elements out.
  ghost predicate Subsequence<T>(a: seq<T>, b: seq<T>) {
    if a == [] then true
    else if b == [] then false
    else if a[0] == b[0] then Subsequence(a[1..], b[1..])
    else Subsequence(a, b[1..])
  }

  lemma {:induction false} SubsequenceSelf<T>(a: seq<T>)
    ensures Subsequence(a, a)
  {
    if a != [] { SubsequenceSelf(a[1..]); }
  }

  lemma {:induction false} SubsequenceLonger<T>(a: seq<T>, b: seq<T>)
    requires b != [] && Subsequence(a, b[1..])
    ensures Subsequence(a, b)
    decreases |b|, 0
  {
    if a != [] && a[0] == b[0] {
      SubsequenceTail(a, b[1..]);
    }
  }

  lemma {:induction false} SubsequenceTail<T>(a: seq<T>, b: seq<T>)
    requires a != [] && Subsequence(a, b)
    ensures Subsequence(a[1..], b)
    decreases |b|, 1
  {
    if a[0] == b[0] {
      SubsequenceLonger(a[1..], b);
    } else {
      SubsequenceTail(a, b[1..]);
      SubsequenceLonger(a[1..], b);
    }
  }

  lemma {:induction false} SubsequenceTrans<T>(a: seq<T>, b: seq<T>, c: seq<T>)
    requires Subsequence(a, b) && Subsequence(b, c)
    ensures Subsequence(a, c)
    decreases |b| + |c|
  {
    if a != [] {
      if b[0] == c[0] {
        if a[0] == b[0] {
          SubsequenceTrans(a[1..], b[1..], c[1..]);
        } else {
          SubsequenceTrans(a, b[1..], c[1..]);
          SubsequenceLonger(a, c);
        }
      } else {
        SubsequenceTrans(a, b, c[1..]);
        SubsequenceLonger(a, c);
      }
    }
  }

  lemma {:induction false} SubsequenceAppend<T>(a: seq<T>, b: seq<T>, x: seq<T>)
    requires Subsequence(a, b)
    ensures Subsequence(a + x, b + x)
    decreases |b|
  {
    if b == [] {
      assert a + x == x && b + x == x;
      SubsequenceSelf(x);
    } else {
      assert (b + x)[1..] == b[1..] + x;
      if a != [] && a[0] == b[0] {
        assert (a + x)[1..] == a[1..] + x;
        SubsequenceAppend(a[1..], b[1..], x);
      } else {
        SubsequenceAppend(a, b[1..], x);
        SubsequenceLonger(a + x, b + x);
      }
    }
  }

  lemma {:induction false} SubsequencePrepend<T>(x: seq<T>, a: seq<T>, b: seq<T>)
    requires Subsequence(a, b)
    ensures Subsequence(x + a, x + b)
  {
    if x == [] {
      assert x + a == a && x + b == b;
    } else {
      assert (x + a)[1..] == x[1..] + a && (x + b)[1..] == x[1..] + b;
      SubsequencePrepend(x[1..], a, b);
    }
  }

  // Two steps of a queue in which some elements `x`, then `y`, left at the front
  // while `j`, then `j2`, joined at the back.
  lemma ChainFifo<T>(x: seq<T>, q1: seq<T>, q0: seq<T>, j: seq<T>, y: seq<T>, q2: seq<T>, j2: seq<T>)
    requires Subsequence(x + q1, q0 + j) && Subsequence(y + q2, q1 + j2)
    ensures Subsequence((x + y) + q2, q0 + (j + j2))
  {
    SubsequencePrepend(x, y + q2, q1 + j2);
    SubsequenceAppend(x + q1, q0 + j, j2);
    Associative(x, y, q2);
    Associative(x, q1, j2);
    Associative(q0, j, j2);
    SubsequenceTrans((x + y) + q2, (x + q1) + j2, q0 + (j + j2));
  }

  // ------------------------------------------------------------ queues of tokens

  // VecDeque::retain(|w| w != x)
  function Removed(queue: seq<nat>, x: nat): (r: seq<nat>)
    ensures |r| <= |queue|
    ensures x !in queue <==> |r| == |queue|
    ensures x !in queue ==> r == queue
  {
    if queue == [] then []
    else if queue[0] == x then Removed(queue[1..], x)
    else [queue[0]] + Removed(queue[1..], x)
  }

  lemma {:induction false} RemovedIsSubsequence(queue: seq<nat>, x: nat)
    ensures Subsequence(Removed(queue, x), queue)
  {
    if queue != [] {
      RemovedIsSubsequence(queue[1..], x);
      if queue[0] == x { SubsequenceLonger(Removed(queue, x), queue); }
    }
  }

  predicate NoRepeats(queue: seq<nat>) {
    forall i, j | 0 <= i < j < |queue| :: queue[i] != queue[j]
  }

  function Members(queue: seq<nat>): set<nat> {
    set x | x in queue
  }

  lemma {:induction false} MembersCount(queue: seq<nat>)
    requires NoRepeats(queue)
    ensures |Members(queue)| == |queue|
  {
    if queue != [] {
      var later := queue[1..];
      assert queue == [queue[0]] + later;
      assert forall i | 0 <= i < |later| :: later[i] == queue[i + 1];
      MembersCount(later);
      assert Members(queue) == {queue[0]} + Members(later);
    }
  }

  lemma NoRepeatsAppend(queue: seq<nat>, x: nat)
    requires NoRepeats(queue) && x !in queue
    ensures NoRepeats(queue + [x]) && Members(queue + [x]) == Members(queue) + {x}
  {
  }

  lemma NoRepeatsRest(queue: seq<nat>)
    requires NoRepeats(queue) && queue != []
    ensures NoRepeats(queue[1..]) && queue[0] !in queue[1..] && Members(queue) == {queue[0]} + Members(queue[1..])
  {
    assert queue == [queue[0]] + queue[1..];
    assert forall i | 0 <= i < |queue[1..]| :: queue[1..][i] == queue[i + 1];
  }

  lemma {:induction false} RemovedMembers(queue: seq<nat>, x: nat)
    requires NoRepeats(queue)
    ensures NoRepeats(Removed(queue, x)) && Members(Removed(queue, x)) == Members(queue) - {x}
    ensures x in queue ==> |Removed(queue, x)| == |queue| - 1
  {
    if queue != [] {
      NoRepeatsRest(queue);
      RemovedMembers(queue[1..], x);
      assert forall y :: y in Removed(queue[1..], x) <==> y in Members(Removed(queue[1..], x));
      if queue[0] == x {
        assert Removed(queue, x) == queue[1..];
      } else {
        NoRepeatsPrepend(queue[0], Removed(queue[1..], x));
      }
    }
  }

  lemma NoRepeatsPrepend(x: nat, queue: seq<nat>)
    requires NoRepeats(queue) && x !in queue
    ensures NoRepeats([x] + queue) && Members([x] + queue) == {x} + Members(queue)
  {
  }
}
