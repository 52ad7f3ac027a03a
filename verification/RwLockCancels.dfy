/** A task that gives up waiting for the read-write lock is not let in afterwards. */
module RwLockCancels {
  import opened Sequences
  import opened RwLock
  import opened RwLockProtocol

  // Known to the lock, but neither queued nor admitted.
  ghost predicate Gone(w: World, f: fut) {
    && f in w.used && f !in w.rw.readQueue && f !in w.rw.writeQueue
    && f !in w.toRead && f !in w.toWrite
  }

  lemma FirstIsMember(queue: seq<fut>)
    ensures forall x | x in queue :: x in Members(queue)
    ensures queue != [] ==> Members([queue[0]]) == {queue[0]}
  {
  }

  lemma StaysGone(w: World, e: Step, f: fut)
    requires Gone(w, f)
    ensures Gone(StepWorld(w, e), f)
  {
    match e
    case StopReading => FirstIsMember(w.rw.writeQueue);
    case StopWriting => FirstIsMember(w.rw.writeQueue);
    case CancelReader(g) => RemovedIn(w.rw.readQueue, g, f);
    case CancelWriter(g) => RemovedIn(w.rw.writeQueue, g, f);
    case _ =>
  }

  // Only `x` goes, all others stay.
  lemma {:induction false} RemovedIn(queue: seq<nat>, x: nat, y: nat)
    ensures y in Removed(queue, x) <==> y in queue && y != x
  {
    if queue != [] { RemovedIn(queue[1..], x, y); }
  }

  lemma GoneAtOnce(w: World, f: fut)
    requires Sound(w)
    ensures f in w.rw.readQueue || f in w.toRead ==> Gone(StepWorld(w, CancelReader(f)), f)
    ensures f in w.rw.writeQueue || f in w.toWrite ==> Gone(StepWorld(w, CancelWriter(f)), f)
  {
    RemovedIn(w.rw.readQueue, f, f);
    RemovedIn(w.rw.writeQueue, f, f);
    assert f in w.rw.readQueue ==> f in Members(w.rw.readQueue);
    assert f in w.rw.writeQueue ==> f in Members(w.rw.writeQueue);
  }

  lemma {:induction false} GoneForEver(w: World, es: seq<Step>, f: fut)
    requires Gone(w, f)
    ensures Gone(RunWorld(w, es), f)
    decreases |es|
  {
    if es != [] {
      StaysGone(w, es[0], f);
      GoneForEver(StepWorld(w, es[0]), es[1..], f);
    }
  }

  /** A reader or a writer that is cancelled, in the queue or after its admission, is never
      queued and never let in again. */
  lemma CancelledIsNeverAdmitted(w: World, f: fut, es: seq<Step>)
    requires Sound(w)
    ensures f in w.rw.readQueue || f in w.toRead ==> Gone(RunWorld(StepWorld(w, CancelReader(f)), es), f)
    ensures f in w.rw.writeQueue || f in w.toWrite ==> Gone(RunWorld(StepWorld(w, CancelWriter(f)), es), f)
  {
    GoneAtOnce(w, f);
    if f in w.rw.readQueue || f in w.toRead { GoneForEver(StepWorld(w, CancelReader(f)), es, f); }
    if f in w.rw.writeQueue || f in w.toWrite { GoneForEver(StepWorld(w, CancelWriter(f)), es, f); }
  }

  /** Everybody else keeps waiting, but for the readers that come in together when the
      last writer left the queue of a lock without one. */
  lemma OthersKeepWaiting(s: State, f: fut, x: fut)
    requires Valid(s) && NoRepeats(s.writeQueue) && x != f
    ensures var r := RemoveReader(s, f).st;
            (x in r.readQueue <==> x in s.readQueue) && r.writeQueue == s.writeQueue
            && r.readers == s.readers && r.writer == s.writer
    ensures var r := RemoveWriter(s, f);
            && (x in r.st.writeQueue <==> x in s.writeQueue) && r.st.writer == s.writer
            && r.st.pending == |r.st.writeQueue|
            && if r.st.writeQueue == [] && !s.writer
               then r.woken == s.readQueue && r.st.readQueue == [] && r.st.readers == s.readers + |s.readQueue|
               else r.woken == [] && r.st.readQueue == s.readQueue && r.st.readers == s.readers
  {
    RemovedIn(s.readQueue, f, x);
    RemovedIn(s.writeQueue, f, x);
    if f in s.writeQueue { RemoveQueuedWriter(s, f); }
  }
}
