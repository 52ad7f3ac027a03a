/** The read-write lock among its readers and writers. */
module RwLockProtocol {
  import opened Sequences
  import opened RwLock

  // `reading`, `writing`: tasks inside; `toRead`, `toWrite`: futures of waiters
  // that were admitted and did not run on yet; `lostReads`, `lostWrites`: waiters
  // cancelled after they were admitted, whose admission nobody gives back.
  datatype World = World(rw: State, reading: nat, writing: nat, toRead: set<fut>, toWrite: set<fut>,
                         used: set<fut>, lostReads: nat, lostWrites: nat)

  function Start(): World {
    World(Free(), 0, 0, {}, {}, {}, 0, 0)
  }

  datatype Step =
    | TryToRead
    | ComeToRead(f: fut)
    | TryToWrite
    | ComeToWrite(f: fut)
    | RunOn(f: fut)          // an admitted waiter
    | StopReading            // by a task inside
    | StopWriting
    | CancelReader(f: fut)
    | CancelWriter(f: fut)

  function StepWorld(w: World, e: Step): World {
    match e
    case TryToRead =>
      var r := TryRead(w.rw);
      w.(rw := r.st, reading := if r.got then w.reading + 1 else w.reading)
    case ComeToRead(f) =>
      if f in w.used then w
      else
        var r := EnterRead(w.rw, f);
        w.(rw := r.st, reading := if r.got then w.reading + 1 else w.reading, used := w.used + {f})
    case TryToWrite =>
      var r := TryWrite(w.rw);
      w.(rw := r.st, writing := if r.got then w.writing + 1 else w.writing)
    case ComeToWrite(f) =>
      if f in w.used then w
      else
        var r := EnterWrite(w.rw, f);
        w.(rw := r.st, writing := if r.got then w.writing + 1 else w.writing, used := w.used + {f})
    case RunOn(f) =>
      if f in w.toRead then w.(toRead := w.toRead - {f}, reading := w.reading + 1)
      else if f in w.toWrite then w.(toWrite := w.toWrite - {f}, writing := w.writing + 1)
      else w
    case StopReading =>
      if w.reading == 0 then w
      else
        var r := LeaveRead(w.rw);
        w.(rw := r.st, reading := w.reading - 1, toWrite := w.toWrite + Members(r.woken))
    case StopWriting =>
      if w.writing == 0 then w
      else
        var r := LeaveWrite(w.rw);
        var toWriter := w.rw.writeQueue != [];
        w.(rw := r.st, writing := w.writing - 1,
           toWrite := if toWriter then w.toWrite + Members(r.woken) else w.toWrite,
           toRead := if toWriter then w.toRead else w.toRead + Members(r.woken))
    case CancelReader(f) =>
      if f in w.toRead then w.(rw := RemoveReader(w.rw, f).st, toRead := w.toRead - {f}, lostReads := w.lostReads + 1)
      else if f in w.rw.readQueue then w.(rw := RemoveReader(w.rw, f).st)
      else w
    case CancelWriter(f) =>
      if f in w.toWrite then
        var r := RemoveWriter(w.rw, f);
        w.(rw := r.st, toWrite := w.toWrite - {f}, lostWrites := w.lostWrites + 1,
           toRead := w.toRead + Members(r.woken))
      else if f in w.rw.writeQueue then
        var r := RemoveWriter(w.rw, f);
        w.(rw := r.st, toRead := w.toRead + Members(r.woken))
      else w
  }

  // ------------------------------------------------------------- the invariant

  /** The lock's own state: exclusion, the pending count, and nobody parked
      without a reason. */
  predicate Valid(s: State) {
    && (s.writer ==> s.readers == 0)
    && s.pending == |s.writeQueue|
    && (s.readQueue != [] ==> s.writer || s.pending > 0)
    && (s.writeQueue != [] ==> s.writer || s.readers > 0)
  }

  ghost predicate Disjoint(w: World) {
    && NoRepeats(w.rw.readQueue) && NoRepeats(w.rw.writeQueue)
    && Members(w.rw.readQueue) !! Members(w.rw.writeQueue)
    && Members(w.rw.readQueue) + Members(w.rw.writeQueue) !! w.toRead + w.toWrite && w.toRead !! w.toWrite
    && Members(w.rw.readQueue) + Members(w.rw.writeQueue) + w.toRead + w.toWrite <= w.used
  }

  ghost predicate Counted(w: World) {
    && w.rw.readers == w.reading + |w.toRead| + w.lostReads
    && (if w.rw.writer then 1 else 0) == w.writing + |w.toWrite| + w.lostWrites
  }

  ghost predicate Sound(w: World) {
    Valid(w.rw) && Disjoint(w) && Counted(w)
  }

  lemma ComeKeeps(w: World, f: fut, read: bool)
    requires Sound(w) && f !in w.used
    ensures Sound(StepWorld(w, if read then ComeToRead(f) else ComeToWrite(f)))
  {
    assert f !in w.rw.readQueue by { assert f in w.rw.readQueue ==> f in Members(w.rw.readQueue); }
    assert f !in w.rw.writeQueue by { assert f in w.rw.writeQueue ==> f in Members(w.rw.writeQueue); }
    NoRepeatsAppend(w.rw.readQueue, f);
    NoRepeatsAppend(w.rw.writeQueue, f);
  }

  lemma AdmitOne(w: World)
    requires NoRepeats(w.rw.writeQueue) && w.rw.writeQueue != []
    ensures Members([w.rw.writeQueue[0]]) == {w.rw.writeQueue[0]}
    ensures w.rw.writeQueue[0] in Members(w.rw.writeQueue)
    ensures NoRepeats(w.rw.writeQueue[1..])
    ensures Members(w.rw.writeQueue[1..]) == Members(w.rw.writeQueue) - {w.rw.writeQueue[0]}
  {
    NoRepeatsRest(w.rw.writeQueue);
  }

  lemma StopReadingKeeps(w: World)
    requires Sound(w) && w.reading > 0
    ensures Sound(StepWorld(w, StopReading))
  {
    assert Members([]) == {};
    if w.rw.writeQueue != [] { AdmitOne(w); }
  }

  lemma StopWritingKeeps(w: World)
    requires Sound(w) && w.writing > 0
    ensures Sound(StepWorld(w, StopWriting))
  {
    if w.rw.writeQueue != [] {
      AdmitOne(w);
    } else {
      LetReadersIn(w.(rw := w.rw.(writer := false), writing := w.writing - 1));
    }
  }

  lemma CancelReaderKeeps(w: World, f: fut)
    requires Sound(w)
    ensures Sound(StepWorld(w, CancelReader(f)))
  {
    RemovedMembers(w.rw.readQueue, f);
  }

  lemma CancelAdmittedWriterKeeps(w: World, f: fut)
    requires Sound(w) && f in w.toWrite
    ensures Sound(StepWorld(w, CancelWriter(f)))
  {
    assert f !in w.rw.writeQueue by { assert f in w.rw.writeQueue ==> f in Members(w.rw.writeQueue); }
    assert |w.toWrite| >= |{f}| by { assert {f} <= w.toWrite; SubsetCount({f}, w.toWrite); }
    assert RemoveWriter(w.rw, f) == Result(w.rw, true, []);
    assert w.toRead + Members([]) == w.toRead;
  }

  lemma SubsetCount(a: set<nat>, b: set<nat>)
    requires a <= b
    ensures |a| <= |b|
  {
    assert b == a + (b - a);
  }

  function WriterGone(rw: State, f: fut): State
    requires rw.pending > 0
  {
    rw.(writeQueue := Removed(rw.writeQueue, f), pending := rw.pending - 1)
  }

  lemma RemoveQueuedWriter(rw: State, f: fut)
    requires Valid(rw) && NoRepeats(rw.writeQueue) && f in rw.writeQueue
    ensures var left := WriterGone(rw, f);
            && RemoveWriter(rw, f)
            == (if left.pending == 0 && !left.writer then AdmitReaders(left) else Result(left, true, []))
            && left.pending == |left.writeQueue|
  {
    RemovedMembers(rw.writeQueue, f);
  }

  lemma WriterGoneKeeps(w: World, f: fut)
    requires Sound(w) && f in w.rw.writeQueue
    ensures var left := w.(rw := WriterGone(w.rw, f)); Disjoint(left) && Counted(left)
  {
    RemovedMembers(w.rw.writeQueue, f);
  }

  function ReadersLetIn(w: World): World {
    w.(rw := AdmitReaders(w.rw).st, toRead := w.toRead + Members(w.rw.readQueue))
  }

  // A queued writer leaves; what it kept out comes in.
  lemma CancelQueuedWriterStep(w: World, f: fut)
    requires Valid(w.rw) && NoRepeats(w.rw.writeQueue) && f !in w.toWrite && f in w.rw.writeQueue
    ensures var left := w.(rw := WriterGone(w.rw, f));
            StepWorld(w, CancelWriter(f))
            == if left.rw.pending == 0 && !left.rw.writer then ReadersLetIn(left) else left
  {
    RemoveQueuedWriter(w.rw, f);
    assert w.toRead + Members([]) == w.toRead;
  }

  lemma CancelQueuedWriterKeeps(w: World, f: fut)
    requires Sound(w) && f !in w.toWrite && f in w.rw.writeQueue
    ensures Sound(StepWorld(w, CancelWriter(f)))
  {
    CancelQueuedWriterStep(w, f);
    RemoveQueuedWriter(w.rw, f);
    WriterGoneKeeps(w, f);
    var left := w.(rw := WriterGone(w.rw, f));
    if left.rw.pending == 0 && !left.rw.writer { LetReadersIn(left); }
  }

  lemma LetReadersIn(w: World)
    requires Disjoint(w) && Counted(w) && !w.rw.writer && w.rw.writeQueue == [] && w.rw.pending == 0
    ensures Sound(ReadersLetIn(w))
  {
    MembersCount(w.rw.readQueue);
    assert Members([]) == {};
  }

  lemma TryKeeps(w: World)
    requires Sound(w)
    ensures Sound(StepWorld(w, TryToRead)) && Sound(StepWorld(w, TryToWrite))
  {
  }

  lemma RunOnKeeps(w: World, f: fut)
    requires Sound(w)
    ensures Sound(StepWorld(w, RunOn(f)))
  {
  }

  lemma StepKeepsSound(w: World, e: Step)
    requires Sound(w)
    ensures Sound(StepWorld(w, e))
  {
    match e
    case TryToRead => TryKeeps(w);
    case TryToWrite => TryKeeps(w);
    case ComeToRead(f) => if f !in w.used { ComeKeeps(w, f, true); }
    case ComeToWrite(f) => if f !in w.used { ComeKeeps(w, f, false); }
    case RunOn(f) => RunOnKeeps(w, f);
    case StopReading => if w.reading > 0 { StopReadingKeeps(w); }
    case StopWriting => if w.writing > 0 { StopWritingKeeps(w); }
    case CancelReader(f) => CancelReaderKeeps(w, f);
    case CancelWriter(f) =>
      if f in w.toWrite {
        CancelAdmittedWriterKeeps(w, f);
      } else if f in w.rw.writeQueue {
        CancelQueuedWriterKeeps(w, f);
      }
  }

  function RunWorld(w: World, es: seq<Step>): World
    decreases |es|
  {
    if es == [] then w else RunWorld(StepWorld(w, es[0]), es[1..])
  }

  lemma {:induction false} AlwaysSound(w: World, es: seq<Step>)
    requires Sound(w)
    ensures Sound(RunWorld(w, es))
    decreases |es|
  {
    if es != [] {
      StepKeepsSound(w, es[0]);
      AlwaysSound(StepWorld(w, es[0]), es[1..]);
    }
  }

  /** Exclusion and no lost wake-up, after any steps of any tasks, as long as
      nobody was cancelled after being admitted: a writer inside is alone; a
      parked reader waits for a writer that is inside, admitted or queued; a
      parked writer waits for a task that is inside or admitted. */
  lemma ReadersAndWriters(es: seq<Step>)
    ensures var w := RunWorld(Start(), es);
            && w.writing <= 1 && (w.writing == 1 ==> w.reading == 0)
            && w.rw.pending == |w.rw.writeQueue|
            && (w.lostReads == 0 && w.lostWrites == 0 ==>
                  && w.rw.readers == w.reading + |w.toRead| && (w.rw.writer <==> w.writing + |w.toWrite| == 1)
                  && (w.rw.readQueue != [] ==> w.writing + |w.toWrite| + |w.rw.writeQueue| > 0)
                  && (w.rw.writeQueue != [] ==> w.writing + |w.toWrite| + w.reading + |w.toRead| > 0))
  {
    assert Sound(Start());
    AlwaysSound(Start(), es);
  }

  lemma LostForEver(w: World, e: Step)
    ensures StepWorld(w, e).lostReads >= w.lostReads && StepWorld(w, e).lostWrites >= w.lostWrites
    ensures StepWorld(w, e).lostReads > w.lostReads <==> e.CancelReader? && e.f in w.toRead
    ensures StepWorld(w, e).lostWrites > w.lostWrites <==> e.CancelWriter? && e.f in w.toWrite
  {
  }

  // Somebody was cancelled after being admitted.
  predicate LosesARead(w: World, e: Step) {
    e.CancelReader? && e.f in w.toRead
  }

  predicate LosesAWrite(w: World, e: Step) {
    e.CancelWriter? && e.f in w.toWrite
  }

  lemma {:induction false} RunThen(w: World, es: seq<Step>, e: Step)
    ensures RunWorld(w, es + [e]) == StepWorld(RunWorld(w, es), e)
    decreases |es|
  {
    if es == [] {
      assert [e][1..] == [];
    } else {
      assert (es + [e])[1..] == es[1..] + [e];
      RunThen(StepWorld(w, es[0]), es[1..], e);
    }
  }

  lemma {:induction false} LostSoFar(es: seq<Step>, n: nat)
    requires n <= |es|
    ensures var w := RunWorld(Start(), es[..n]);
            && (w.lostReads == 0 <==> forall i | 0 <= i < n :: !LosesARead(RunWorld(Start(), es[..i]), es[i]))
            && (w.lostWrites == 0 <==> forall i | 0 <= i < n :: !LosesAWrite(RunWorld(Start(), es[..i]), es[i]))
  {
    if n > 0 {
      LostSoFar(es, n - 1);
      assert es[..n] == es[..n - 1] + [es[n - 1]];
      RunThen(Start(), es[..n - 1], es[n - 1]);
      LostForEver(RunWorld(Start(), es[..n - 1]), es[n - 1]);
    }
  }

  /** After any run the reader count is that of the readers inside or admitted exactly
      if no step of the run cancelled an admitted reader, and likewise for writers. */
  lemma CountsAreExact(es: seq<Step>)
    ensures var w := RunWorld(Start(), es);
            && (w.rw.readers == w.reading + |w.toRead|
                <==> forall i | 0 <= i < |es| :: !LosesARead(RunWorld(Start(), es[..i]), es[i]))
            && ((if w.rw.writer then 1 else 0) == w.writing + |w.toWrite|
                <==> forall i | 0 <= i < |es| :: !LosesAWrite(RunWorld(Start(), es[..i]), es[i]))
  {
    AlwaysSound(Start(), es);
    LostSoFar(es, |es|);
    assert es[..|es|] == es;
  }

  /** Both happen: a waiter is admitted when a writer stops, and cancelled before it
      runs on. */
  lemma AdmissionsGetLost()
    ensures RunWorld(Start(), [TryToWrite, ComeToWrite(1), StopWriting, CancelWriter(1)])
         == World(State(0, true, 0, [], []), 0, 0, {}, {}, {1}, 0, 1)
    ensures RunWorld(Start(), [TryToWrite, ComeToRead(1), StopWriting, CancelReader(1)])
         == World(State(1, false, 0, [], []), 0, 0, {}, {}, {1}, 1, 0)
  {
  }

  /** One writer cancelled after it was admitted shuts everybody out for good. */
  lemma {:induction false} LostWriteShutsEverybodyOut(w: World, es: seq<Step>)
    requires Sound(w) && w.lostWrites > 0
    ensures var end := RunWorld(w, es);
            && end.writing == 0 && end.toWrite == {} && end.reading == 0 && end.toRead == {}
    decreases |es|
  {
    if es != [] {
      StepKeepsSound(w, es[0]);
      LostForEver(w, es[0]);
      LostWriteShutsEverybodyOut(StepWorld(w, es[0]), es[1..]);
    }
  }

  /** One reader cancelled after it was admitted shuts every writer out for good. */
  lemma {:induction false} LostReadShutsWritersOut(w: World, es: seq<Step>)
    requires Sound(w) && w.lostReads > 0
    ensures RunWorld(w, es).writing == 0 && RunWorld(w, es).toWrite == {}
    decreases |es|
  {
    if es != [] {
      StepKeepsSound(w, es[0]);
      LostForEver(w, es[0]);
      LostReadShutsWritersOut(StepWorld(w, es[0]), es[1..]);
    }
  }

  // --------------------------------------------------- order and preference

  // The calls on the lock itself.
  datatype Call =
    | ReadNow
    | ReadOrQueue(f: fut)
    | WriteNow
    | WriteOrQueue(f: fut)
    | LeaveReading
    | LeaveWriting
    | DropReader(f: fut)
    | DropWriter(f: fut)

  function Apply(c: Call, s: State): Result {
    match c
    case ReadNow => TryRead(s)
    case ReadOrQueue(f) => EnterRead(s, f)
    case WriteNow => TryWrite(s)
    case WriteOrQueue(f) => EnterWrite(s, f)
    case LeaveReading => LeaveRead(s)
    case LeaveWriting => LeaveWrite(s)
    case DropReader(f) => RemoveReader(s, f)
    case DropWriter(f) => RemoveWriter(s, f)
  }

  /** No reader is admitted, at once or later, while a writer waits. */
  lemma WritersGoFirst(c: Call, s: State)
    requires Valid(s) && Apply(c, s).st.readers > s.readers
    ensures Apply(c, s).st.writeQueue == [] && !Apply(c, s).st.writer
  {
  }

  function Run(s: State, calls: seq<Call>): State
    decreases |calls|
  {
    if calls == [] then s else Run(Apply(calls[0], s).st, calls[1..])
  }

  // The writers that join the queue, and those that are admitted from it.
  function QueuedBy(c: Call, r: Result): seq<fut> {
    if c.WriteOrQueue? && !r.got then [c.f] else []
  }

  function AdmittedBy(c: Call, s: State, r: Result): seq<fut> {
    if (c.LeaveReading? || c.LeaveWriting?) && s.writeQueue != [] && r.st.writeQueue == s.writeQueue[1..]
    then r.woken else []
  }

  function Queued(s: State, calls: seq<Call>): seq<fut>
    decreases |calls|
  {
    if calls == [] then []
    else var r := Apply(calls[0], s); QueuedBy(calls[0], r) + Queued(r.st, calls[1..])
  }

  function Admitted(s: State, calls: seq<Call>): seq<fut>
    decreases |calls|
  {
    if calls == [] then []
    else var r := Apply(calls[0], s); AdmittedBy(calls[0], s, r) + Admitted(r.st, calls[1..])
  }

  lemma OneAdmitted(c: Call, s: State)
    requires c.LeaveReading? || c.LeaveWriting?
    ensures var r := Apply(c, s);
            || (r.st.writeQueue == s.writeQueue && AdmittedBy(c, s, r) == [])
            || (s.writeQueue != [] && r.st.writeQueue == s.writeQueue[1..] && AdmittedBy(c, s, r) == [s.writeQueue[0]])
  {
    assert s.writeQueue != [] ==> |s.writeQueue[1..]| < |s.writeQueue|;
  }

  lemma StepAdmitsInOrder(c: Call, s: State)
    ensures var r := Apply(c, s);
            Subsequence(AdmittedBy(c, s, r) + r.st.writeQueue, s.writeQueue + QueuedBy(c, r))
  {
    var r := Apply(c, s);
    var queue, after, queued, admitted := s.writeQueue, r.st.writeQueue, QueuedBy(c, r), AdmittedBy(c, s, r);
    if c.DropWriter? {
      RemovedIsSubsequence(queue, c.f);
      assert queue + [] == queue && [] + after == after;
    } else {
      SubsequenceSelf(queue + queued);
      if c.LeaveReading? || c.LeaveWriting? { OneAdmitted(c, s); }
      assert admitted + after == queue + queued;
    }
  }

  /** Writers are admitted in the order they came; only cancelled ones are skipped. */
  lemma {:induction false} WritersAreFifo(s: State, calls: seq<Call>)
    ensures Subsequence(Admitted(s, calls) + Run(s, calls).writeQueue, s.writeQueue + Queued(s, calls))
    decreases |calls|
  {
    if calls == [] {
      assert [] + s.writeQueue == s.writeQueue && s.writeQueue + [] == s.writeQueue;
      SubsequenceSelf(s.writeQueue);
    } else {
      var r := Apply(calls[0], s);
      StepAdmitsInOrder(calls[0], s);
      WritersAreFifo(r.st, calls[1..]);
      ChainFifo(AdmittedBy(calls[0], s, r), r.st.writeQueue, s.writeQueue, QueuedBy(calls[0], r),
                Admitted(r.st, calls[1..]), Run(s, calls).writeQueue, Queued(r.st, calls[1..]));
    }
  }
}
