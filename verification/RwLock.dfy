/**
 The lock that guards the cache map (ParalellReadUniqueWriteSync), and any number of threads using it.

 Each critical section of the status mutex is one step, and so is taking or releasing the write mutex.  A thread that
 waits on a condition variable may re-test at any time, so spurious and missed wake-ups are both covered.
 */
module RwLock {

  datatype LockState = LockState(readAccesses: int, writeAccess: bool, writeRequest: bool, writeMtx: bool)

  const UNLOCKED := LockState(0, false, false, false)

  /** The loop test of getReadAccess and, when it is passed, the increment. */
  function TestForRead(l: LockState): LockState {
    if l.writeAccess || l.writeRequest then l else l.(readAccesses := l.readAccesses + 1)
  }

  /** The loop test of getWriteAccess and, when it is passed, the change from request to access. */
  function TestForWrite(l: LockState): LockState {
    if l.readAccesses > 0 then l else l.(writeAccess := true, writeRequest := false)
  }

  class ParalellReadUniqueWriteSync {
    var readAccesses: int
    var writeAccess: bool
    var writeRequest: bool
    var writeMtx: bool

    ghost function State(): LockState
      reads this
    {
      LockState(readAccesses, writeAccess, writeRequest, writeMtx)
    }

    constructor ()
      ensures State() == UNLOCKED
    {
      readAccesses, writeAccess, writeRequest, writeMtx := 0, false, false, false;
    }

    /** One turn of the loop in getReadAccess. */
    method GetReadAccess() returns (admitted: bool)
      modifies this
      ensures State() == TestForRead(old(State()))
      ensures admitted <==> !old(writeAccess) && !old(writeRequest)
      ensures readAccesses == old(readAccesses) + (if admitted then 1 else 0)
      ensures writeAccess == old(writeAccess) && writeRequest == old(writeRequest) && writeMtx == old(writeMtx)
    {
      if writeAccess || writeRequest {
        return false;
      }
      readAccesses := readAccesses + 1;
      return true;
    }

    method EndReadAccess()
      modifies this
      ensures State() == old(State()).(readAccesses := old(readAccesses) - 1)
    {
      readAccesses := readAccesses - 1;
    }

    /** The first statement of getWriteAccess; it blocks while another thread holds the mutex. */
    method LockWriteMutex() returns (locked: bool)
      modifies this
      ensures locked <==> !old(writeMtx)
      ensures State() == old(State()).(writeMtx := true)
    {
      locked := !writeMtx;
      writeMtx := true;
    }

    /** getWriteAccess from setting the request up to the first loop test. */
    method RequestWriteAccess() returns (admitted: bool)
      modifies this
      ensures State() == TestForWrite(old(State()).(writeRequest := true))
      ensures admitted <==> !(old(readAccesses) > 0)
      ensures writeAccess == (admitted || old(writeAccess)) && writeRequest == !admitted
      ensures readAccesses == old(readAccesses) && writeMtx == old(writeMtx)
    {
      writeRequest := true;
      admitted := GetWriteAccess();
    }

    /** One turn of the loop in getWriteAccess. */
    method GetWriteAccess() returns (admitted: bool)
      modifies this
      ensures State() == TestForWrite(old(State()))
      ensures admitted <==> !(old(readAccesses) > 0)
      ensures writeAccess == (admitted || old(writeAccess)) && writeRequest == (!admitted && old(writeRequest))
      ensures readAccesses == old(readAccesses) && writeMtx == old(writeMtx)
    {
      if readAccesses > 0 {
        return false;
      }
      writeAccess := true;
      writeRequest := false;
      return true;
    }

    /** endWriteAccess, first half. */
    method EndWriteAccess()
      modifies this
      ensures State() == old(State()).(writeAccess := false)
    {
      writeAccess := false;
    }

    /** endWriteAccess, second half. */
    method UnlockWriteMutex()
      modifies this
      ensures State() == old(State()).(writeMtx := false)
    {
      writeMtx := false;
    }
  }

  // ---------- Threads ----------

  type Thread = nat

  /** Where a thread is inside the lock's methods. */
  datatype Phase =
    | Outside
    | AwaitingRead
    | Reading
    | AwaitingMutex
    | HasMutex
    | AwaitingWrite
    | Writing
    | Leaving

  datatype System = System(lock: LockState, phase: map<Thread, Phase>)

  ghost predicate Init(s: System) {
    s.lock == UNLOCKED && forall t :: t in s.phase ==> s.phase[t] == Outside
  }

  ghost predicate Goes(s: System, s': System, t: Thread, lock: LockState, phase: Phase)
    requires t in s.phase
  {
    s' == System(lock, s.phase[t := phase])
  }

  /** One step of thread t. */
  ghost predicate Next(s: System, s': System, t: Thread) {
    && t in s.phase
    && var l := s.lock;
       match s.phase[t]
       case Outside => Goes(s, s', t, l, AwaitingRead) || Goes(s, s', t, l, AwaitingMutex)
       case AwaitingRead =>
         if l.writeAccess || l.writeRequest then s' == s else Goes(s, s', t, TestForRead(l), Reading)
       case Reading => Goes(s, s', t, l.(readAccesses := l.readAccesses - 1), Outside)
       case AwaitingMutex =>
         if l.writeMtx then s' == s else Goes(s, s', t, l.(writeMtx := true), HasMutex)
       case HasMutex =>
         Goes(s, s', t, TestForWrite(l.(writeRequest := true)), if l.readAccesses > 0 then AwaitingWrite else Writing)
       case AwaitingWrite =>
         if l.readAccesses > 0 then s' == s else Goes(s, s', t, TestForWrite(l), Writing)
       case Writing => Goes(s, s', t, l.(writeAccess := false), Leaving)
       case Leaving => Goes(s, s', t, l.(writeMtx := false), Outside)
  }

  ghost function Readers(s: System): set<Thread> {
    set t | t in s.phase && s.phase[t] == Reading
  }

  /** Between locking and unlocking the write mutex. */
  predicate OwnsMutex(p: Phase) {
    p == HasMutex || p == AwaitingWrite || p == Writing || p == Leaving
  }

  datatype Owner = Nobody | By(thread: Thread)

  /** The invariant, given which thread owns the write mutex: that thread's phase determines the two write flags. */
  ghost predicate InvWith(s: System, o: Owner) {
    && s.lock.readAccesses == |Readers(s)|
    && (forall t :: t in s.phase ==> (OwnsMutex(s.phase[t]) <==> o == By(t)))
    && (o.By? ==> o.thread in s.phase)
    && s.lock.writeMtx == o.By?
    && s.lock.writeAccess == (o.By? && s.phase[o.thread] == Writing)
    && s.lock.writeRequest == (o.By? && s.phase[o.thread] == AwaitingWrite)
    && (s.lock.writeAccess ==> Readers(s) == {})
  }

  ghost predicate Inv(s: System) {
    exists o :: InvWith(s, o)
  }

  /** An admitted writer excludes every reader and every other writer; the counter counts the admitted readers. */
  ghost predicate Safe(s: System) {
    && (forall w, t :: w in s.phase && t in s.phase && w != t && s.phase[w] == Writing ==>
          s.phase[t] != Reading && s.phase[t] != Writing)
    && s.lock.readAccesses == |Readers(s)|
  }

  lemma InvIsSafe(s: System)
    requires Inv(s)
    ensures Safe(s)
  {
    var o :| InvWith(s, o);
    forall w, t | w in s.phase && t in s.phase && w != t && s.phase[w] == Writing
      ensures s.phase[t] != Reading && s.phase[t] != Writing
    {
      assert OwnsMutex(s.phase[w]);
      assert t !in Readers(s);
    }
  }

  lemma ReadersAfter(s: System, t: Thread, p: Phase, s': System)
    requires t in s.phase && s'.phase == s.phase[t := p]
    ensures s.phase[t] != Reading && p == Reading ==> |Readers(s')| == |Readers(s)| + 1
    ensures s.phase[t] == Reading && p != Reading ==> |Readers(s')| == |Readers(s)| - 1
    ensures s.phase[t] != Reading && p != Reading ==> Readers(s') == Readers(s)
  {
    assert Readers(s') == (if p == Reading then Readers(s) + {t} else Readers(s) - {t});
    assert s.phase[t] == Reading <==> t in Readers(s);
  }

  lemma ReaderStep(s: System, s': System, t: Thread, o: Owner)
    requires InvWith(s, o) && Next(s, s', t) && s' != s
    requires s.phase[t] == Outside || s.phase[t] == AwaitingRead || s.phase[t] == Reading
    ensures InvWith(s', o)
    ensures s.lock.writeRequest ==> s'.lock.readAccesses <= s.lock.readAccesses
  {
    ReadersAfter(s, t, s'.phase[t], s');
    hide Readers;
    forall u | u in s'.phase ensures OwnsMutex(s'.phase[u]) <==> o == By(u) {
      assert OwnsMutex(s.phase[u]) <==> o == By(u);
    }
  }

  lemma WriterStep(s: System, s': System, t: Thread, o: Owner)
    requires InvWith(s, o) && Next(s, s', t) && s' != s
    requires s.phase[t] == AwaitingMutex || OwnsMutex(s.phase[t])
    ensures InvWith(s', if s.phase[t] == Leaving then Nobody else By(t))
    ensures s'.lock.readAccesses == s.lock.readAccesses
  {
    var o' := if s.phase[t] == Leaving then Nobody else By(t);
    ReadersAfter(s, t, s'.phase[t], s');
    hide Readers;
    forall u | u in s'.phase ensures OwnsMutex(s'.phase[u]) <==> o' == By(u) {
      assert OwnsMutex(s.phase[u]) <==> o == By(u);
    }
  }

  lemma StepKeepsInv(s: System, s': System, t: Thread)
    requires Inv(s) && Next(s, s', t)
    ensures Inv(s')
    ensures s.lock.writeRequest ==> s'.lock.readAccesses <= s.lock.readAccesses
  {
    var o :| InvWith(s, o);
    if s' != s {
      hide Next;
      hide InvWith;
      if s.phase[t] == Outside || s.phase[t] == AwaitingRead || s.phase[t] == Reading {
        ReaderStep(s, s', t, o);
      } else {
        WriterStep(s, s', t, o);
      }
    }
  }

  ghost predicate IsRun(run: seq<System>, movers: seq<Thread>) {
    && |run| == |movers| + 1 && Init(run[0])
    && forall i :: 0 <= i < |movers| ==> Next(run[i], run[i + 1], movers[i])
  }

  lemma {:induction false} InvAlong(run: seq<System>, movers: seq<Thread>)
    requires IsRun(run, movers)
    ensures Inv(run[|movers|])
    decreases |movers|
  {
    var n := |movers|;
    if n == 0 {
      assert Readers(run[0]) == {};
      assert InvWith(run[0], Nobody);
    } else {
      hide Next, Inv;
      InvAlong(run[..n], movers[..n - 1]);
      StepKeepsInv(run[n - 1], run[n], movers[n - 1]);
    }
  }

  lemma InvAt(run: seq<System>, movers: seq<Thread>, i: nat)
    requires IsRun(run, movers) && i <= |movers|
    ensures Inv(run[i])
  {
    hide Next, Inv;
    assert IsRun(run[..i + 1], movers[..i]);
    InvAlong(run[..i + 1], movers[..i]);
  }

  /** For any number of threads and any interleaving; a pending write request keeps the number of readers from rising. */
  lemma {:induction false} LockIsSafe(run: seq<System>, movers: seq<Thread>)
    requires IsRun(run, movers)
    ensures forall i :: 0 <= i < |run| ==> Inv(run[i]) && Safe(run[i])
    ensures forall i :: 0 <= i < |movers| && run[i].lock.writeRequest ==>
              run[i + 1].lock.readAccesses <= run[i].lock.readAccesses
  {
    hide Inv, Safe, Next;
    forall i | 0 <= i < |run| ensures Inv(run[i]) && Safe(run[i]) {
      InvAt(run, movers, i);
      InvIsSafe(run[i]);
    }
    forall i | 0 <= i < |movers| && run[i].lock.writeRequest
      ensures run[i + 1].lock.readAccesses <= run[i].lock.readAccesses
    {
      StepKeepsInv(run[i], run[i + 1], movers[i]);
    }
  }

  // ---------- Nothing is left behind, and nobody is stuck ----------

  /** When every thread has left, the lock is as it was at the start. */
  lemma LeavesNothingBehind(s: System)
    requires Inv(s)
    requires forall t :: t in s.phase ==> s.phase[t] == Outside
    ensures s.lock.readAccesses == 0 && !s.lock.writeAccess && !s.lock.writeRequest && !s.lock.writeMtx
  {
    var o :| InvWith(s, o);
    assert Readers(s) == {};
    assert forall t :: t in s.phase ==> !OwnsMutex(s.phase[t]);
  }

  /** How many steps a thread is away from being outside, waiting not counted. */
  function StepsLeft(p: Phase): nat {
    match p
    case Outside => 0
    case AwaitingRead => 2
    case Reading => 1
    case AwaitingMutex => 5
    case HasMutex => 4
    case AwaitingWrite => 3
    case Writing => 2
    case Leaving => 1
  }

  /** The thread has a step that brings it nearer to leaving. */
  ghost predicate CanProceed(s: System, t: Thread) {
    exists s' :: Next(s, s', t) && StepsLeft(s'.phase[t]) < StepsLeft(s.phase[t])
  }

  lemma ProceedsTo(s: System, t: Thread, lock: LockState, p: Phase)
    requires t in s.phase && Next(s, System(lock, s.phase[t := p]), t) && StepsLeft(p) < StepsLeft(s.phase[t])
    ensures CanProceed(s, t)
  {
    assert System(lock, s.phase[t := p]).phase[t] == p;
  }

  /** A thread that cannot proceed waits for a reader or for the owner of the write mutex. */
  lemma WaitsForSomebody(s: System, t: Thread)
    requires Inv(s) && t in s.phase && s.phase[t] != Outside && !CanProceed(s, t)
    ensures s.phase[t] == AwaitingRead || s.phase[t] == AwaitingMutex || s.phase[t] == AwaitingWrite
    ensures s.phase[t] == AwaitingRead ==>
              exists u :: u in s.phase && (s.phase[u] == Writing || s.phase[u] == AwaitingWrite)
    ensures s.phase[t] == AwaitingMutex ==> exists u :: u in s.phase && u != t && OwnsMutex(s.phase[u])
    ensures s.phase[t] == AwaitingWrite ==> exists u :: u in s.phase && s.phase[u] == Reading
  {
    var o :| InvWith(s, o);
    var l := s.lock;
    match s.phase[t]
    case AwaitingRead =>
      if !l.writeAccess && !l.writeRequest {
        ProceedsTo(s, t, TestForRead(l), Reading);
      }
    case Reading => ProceedsTo(s, t, l.(readAccesses := l.readAccesses - 1), Outside);
    case AwaitingMutex =>
      if l.writeMtx {
        assert OwnsMutex(s.phase[o.thread]);
      } else {
        ProceedsTo(s, t, l.(writeMtx := true), HasMutex);
      }
    case HasMutex =>
      ProceedsTo(s, t, TestForWrite(l.(writeRequest := true)), if l.readAccesses > 0 then AwaitingWrite else Writing);
    case AwaitingWrite =>
      if l.readAccesses > 0 {
        var u :| u in Readers(s);
      } else {
        ProceedsTo(s, t, TestForWrite(l), Writing);
      }
    case Writing => ProceedsTo(s, t, l.(writeAccess := false), Leaving);
    case Leaving => ProceedsTo(s, t, l.(writeMtx := false), Outside);
  }

  /** The lock never deadlocks: while a thread is inside, some thread can proceed. */
  lemma SomebodyProceeds(s: System, t: Thread)
    requires Inv(s) && t in s.phase && s.phase[t] != Outside
    ensures exists u :: u in s.phase && s.phase[u] != Outside && CanProceed(s, u)
  {
    hide CanProceed, Inv;
    if !CanProceed(s, t) {
      WaitsForSomebody(s, t);
      if s.phase[t] == AwaitingMutex {
        var u :| u in s.phase && u != t && OwnsMutex(s.phase[u]);
        OwnerOrReaderProceeds(s, u);
      } else if s.phase[t] == AwaitingRead {
        var u :| u in s.phase && (s.phase[u] == Writing || s.phase[u] == AwaitingWrite);
        OwnerOrReaderProceeds(s, u);
      } else {
        OwnerOrReaderProceeds(s, t);
      }
    }
  }

  lemma OwnerOrReaderProceeds(s: System, u: Thread)
    requires Inv(s) && u in s.phase && OwnsMutex(s.phase[u])
    ensures exists v :: v in s.phase && s.phase[v] != Outside && CanProceed(s, v)
  {
    hide CanProceed, Inv;
    if !CanProceed(s, u) {
      WaitsForSomebody(s, u);
      var v :| v in s.phase && s.phase[v] == Reading;
      if !CanProceed(s, v) {
        WaitsForSomebody(s, v);
      }
    }
  }
}
