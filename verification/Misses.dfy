/**
 Threads that ask the cache for entries at the same time (_cacheAccess and _createCacheEntry under the reader/writer lock).

 A thread looks the key up with read access; when it is missing it lets go, takes write access, looks the key up again
 and only then creates and emplaces an entry.  Each look-up, the creation and the lock's own steps are separate steps;
 emplacing does not overwrite.  Other threads may use the lock as they like, but do not remove or rename entries.
 */
module Misses {
  import opened Paths
  import opened RwLock

  type EntryId = nat

  /** Where a thread is; the key it asks for, and the entry once it has one. */
  datatype Stage =
    | Elsewhere
    | Asking(key: Key)
    | Hit(key: Key, entry: EntryId)
    | Missed(key: Key)
    | Creating(key: Key)
    | Absent(key: Key)
    | Holding(key: Key, entry: EntryId)

  /** Lock, cache map, every entry ever created with the key it was created for, every answer given, and the threads. */
  datatype State = State(sys: System, cachemap: map<Key, EntryId>, created: map<EntryId, Key>,
                         answers: set<(Key, EntryId)>, stage: map<Thread, Stage>)

  ghost predicate Start(s: State) {
    && Init(s.sys) && s.cachemap == map[] && s.created == map[] && s.answers == {}
    && s.stage.Keys == s.sys.phase.Keys
    && forall t :: t in s.stage ==> s.stage[t] == Elsewhere
  }

  /** std::map::emplace. */
  function Emplace(cachemap: map<Key, EntryId>, key: Key, entry: EntryId): map<Key, EntryId> {
    if key in cachemap then cachemap else cachemap[key := entry]
  }

  /** A step of the lock, as far as the thread's place in the code allows it. */
  ghost predicate LockStep(s: State, s': State, t: Thread)
    requires t in s.stage && t in s.sys.phase
  {
    && Next(s.sys, s'.sys, t) && t in s'.sys.phase
    && s'.cachemap == s.cachemap && s'.created == s.created
    && var p, p' := s.sys.phase[t], s'.sys.phase[t];
       var stay := s'.stage == s.stage && s'.answers == s.answers;
       match s.stage[t]
       case Elsewhere => stay
       case Asking(_) => stay && p != Reading && p' != AwaitingMutex
       case Hit(k, e) => p' == Outside && s'.stage == s.stage[t := Elsewhere] && s'.answers == s.answers + {(k, e)}
       case Missed(k) => p' == Outside && s'.stage == s.stage[t := Creating(k)] && s'.answers == s.answers
       case Creating(_) => stay && p != Writing && p' != AwaitingRead
       case Absent(_) => false
       case Holding(k, e) =>
         if p == Writing then stay
         else p' == Outside && s'.stage == s.stage[t := Elsewhere] && s'.answers == s.answers + {(k, e)}
  }

  /** A step between two steps of the lock. */
  ghost predicate CodeStep(s: State, s': State, t: Thread)
    requires t in s.stage && t in s.sys.phase
  {
    && s'.sys == s.sys && s'.answers == s.answers
    && match s.stage[t]
       case Elsewhere =>
         s.sys.phase[t] == Outside && (exists k :: s'.stage == s.stage[t := Asking(k)])
         && s'.cachemap == s.cachemap && s'.created == s.created
       case Asking(k) =>
         s.sys.phase[t] == Reading
         && s'.stage == s.stage[t := if k in s.cachemap then Hit(k, s.cachemap[k]) else Missed(k)]
         && s'.cachemap == s.cachemap && s'.created == s.created
       case Creating(k) =>
         s.sys.phase[t] == Writing
         && s'.stage == s.stage[t := if k in s.cachemap then Holding(k, s.cachemap[k]) else Absent(k)]
         && s'.cachemap == s.cachemap && s'.created == s.created
       case Absent(k) =>
         exists e :: e !in s.created && s'.created == s.created[e := k]
                     && s'.cachemap == Emplace(s.cachemap, k, e) && s'.stage == s.stage[t := Holding(k, e)]
       case _ => false
  }

  ghost predicate StepOf(s: State, s': State, t: Thread) {
    t in s.stage && t in s.sys.phase && (LockStep(s, s', t) || CodeStep(s, s', t))
  }

  // ---------- The invariant ----------

  /** Where in the lock a thread can be at each place in the code, and what it knows. */
  ghost predicate StageOk(cachemap: map<Key, EntryId>, stage: Stage, p: Phase) {
    match stage
    case Elsewhere => true
    case Asking(_) => p == Outside || p == AwaitingRead || p == Reading
    case Hit(k, e) => p == Reading && k in cachemap && cachemap[k] == e
    case Missed(_) => p == Reading
    case Creating(_) => p == Outside || p == AwaitingMutex || p == HasMutex || p == AwaitingWrite || p == Writing
    case Absent(k) => p == Writing && k !in cachemap
    case Holding(k, e) => (p == Writing || p == Leaving) && k in cachemap && cachemap[k] == e
  }

  ghost predicate StagesOk(s: State) {
    && s.stage.Keys == s.sys.phase.Keys
    && forall t :: t in s.stage ==> StageOk(s.cachemap, s.stage[t], s.sys.phase[t])
  }

  /** The entries created are those in the map, one per key; every answer is the entry in the map. */
  ghost predicate OneEntryPerKey(s: State) {
    && (forall k :: k in s.cachemap ==> s.cachemap[k] in s.created && s.created[s.cachemap[k]] == k)
    && (forall e :: e in s.created ==> s.created[e] in s.cachemap && s.cachemap[s.created[e]] == e)
    && (forall k, e :: (k, e) in s.answers ==> k in s.cachemap && s.cachemap[k] == e)
  }

  ghost predicate MissInv(s: State) {
    Inv(s.sys) && StagesOk(s) && OneEntryPerKey(s)
  }

  lemma LockStepStages(s: State, s': State, t: Thread)
    requires StagesOk(s) && t in s.stage && t in s.sys.phase && LockStep(s, s', t)
    ensures StagesOk(s')
  {
    assert StageOk(s.cachemap, s.stage[t], s.sys.phase[t]);
    LockMoves(s.sys, s'.sys, t);
    hide Next;
    assert StageOk(s'.cachemap, s'.stage[t], s'.sys.phase[t]);
    hide StageOk;
    forall u | u in s'.stage && u != t ensures StageOk(s'.cachemap, s'.stage[u], s'.sys.phase[u]) {
      assert StageOk(s.cachemap, s.stage[u], s.sys.phase[u]);
    }
  }

  lemma LockStepAnswers(s: State, s': State, t: Thread)
    requires StagesOk(s) && OneEntryPerKey(s) && t in s.stage && t in s.sys.phase && LockStep(s, s', t)
    ensures OneEntryPerKey(s')
  {
    hide Next;
    assert StageOk(s.cachemap, s.stage[t], s.sys.phase[t]);
  }

  lemma LockStepKeeps(s: State, s': State, t: Thread)
    requires MissInv(s) && t in s.stage && t in s.sys.phase && LockStep(s, s', t)
    ensures MissInv(s')
  {
    hide Inv, StagesOk, OneEntryPerKey;
    LockStepStages(s, s', t);
    LockStepAnswers(s, s', t);
    StepKeepsInv(s.sys, s'.sys, t);
  }

  lemma LockMoves(sys: System, sys': System, t: Thread)
    requires Next(sys, sys', t)
    ensures sys'.phase.Keys == sys.phase.Keys
    ensures forall u :: u in sys.phase && u != t ==> sys'.phase[u] == sys.phase[u]
    ensures var p, p' := sys.phase[t], sys'.phase[t];
            match p
            case Outside => p' == AwaitingRead || p' == AwaitingMutex
            case AwaitingRead => p' == AwaitingRead || p' == Reading
            case Reading => p' == Outside
            case AwaitingMutex => p' == AwaitingMutex || p' == HasMutex
            case HasMutex => p' == AwaitingWrite || p' == Writing
            case AwaitingWrite => p' == AwaitingWrite || p' == Writing
            case Writing => p' == Leaving
            case Leaving => p' == Outside
  {
  }

  lemma EmplaceKeeps(s: State, s': State, t: Thread)
    requires MissInv(s) && t in s.stage && t in s.sys.phase && CodeStep(s, s', t) && s.stage[t].Absent?
    ensures MissInv(s')
    ensures forall u :: u in s.sys.phase && u != t ==> s.sys.phase[u] != Reading && s.sys.phase[u] != Writing
  {
    var k := s.stage[t].key;
    InvIsSafe(s.sys);
    hide Inv;
    assert StageOk(s.cachemap, s.stage[t], s.sys.phase[t]);
    forall u | u in s'.stage ensures StageOk(s'.cachemap, s'.stage[u], s'.sys.phase[u]) {
      assert StageOk(s.cachemap, s.stage[u], s.sys.phase[u]);
    }
  }

  lemma CodeStepKeeps(s: State, s': State, t: Thread)
    requires MissInv(s) && t in s.stage && t in s.sys.phase && CodeStep(s, s', t)
    ensures MissInv(s')
  {
    if s.stage[t].Absent? {
      EmplaceKeeps(s, s', t);
    } else {
      hide Inv;
      forall u | u in s'.stage ensures StageOk(s'.cachemap, s'.stage[u], s'.sys.phase[u]) {
        assert StageOk(s.cachemap, s.stage[u], s.sys.phase[u]);
      }
    }
  }

  /** Nobody else reads or writes the map while it changes. */
  ghost predicate ChangesAlone(s: State, s': State, t: Thread) {
    s'.cachemap != s.cachemap ==>
      forall u :: u in s.sys.phase && u != t ==> s.sys.phase[u] != Reading && s.sys.phase[u] != Writing
  }

  /** A thread that is done has been answered with the entry the map holds for the key it asked for. */
  ghost predicate DoneMeansAnswered(s: State, s': State, t: Thread)
    requires t in s.stage
  {
    s.stage[t] != Elsewhere && t in s'.stage && s'.stage[t] == Elsewhere ==>
      s.stage[t].key in s'.cachemap && (s.stage[t].key, s'.cachemap[s.stage[t].key]) in s'.answers
  }

  lemma StepAnswers(s: State, s': State, t: Thread)
    requires MissInv(s) && StepOf(s, s', t)
    ensures DoneMeansAnswered(s, s', t)
  {
    hide Inv, Next, OneEntryPerKey;
    assert StageOk(s.cachemap, s.stage[t], s.sys.phase[t]);
  }

  lemma MissStepKeeps(s: State, s': State, t: Thread)
    requires MissInv(s) && StepOf(s, s', t)
    ensures MissInv(s') && ChangesAlone(s, s', t) && DoneMeansAnswered(s, s', t)
  {
    StepAnswers(s, s', t);
    hide MissInv, DoneMeansAnswered;
    if LockStep(s, s', t) {
      LockStepKeeps(s, s', t);
    } else {
      CodeStepKeeps(s, s', t);
      if s.stage[t].Absent? {
        EmplaceKeeps(s, s', t);
      }
    }
  }

  /** At most one entry per key, ever, and the same answer for all who ask for a key. */
  ghost predicate NobodyDiffers(s: State) {
    && (forall e, f :: e in s.created && f in s.created && s.created[e] == s.created[f] ==> e == f)
    && (forall k, e, f :: (k, e) in s.answers && (k, f) in s.answers ==> e == f)
    && (forall k, e :: (k, e) in s.answers ==> e in s.created && s.created[e] == k)
  }

  lemma InvMeansOne(s: State)
    requires MissInv(s)
    ensures NobodyDiffers(s)
  {
    hide Inv, StagesOk;
    forall e, f | e in s.created && f in s.created && s.created[e] == s.created[f] ensures e == f {
      assert s.cachemap[s.created[e]] == e && s.cachemap[s.created[f]] == f;
    }
  }

  ghost predicate IsMissRun(run: seq<State>, movers: seq<Thread>) {
    && |run| == |movers| + 1 && Start(run[0])
    && forall i :: 0 <= i < |movers| ==> StepOf(run[i], run[i + 1], movers[i])
  }

  lemma {:induction false} MissInvAlong(run: seq<State>, movers: seq<Thread>)
    requires IsMissRun(run, movers)
    ensures MissInv(run[|movers|])
    decreases |movers|
  {
    var n := |movers|;
    if n == 0 {
      assert Readers(run[0].sys) == {};
      assert InvWith(run[0].sys, Nobody);
    } else {
      hide StepOf, MissInv;
      MissInvAlong(run[..n], movers[..n - 1]);
      MissStepKeeps(run[n - 1], run[n], movers[n - 1]);
    }
  }

  lemma MissInvAt(run: seq<State>, movers: seq<Thread>, i: nat)
    requires IsMissRun(run, movers) && i <= |movers|
    ensures MissInv(run[i])
  {
    hide StepOf, MissInv;
    assert IsMissRun(run[..i + 1], movers[..i]);
    MissInvAlong(run[..i + 1], movers[..i]);
  }

  /** For any number of threads asking for any keys in any interleaving. */
  lemma {:induction false} ConcurrentMissesCreateOneEntry(run: seq<State>, movers: seq<Thread>)
    requires IsMissRun(run, movers)
    ensures forall i :: 0 <= i < |run| ==> MissInv(run[i]) && NobodyDiffers(run[i])
    ensures forall i :: 0 <= i < |movers| ==> ChangesAlone(run[i], run[i + 1], movers[i])
    ensures forall i :: 0 <= i < |movers| && movers[i] in run[i].stage ==>
              DoneMeansAnswered(run[i], run[i + 1], movers[i])
  {
    hide StepOf, MissInv, NobodyDiffers, ChangesAlone, DoneMeansAnswered;
    forall i | 0 <= i < |run| ensures MissInv(run[i]) && NobodyDiffers(run[i]) {
      MissInvAt(run, movers, i);
      InvMeansOne(run[i]);
    }
    forall i | 0 <= i < |movers|
      ensures ChangesAlone(run[i], run[i + 1], movers[i])
      ensures movers[i] in run[i].stage ==> DoneMeansAnswered(run[i], run[i + 1], movers[i])
    {
      MissStepKeeps(run[i], run[i + 1], movers[i]);
    }
  }

  // ---------- Nobody is stuck ----------

  /** How many steps a thread is away from its answer, waiting not counted. */
  function StepsToAnswer(stage: Stage, p: Phase): nat {
    match stage
    case Elsewhere => 0
    case Asking(_) => if p == Outside then 13 else if p == AwaitingRead then 12 else 11
    case Hit(_, _) => 1
    case Missed(_) => 10
    case Creating(_) =>
      if p == Outside then 9 else if p == AwaitingMutex then 8 else if p == HasMutex then 7
      else if p == AwaitingWrite then 6 else 5
    case Absent(_) => 4
    case Holding(_, _) => if p == Writing then 3 else 2
  }

  /** The thread has a step that brings it nearer to its answer. */
  ghost predicate GetsOn(s: State, t: Thread)
    requires t in s.stage && t in s.sys.phase
  {
    exists s' :: StepOf(s, s', t) && t in s'.stage && t in s'.sys.phase
                 && StepsToAnswer(s'.stage[t], s'.sys.phase[t]) < StepsToAnswer(s.stage[t], s.sys.phase[t])
  }

  lemma GetsOnBy(s: State, s': State, t: Thread)
    requires t in s.stage && t in s.sys.phase && StepOf(s, s', t) && t in s'.stage && t in s'.sys.phase
    requires StepsToAnswer(s'.stage[t], s'.sys.phase[t]) < StepsToAnswer(s.stage[t], s.sys.phase[t])
    ensures GetsOn(s, t)
  {
  }

  /** The thread is at one of its two look-ups or at the creation, not at a step of the lock. */
  predicate AtCode(stage: Stage, p: Phase) {
    (stage.Asking? && p == Reading) || (stage.Creating? && p == Writing) || stage.Absent?
  }

  lemma CodeGetsOn(s: State, t: Thread)
    requires MissInv(s) && t in s.stage && t in s.sys.phase
    requires AtCode(s.stage[t], s.sys.phase[t])
    ensures GetsOn(s, t)
  {
    hide Inv, OneEntryPerKey;
    assert StageOk(s.cachemap, s.stage[t], s.sys.phase[t]);
    var k := s.stage[t].key;
    match s.stage[t]
    case Asking(_) =>
      GetsOnBy(s, s.(stage := s.stage[t := if k in s.cachemap then Hit(k, s.cachemap[k]) else Missed(k)]), t);
    case Creating(_) =>
      GetsOnBy(s, s.(stage := s.stage[t := if k in s.cachemap then Holding(k, s.cachemap[k]) else Absent(k)]), t);
    case Absent(_) =>
      var e := Unused(s.created);
      GetsOnBy(s, s.(created := s.created[e := k], cachemap := Emplace(s.cachemap, k, e),
                     stage := s.stage[t := Holding(k, e)]), t);
  }

  lemma {:induction false} HasUnused(n: nat, used: set<EntryId>)
    requires |used| <= n
    ensures exists e: EntryId :: e <= n && e !in used
  {
    if n in used {
      HasUnused(n - 1, used - {n});
    }
  }

  /** A new object is none of those created before. */
  ghost function Unused(created: map<EntryId, Key>): (e: EntryId)
    ensures e !in created
  {
    HasUnused(|created.Keys|, created.Keys);
    var e: EntryId :| e !in created.Keys;
    e
  }

  lemma LockGetsOn(s: State, t: Thread, lock: LockState, p: Phase)
    requires MissInv(s) && t in s.stage && t in s.sys.phase && s.stage[t] != Elsewhere
    requires !AtCode(s.stage[t], s.sys.phase[t])
    requires Next(s.sys, System(lock, s.sys.phase[t := p]), t) && p != s.sys.phase[t]
    requires s.sys.phase[t] == Outside ==> (p == AwaitingRead <==> s.stage[t].Asking?)
    ensures GetsOn(s, t)
  {
    var sys' := System(lock, s.sys.phase[t := p]);
    LockMoves(s.sys, sys', t);
    hide Inv, OneEntryPerKey, Next;
    assert StageOk(s.cachemap, s.stage[t], s.sys.phase[t]);
    hide StageOk;
    assert sys'.phase[t] == p;
    var s1 := s.(sys := sys');
    match s.stage[t]
    case Asking(_) => GetsOnBy(s, s1, t);
    case Hit(k, e) => GetsOnBy(s, s1.(stage := s.stage[t := Elsewhere], answers := s.answers + {(k, e)}), t);
    case Missed(k) => GetsOnBy(s, s1.(stage := s.stage[t := Creating(k)]), t);
    case Creating(_) => GetsOnBy(s, s1, t);
    case Holding(k, e) =>
      if s.sys.phase[t] == Writing {
        GetsOnBy(s, s1, t);
      } else {
        GetsOnBy(s, s1.(stage := s.stage[t := Elsewhere], answers := s.answers + {(k, e)}), t);
      }
  }

  lemma ProceedingGetsOn(s: State, t: Thread)
    requires MissInv(s) && t in s.stage && t in s.sys.phase && s.stage[t] != Elsewhere
    requires s.sys.phase[t] != Outside && CanProceed(s.sys, t)
    ensures GetsOn(s, t)
  {
    hide GetsOn, Inv, OneEntryPerKey;
    var sys, phase := s.sys, s.sys.phase[t];
    assert StageOk(s.cachemap, s.stage[t], phase);
    if AtCode(s.stage[t], phase) {
      CodeGetsOn(s, t);
    } else {
      var sys' :| Next(sys, sys', t) && StepsLeft(sys'.phase[t]) < StepsLeft(phase);
      assert sys' == System(sys'.lock, sys.phase[t := sys'.phase[t]]);
      LockGetsOn(s, t, sys'.lock, sys'.phase[t]);
    }
  }

  /** It gets on, or it is no asker and proceeds in the lock. */
  ghost predicate Moves(s: State, t: Thread)
    requires t in s.stage && t in s.sys.phase
  {
    if s.stage[t] == Elsewhere then CanProceed(s.sys, t) else GetsOn(s, t)
  }

  /** An asker gets on unless it waits for the lock; and then some other thread moves. */
  lemma AskersGetOn(s: State, t: Thread)
    requires MissInv(s) && t in s.stage && t in s.sys.phase && s.stage[t] != Elsewhere
    ensures GetsOn(s, t)
            || s.sys.phase[t] == AwaitingRead || s.sys.phase[t] == AwaitingMutex || s.sys.phase[t] == AwaitingWrite
    ensures exists u :: u in s.stage && u in s.sys.phase && Moves(s, u)
  {
    var sys, phase := s.sys, s.sys.phase[t];
    hide GetsOn, OneEntryPerKey, Inv;
    assert StageOk(s.cachemap, s.stage[t], phase);
    if phase == Outside {
      LockGetsOn(s, t, sys.lock, if s.stage[t].Asking? then AwaitingRead else AwaitingMutex);
      assert Moves(s, t);
    } else {
      if CanProceed(sys, t) {
        ProceedingGetsOn(s, t);
      } else {
        WaitsForSomebody(sys, t);
      }
      SomebodyProceeds(sys, t);
      var u :| u in sys.phase && sys.phase[u] != Outside && CanProceed(sys, u);
      if s.stage[u] != Elsewhere {
        ProceedingGetsOn(s, u);
      }
      assert Moves(s, u);
    }
  }
}
