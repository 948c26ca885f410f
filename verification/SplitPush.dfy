/**
 Pushes that overlap with clients: the worker pops a request and reads the backing file, writes to the device, and runs
 the callback, as three steps with any steps of clients and evictor between them.  The write may succeed, be refused, or
 lose the device file, which is deleted before it is created again.

 There is one worker, so no other transfer is served and the device does not change while a push is in flight.
 */
module SplitPush {
  import opened Paths
  import opened Blocks
  import opened Nodes
  import opened CacheSpec

  /** The push in flight: the bytes that were read, and how the write to the device ended if it did. */
  datatype InFlight = InFlight(t: Transfer, bytes: seq<byte>, result: Option<Outcome>)

  datatype Split = Split(cache: Cache, inFlight: Option<InFlight>)

  datatype SplitStep =
    | Other(step: Step)
    | StartPush
    | WriteDevice(outcome: Outcome)
    | FinishPush

  predicate Unwritten(s: Split) {
    s.inFlight.Some? && s.inFlight.value.result.None?
  }

  ghost predicate SplitEnabled(s: Split, step: SplitStep) {
    match step
    case Other(step) =>
      Enabled(s.cache, step) && !step.ServePushStep? && (step.ServePullStep? ==> s.inFlight.None?)
    case StartPush => s.inFlight.None? && s.cache.pushes != []
    case WriteDevice(_) => Unwritten(s)
    case FinishPush => s.inFlight.Some? && s.inFlight.value.result.Some?
  }

  /** Pop the request; what cannot be pushed gets its callback at once. */
  ghost function Started(s: Cache): Split
    requires s.pushes != []
  {
    var t := s.pushes[0];
    if CanPush(s, t) then Split(s.(pushes := s.pushes[1..]), Some(InFlight(t, s.files[t.file], None)))
    else Split(CalledBack(s.(pushes := s.pushes[1..]), t, false), None)
  }

  ghost function CalledBack(s: Cache, t: Transfer, successful: bool): Cache {
    if Live(s.entries, t) then WithEntry(s, t.key, s.entries[t.key].PushDone(successful)) else s
  }

  ghost function Stored(s: Cache, t: Transfer, bytes: seq<byte>, outcome: Outcome): Cache {
    s.(device := match outcome
                 case Done => s.device[t.key := Content(bytes)]
                 case Refused => s.device
                 case Lost => Lacking(s.device, t.key))
  }

  ghost function SplitApply(s: Split, step: SplitStep): Split
    requires SplitEnabled(s, step)
  {
    match step
    case Other(step) => Split(Apply(s.cache, step), s.inFlight)
    case StartPush => Started(s.cache)
    case WriteDevice(outcome) =>
      var p := s.inFlight.value;
      Split(Stored(s.cache, p.t, p.bytes, outcome), Some(p.(result := Some(outcome))))
    case FinishPush =>
      var p := s.inFlight.value;
      Split(CalledBack(s.cache, p.t, p.result.value == Done), None)
  }

  /** Without steps in between the three parts are the push of `CacheSpec`. */
  lemma PartsMakeAPush(s: Cache, outcome: Outcome)
    requires s.pushes != []
    ensures var s1 := SplitApply(Split(s, None), StartPush);
            if CanPush(s, s.pushes[0])
            then Unwritten(s1)
                 && SplitApply(SplitApply(s1, WriteDevice(outcome)), FinishPush) == Split(ServePush(s, outcome), None)
            else s1 == Split(ServePush(s, outcome), None)
  {
  }

  // ---------- The invariant ----------

  /** What the device will hold at k once the push in flight is written. */
  ghost predicate WillHave(s: Split, k: Key, item: Item) {
    if Unwritten(s) && s.inFlight.value.t.key == k
    then item == Content(s.inFlight.value.bytes)
    else k in s.cache.device && s.cache.device[k] == item
  }

  /**
   The device has the file an entry holds.  A copy nobody writes is dirty, or its push is queued, or the device has it or
   gets it from the push in flight.
   */
  ghost predicate EntrySafe(s: Split, k: Key)
    requires k in s.cache.entries
  {
    var e := s.cache.entries[k];
    && (Holding(e.status) ==> HasFile(s.cache.device, k))
    && (Holding(e.status) && e.writers == 0 ==>
          e.file in s.cache.files &&
          (e.status == Dirty || Transfer(k, e.file) in s.cache.pushes || WillHave(s, k, Content(s.cache.files[e.file]))))
  }

  ghost predicate InFlightOk(s: Split) {
    s.inFlight.Some? ==>
      var t := s.inFlight.value.t;
      && (Unwritten(s) || s.inFlight.value.result == Some(Done))
      && HasFile(s.cache.device, t.key)
      && (t.key in s.cache.entries && Holding(s.cache.entries[t.key].status) ==> s.cache.entries[t.key].file == t.file)
  }

  ghost predicate AllSafe(s: Split) {
    forall k :: k in s.cache.entries ==> EntrySafe(s, k)
  }

  ghost predicate SplitInv(s: Split) {
    Base(s.cache) && InFlightOk(s) && AllSafe(s)
  }

  lemma SafeOnly(s: Split, s': Split, k: Key)
    requires AllSafe(s) && Only(s.cache, s'.cache, k) && OtherFiles(s.cache, s'.cache, k)
    requires forall l, item :: l != k ==> (WillHave(s', l, item) <==> WillHave(s, l, item))
    requires k in s'.cache.entries ==> EntrySafe(s', k)
    ensures AllSafe(s')
  {
    forall l | l in s'.cache.entries && l != k ensures EntrySafe(s', l) {
      SameEntry(s.cache, s'.cache, k, l);
      assert EntrySafe(s, l);
    }
  }

  /** A step that works on the entry at k and leaves device and push in flight alone. */
  lemma OtherKeeps(s: Split, s': Split, k: Key)
    requires SplitInv(s) && Base(s'.cache) && s'.inFlight == s.inFlight && s'.cache.device == s.cache.device
    requires Only(s.cache, s'.cache, k) && OtherFiles(s.cache, s'.cache, k)
    requires k in s'.cache.entries ==> EntrySafe(s', k)
    requires k in s'.cache.entries && Holding(s'.cache.entries[k].status) && s.inFlight.Some? ==>
               k in s.cache.entries && Holding(s.cache.entries[k].status) &&
               s'.cache.entries[k].file == s.cache.entries[k].file
    ensures SplitInv(s')
  {
    hide Base, EntrySafe, Only, OtherFiles;
    assert forall l, item :: WillHave(s', l, item) <==> WillHave(s, l, item);
    SafeOnly(s, s', k);
    if s.inFlight.Some? && s.inFlight.value.t.key != k {
      OnlyEntries(s.cache, s'.cache, k);
      SameEntry(s.cache, s'.cache, k, s.inFlight.value.t.key);
    }
  }

  lemma OnlyEntries(s: Cache, s': Cache, k: Key)
    requires Only(s, s', k)
    ensures s'.entries - {k} == s.entries - {k}
  {
  }

  lemma EntryKeeps(s: Split, k: Key, e: Entry)
    requires SplitInv(s) && k in s.cache.entries && e.file == s.cache.entries[k].file
    requires Base(WithEntry(s.cache, k, e)) && Holding(e.status) == Holding(s.cache.entries[k].status)
    requires e.status == Dirty || (e.status == s.cache.entries[k].status && e.writers >= s.cache.entries[k].writers)
    ensures SplitInv(Split(WithEntry(s.cache, k, e), s.inFlight))
  {
    var s' := Split(WithEntry(s.cache, k, e), s.inFlight);
    assert EntrySafe(s, k);
    OwnFile(s.cache, k);
    EntryStepView(s.cache, k, e);
    hide Base;
    OtherKeeps(s, s', k);
  }

  lemma SafeEntry(s: Split, k: Key)
    requires SplitInv(s)
    ensures Base(s.cache) && (k in s.cache.entries ==> EntrySafe(s, k))
  {
  }

  lemma BeginSafe(s: Split, k: Key, write: bool, newFile: FileName)
    requires SplitInv(s) && (k !in s.cache.entries ==> newFile !in s.cache.used)
    ensures SplitInv(Split(BeginAccess(s.cache, k, write, newFile), s.inFlight))
  {
    var s' := Split(BeginAccess(s.cache, k, write, newFile), s.inFlight);
    SafeEntry(s, k);
    hide SplitInv, Base, View, Only, OtherFiles;
    BeginKeeps(s.cache, k, write, newFile);
    BeginOnly(s.cache, k, write, newFile);
    BeginSafeEntry(s, k, write, newFile);
    hide EntrySafe;
    OtherKeeps(s, s', k);
  }

  lemma BeginSafeEntry(s: Split, k: Key, write: bool, newFile: FileName)
    requires k in s.cache.entries ==> EntrySafe(s, k)
    ensures EntrySafe(Split(BeginAccess(s.cache, k, write, newFile), s.inFlight), k)
  {
    var e := EntryFor(s.cache.entries, k, newFile);
    assert Holding(e.Began(write).status) ==> k in s.cache.entries && e.Began(write).status == e.status;
    assert Holding(e.status) && e.Began(write).writers == 0 ==> e.writers == 0;
  }

  lemma WriteTouches(s: Cache, k: Key, bytes: seq<byte>)
    requires k in s.entries && forall l :: l in s.entries && l != k ==> s.entries[l].file != s.entries[k].file
    ensures Only(s, ClientWrite(s, k, bytes), k) && OtherFiles(s, ClientWrite(s, k, bytes), k)
  {
  }

  lemma WriteSafe(s: Split, k: Key, bytes: seq<byte>)
    requires SplitInv(s) && k in s.cache.entries && s.cache.entries[k].writers > 0
    ensures SplitInv(Split(ClientWrite(s.cache, k, bytes), s.inFlight))
  {
    SafeEntry(s, k);
    OwnFile(s.cache, k);
    hide SplitInv, Base, View, Only, OtherFiles;
    WriteKeeps(s.cache, k, bytes);
    WriteTouches(s.cache, k, bytes);
    OtherKeeps(s, Split(ClientWrite(s.cache, k, bytes), s.inFlight), k);
  }

  lemma PushIfDirtySafe(s: Split, k: Key)
    requires SplitInv(s) && k in s.cache.entries
    ensures SplitInv(Split(PushIfDirty(s.cache, k), s.inFlight))
  {
    var s' := Split(PushIfDirty(s.cache, k), s.inFlight);
    if s.cache.entries[k].status == Dirty {
      SafeEntry(s, k);
      OwnFile(s.cache, k);
      hide SplitInv, Base, View, Only, OtherFiles;
      PushIfDirtyKeepsBase(s.cache, k);
      PushIfDirtyView(s.cache, k);
      OtherKeeps(s, s', k);
    }
  }

  lemma ServePullSafe(s: Split, ok: bool, partialData: seq<byte>)
    requires SplitInv(s) && s.cache.pulls != [] && s.inFlight.None?
    ensures SplitInv(Split(ServePull(s.cache, ok, partialData), None))
  {
    var t := s.cache.pulls[0];
    SafeEntry(s, t.key);
    hide SplitInv;
    BaseParts(s.cache);
    assert t in s.cache.pulls && Live(s.cache.entries, t);
    ServePullKeeps(s.cache, ok, partialData);
    ServePullOnly(s.cache, ok, partialData);
    ServePullSafeEntry(s.cache, ok, partialData);
    hide Base, View, Only, OtherFiles, QueuesOk, FilesOk, EntrySafe, ServePull;
    OtherKeeps(s, Split(ServePull(s.cache, ok, partialData), None), t.key);
  }

  lemma ServePullSafeEntry(s: Cache, ok: bool, partialData: seq<byte>)
    requires s.pulls != [] && Live(s.entries, s.pulls[0]) && s.entries[s.pulls[0].key].status == Pulling
    ensures ServePull(s, ok, partialData).device == s.device
    ensures EntrySafe(Split(ServePull(s, ok, partialData), None), s.pulls[0].key)
  {
  }

  lemma EvictSafe(s: Split, k: Key)
    requires SplitInv(s) && k in s.cache.entries && s.cache.entries[k].Idle()
    ensures SplitInv(Split(Remove(s.cache, k), s.inFlight))
  {
    SafeEntry(s, k);
    OwnFile(s.cache, k);
    hide SplitInv, Base, View, Only, OtherFiles, Saved;
    EvictKeepsBase(s.cache, k);
    RemoveTouches(s.cache, k);
    OtherKeeps(s, Split(Remove(s.cache, k), s.inFlight), k);
  }

  // ---------- The three parts of a push ----------

  /** A push that succeeds, or belongs to an entry that is gone. */
  ghost predicate PushSucceeds(s: Split, step: SplitStep) {
    && (step.StartPush? && s.cache.pushes != [] ==>
          Live(s.cache.entries, s.cache.pushes[0]) ==> CanPush(s.cache, s.cache.pushes[0]))
    && (step.WriteDevice? ==> step.outcome == Done)
  }

  lemma PoppedBase(s: Cache)
    requires Base(s) && s.pushes != []
    ensures Base(s.(pushes := s.pushes[1..])) && View(s.(pushes := s.pushes[1..])) == View(s)
  {
    var s' := s.(pushes := s.pushes[1..]);
    QueuesPop(s.entries, s.pulls, s.pushes, s.used);
    forall l | l in s'.entries ensures EntryBase(s', l) {
      assert EntryBase(s, l);
    }
    assert forall l :: HoldsAt(s', l) <==> HoldsAt(s, l);
  }

  lemma StartSafe(s: Split)
    requires SplitInv(s) && s.inFlight.None? && s.cache.pushes != [] && PushSucceeds(s, StartPush)
    ensures SplitInv(Started(s.cache)) && View(Started(s.cache).cache) == View(s.cache)
  {
    var t := s.cache.pushes[0];
    var s' := Started(s.cache);
    PoppedBase(s.cache);
    if Live(s.cache.entries, t) {
      StartedOthers(s, s', t);
      OwnFile(s.cache, t.key);
    } else {
      OrphanHasNoFile(s.cache, t);
      StartedOthers(s, s', t);
    }
  }

  lemma StartedOthers(s: Split, s': Split, t: Transfer)
    requires Base(s.cache) && AllSafe(s) && s.inFlight.None? && s.cache.pushes != [] && t == s.cache.pushes[0]
    requires s'.cache == s.cache.(pushes := s.cache.pushes[1..])
    requires if Live(s.cache.entries, t)
             then CanPush(s.cache, t) && s'.inFlight == Some(InFlight(t, s.cache.files[t.file], None))
             else s'.inFlight.None?
    ensures AllSafe(s')
  {
    hide Base;
    forall l | l in s'.cache.entries ensures EntrySafe(s', l) {
      assert EntrySafe(s, l);
      if Transfer(l, s.cache.entries[l].file) in s.cache.pushes && Transfer(l, s.cache.entries[l].file) != t {
        assert Transfer(l, s.cache.entries[l].file) in s'.cache.pushes;
      }
      if Live(s.cache.entries, t) && l == t.key {
        assert Transfer(l, s.cache.entries[l].file) == t;
      }
    }
  }

  lemma StoredSafe(s: Split)
    requires SplitInv(s) && Unwritten(s)
    ensures SplitInv(SplitApply(s, WriteDevice(Done)))
  {
    var p, s' := s.inFlight.value, SplitApply(s, WriteDevice(Done));
    assert Base(s'.cache) by {
      StoredBase(s.cache, p.t, p.bytes, Done);
    }
    hide Base;
    forall l | l in s'.cache.entries ensures EntrySafe(s', l) {
      assert EntrySafe(s, l);
    }
  }

  lemma StoredBase(s: Cache, t: Transfer, bytes: seq<byte>, outcome: Outcome)
    requires Base(s)
    ensures Base(Stored(s, t, bytes, outcome))
  {
    var s' := Stored(s, t, bytes, outcome);
    hide QueuesOk, FilesOk;
    forall l | l in s'.entries ensures EntryBase(s', l) {
      assert EntryBase(s, l);
    }
  }

  /** Once a push is written, it makes no difference to forget that it was in flight. */
  lemma Landed(s: Split)
    requires SplitInv(s) && s.inFlight.Some? && s.inFlight.value.result.Some?
    ensures SplitInv(Split(s.cache, None))
  {
    hide Base;
    forall l | l in s.cache.entries ensures EntrySafe(Split(s.cache, None), l) {
      assert EntrySafe(s, l);
    }
  }

  lemma CalledBackKeeps(s: Cache, t: Transfer, successful: bool)
    requires Base(s)
    ensures Base(CalledBack(s, t, successful)) && View(CalledBack(s, t, successful)) == View(s)
  {
    if Live(s.entries, t) {
      var e' := s.entries[t.key].PushDone(successful);
      OwnFile(s, t.key);
      hide Base;
      EntryStep(s, t.key, e');
    }
  }

  lemma FinishSafe(s: Split)
    requires SplitInv(s) && s.inFlight.Some? && s.inFlight.value.result.Some?
    ensures SplitInv(SplitApply(s, FinishPush)) && View(SplitApply(s, FinishPush).cache) == View(s.cache)
  {
    var t := s.inFlight.value.t;
    var s1 := Split(s.cache, None);
    Landed(s);
    SafeEntry(s1, t.key);
    hide SplitInv, Base, View, Only, OtherFiles;
    CalledBackKeeps(s.cache, t, true);
    if Live(s.cache.entries, t) {
      EntryStepView(s.cache, t.key, s.cache.entries[t.key].PushDone(true));
      OtherKeeps(s1, SplitApply(s, FinishPush), t.key);
    }
  }

  lemma SplitStepKeeps(s: Split, step: SplitStep)
    requires SplitInv(s) && SplitEnabled(s, step) && PushSucceeds(s, step)
    ensures SplitInv(SplitApply(s, step))
  {
    match step
    case StartPush => StartSafe(s);
    case WriteDevice(_) => StoredSafe(s);
    case FinishPush => FinishSafe(s);
    case Other(step) =>
      OtherStepKeeps(s, step);
  }

  lemma OtherStepKeeps(s: Split, step: Step)
    requires SplitInv(s) && SplitEnabled(s, Other(step))
    ensures SplitInv(SplitApply(s, Other(step)))
  {
    hide SplitInv;
    match step
    case BeginStep(k, write, f) => BeginSafe(s, k, write, f);
    case WriteStep(k, bytes) => WriteSafe(s, k, bytes);
    case PushIfDirtyStep(k) => PushIfDirtySafe(s, k);
    case ServePullStep(ok, partialData) => ServePullSafe(s, ok, partialData);
    case EvictStep(k) => EvictSafe(s, k);
    case WakeFromPullStep(k, write) => WakeFromPullSafe(s, k, write);
    case WakeFromPushStep(k) => WakeFromPushSafe(s, k);
    case EndStep(k, write) => EndSafe(s, k, write);
  }

  lemma WakeFromPullSafe(s: Split, k: Key, write: bool)
    requires SplitInv(s) && k in s.cache.entries && s.cache.entries[k].CanWakeFromPull(write)
    ensures SplitInv(Split(WithEntry(s.cache, k, s.cache.entries[k].WokeFromPull(write)), s.inFlight))
  {
    BaseOf(s);
    hide SplitInv, Base, View;
    WakeFromPullKeeps(s.cache, k, write);
    EntryKeeps(s, k, s.cache.entries[k].WokeFromPull(write));
  }

  lemma WakeFromPushSafe(s: Split, k: Key)
    requires SplitInv(s) && k in s.cache.entries && s.cache.entries[k].CanWakeFromPush()
    ensures SplitInv(Split(WithEntry(s.cache, k, s.cache.entries[k].WokeFromPush()), s.inFlight))
  {
    BaseOf(s);
    hide SplitInv, Base, View;
    WakeFromPushKeeps(s.cache, k);
    EntryKeeps(s, k, s.cache.entries[k].WokeFromPush());
  }

  lemma EndSafe(s: Split, k: Key, write: bool)
    requires SplitInv(s) && k in s.cache.entries && s.cache.entries[k].CanEnd(write)
    ensures SplitInv(Split(WithEntry(s.cache, k, s.cache.entries[k].Ended(write)), s.inFlight))
  {
    BaseOf(s);
    OwnFile(s.cache, k);
    hide SplitInv, Base, View;
    EndKeeps(s.cache, k, write);
    EntryKeeps(s, k, s.cache.entries[k].Ended(write));
  }

  lemma BaseOf(s: Split)
    requires SplitInv(s)
    ensures Base(s.cache)
  {
  }

  // ---------- No finished write is forgotten ----------

  ghost predicate IsSplitRun(run: seq<Split>, steps: seq<SplitStep>) {
    && |run| == |steps| + 1
    && Init(run[0].cache) && run[0].inFlight.None?
    && forall i :: 0 <= i < |steps| ==> SplitEnabled(run[i], steps[i]) && run[i + 1] == SplitApply(run[i], steps[i])
  }

  /**
   A copy with no granted writer that differs from the device is dirty, or has a push queued, or is the push in flight,
   carrying exactly its bytes.
   */
  ghost predicate NothingForgotten(s: Split) {
    forall k :: k in s.cache.entries && Holding(s.cache.entries[k].status) && s.cache.entries[k].writers == 0 ==>
      var e := s.cache.entries[k];
      && e.file in s.cache.files && k in s.cache.device
      && (s.cache.device[k] != Content(s.cache.files[e.file]) ==>
            || e.status == Dirty
            || Transfer(k, e.file) in s.cache.pushes
            || s.inFlight == Some(InFlight(Transfer(k, e.file), s.cache.files[e.file], None)))
  }

  lemma InvForgetsNothing(s: Split)
    requires SplitInv(s)
    ensures NothingForgotten(s)
  {
    forall k | k in s.cache.entries ensures EntrySafe(s, k) && EntryBase(s.cache, k) {
    }
  }

  lemma {:induction false} NoFinishedWriteIsForgotten(run: seq<Split>, steps: seq<SplitStep>)
    requires IsSplitRun(run, steps)
    requires forall i :: 0 <= i < |steps| ==> PushSucceeds(run[i], steps[i])
    ensures SplitInv(run[|steps|]) && NothingForgotten(run[|steps|])
    decreases |steps|
  {
    var n := |steps|;
    if n > 0 {
      hide SplitInv, NothingForgotten, SplitEnabled, SplitApply, PushSucceeds;
      NoFinishedWriteIsForgotten(run[..n], steps[..n - 1]);
      SplitStepKeeps(run[n - 1], steps[n - 1]);
    }
    InvForgetsNothing(run[n]);
  }

  // ---------- When the view is kept ----------

  ghost predicate LiveAndHolding(entries: map<Key, Entry>, t: Transfer) {
    Live(entries, t) && Holding(entries[t.key].status)
  }

  /**
   The push in flight will not be seen if it succeeds: its entry holds the file, with the bytes in flight if it is
   available and nobody writes it; or the entry was evicted and the device has the bytes already.
   */
  ghost predicate FlightInv(s: Split) {
    Unwritten(s) ==>
      var p, c := s.inFlight.value, s.cache;
      || (LiveAndHolding(c.entries, p.t) &&
          (c.entries[p.t.key].status == Available && c.entries[p.t.key].writers == 0 ==>
             p.t.file in c.files && c.files[p.t.file] == p.bytes))
      || (p.t.key in c.device && c.device[p.t.key] == Content(p.bytes) &&
          (p.t.key in c.entries ==> !Holding(c.entries[p.t.key].status)))
  }

  /** The eviction of a held copy finds its bytes on the device. */
  ghost predicate SplitSaved(s: Split, step: SplitStep) {
    step.Other? ==> EvictsSaved(s.cache, step.step)
  }

  /** A write that loses the device file finds an entry that holds the file at its key. */
  ghost predicate LosesHeld(s: Split, step: SplitStep) {
    step == WriteDevice(Lost) && Unwritten(s) ==> HoldsAt(s.cache, s.inFlight.value.t.key)
  }

  /** The device file that an unwritten push will replace is there. */
  ghost predicate TargetThere(s: Split) {
    Unwritten(s) ==> HasFile(s.cache.device, s.inFlight.value.t.key)
  }

  ghost function SplitWritten(m: PathMap, step: SplitStep): PathMap {
    if step.Other? then Written(m, step.step) else m
  }

  ghost predicate SplitCoherent(s: Split, step: SplitStep, s': Split) {
    View(s'.cache) == SplitWritten(View(s.cache), step)
  }

  /** A step on the entry at k that keeps the device and the other entries. */
  lemma FlightOnly(s: Split, s': Split, k: Key)
    requires FlightInv(s) && s'.inFlight == s.inFlight && s'.cache.device == s.cache.device
    requires s'.cache.entries - {k} == s.cache.entries - {k}
    requires OtherFiles(s.cache, s'.cache, k)
    requires k in s'.cache.entries
    requires Holding(s'.cache.entries[k].status) <==> k in s.cache.entries && Holding(s.cache.entries[k].status)
    requires k in s.cache.entries ==> s'.cache.entries[k].file == s.cache.entries[k].file
    requires k in s.cache.entries && s'.cache.entries[k].status == Available && s'.cache.entries[k].writers == 0 ==>
               && s.cache.entries[k].status == Available && s.cache.entries[k].writers == 0
               && FileSame(s.cache, s'.cache, s.cache.entries[k].file)
    ensures FlightInv(s')
  {
    if s.inFlight.Some? && s.inFlight.value.t.key != k {
      SameEntry(s.cache, s'.cache, k, s.inFlight.value.t.key);
    }
  }

  ghost predicate FileSame(c: Cache, c': Cache, f: FileName) {
    (f in c'.files <==> f in c.files) && (f in c.files ==> c'.files[f] == c.files[f])
  }

  lemma FlightBegin(s: Split, k: Key, write: bool, newFile: FileName)
    requires FlightInv(s)
    ensures FlightInv(Split(BeginAccess(s.cache, k, write, newFile), s.inFlight))
  {
    BeginOnly(s.cache, k, write, newFile);
    OnlyEntries(s.cache, BeginAccess(s.cache, k, write, newFile), k);
    hide Only, OtherFiles, FlightInv;
    FlightOnly(s, Split(BeginAccess(s.cache, k, write, newFile), s.inFlight), k);
  }

  lemma FlightEntry(s: Split, k: Key, e: Entry)
    requires FlightInv(s) && k in s.cache.entries && e.file == s.cache.entries[k].file
    requires Holding(e.status) == Holding(s.cache.entries[k].status)
    requires e.status == Available && e.writers == 0 ==>
               s.cache.entries[k].status == Available && s.cache.entries[k].writers == 0
    ensures FlightInv(Split(WithEntry(s.cache, k, e), s.inFlight))
  {
    EntryStepView(s.cache, k, e);
    OnlyEntries(s.cache, WithEntry(s.cache, k, e), k);
    hide Only, OtherFiles, FlightInv;
    FlightOnly(s, Split(WithEntry(s.cache, k, e), s.inFlight), k);
  }

  lemma FlightWrite(s: Split, k: Key, bytes: seq<byte>)
    requires Base(s.cache) && FlightInv(s) && k in s.cache.entries && s.cache.entries[k].writers > 0
    ensures FlightInv(Split(ClientWrite(s.cache, k, bytes), s.inFlight))
  {
    OwnFile(s.cache, k);
    hide Base, FlightInv;
    FlightOnly(s, Split(ClientWrite(s.cache, k, bytes), s.inFlight), k);
  }

  lemma FlightPush(s: Split, k: Key)
    requires FlightInv(s) && k in s.cache.entries
    ensures FlightInv(Split(PushIfDirty(s.cache, k), s.inFlight))
  {
    if s.cache.entries[k].status == Dirty {
      PushIfDirtyView(s.cache, k);
      OnlyEntries(s.cache, PushIfDirty(s.cache, k), k);
      hide Only, OtherFiles, FlightInv;
      FlightOnly(s, Split(PushIfDirty(s.cache, k), s.inFlight), k);
    }
  }

  lemma FlightEvict(s: Split, k: Key)
    requires Base(s.cache) && FlightInv(s) && k in s.cache.entries && s.cache.entries[k].Idle() && Saved(s.cache, k)
    ensures FlightInv(Split(Remove(s.cache, k), s.inFlight))
  {
    OwnFile(s.cache, k);
    RemoveTouches(s.cache, k);
    hide Base, Only, View;
    if s.inFlight.Some? && s.inFlight.value.t.key != k {
      var l := s.inFlight.value.t.key;
      assert l in Remove(s.cache, k).entries <==> l in s.cache.entries;
    }
  }

  lemma FlightStart(s: Split)
    requires Base(s.cache) && s.cache.pushes != []
    ensures FlightInv(Started(s.cache))
  {
    var t := s.cache.pushes[0];
    assert t in s.cache.pushes;
    if Live(s.cache.entries, t) {
      BaseParts(s.cache);
      hide Base;
      TransfersAt(s.cache, t.key);
    } else {
      OrphanHasNoFile(s.cache, t);
      hide Base;
    }
  }

  lemma FlightOther(s: Split, step: Step)
    requires Base(s.cache) && FlightInv(s) && SplitEnabled(s, Other(step)) && EvictsSaved(s.cache, step)
    ensures FlightInv(SplitApply(s, Other(step)))
  {
    if !step.BeginStep? && !step.ServePullStep? {
      OwnFile(s.cache, step.key);
    }
    hide Base, FlightInv, Saved;
    match step
    case BeginStep(k, write, f) => FlightBegin(s, k, write, f);
    case WriteStep(k, bytes) => FlightWrite(s, k, bytes);
    case PushIfDirtyStep(k) => FlightPush(s, k);
    case ServePullStep(ok, partialData) => NothingInFlight(SplitApply(s, Other(step)));
    case EvictStep(k) => FlightEvict(s, k);
    case WakeFromPullStep(k, write) => FlightEntry(s, k, s.cache.entries[k].WokeFromPull(write));
    case WakeFromPushStep(k) => FlightEntry(s, k, s.cache.entries[k].WokeFromPush());
    case EndStep(k, write) => FlightEntry(s, k, s.cache.entries[k].Ended(write));
  }

  lemma NothingInFlight(s: Split)
    requires !Unwritten(s)
    ensures FlightInv(s) && TargetThere(s)
  {
  }

  lemma StepKeepsFlight(s: Split, step: SplitStep)
    requires Base(s.cache) && FlightInv(s) && SplitEnabled(s, step) && SplitSaved(s, step)
    ensures FlightInv(SplitApply(s, step))
  {
    hide Base, FlightInv, EvictsSaved;
    match step
    case Other(step) => FlightOther(s, step);
    case StartPush => FlightStart(s);
    case WriteDevice(outcome) => NothingInFlight(SplitApply(s, WriteDevice(outcome)));
    case FinishPush => NothingInFlight(SplitApply(s, FinishPush));
  }

  // ---------- Base and view over the steps ----------

  lemma StartKeeps(s: Cache)
    requires Base(s) && s.pushes != []
    ensures Base(Started(s).cache) && View(Started(s).cache) == View(s)
  {
    hide Base, View;
    PoppedBase(s);
    CalledBackKeeps(s.(pushes := s.pushes[1..]), s.pushes[0], false);
  }

  /** A write is not seen unless it loses a file that no entry holds. */
  lemma StoredKeepsView(s: Split, outcome: Outcome)
    requires Base(s.cache) && FlightInv(s) && Unwritten(s) && LosesHeld(s, WriteDevice(outcome))
    ensures View(SplitApply(s, WriteDevice(outcome)).cache) == View(s.cache)
  {
    var k, s' := s.inFlight.value.t.key, SplitApply(s, WriteDevice(outcome));
    if k in s.cache.entries {
      OwnFile(s.cache, k);
    }
    hide Base;
    forall l ensures HoldsAt(s'.cache, l) <==> HoldsAt(s.cache, l) {
    }
  }

  /** A write that loses a file no entry holds is seen. */
  lemma LostWriteSeen(s: Split)
    requires TargetThere(s) && Unwritten(s)
    ensures View(SplitApply(s, WriteDevice(Lost)).cache) == View(s.cache) ==> LosesHeld(s, WriteDevice(Lost))
  {
    var k, s' := s.inFlight.value.t.key, SplitApply(s, WriteDevice(Lost));
    if !HoldsAt(s.cache, k) {
      assert !HoldsAt(s'.cache, k);
      assert k in View(s.cache) && k !in View(s'.cache);
    }
  }

  lemma OtherIsCoherent(s: Split, step: Step)
    requires Base(s.cache) && SplitEnabled(s, Other(step))
    ensures Base(SplitApply(s, Other(step)).cache)
    ensures SplitCoherent(s, Other(step), SplitApply(s, Other(step))) <==> EvictsSaved(s.cache, step)
  {
    hide Base, View, Written, Apply;
    StepIsCoherent(s.cache, step);
  }

  lemma OtherKeepsTarget(s: Split, step: Step)
    requires TargetThere(s) && SplitEnabled(s, Other(step))
    ensures TargetThere(SplitApply(s, Other(step)))
  {
    hide HasFile;
    assert Apply(s.cache, step).device == s.cache.device;
  }

  lemma StepKeepsTarget(s: Split, step: SplitStep)
    requires TargetThere(s) && SplitEnabled(s, step)
    ensures TargetThere(SplitApply(s, step))
  {
    hide TargetThere;
    match step
    case Other(step) => OtherKeepsTarget(s, step);
    case StartPush => StartedTarget(s.cache);
    case WriteDevice(outcome) => NothingInFlight(SplitApply(s, WriteDevice(outcome)));
    case FinishPush => NothingInFlight(SplitApply(s, FinishPush));
  }

  lemma StartedTarget(s: Cache)
    requires s.pushes != []
    ensures TargetThere(Started(s))
  {
  }

  /**
   A step is seen by clients, other than as their own write, only if it evicts a copy the device does not have or loses a
   file no entry holds; and exactly then, as long as that has not happened before.
   */
  lemma SplitStepIsCoherent(s: Split, step: SplitStep)
    requires Base(s.cache) && TargetThere(s) && SplitEnabled(s, step)
    ensures Base(SplitApply(s, step).cache) && TargetThere(SplitApply(s, step))
    ensures SplitCoherent(s, step, SplitApply(s, step)) ==> SplitSaved(s, step) && LosesHeld(s, step)
    ensures FlightInv(s) && SplitSaved(s, step) && LosesHeld(s, step) ==>
              SplitCoherent(s, step, SplitApply(s, step)) && FlightInv(SplitApply(s, step))
  {
    StepKeepsTarget(s, step);
    hide Base, View, FlightInv, EvictsSaved, TargetThere;
    if FlightInv(s) && SplitSaved(s, step) {
      StepKeepsFlight(s, step);
    }
    match step
    case Other(step) => OtherIsCoherent(s, step);
    case StartPush => StartKeeps(s.cache);
    case WriteDevice(outcome) =>
      StoredBase(s.cache, s.inFlight.value.t, s.inFlight.value.bytes, outcome);
      LostWriteSeen(s);
      if FlightInv(s) && LosesHeld(s, step) {
        StoredKeepsView(s, outcome);
      }
    case FinishPush => CalledBackKeeps(s.cache, s.inFlight.value.t, s.inFlight.value.result.value == Done);
  }

  // ---------- Coherence over whole runs ----------

  /** The map the clients' writes alone build up. */
  ghost function SplitReplay(m: PathMap, steps: seq<SplitStep>): PathMap {
    if steps == [] then m else SplitWritten(SplitReplay(m, steps[..|steps| - 1]), steps[|steps| - 1])
  }

  ghost predicate SplitSees(s: Split, m: PathMap, steps: seq<SplitStep>) {
    View(s.cache) == SplitReplay(m, steps)
  }

  /** At every point of the run clients see the initial device plus their writes so far. */
  ghost predicate SeesWrites(run: seq<Split>, steps: seq<SplitStep>)
    requires |run| == |steps| + 1
  {
    forall i :: 0 <= i <= |steps| ==> SplitSees(run[i], run[0].cache.device, steps[..i])
  }

  /** Every eviction of a held copy finds its bytes on the device. */
  ghost predicate EvictsOnlySaved(run: seq<Split>, steps: seq<SplitStep>)
    requires |run| == |steps| + 1
  {
    forall i :: 0 <= i < |steps| ==> SplitSaved(run[i], steps[i])
  }

  /** Every write that loses a device file finds an entry holding the file. */
  ghost predicate LosesOnlyHeld(run: seq<Split>, steps: seq<SplitStep>)
    requires |run| == |steps| + 1
  {
    forall i :: 0 <= i < |steps| ==> LosesHeld(run[i], steps[i])
  }

  lemma SeesSnoc(run: seq<Split>, steps: seq<SplitStep>)
    requires |run| == |steps| + 1 && steps != []
    ensures SeesWrites(run, steps) <==>
            SeesWrites(run[..|steps|], steps[..|steps| - 1]) && SplitSees(run[|steps|], run[0].cache.device, steps)
  {
    hide SplitSees;
    var n := |steps|;
    var front, before := run[..n], steps[..n - 1];
    assert steps[..n] == steps;
    forall i | 0 <= i < n ensures before[..i] == steps[..i] && front[i] == run[i] {
    }
    if SeesWrites(front, before) && SplitSees(run[n], run[0].cache.device, steps) {
      forall i | 0 <= i <= n ensures SplitSees(run[i], run[0].cache.device, steps[..i]) {
        assert i < n ==> SplitSees(front[i], front[0].cache.device, before[..i]);
      }
    }
    if SeesWrites(run, steps) {
      forall i | 0 <= i <= n - 1 ensures SplitSees(front[i], front[0].cache.device, before[..i]) {
        assert SplitSees(run[i], run[0].cache.device, steps[..i]);
      }
      assert SplitSees(run[n], run[0].cache.device, steps[..n]);
    }
  }

  lemma EvictsSnoc(run: seq<Split>, steps: seq<SplitStep>)
    requires |run| == |steps| + 1 && steps != []
    ensures EvictsOnlySaved(run, steps) <==>
            EvictsOnlySaved(run[..|steps|], steps[..|steps| - 1]) && SplitSaved(run[|steps| - 1], steps[|steps| - 1])
  {
    hide SplitSaved;
    var n := |steps|;
    var front, before := run[..n], steps[..n - 1];
    assert forall i :: 0 <= i < n - 1 ==> front[i] == run[i] && before[i] == steps[i];
    if EvictsOnlySaved(front, before) && SplitSaved(run[n - 1], steps[n - 1]) {
      forall i | 0 <= i < n ensures SplitSaved(run[i], steps[i]) {
        if i < n - 1 {
          assert SplitSaved(front[i], before[i]);
        }
      }
    }
  }

  lemma LosesSnoc(run: seq<Split>, steps: seq<SplitStep>)
    requires |run| == |steps| + 1 && steps != []
    ensures LosesOnlyHeld(run, steps) <==>
            LosesOnlyHeld(run[..|steps|], steps[..|steps| - 1]) && LosesHeld(run[|steps| - 1], steps[|steps| - 1])
  {
    hide LosesHeld;
    var n := |steps|;
    var front, before := run[..n], steps[..n - 1];
    assert forall i :: 0 <= i < n - 1 ==> front[i] == run[i] && before[i] == steps[i];
    if LosesOnlyHeld(front, before) && LosesHeld(run[n - 1], steps[n - 1]) {
      forall i | 0 <= i < n ensures LosesHeld(run[i], steps[i]) {
        if i < n - 1 {
          assert LosesHeld(front[i], before[i]);
        }
      }
    }
  }

  lemma SeesAtEnd(run: seq<Split>, steps: seq<SplitStep>)
    requires |run| == |steps| + 1 && SeesWrites(run, steps)
    ensures SplitSees(run[|steps|], run[0].cache.device, steps)
  {
    hide SplitSees;
    assert steps[..|steps|] == steps;
  }

  /**
   With overlapping pushes, whatever fails, clients always see the initial device plus their writes exactly when every
   eviction of a held copy finds its bytes on the device, and every write that loses a device file finds an entry holding
   the file.
   */
  lemma {:induction false} CoherentExactlyWhenNothingIsLost(run: seq<Split>, steps: seq<SplitStep>)
    requires IsSplitRun(run, steps)
    ensures Base(run[|steps|].cache) && TargetThere(run[|steps|])
    ensures SeesWrites(run, steps) <==> EvictsOnlySaved(run, steps) && LosesOnlyHeld(run, steps)
    ensures SeesWrites(run, steps) ==> FlightInv(run[|steps|])
    decreases |steps|
  {
    var n := |steps|;
    if n == 0 {
      assert View(run[0].cache) == run[0].cache.device;
    } else {
      var front, before := run[..n], steps[..n - 1];
      hide SplitApply, SplitEnabled, View, Base, FlightInv, SplitSaved, LosesHeld, TargetThere, SplitWritten;
      hide SeesWrites, EvictsOnlySaved, LosesOnlyHeld;
      CoherentExactlyWhenNothingIsLost(front, before);
      SplitStepIsCoherent(run[n - 1], steps[n - 1]);
      SeesSnoc(run, steps);
      EvictsSnoc(run, steps);
      LosesSnoc(run, steps);
      if SeesWrites(front, before) {
        SeesAtEnd(front, before);
      }
    }
  }

  // ---------- A condition the evictor can check ----------

  /** No push of the entry at k is queued or in flight. */
  ghost predicate NoPushPending(s: Split, k: Key)
    requires k in s.cache.entries
  {
    Transfer(k, s.cache.entries[k].file) !in s.cache.pushes && (s.inFlight.Some? ==> s.inFlight.value.t.key != k)
  }

  /** The evictor takes no entry with a push pending. */
  ghost predicate EvictsCarefully(s: Split, step: SplitStep) {
    step.Other? && step.step.EvictStep? && step.step.key in s.cache.entries ==> NoPushPending(s, step.step.key)
  }

  /** An idle entry without a pending push equals the device file. */
  lemma SafeAt(s: Split, k: Key)
    requires SplitInv(s) && k in s.cache.entries && s.cache.entries[k].Idle() && NoPushPending(s, k)
    ensures Saved(s.cache, k)
  {
    OwnFile(s.cache, k);
    assert EntrySafe(s, k);
  }

  lemma CarefulIsSaved(s: Split, step: SplitStep)
    requires SplitInv(s) && SplitEnabled(s, step) && EvictsCarefully(s, step)
    ensures SplitSaved(s, step)
  {
    if step.Other? && step.step.EvictStep? {
      SafeAt(s, step.step.key);
    }
  }

  lemma PrefixIsRun(run: seq<Split>, steps: seq<SplitStep>, i: nat)
    requires IsSplitRun(run, steps) && i <= |steps|
    ensures IsSplitRun(run[..i + 1], steps[..i])
    ensures forall j :: 0 <= j < i ==> run[..i + 1][j] == run[j] && steps[..i][j] == steps[j]
  {
    hide SplitEnabled, SplitApply;
  }

  /** While no push fails, the cache is coherent if the evictor leaves entries alone whose push is still pending. */
  lemma {:induction false} CarefulEvictionIsCoherent(run: seq<Split>, steps: seq<SplitStep>)
    requires IsSplitRun(run, steps)
    requires forall i :: 0 <= i < |steps| ==> PushSucceeds(run[i], steps[i]) && EvictsCarefully(run[i], steps[i])
    ensures SeesWrites(run, steps)
  {
    assert forall i :: 0 <= i < |steps| ==> LosesHeld(run[i], steps[i]);
    hide SplitApply, SplitEnabled, SplitInv, PushSucceeds, EvictsCarefully, SplitSaved, SeesWrites, NothingForgotten;
    hide LosesHeld;
    forall i | 0 <= i < |steps| ensures SplitSaved(run[i], steps[i]) {
      PrefixIsRun(run, steps, i);
      NoFinishedWriteIsForgotten(run[..i + 1], steps[..i]);
      CarefulIsSaved(run[i], steps[i]);
    }
    CoherentExactlyWhenNothingIsLost(run, steps);
  }
}
