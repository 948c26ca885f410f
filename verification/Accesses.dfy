/**
 What the status and the counters of an entry are for: nobody's file is deleted while he uses it, writers stay away from a
 push that was there before them, and nothing is pushed that was not written.
 */
module Accesses {
  import opened Paths
  import opened Blocks
  import opened Nodes
  import opened CacheSpec
  import opened SplitPush
  import opened Forgetting

  // ---------- A granted client keeps its file ----------

  function Granted(e: Entry, write: bool): nat {
    if write then e.writers else e.readers
  }

  /** The entry at k has the same backing file, and of its granted clients at most `left` are gone. */
  ghost predicate StillServed(s: Cache, s': Cache, k: Key, write: bool, left: nat) {
    && k in s.entries && k in s'.entries && s'.entries[k].file == s.entries[k].file
    && Granted(s'.entries[k], write) + left >= Granted(s.entries[k], write)
  }

  function Ends(step: Step, k: Key, write: bool): nat {
    if step == EndStep(k, write) then 1 else 0
  }

  lemma GrantedStays(s: Cache, step: Step, k: Key, write: bool)
    requires Base(s) && Enabled(s, step) && k in s.entries && Granted(s.entries[k], write) > 0
    ensures StillServed(s, Apply(s, step), k, write, Ends(step, k, write))
  {
    OwnFile(s, k);
    hide Base, View;
    match step
    case EvictStep(_) => NotEvicted(s, step, k, write);
    case ServePullStep(_, _) => ServedByWorker(s, step, k, write);
    case ServePushStep(_) => ServedByWorker(s, step, k, write);
    case _ => ServedByClients(s, step, k, write);
  }

  lemma NotEvicted(s: Cache, step: Step, k: Key, write: bool)
    requires k in s.entries && EntryBase(s, k) && Granted(s.entries[k], write) > 0 && step.EvictStep? && Enabled(s, step)
    ensures StillServed(s, Apply(s, step), k, write, 0)
  {
  }

  lemma ServedByWorker(s: Cache, step: Step, k: Key, write: bool)
    requires k in s.entries && Enabled(s, step) && (step.ServePullStep? || step.ServePushStep?)
    ensures StillServed(s, Apply(s, step), k, write, 0)
  {
  }

  lemma ServedByClients(s: Cache, step: Step, k: Key, write: bool)
    requires k in s.entries && Enabled(s, step)
    requires !step.EvictStep? && !step.ServePullStep? && !step.ServePushStep?
    ensures StillServed(s, Apply(s, step), k, write, Ends(step, k, write))
  {
  }

  lemma ServedOn(s: Cache, s1: Cache, s2: Cache, k: Key, write: bool, a: nat, b: nat)
    requires StillServed(s, s1, k, write, a) && StillServed(s1, s2, k, write, b)
    ensures StillServed(s, s2, k, write, a + b)
  {
  }

  /** How many of the steps from i on and before j end such an access. */
  function EndsBetween(steps: seq<Step>, i: nat, j: nat, k: Key, write: bool): nat
    requires i <= j <= |steps|
  {
    if i == j then 0 else EndsBetween(steps, i, j - 1, k, write) + Ends(steps[j - 1], k, write)
  }

  lemma ServedNow(s: Cache, k: Key, write: bool, left: nat)
    requires MoreGranted(s, k, write, left)
    ensures StillServed(s, s, k, write, left)
  {
  }

  lemma StillMore(s: Cache, k: Key, write: bool, fewer: nat, left: nat)
    requires MoreGranted(s, k, write, left) && fewer <= left
    ensures MoreGranted(s, k, write, fewer)
  {
  }

  lemma ServedMeans(s: Cache, s': Cache, k: Key, write: bool, left: nat)
    requires k in s.entries && StillServed(s, s', k, write, left) && left < Granted(s.entries[k], write)
    ensures k in s'.entries && Granted(s'.entries[k], write) > 0
  {
  }

  lemma BaseAlong(run: seq<Cache>, steps: seq<Step>, i: nat)
    requires IsRun(run, steps) && Init(run[0]) && i <= |steps|
    ensures Base(run[i])
  {
    hide Enabled, Apply, Base, AlwaysCoherent, AlwaysSaved;
    assert run[..i + 1][i] == run[i];
    CoherentExactlyWhenSaved(run[..i + 1], steps[..i]);
  }

  /** More clients are granted access than this number. */
  ghost predicate MoreGranted(s: Cache, k: Key, write: bool, left: nat) {
    k in s.entries && left < Granted(s.entries[k], write)
  }

  lemma ServedOneMore(s: Cache, s1: Cache, step: Step, k: Key, write: bool, left: nat)
    requires StillServed(s, s1, k, write, left) && MoreGranted(s, k, write, left)
    requires Base(s1) && Enabled(s1, step)
    ensures StillServed(s, Apply(s1, step), k, write, left + Ends(step, k, write))
  {
    hide Enabled, Apply, Base, Ends;
    ServedMeans(s, s1, k, write, left);
    GrantedStays(s1, step, k, write);
    ServedOn(s, s1, Apply(s1, step), k, write, left, Ends(step, k, write));
  }

  /** A step of the run, from a state with the invariant of every run. */
  ghost predicate RunStep(run: seq<Cache>, steps: seq<Step>, n: nat) {
    n < |steps| < |run| && Base(run[n]) && Enabled(run[n], steps[n]) && run[n + 1] == Apply(run[n], steps[n])
  }

  lemma {:induction false} ServedAlong(run: seq<Cache>, steps: seq<Step>, i: nat, j: nat, k: Key, write: bool)
    requires i <= j <= |steps| < |run| && forall n: nat :: n < |steps| ==> RunStep(run, steps, n)
    requires MoreGranted(run[i], k, write, EndsBetween(steps, i, j, k, write))
    ensures StillServed(run[i], run[j], k, write, EndsBetween(steps, i, j, k, write))
    decreases j
  {
    hide Enabled, Apply, Base, Ends, StillServed, MoreGranted;
    if i < j {
      var before := EndsBetween(steps, i, j - 1, k, write);
      assert RunStep(run, steps, j - 1);
      StillMore(run[i], k, write, before, EndsBetween(steps, i, j, k, write));
      ServedAlong(run, steps, i, j - 1, k, write);
      ServedOneMore(run[i], run[j - 1], steps[j - 1], k, write, before);
    } else {
      ServedNow(run[i], k, write, 0);
    }
  }

  /**
   Over every run, whatever fails and whatever is evicted: as long as fewer clients have ended their access than were granted
   it at point i, the entry is there with the same backing file.
   */
  lemma GrantedKeepFile(run: seq<Cache>, steps: seq<Step>, i: nat, j: nat, k: Key, write: bool)
    requires IsRun(run, steps) && Init(run[0]) && i <= j <= |steps|
    requires MoreGranted(run[i], k, write, EndsBetween(steps, i, j, k, write))
    ensures StillServed(run[i], run[j], k, write, EndsBetween(steps, i, j, k, write))
  {
    hide Enabled, Apply, Base, EndsBetween, StillServed, MoreGranted;
    forall n: nat | n < |steps| ensures RunStep(run, steps, n) {
      BaseAlong(run, steps, n);
    }
    ServedAlong(run, steps, i, j, k, write);
  }

  // The same with pushes in three parts.

  function SplitEnds(step: SplitStep, k: Key, write: bool): nat {
    if step.Other? then Ends(step.step, k, write) else 0
  }

  lemma GrantedStaysSplit(s: Split, step: SplitStep, k: Key, write: bool)
    requires Base(s.cache) && SplitEnabled(s, step) && k in s.cache.entries && Granted(s.cache.entries[k], write) > 0
    ensures StillServed(s.cache, SplitApply(s, step).cache, k, write, SplitEnds(step, k, write))
  {
    hide Base, Apply, Enabled;
    match step
    case Other(step) => GrantedStays(s.cache, step, k, write);
    case _ => ServedByPush(s, step, k, write);
  }

  lemma ServedByPush(s: Split, step: SplitStep, k: Key, write: bool)
    requires SplitEnabled(s, step) && k in s.cache.entries && !step.Other?
    ensures StillServed(s.cache, SplitApply(s, step).cache, k, write, 0)
  {
  }

  function SplitEndsBetween(steps: seq<SplitStep>, i: nat, j: nat, k: Key, write: bool): nat
    requires i <= j <= |steps|
  {
    if i == j then 0 else SplitEndsBetween(steps, i, j - 1, k, write) + SplitEnds(steps[j - 1], k, write)
  }

  lemma SplitBaseAlong(run: seq<Split>, steps: seq<SplitStep>, i: nat)
    requires IsSplitRun(run, steps) && i <= |steps|
    ensures Base(run[i].cache)
  {
    hide SplitEnabled, SplitApply, Base, SeesWrites, EvictsOnlySaved, LosesOnlyHeld;
    PrefixIsRun(run, steps, i);
    assert run[..i + 1][i] == run[i];
    CoherentExactlyWhenNothingIsLost(run[..i + 1], steps[..i]);
  }

  lemma ServedOneMoreSplit(s: Cache, s1: Split, step: SplitStep, k: Key, write: bool, left: nat)
    requires StillServed(s, s1.cache, k, write, left) && MoreGranted(s, k, write, left)
    requires Base(s1.cache) && SplitEnabled(s1, step)
    ensures StillServed(s, SplitApply(s1, step).cache, k, write, left + SplitEnds(step, k, write))
  {
    hide SplitEnabled, SplitApply, Base, SplitEnds;
    ServedMeans(s, s1.cache, k, write, left);
    GrantedStaysSplit(s1, step, k, write);
    ServedOn(s, s1.cache, SplitApply(s1, step).cache, k, write, left, SplitEnds(step, k, write));
  }

  ghost predicate SplitRunStep(run: seq<Split>, steps: seq<SplitStep>, n: nat) {
    && n < |steps| < |run| && Base(run[n].cache)
    && SplitEnabled(run[n], steps[n]) && run[n + 1] == SplitApply(run[n], steps[n])
  }

  lemma {:induction false} ServedAlongSplit(run: seq<Split>, steps: seq<SplitStep>, i: nat, j: nat, k: Key, write: bool)
    requires i <= j <= |steps| < |run| && forall n: nat :: n < |steps| ==> SplitRunStep(run, steps, n)
    requires MoreGranted(run[i].cache, k, write, SplitEndsBetween(steps, i, j, k, write))
    ensures StillServed(run[i].cache, run[j].cache, k, write, SplitEndsBetween(steps, i, j, k, write))
    decreases j
  {
    hide SplitEnabled, SplitApply, Base, SplitEnds, StillServed, MoreGranted;
    if i < j {
      var before := SplitEndsBetween(steps, i, j - 1, k, write);
      assert SplitRunStep(run, steps, j - 1);
      StillMore(run[i].cache, k, write, before, SplitEndsBetween(steps, i, j, k, write));
      ServedAlongSplit(run, steps, i, j - 1, k, write);
      ServedOneMoreSplit(run[i].cache, run[j - 1], steps[j - 1], k, write, before);
    } else {
      ServedNow(run[i].cache, k, write, 0);
    }
  }

  lemma GrantedKeepFileSplit(run: seq<Split>, steps: seq<SplitStep>, i: nat, j: nat, k: Key, write: bool)
    requires IsSplitRun(run, steps) && i <= j <= |steps|
    requires MoreGranted(run[i].cache, k, write, SplitEndsBetween(steps, i, j, k, write))
    ensures StillServed(run[i].cache, run[j].cache, k, write, SplitEndsBetween(steps, i, j, k, write))
  {
    hide SplitEnabled, SplitApply, Base, SplitEndsBetween, StillServed, MoreGranted;
    forall n: nat | n < |steps| ensures SplitRunStep(run, steps, n) {
      SplitBaseAlong(run, steps, n);
    }
    ServedAlongSplit(run, steps, i, j, k, write);
  }

  // ---------- What an eviction asks for ----------

  /** An entry can be evicted exactly when no access is counted and it is absent, available, or failed. */
  lemma EvictableMeans(s: Cache, k: Key)
    ensures Enabled(s, EvictStep(k)) <==>
            && k in s.entries && s.entries[k].readAccesses == 0 && s.entries[k].writeAccesses == 0
            && s.entries[k].status in {NonExistent, Available, Fail}
  {
  }

  // ---------- Writers and pushes ----------

  /**
   While an entry is pushing, a client is granted write access only by waking late from a pull: the wait for the push comes
   before that wait, not after it.
   */
  lemma WritersDuringPush(s: Cache, step: Step, k: Key)
    requires Base(s) && Enabled(s, step) && k in s.entries && s.entries[k].status == Pushing && k in Apply(s, step).entries
    ensures Apply(s, step).entries[k].writers > s.entries[k].writers <==> step == WakeFromPullStep(k, true)
    ensures forall f :: step == BeginStep(k, true, f) ==>
              Apply(s, step).entries[k].pushWriters == s.entries[k].pushWriters + 1
  {
    hide Base, View;
  }

  /** A writer who waits for the push is granted access exactly by a step after the entry has left that status. */
  lemma WaitersForPush(s: Cache, step: Step, k: Key)
    requires Base(s) && Enabled(s, step) && k in s.entries && k in Apply(s, step).entries
    ensures Apply(s, step).entries[k].pushWriters < s.entries[k].pushWriters <==> step == WakeFromPushStep(k)
    ensures step == WakeFromPushStep(k) ==>
              && s.entries[k].status != Pushing
              && Apply(s, step).entries[k].writers == s.entries[k].writers + 1
  {
    hide Base, View;
  }

  /** Two writers wait for the pull; the second wakes when the first has written and closed and its push is requested. */
  function LateSteps(k: Key, f: FileName, b1: seq<byte>): seq<Step> {
    [BeginStep(k, true, f), BeginStep(k, true, f), ServePullStep(true, []), WakeFromPullStep(k, true), WriteStep(k, b1),
     EndStep(k, true), PushIfDirtyStep(k), WakeFromPullStep(k, true)]
  }

  ghost function LateStates(k: Key, f: FileName, b0: seq<byte>, b1: seq<byte>): seq<Cache> {
    var d, t := imap[k := Content(b0)], Transfer(k, f);
    [Cache(d, map[], map[], [], [], {}),
     Cache(d, map[k := Waiting(f, Pulling, 1, 0)], map[], [t], [], {f}),
     Cache(d, map[k := Waiting(f, Pulling, 2, 0)], map[], [t], [], {f}),
     One(d, k, Waiting(f, Available, 2, 0), b0, [], []),
     One(d, k, Waiting(f, Available, 1, 1), b0, [], []),
     One(d, k, Waiting(f, Available, 1, 1), b1, [], []),
     One(d, k, Waiting(f, Dirty, 1, 0), b1, [], []),
     One(d, k, Waiting(f, Pushing, 1, 0), b1, [], [t]),
     One(d, k, Waiting(f, Pushing, 0, 1), b1, [], [t])]
  }

  lemma LateStatesAreRun(k: Key, f: FileName, b0: seq<byte>, b1: seq<byte>)
    ensures IsRun(LateStates(k, f, b0, b1), LateSteps(k, f, b1))
  {
    var d := imap[k := Content(b0)];
    var run, steps := LateStates(k, f, b0, b1), LateSteps(k, f, b1);
    OpensFirst(d, k, f, Waiting(f, Pulling, 1, 0));
    OpensNext(d, k, f, Waiting(f, Pulling, 1, 0), Waiting(f, Pulling, 2, 0));
    Pulls(d, k, f, b0, Waiting(f, Pulling, 2, 0));
    Wakes(d, k, b0, Waiting(f, Available, 2, 0));
    Writes(d, k, Waiting(f, Available, 1, 1), b0, b1, None);
    Forgetting.Ends(d, k, Waiting(f, Available, 1, 1), b1, None);
    Queues(d, k, Waiting(f, Dirty, 1, 0), b1, None);
    LateWake(d, k, f, b1);
    hide Goes, CacheGoes, One;
    forall i | 0 <= i < 7 ensures CacheGoes(run[i], steps[i], run[i + 1]) {
      GoesAlone(Split(run[i], None), steps[i], Split(run[i + 1], None));
    }
    assert CacheGoes(run[7], steps[7], run[8]);
    hide LateStates, LateSteps;
    GoesAreRun(run, steps);
  }

  lemma LateWake(d: PathMap, k: Key, f: FileName, b1: seq<byte>)
    ensures var t := Transfer(k, f);
            CacheGoes(One(d, k, Waiting(f, Pushing, 1, 0), b1, [], [t]), WakeFromPullStep(k, true),
                      One(d, k, Waiting(f, Pushing, 0, 1), b1, [], [t]))
  {
  }

  lemma GoesAreRun(run: seq<Cache>, steps: seq<Step>)
    requires |run| == |steps| + 1 && forall i :: 0 <= i < |steps| ==> CacheGoes(run[i], steps[i], run[i + 1])
    ensures IsRun(run, steps)
  {
    hide Enabled, Apply;
    forall i | 0 <= i < |steps| ensures Enabled(run[i], steps[i]) && run[i + 1] == Apply(run[i], steps[i]) {
      assert CacheGoes(run[i], steps[i], run[i + 1]);
    }
  }

  /** That a writer is granted access during a push does happen. */
  lemma LateWriterDuringPush(k: Key, f: FileName, b0: seq<byte>, b1: seq<byte>) returns (run: seq<Cache>)
    ensures var steps := LateSteps(k, f, b1);
            && IsRun(run, steps) && Init(run[0]) && k in run[7].entries && k in run[8].entries
            && run[7].entries[k].status == Pushing && run[8].entries[k].writers > run[7].entries[k].writers
  {
    run := LateStates(k, f, b0, b1);
    LateStatesAreRun(k, f, b0, b1);
  }

  // ---------- Only what was written is pushed ----------

  /** Why an entry is dirty: a write access has ended, or a push of it has failed. */
  ghost predicate Reason(s: Cache, step: Step, k: Key) {
    || step == EndStep(k, true)
    || (step.ServePushStep? && s.pushes != [] && s.pushes[0].key == k && !(step.outcome == Done && CanPush(s, s.pushes[0])))
  }

  lemma DirtyArises(s: Cache, step: Step, k: Key)
    requires Enabled(s, step) && k in Apply(s, step).entries && Apply(s, step).entries[k].status == Dirty
    ensures Reason(s, step, k) || (k in s.entries && s.entries[k].status == Dirty)
  {
  }

  lemma PushRequested(s: Cache, step: Step)
    requires Enabled(s, step) && |Apply(s, step).pushes| > |s.pushes|
    ensures step.PushIfDirtyStep? && step.key in s.entries && s.entries[step.key].status == Dirty
    ensures Apply(s, step).pushes == s.pushes + [Transfer(step.key, s.entries[step.key].file)]
  {
  }

  lemma {:induction false} DirtyHasReason(run: seq<Cache>, steps: seq<Step>, i: nat, k: Key)
    requires IsRun(run, steps) && Init(run[0]) && i <= |steps| && k in run[i].entries && run[i].entries[k].status == Dirty
    ensures exists j :: 0 <= j < i && Reason(run[j], steps[j], k)
    decreases i
  {
    hide Enabled, Apply, Reason;
    if i > 0 {
      DirtyArises(run[i - 1], steps[i - 1], k);
      if !Reason(run[i - 1], steps[i - 1], k) {
        DirtyHasReason(run, steps, i - 1, k);
      }
    }
  }

  /** Over every run a push is requested only after the end of a write access, or after a push that failed, of that entry. */
  lemma PushHasReason(run: seq<Cache>, steps: seq<Step>, i: nat)
    requires IsRun(run, steps) && Init(run[0]) && i < |steps| && |run[i + 1].pushes| > |run[i].pushes|
    ensures steps[i].PushIfDirtyStep? && exists j :: 0 <= j < i && Reason(run[j], steps[j], steps[i].key)
  {
    hide Enabled, Apply, Reason;
    assert Enabled(run[i], steps[i]);
    PushRequested(run[i], steps[i]);
    DirtyHasReason(run, steps, i, steps[i].key);
  }
}
