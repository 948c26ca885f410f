/**
 Runs that lose what clients see: two clients write the same file while its pushes are queued and under way.
 */
module Forgetting {
  import opened Paths
  import opened Blocks
  import opened Nodes
  import opened CacheSpec
  import opened SplitPush

  // ---------- Runs step by step ----------

  /** The steps lead from s to s'; no push of an existing entry fails on the way. */
  ghost predicate Leads(s: Split, steps: seq<SplitStep>, s': Split)
    decreases |steps|
  {
    if steps == [] then s' == s
    else SplitEnabled(s, steps[0]) && PushSucceeds(s, steps[0]) && Leads(SplitApply(s, steps[0]), steps[1..], s')
  }

  lemma {:induction false} LeadsOn(s: Split, a: seq<SplitStep>, s1: Split, b: seq<SplitStep>, s2: Split)
    requires Leads(s, a, s1) && Leads(s1, b, s2)
    ensures Leads(s, a + b, s2)
    decreases |a|
  {
    hide SplitEnabled, SplitApply, PushSucceeds;
    if a == [] {
      assert a + b == b;
    } else {
      hide Leads;
      LeadsUnfold(s, a, s1);
      LeadsOn(SplitApply(s, a[0]), a[1..], s1, b, s2);
      assert (a + b)[0] == a[0] && (a + b)[1..] == a[1..] + b;
      LeadsUnfold(s, a + b, s2);
    }
  }

  lemma {:induction false} LeadsUnfold(s: Split, steps: seq<SplitStep>, s': Split)
    requires steps != []
    ensures Leads(s, steps, s') <==>
            SplitEnabled(s, steps[0]) && PushSucceeds(s, steps[0]) && Leads(SplitApply(s, steps[0]), steps[1..], s')
  {
    hide SplitEnabled, SplitApply, PushSucceeds;
  }

  ghost predicate Goes(s: Split, step: SplitStep, s': Split) {
    SplitEnabled(s, step) && PushSucceeds(s, step) && SplitApply(s, step) == s'
  }

  lemma LeadsFrom(s: Split)
    ensures Leads(s, [], s)
  {
  }

  lemma LeadsThen(s: Split, a: seq<SplitStep>, s1: Split, step: SplitStep, s2: Split)
    requires Leads(s, a, s1) && Goes(s1, step, s2)
    ensures Leads(s, a + [step], s2)
  {
    assert Leads(s1, [step], s2) by {
      LeadsFrom(s2);
    }
    hide Leads, Goes;
    LeadsOn(s, a, s1, [step], s2);
  }

  lemma LeadsNext(s0: Split, steps: seq<SplitStep>, i: nat, s: Split, s': Split)
    requires i < |steps| && Leads(s0, steps[..i], s) && Goes(s, steps[i], s')
    ensures Leads(s0, steps[..i + 1], s')
  {
    hide Leads, Goes;
    LeadsThen(s0, steps[..i], s, steps[i], s');
    assert steps[..i + 1] == steps[..i] + [steps[i]];
  }

  lemma {:induction false} LeadsIsRun(s: Split, steps: seq<SplitStep>, s': Split) returns (run: seq<Split>)
    requires Leads(s, steps, s') && Init(s.cache) && s.inFlight.None?
    ensures IsSplitRun(run, steps) && run[0] == s && run[|steps|] == s'
    ensures forall i :: 0 <= i < |steps| ==> PushSucceeds(run[i], steps[i])
    decreases |steps|
  {
    run := StatesOf(s, steps, s');
  }

  lemma {:induction false} StatesOf(s: Split, steps: seq<SplitStep>, s': Split) returns (run: seq<Split>)
    requires Leads(s, steps, s')
    ensures |run| == |steps| + 1 && run[0] == s && run[|steps|] == s'
    ensures forall i :: 0 <= i < |steps| ==>
              SplitEnabled(run[i], steps[i]) && PushSucceeds(run[i], steps[i]) && run[i + 1] == SplitApply(run[i], steps[i])
    decreases |steps|
  {
    hide SplitEnabled, SplitApply, PushSucceeds;
    if steps == [] {
      run := [s];
    } else {
      var rest := StatesOf(SplitApply(s, steps[0]), steps[1..], s');
      run := [s] + rest;
      assert forall i :: 1 <= i < |steps| ==> steps[i] == steps[1..][i - 1];
    }
  }

  /** A cache with the one entry e at k. */
  ghost function One(device: PathMap, k: Key, e: Entry, bytes: seq<byte>,
                     pulls: seq<Transfer>, pushes: seq<Transfer>): Cache
  {
    Cache(device, map[k := e], map[e.file := bytes], pulls, pushes, {e.file})
  }

  /** Two clients open the file for writing. */
  function OpenTwice(k: Key, f: FileName): seq<SplitStep> {
    [Other(BeginStep(k, true, f)), Other(BeginStep(k, true, f)), Other(ServePullStep(true, [])),
     Other(WakeFromPullStep(k, true)), Other(WakeFromPullStep(k, true))]
  }

  /** One of them writes and closes, and the file is pushed. */
  function WriteAndPush(k: Key, bytes: seq<byte>): seq<SplitStep> {
    [Other(WriteStep(k, bytes)), Other(EndStep(k, true)), Other(PushIfDirtyStep(k))]
  }

  /**
   The first push is in flight when the second write is finished and queued.  Its callback makes the entry available,
   which lets the evictor take it before the second push is served.
   */
  function TwoWriters(k: Key, f: FileName, b1: seq<byte>, b2: seq<byte>): seq<SplitStep> {
    OpenTwice(k, f) + WriteAndPush(k, b1) + [StartPush] + WriteAndPush(k, b2)
    + [WriteDevice(Done)] + [FinishPush] + [Other(EvictStep(k))] + [StartPush]
  }

  function Writing(f: FileName, status: Status, writers: nat): Entry {
    NewEntry(f).(status := status, writeAccesses := writers, writers := writers)
  }

  // One step each.

  lemma OpensFirst(d: PathMap, k: Key, f: FileName, e: Entry)
    requires e == NewEntry(f).(status := Pulling, writeAccesses := 1, pullWriters := 1)
    ensures Goes(Split(Cache(d, map[], map[], [], [], {}), None), Other(BeginStep(k, true, f)),
                 Split(Cache(d, map[k := e], map[], [Transfer(k, f)], [], {f}), None))
  {
  }

  lemma OpensNext(d: PathMap, k: Key, f: FileName, e: Entry, e': Entry)
    requires e.file == f && e.status == Pulling && e' == e.Began(true)
    ensures Goes(Split(Cache(d, map[k := e], map[], [Transfer(k, f)], [], {f}), None), Other(BeginStep(k, true, f)),
                 Split(Cache(d, map[k := e'], map[], [Transfer(k, f)], [], {f}), None))
  {
  }

  lemma Pulls(d: PathMap, k: Key, f: FileName, bytes: seq<byte>, e: Entry)
    requires e.file == f && k in d && d[k] == Content(bytes)
    ensures Goes(Split(Cache(d, map[k := e], map[], [Transfer(k, f)], [], {f}), None), Other(ServePullStep(true, [])),
                 Split(One(d, k, e.PullDone(true), bytes, [], []), None))
  {
  }

  lemma Wakes(d: PathMap, k: Key, bytes: seq<byte>, e: Entry)
    requires e.CanWakeFromPull(true)
    ensures Goes(Split(One(d, k, e, bytes, [], []), None), Other(WakeFromPullStep(k, true)),
                 Split(One(d, k, e.WokeFromPull(true), bytes, [], []), None))
  {
  }

  lemma Writes(d: PathMap, k: Key, e: Entry, b: seq<byte>, bytes: seq<byte>, p: Option<InFlight>)
    requires e.writers > 0
    ensures Goes(Split(One(d, k, e, b, [], []), p), Other(WriteStep(k, bytes)), Split(One(d, k, e, bytes, [], []), p))
  {
  }

  lemma Ends(d: PathMap, k: Key, e: Entry, bytes: seq<byte>, p: Option<InFlight>)
    requires e.CanEnd(true)
    ensures Goes(Split(One(d, k, e, bytes, [], []), p), Other(EndStep(k, true)),
                 Split(One(d, k, e.Ended(true), bytes, [], []), p))
  {
  }

  lemma Queues(d: PathMap, k: Key, e: Entry, bytes: seq<byte>, p: Option<InFlight>)
    requires e.status == Dirty
    ensures Goes(Split(One(d, k, e, bytes, [], []), p), Other(PushIfDirtyStep(k)),
                 Split(One(d, k, e.(status := Pushing), bytes, [], [Transfer(k, e.file)]), p))
  {
  }

  lemma Starts(d: PathMap, k: Key, e: Entry, bytes: seq<byte>)
    requires bytes != [] && HasFile(d, k)
    ensures var t := Transfer(k, e.file);
            Goes(Split(One(d, k, e, bytes, [], [t]), None), StartPush,
                 Split(One(d, k, e, bytes, [], []), Some(InFlight(t, bytes, None))))
  {
  }

  lemma Lands(d: PathMap, k: Key, e: Entry, b1: seq<byte>, bytes: seq<byte>)
    ensures var t := Transfer(k, e.file);
            Goes(Split(One(d, k, e, bytes, [], [t]), Some(InFlight(t, b1, None))), WriteDevice(Done),
                 Split(One(d[k := Content(b1)], k, e, bytes, [], [t]), Some(InFlight(t, b1, Some(Done)))))
  {
  }

  lemma Reports(d: PathMap, k: Key, e: Entry, b1: seq<byte>, bytes: seq<byte>)
    ensures var t := Transfer(k, e.file);
            Goes(Split(One(d, k, e, bytes, [], [t]), Some(InFlight(t, b1, Some(Done)))), FinishPush,
                 Split(One(d, k, e.PushDone(true), bytes, [], [t]), None))
  {
  }

  lemma Evicts(d: PathMap, k: Key, e: Entry, bytes: seq<byte>, pushes: seq<Transfer>, p: Option<InFlight>)
    requires e.Idle()
    ensures Goes(Split(One(d, k, e, bytes, [], pushes), p), Other(EvictStep(k)),
                 Split(Cache(d, map[], map[], [], pushes, {e.file}), p))
  {
  }

  lemma FindsNothing(d: PathMap, k: Key, f: FileName)
    ensures Goes(Split(Cache(d, map[], map[], [], [Transfer(k, f)], {f}), None), StartPush,
                 Split(Cache(d, map[], map[], [], [], {f}), None))
  {
  }

  // The parts of the run.

  /** The entry of n writers that wait for the pull and m writers that were granted access. */
  function Waiting(f: FileName, status: Status, n: nat, m: nat): Entry {
    NewEntry(f).(status := status, writeAccesses := n + m, pullWriters := n, writers := m)
  }

  lemma OpenedTwice(d: PathMap, k: Key, f: FileName, b0: seq<byte>)
    requires k in d && d[k] == Content(b0)
    ensures Leads(Split(Cache(d, map[], map[], [], [], {}), None), OpenTwice(k, f)[..3],
                  Split(One(d, k, Waiting(f, Available, 2, 0), b0, [], []), None))
  {
    var s0 := Split(Cache(d, map[], map[], [], [], {}), None);
    var s1 := Split(Cache(d, map[k := Waiting(f, Pulling, 1, 0)], map[], [Transfer(k, f)], [], {f}), None);
    var s2 := Split(Cache(d, map[k := Waiting(f, Pulling, 2, 0)], map[], [Transfer(k, f)], [], {f}), None);
    var s3 := Split(One(d, k, Waiting(f, Available, 2, 0), b0, [], []), None);
    var steps := OpenTwice(k, f);
    hide Leads, Goes, One;
    OpensFirst(d, k, f, Waiting(f, Pulling, 1, 0));
    OpensNext(d, k, f, Waiting(f, Pulling, 1, 0), Waiting(f, Pulling, 2, 0));
    Pulls(d, k, f, b0, Waiting(f, Pulling, 2, 0));
    assert Waiting(f, Pulling, 2, 0).PullDone(true) == Waiting(f, Available, 2, 0);
    hide Waiting;
    assert steps[..0] == [];
    LeadsFrom(s0);
    LeadsNext(s0, steps, 0, s0, s1);
    LeadsNext(s0, steps, 1, s1, s2);
    LeadsNext(s0, steps, 2, s2, s3);
  }

  lemma Opened(k: Key, f: FileName, b0: seq<byte>)
    ensures var d := imap[k := Content(b0)];
            Leads(Split(Cache(d, map[], map[], [], [], {}), None), OpenTwice(k, f),
                  Split(One(d, k, Writing(f, Available, 2), b0, [], []), None))
  {
    var d := imap[k := Content(b0)];
    var s0 := Split(Cache(d, map[], map[], [], [], {}), None);
    var s3 := Split(One(d, k, Waiting(f, Available, 2, 0), b0, [], []), None);
    var s4 := Split(One(d, k, Waiting(f, Available, 1, 1), b0, [], []), None);
    var s5 := Split(One(d, k, Writing(f, Available, 2), b0, [], []), None);
    var steps := OpenTwice(k, f);
    hide Leads, Goes, One;
    OpenedTwice(d, k, f, b0);
    Wakes(d, k, b0, Waiting(f, Available, 2, 0));
    Wakes(d, k, b0, Waiting(f, Available, 1, 1));
    assert Waiting(f, Available, 2, 0).WokeFromPull(true) == Waiting(f, Available, 1, 1);
    assert Waiting(f, Available, 1, 1).WokeFromPull(true) == Writing(f, Available, 2);
    hide Waiting, Writing;
    LeadsNext(s0, steps, 3, s3, s4);
    LeadsNext(s0, steps, 4, s4, s5);
    assert steps[..5] == steps;
  }

  lemma Pushed(d: PathMap, k: Key, f: FileName, status: Status, n: nat, b: seq<byte>, bytes: seq<byte>, p: Option<InFlight>)
    requires n > 0 && Holding(status)
    ensures Leads(Split(One(d, k, Writing(f, status, n), b, [], []), p), WriteAndPush(k, bytes),
                  Split(One(d, k, Writing(f, Pushing, n - 1), bytes, [], [Transfer(k, f)]), p))
  {
    var s0 := Split(One(d, k, Writing(f, status, n), b, [], []), p);
    var s1 := Split(One(d, k, Writing(f, status, n), bytes, [], []), p);
    var s2 := Split(One(d, k, Writing(f, Dirty, n - 1), bytes, [], []), p);
    var s3 := Split(One(d, k, Writing(f, Pushing, n - 1), bytes, [], [Transfer(k, f)]), p);
    var steps := WriteAndPush(k, bytes);
    hide Leads, Goes, One;
    Writes(d, k, Writing(f, status, n), b, bytes, p);
    Ends(d, k, Writing(f, status, n), bytes, p);
    Queues(d, k, Writing(f, Dirty, n - 1), bytes, p);
    LeadsFrom(s0);
    LeadsThen(s0, [], s0, steps[0], s1);
    LeadsThen(s0, [] + [steps[0]], s1, steps[1], s2);
    LeadsThen(s0, [] + [steps[0]] + [steps[1]], s2, steps[2], s3);
    assert [] + [steps[0]] + [steps[1]] + [steps[2]] == steps;
  }

  /** The first push and its callback, with the second already queued. */
  lemma FirstPushDone(d: PathMap, k: Key, f: FileName, b1: seq<byte>, b2: seq<byte>)
    ensures Leads(Split(One(d, k, Writing(f, Pushing, 0), b2, [], [Transfer(k, f)]),
                        Some(InFlight(Transfer(k, f), b1, None))),
                  [WriteDevice(Done)] + [FinishPush] + [Other(EvictStep(k))] + [StartPush],
                  Split(Cache(d[k := Content(b1)], map[], map[], [], [], {f}), None))
  {
    var t, d1 := Transfer(k, f), d[k := Content(b1)];
    var s0 := Split(One(d, k, Writing(f, Pushing, 0), b2, [], [t]), Some(InFlight(t, b1, None)));
    var s1 := Split(One(d1, k, Writing(f, Pushing, 0), b2, [], [t]), Some(InFlight(t, b1, Some(Done))));
    var s2 := Split(One(d1, k, Writing(f, Available, 0), b2, [], [t]), None);
    var s3 := Split(Cache(d1, map[], map[], [], [t], {f}), None);
    var s4 := Split(Cache(d1, map[], map[], [], [], {f}), None);
    hide Leads, Goes, One;
    Lands(d, k, Writing(f, Pushing, 0), b1, b2);
    Reports(d1, k, Writing(f, Pushing, 0), b1, b2);
    Evicts(d1, k, Writing(f, Available, 0), b2, [t], None);
    FindsNothing(d1, k, f);
    LeadsFrom(s0);
    LeadsThen(s0, [], s0, WriteDevice(Done), s1);
    assert [] + [WriteDevice(Done)] == [WriteDevice(Done)];
    LeadsThen(s0, [WriteDevice(Done)], s1, FinishPush, s2);
    LeadsThen(s0, [WriteDevice(Done)] + [FinishPush], s2, Other(EvictStep(k)), s3);
    LeadsThen(s0, [WriteDevice(Done)] + [FinishPush] + [Other(EvictStep(k))], s3, StartPush, s4);
  }

  lemma FirstPushStarts(d: PathMap, k: Key, f: FileName, b1: seq<byte>)
    requires b1 != [] && HasFile(d, k)
    ensures Leads(Split(One(d, k, Writing(f, Pushing, 1), b1, [], [Transfer(k, f)]), None), [StartPush],
                  Split(One(d, k, Writing(f, Pushing, 1), b1, [], []), Some(InFlight(Transfer(k, f), b1, None))))
  {
    var s0 := Split(One(d, k, Writing(f, Pushing, 1), b1, [], [Transfer(k, f)]), None);
    var s1 := Split(One(d, k, Writing(f, Pushing, 1), b1, [], []), Some(InFlight(Transfer(k, f), b1, None)));
    Starts(d, k, Writing(f, Pushing, 1), b1);
    hide Leads, Goes, One;
    LeadsFrom(s0);
    LeadsThen(s0, [], s0, StartPush, s1);
    assert [] + [StartPush] == [StartPush];
  }

  lemma FirstPushInFlight(k: Key, f: FileName, b0: seq<byte>, b1: seq<byte>)
    requires b1 != []
    ensures Leads(Split(Cache(imap[k := Content(b0)], map[], map[], [], [], {}), None),
                  OpenTwice(k, f) + WriteAndPush(k, b1) + [StartPush],
                  Split(One(imap[k := Content(b0)], k, Writing(f, Pushing, 1), b1, [], []),
                        Some(InFlight(Transfer(k, f), b1, None))))
  {
    hide Leads, WriteAndPush, OpenTwice, One, Writing;
    var d, t := imap[k := Content(b0)], Transfer(k, f);
    var s0 := Split(Cache(d, map[], map[], [], [], {}), None);
    var s1 := Split(One(d, k, Writing(f, Available, 2), b0, [], []), None);
    var s2 := Split(One(d, k, Writing(f, Pushing, 1), b1, [], [t]), None);
    var s3 := Split(One(d, k, Writing(f, Pushing, 1), b1, [], []), Some(InFlight(t, b1, None)));
    Opened(k, f, b0);
    Pushed(d, k, f, Available, 2, b0, b1, None);
    FirstPushStarts(d, k, f, b1);
    LeadsOn(s0, OpenTwice(k, f), s1, WriteAndPush(k, b1), s2);
    LeadsOn(s0, OpenTwice(k, f) + WriteAndPush(k, b1), s2, [StartPush], s3);
  }

  lemma TwoWritersLeads(k: Key, f: FileName, b0: seq<byte>, b1: seq<byte>, b2: seq<byte>)
    requires b1 != []
    ensures Leads(Split(Cache(imap[k := Content(b0)], map[], map[], [], [], {}), None), TwoWriters(k, f, b1, b2),
                  Split(Cache(imap[k := Content(b1)], map[], map[], [], [], {f}), None))
  {
    hide Leads, WriteAndPush, OpenTwice, One, Writing;
    var d, t := imap[k := Content(b0)], Transfer(k, f);
    var s0 := Split(Cache(d, map[], map[], [], [], {}), None);
    var s3 := Split(One(d, k, Writing(f, Pushing, 1), b1, [], []), Some(InFlight(t, b1, None)));
    var s4 := Split(One(d, k, Writing(f, Pushing, 0), b2, [], [t]), Some(InFlight(t, b1, None)));
    var s5 := Split(Cache(d[k := Content(b1)], map[], map[], [], [], {f}), None);
    FirstPushInFlight(k, f, b0, b1);
    Pushed(d, k, f, Pushing, 1, b1, b2, Some(InFlight(t, b1, None)));
    FirstPushDone(d, k, f, b1, b2);
    var open := OpenTwice(k, f) + WriteAndPush(k, b1) + [StartPush];
    var rest := [WriteDevice(Done)] + [FinishPush] + [Other(EvictStep(k))] + [StartPush];
    LeadsOn(s0, open, s3, WriteAndPush(k, b2), s4);
    LeadsOn(s0, open + WriteAndPush(k, b2), s4, rest, s5);
    assert open + WriteAndPush(k, b2) + rest == TwoWriters(k, f, b1, b2);
    assert d[k := Content(b1)] == imap[k := Content(b1)];
  }

  lemma {:induction false} LastWriteWins(m: PathMap, steps: seq<SplitStep>, i: nat, k: Key, bytes: seq<byte>)
    requires i < |steps| && steps[i] == Other(WriteStep(k, bytes))
    requires forall j :: i < j < |steps| && steps[j].Other? ==> !steps[j].step.WriteStep?
    ensures k in SplitReplay(m, steps) && SplitReplay(m, steps)[k] == Content(bytes)
    decreases |steps|
  {
    if i < |steps| - 1 {
      LastWriteWins(m, steps[..|steps| - 1], i, k, bytes);
    }
  }

  /**
   With overlapping pushes an eviction while a push is pending can lose a finished write, although no push fails: after
   this run nothing is cached or queued, the last write was b2, and both the device and the view have b1.
   */
  lemma {:induction false} EvictionCanForget(k: Key, f: FileName, b0: seq<byte>, b1: seq<byte>, b2: seq<byte>)
    returns (run: seq<Split>)
    requires b1 != [] && b2 != [] && b1 != b2
    ensures var steps := TwoWriters(k, f, b1, b2);
            && IsSplitRun(run, steps)
            && (forall i :: 0 <= i < |steps| ==> PushSucceeds(run[i], steps[i]))
            && run[|steps|].cache.entries == map[] && run[|steps|].cache.pushes == [] && run[|steps|].inFlight.None?
            && View(run[|steps|].cache) == run[|steps|].cache.device == imap[k := Content(b1)]
            && k in SplitReplay(run[0].cache.device, steps)
            && SplitReplay(run[0].cache.device, steps)[k] == Content(b2)
            && !SeesWrites(run, steps) && !EvictsOnlySaved(run, steps)
  {
    var steps := TwoWriters(k, f, b1, b2);
    var s0 := Split(Cache(imap[k := Content(b0)], map[], map[], [], [], {}), None);
    var s1 := Split(Cache(imap[k := Content(b1)], map[], map[], [], [], {f}), None);
    assert steps[9] == Other(WriteStep(k, b2)) && |steps| == 16;
    LastWriteWins(s0.cache.device, steps, 9, k, b2);
    TwoWritersLeads(k, f, b0, b1, b2);
    hide TwoWriters, Leads, SplitReplay, PushSucceeds, SplitEnabled, SplitApply;
    run := LeadsIsRun(s0, steps, s1);
    assert View(s1.cache) == imap[k := Content(b1)];
    hide View, SeesWrites, EvictsOnlySaved, FlightInv;
    CoherentExactlyWhenNothingIsLost(run, steps);
    if SeesWrites(run, steps) {
      SeesAtEnd(run, steps);
    }
  }

  // ---------- A write in flight that loses the file ----------

  /** The other client closes without a change, which makes the entry dirty again, and a second push is queued. */
  function CloseAndPush(k: Key): seq<SplitStep> {
    [Other(EndStep(k, true)), Other(PushIfDirtyStep(k))]
  }

  /** The second push starts when the first is done; the entry is available and saved, and is evicted. */
  function UntilEvicted(k: Key, f: FileName, b1: seq<byte>): seq<SplitStep> {
    OpenTwice(k, f) + WriteAndPush(k, b1) + [StartPush] + CloseAndPush(k) + [WriteDevice(Done)] + [FinishPush] + [StartPush]
  }

  /** Then the write in flight deletes the device file and fails. */
  function LateLoss(k: Key, f: FileName, b1: seq<byte>): seq<SplitStep> {
    UntilEvicted(k, f, b1) + [Other(EvictStep(k)), WriteDevice(Lost)]
  }

  lemma ClosedAndPushed(d: PathMap, k: Key, f: FileName, b1: seq<byte>, p: Option<InFlight>)
    ensures Leads(Split(One(d, k, Writing(f, Pushing, 1), b1, [], []), p), CloseAndPush(k),
                  Split(One(d, k, Writing(f, Pushing, 0), b1, [], [Transfer(k, f)]), p))
  {
    var s0 := Split(One(d, k, Writing(f, Pushing, 1), b1, [], []), p);
    var s1 := Split(One(d, k, Writing(f, Dirty, 0), b1, [], []), p);
    var s2 := Split(One(d, k, Writing(f, Pushing, 0), b1, [], [Transfer(k, f)]), p);
    var steps := CloseAndPush(k);
    hide Leads, Goes, One;
    Ends(d, k, Writing(f, Pushing, 1), b1, p);
    Queues(d, k, Writing(f, Dirty, 0), b1, p);
    assert steps[..0] == [] && steps[..2] == steps;
    LeadsFrom(s0);
    LeadsNext(s0, steps, 0, s0, s1);
    LeadsNext(s0, steps, 1, s1, s2);
  }

  lemma SecondPushStarts(d: PathMap, k: Key, f: FileName, b1: seq<byte>)
    requires b1 != []
    ensures Leads(Split(One(d, k, Writing(f, Pushing, 0), b1, [], [Transfer(k, f)]),
                        Some(InFlight(Transfer(k, f), b1, None))),
                  [WriteDevice(Done)] + [FinishPush] + [StartPush],
                  Split(One(d[k := Content(b1)], k, Writing(f, Available, 0), b1, [], []),
                        Some(InFlight(Transfer(k, f), b1, None))))
  {
    var t, d1 := Transfer(k, f), d[k := Content(b1)];
    var s0 := Split(One(d, k, Writing(f, Pushing, 0), b1, [], [t]), Some(InFlight(t, b1, None)));
    var s1 := Split(One(d1, k, Writing(f, Pushing, 0), b1, [], [t]), Some(InFlight(t, b1, Some(Done))));
    var s2 := Split(One(d1, k, Writing(f, Available, 0), b1, [], [t]), None);
    var s3 := Split(One(d1, k, Writing(f, Available, 0), b1, [], []), Some(InFlight(t, b1, None)));
    hide Leads, Goes, One;
    Lands(d, k, Writing(f, Pushing, 0), b1, b1);
    Reports(d1, k, Writing(f, Pushing, 0), b1, b1);
    Starts(d1, k, Writing(f, Available, 0), b1);
    LeadsFrom(s0);
    LeadsThen(s0, [], s0, WriteDevice(Done), s1);
    assert [] + [WriteDevice(Done)] == [WriteDevice(Done)];
    LeadsThen(s0, [WriteDevice(Done)], s1, FinishPush, s2);
    LeadsThen(s0, [WriteDevice(Done)] + [FinishPush], s2, StartPush, s3);
  }

  lemma UntilEvictedLeads(k: Key, f: FileName, b0: seq<byte>, b1: seq<byte>)
    requires b1 != []
    ensures Leads(Split(Cache(imap[k := Content(b0)], map[], map[], [], [], {}), None), UntilEvicted(k, f, b1),
                  Split(One(imap[k := Content(b1)], k, Writing(f, Available, 0), b1, [], []),
                        Some(InFlight(Transfer(k, f), b1, None))))
  {
    hide Leads, WriteAndPush, OpenTwice, CloseAndPush, One, Writing;
    var d, p := imap[k := Content(b0)], Some(InFlight(Transfer(k, f), b1, None));
    var s0 := Split(Cache(d, map[], map[], [], [], {}), None);
    var s1 := Split(One(d, k, Writing(f, Pushing, 1), b1, [], []), p);
    var s2 := Split(One(d, k, Writing(f, Pushing, 0), b1, [], [Transfer(k, f)]), p);
    var s3 := Split(One(d[k := Content(b1)], k, Writing(f, Available, 0), b1, [], []), p);
    FirstPushInFlight(k, f, b0, b1);
    ClosedAndPushed(d, k, f, b1, p);
    SecondPushStarts(d, k, f, b1);
    var open := OpenTwice(k, f) + WriteAndPush(k, b1) + [StartPush];
    var rest := [WriteDevice(Done)] + [FinishPush] + [StartPush];
    LeadsOn(s0, open, s1, CloseAndPush(k), s2);
    LeadsOn(s0, open + CloseAndPush(k), s2, rest, s3);
    assert open + CloseAndPush(k) + rest == UntilEvicted(k, f, b1);
    assert d[k := Content(b1)] == imap[k := Content(b1)];
  }

  /** A run and two more steps. */
  lemma RunOnTwice(run: seq<Split>, steps: seq<SplitStep>, a: SplitStep, s1: Split, b: SplitStep, s2: Split)
    requires IsSplitRun(run, steps)
    requires SplitEnabled(run[|steps|], a) && SplitApply(run[|steps|], a) == s1
    requires SplitEnabled(s1, b) && SplitApply(s1, b) == s2
    ensures IsSplitRun(run + [s1, s2], steps + [a, b])
  {
    hide SplitEnabled, SplitApply;
    var run', steps' := run + [s1, s2], steps + [a, b];
    forall i | 0 <= i < |steps| ensures SplitEnabled(run'[i], steps'[i]) && run'[i + 1] == SplitApply(run'[i], steps'[i]) {
      assert run'[i] == run[i] && run'[i + 1] == run[i + 1] && steps'[i] == steps[i];
    }
    assert run'[|steps|] == run[|steps|] && run'[|steps| + 1] == s1 && run'[|steps| + 2] == s2;
  }

  lemma EvictedThenLost(k: Key, f: FileName, b1: seq<byte>)
    ensures var d, p := imap[k := Content(b1)], InFlight(Transfer(k, f), b1, None);
            var s := Split(One(d, k, Writing(f, Available, 0), b1, [], []), Some(p));
            var s1 := Split(Cache(d, map[], map[], [], [], {f}), Some(p));
            var s2 := Split(Cache(imap[], map[], map[], [], [], {f}), Some(p.(result := Some(Lost))));
            && SplitEnabled(s, Other(EvictStep(k))) && SplitApply(s, Other(EvictStep(k))) == s1
            && SplitSaved(s, Other(EvictStep(k)))
            && SplitEnabled(s1, WriteDevice(Lost)) && SplitApply(s1, WriteDevice(Lost)) == s2
            && !LosesHeld(s1, WriteDevice(Lost)) && View(s2.cache) == imap[]
  {
    var d, p := imap[k := Content(b1)], InFlight(Transfer(k, f), b1, None);
    Evicts(d, k, Writing(f, Available, 0), b1, [], Some(p));
    assert Lacking(d, k) == imap[];
  }

  /** Before the last two steps nothing is evicted. */
  lemma NothingEvicted(k: Key, f: FileName, b1: seq<byte>)
    ensures var steps := UntilEvicted(k, f, b1);
            |steps| == 14 && steps[5] == Other(WriteStep(k, b1))
            && forall i :: 0 <= i < |steps| ==>
                 (steps[i].Other? ==> !steps[i].step.EvictStep?) &&
                 (i > 5 && steps[i].Other? ==> !steps[i].step.WriteStep?)
  {
  }

  lemma OneEviction(run: seq<Split>, steps: seq<SplitStep>, k: Key, s1: Split, s2: Split)
    requires |run| == |steps| + 1 && SplitSaved(run[|steps|], Other(EvictStep(k))) && !LosesHeld(s1, WriteDevice(Lost))
    requires forall i :: 0 <= i < |steps| && steps[i].Other? ==> !steps[i].step.EvictStep?
    ensures EvictsOnlySaved(run + [s1, s2], steps + [Other(EvictStep(k)), WriteDevice(Lost)])
    ensures !LosesOnlyHeld(run + [s1, s2], steps + [Other(EvictStep(k)), WriteDevice(Lost)])
  {
    var n := |steps|;
    var run', steps' := run + [s1, s2], steps + [Other(EvictStep(k)), WriteDevice(Lost)];
    assert run'[n] == run[n] && steps'[n] == Other(EvictStep(k));
    assert run'[n + 1] == s1 && steps'[n + 1] == WriteDevice(Lost);
    hide LosesHeld, Saved;
    forall i | 0 <= i < n + 2 ensures SplitSaved(run'[i], steps'[i]) {
      if i < n {
        assert steps'[i] == steps[i];
      }
    }
  }

  /**
   Evicting saved copies only is not enough when a write may lose the file: here no other push fails, the one copy evicted
   is on the device, and the write in flight takes it from there.
   */
  lemma {:induction false} LostWriteForgets(k: Key, f: FileName, b0: seq<byte>, b1: seq<byte>) returns (run: seq<Split>)
    requires b1 != []
    ensures var steps := LateLoss(k, f, b1);
            && IsSplitRun(run, steps)
            && (forall i :: 0 <= i < |steps| - 1 ==> PushSucceeds(run[i], steps[i]))
            && k in SplitReplay(run[0].cache.device, steps)
            && SplitReplay(run[0].cache.device, steps)[k] == Content(b1) && k !in View(run[|steps|].cache)
            && EvictsOnlySaved(run, steps) && !LosesOnlyHeld(run, steps) && !SeesWrites(run, steps)
  {
    var d, p := imap[k := Content(b1)], InFlight(Transfer(k, f), b1, None);
    var s0 := Split(Cache(imap[k := Content(b0)], map[], map[], [], [], {}), None);
    var s := Split(One(d, k, Writing(f, Available, 0), b1, [], []), Some(p));
    var s1 := Split(Cache(d, map[], map[], [], [], {f}), Some(p));
    var s2 := Split(Cache(imap[], map[], map[], [], [], {f}), Some(p.(result := Some(Lost))));
    var front, steps := UntilEvicted(k, f, b1), LateLoss(k, f, b1);
    UntilEvictedLeads(k, f, b0, b1);
    NothingEvicted(k, f, b1);
    EvictedThenLost(k, f, b1);
    LastWriteWins(s0.cache.device, steps, 5, k, b1);
    hide UntilEvicted, Leads, SplitReplay, SplitEnabled, SplitApply, One, View, SeesWrites, FlightInv;
    var before := LeadsIsRun(s0, front, s);
    RunOnTwice(before, front, Other(EvictStep(k)), s1, WriteDevice(Lost), s2);
    run := before + [s1, s2];
    assert steps == front + [Other(EvictStep(k)), WriteDevice(Lost)];
    assert forall i :: 0 <= i < 14 ==> run[i] == before[i] && steps[i] == front[i];
    hide LateLoss, PushSucceeds, LosesHeld, EvictsSaved, EvictsOnlySaved, LosesOnlyHeld;
    OneEviction(before, front, k, s1, s2);
    CoherentExactlyWhenNothingIsLost(run, steps);
  }

  // ---------- A lost push before an eviction ----------

  /** The same two clients when pushes are one step: of the two queued pushes the second loses the device file. */
  function LoseAndEvict(k: Key, f: FileName, b1: seq<byte>): seq<Step> {
    [BeginStep(k, true, f), BeginStep(k, true, f), ServePullStep(true, []), WakeFromPullStep(k, true),
     WakeFromPullStep(k, true), WriteStep(k, b1), EndStep(k, true), PushIfDirtyStep(k), EndStep(k, true),
     PushIfDirtyStep(k), ServePushStep(Done), ServePushStep(Lost), EvictStep(k)]
  }

  ghost predicate CacheGoes(s: Cache, step: Step, s': Cache) {
    Enabled(s, step) && Apply(s, step) == s'
  }

  lemma GoesAlone(s: Split, step: Step, s': Split)
    requires Goes(s, Other(step), s')
    ensures CacheGoes(s.cache, step, s'.cache)
  {
    hide Enabled, Apply;
  }

  /** The states up to the first push request. */
  ghost function StatesUntilQueued(k: Key, f: FileName, b0: seq<byte>, b1: seq<byte>): seq<Cache> {
    var d, t := imap[k := Content(b0)], Transfer(k, f);
    [Cache(d, map[], map[], [], [], {}),
     Cache(d, map[k := Waiting(f, Pulling, 1, 0)], map[], [t], [], {f}),
     Cache(d, map[k := Waiting(f, Pulling, 2, 0)], map[], [t], [], {f}),
     One(d, k, Waiting(f, Available, 2, 0), b0, [], []),
     One(d, k, Waiting(f, Available, 1, 1), b0, [], []),
     One(d, k, Writing(f, Available, 2), b0, [], []),
     One(d, k, Writing(f, Available, 2), b1, [], []),
     One(d, k, Writing(f, Dirty, 1), b1, [], []),
     One(d, k, Writing(f, Pushing, 1), b1, [], [t])]
  }

  lemma GoesUntilQueued(k: Key, f: FileName, b0: seq<byte>, b1: seq<byte>)
    ensures var run, steps := StatesUntilQueued(k, f, b0, b1), LoseAndEvict(k, f, b1);
            forall i :: 0 <= i < 8 ==> CacheGoes(run[i], steps[i], run[i + 1])
  {
    var d := imap[k := Content(b0)];
    var run, steps := StatesUntilQueued(k, f, b0, b1), LoseAndEvict(k, f, b1);
    OpensFirst(d, k, f, Waiting(f, Pulling, 1, 0));
    OpensNext(d, k, f, Waiting(f, Pulling, 1, 0), Waiting(f, Pulling, 2, 0));
    Pulls(d, k, f, b0, Waiting(f, Pulling, 2, 0));
    Wakes(d, k, b0, Waiting(f, Available, 2, 0));
    Wakes(d, k, b0, Waiting(f, Available, 1, 1));
    Writes(d, k, Writing(f, Available, 2), b0, b1, None);
    Ends(d, k, Writing(f, Available, 2), b1, None);
    Queues(d, k, Writing(f, Dirty, 1), b1, None);
    hide Goes, CacheGoes, One;
    forall i | 0 <= i < 8 ensures CacheGoes(run[i], steps[i], run[i + 1]) {
      GoesAlone(Split(run[i], None), steps[i], Split(run[i + 1], None));
    }
  }

  /** The states from there on. */
  ghost function StatesUntilEvicted(k: Key, f: FileName, b0: seq<byte>, b1: seq<byte>): seq<Cache> {
    var d, d1, t := imap[k := Content(b0)], imap[k := Content(b1)], Transfer(k, f);
    [One(d, k, Writing(f, Pushing, 1), b1, [], [t]),
     One(d, k, Writing(f, Dirty, 0), b1, [], [t]),
     One(d, k, Writing(f, Pushing, 0), b1, [], [t, t]),
     One(d1, k, Writing(f, Available, 0), b1, [], [t]),
     One(imap[], k, Writing(f, Available, 0), b1, [], []),
     Cache(imap[], map[], map[], [], [], {f})]
  }

  lemma GoesUntilEvicted(k: Key, f: FileName, b0: seq<byte>, b1: seq<byte>)
    requires b1 != []
    ensures var run, steps := StatesUntilEvicted(k, f, b0, b1), LoseAndEvict(k, f, b1);
            forall i :: 0 <= i < 5 ==> CacheGoes(run[i], steps[8 + i], run[i + 1])
  {
    var d, d1, t := imap[k := Content(b0)], imap[k := Content(b1)], Transfer(k, f);
    var run, steps := StatesUntilEvicted(k, f, b0, b1), LoseAndEvict(k, f, b1);
    assert CacheGoes(run[0], steps[8], run[1]);
    assert CacheGoes(run[1], steps[9], run[2]) by {
      assert [t] + [t] == [t, t];
    }
    PushesDone(d, k, f, b1);
    PushLoses(d1, k, f, b1);
    Evicts(imap[], k, Writing(f, Available, 0), b1, [], None);
    assert d[k := Content(b1)] == d1 && Lacking(d1, k) == imap[];
  }

  lemma PushesDone(d: PathMap, k: Key, f: FileName, b1: seq<byte>)
    requires b1 != [] && HasFile(d, k)
    ensures var t := Transfer(k, f);
            CacheGoes(One(d, k, Writing(f, Pushing, 0), b1, [], [t, t]), ServePushStep(Done),
                      One(d[k := Content(b1)], k, Writing(f, Available, 0), b1, [], [t]))
  {
  }

  lemma PushLoses(d: PathMap, k: Key, f: FileName, b1: seq<byte>)
    requires b1 != [] && HasFile(d, k)
    ensures var t := Transfer(k, f);
            CacheGoes(One(d, k, Writing(f, Available, 0), b1, [], [t]), ServePushStep(Lost),
                      One(Lacking(d, k), k, Writing(f, Available, 0), b1, [], []))
  {
  }

  lemma StatesAreRun(k: Key, f: FileName, b0: seq<byte>, b1: seq<byte>)
    requires b1 != []
    ensures IsRun(StatesUntilQueued(k, f, b0, b1) + StatesUntilEvicted(k, f, b0, b1)[1..], LoseAndEvict(k, f, b1))
  {
    var steps := LoseAndEvict(k, f, b1);
    var a, b := StatesUntilQueued(k, f, b0, b1), StatesUntilEvicted(k, f, b0, b1);
    var run := a + b[1..];
    GoesUntilQueued(k, f, b0, b1);
    GoesUntilEvicted(k, f, b0, b1);
    assert a[8] == b[0] && |a| == 9 && |b| == 6 && |steps| == 13;
    hide StatesUntilQueued, StatesUntilEvicted, LoseAndEvict, Enabled, Apply;
    forall i | 0 <= i < 13 ensures Enabled(run[i], steps[i]) && run[i + 1] == Apply(run[i], steps[i]) {
      if i >= 8 {
        assert run[i] == b[i - 8] && run[i + 1] == b[i - 7];
        assert CacheGoes(b[i - 8], steps[8 + (i - 8)], b[i - 7]);
      } else {
        assert CacheGoes(a[i], steps[i], a[i + 1]);
      }
    }
  }

  lemma LastStates(k: Key, f: FileName, b1: seq<byte>)
    ensures var s := One(imap[], k, Writing(f, Available, 0), b1, [], []);
            k in View(s) && View(s)[k] == Content(b1) && !EvictsSaved(s, EvictStep(k))
    ensures k !in View(Cache(imap[], map[], map[], [], [], {f}))
  {
    var s := One(imap[], k, Writing(f, Available, 0), b1, [], []);
    assert HoldsAt(s, k);
  }

  /**
   An eviction that takes the only copy can be reached: the second of two queued pushes loses the device file while the entry
   is available, which lets the evictor take it.  Clients see the file before the last step and not after it.
   */
  lemma LostPushForgets(k: Key, f: FileName, b0: seq<byte>, b1: seq<byte>) returns (run: seq<Cache>)
    requires b1 != []
    ensures var steps := LoseAndEvict(k, f, b1);
            && IsRun(run, steps) && Init(run[0])
            && k in View(run[|steps| - 1]) && View(run[|steps| - 1])[k] == Content(b1) && k !in View(run[|steps|])
            && !AlwaysSaved(run, steps) && !AlwaysCoherent(run, steps)
  {
    var steps := LoseAndEvict(k, f, b1);
    run := StatesUntilQueued(k, f, b0, b1) + StatesUntilEvicted(k, f, b0, b1)[1..];
    StatesAreRun(k, f, b0, b1);
    LastStates(k, f, b1);
    assert steps[12] == EvictStep(k);
    hide One, View, AlwaysCoherent, CacheGoes, Enabled, Apply, EvictsSaved;
    assert !AlwaysSaved(run, steps);
    hide AlwaysSaved;
    CoherentExactlyWhenSaved(run, steps);
  }
}
