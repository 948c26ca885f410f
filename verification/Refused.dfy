/**
 Clients that end an access they were not granted: the file system callbacks do so after a pull that failed.  The end of such
 a write access makes the entry dirty all the same, so that what the failed pull left becomes the file.
 */
module Refused {
  import opened Paths
  import opened Blocks
  import opened Nodes
  import opened CacheSpec

  /** The end of a granted access is the step of the specification. */
  lemma GrantedEndIsStep(s: Cache, k: Key, write: bool, newFile: FileName)
    requires Base(s) && Enabled(s, EndStep(k, write))
    ensures EndAccess(s, k, write, true, newFile) == Apply(s, EndStep(k, write))
  {
    OwnFile(s, k);
    assert s.used + {s.entries[k].file} == s.used;
  }

  lemma UngrantedEnd(s: Cache, k: Key, write: bool, newFile: FileName)
    requires Base(s) && k in s.entries
    ensures EndAccess(s, k, write, false, newFile) == WithEntry(s, k, s.entries[k].EndedUngranted(write))
  {
    OwnFile(s, k);
    assert s.used + {s.entries[k].file} == s.used;
  }

  /** It is never seen when it ends a read access, and keeps the invariant exactly when that was counted and refused. */
  lemma RefusedReadEnds(s: Cache, k: Key, newFile: FileName)
    requires Inv(s) && (k !in s.entries ==> newFile !in s.used)
    ensures var s' := EndAccess(s, k, false, false, newFile);
            && View(s') == View(s)
            && (Inv(s') <==> k in s.entries && s.entries[k].HasRefused(false))
  {
    if k in s.entries {
      RefusedReadKeeps(s, k, newFile);
    } else {
      NoFileYet(s, k, false, newFile);
    }
  }

  lemma RefusedReadKeeps(s: Cache, k: Key, newFile: FileName)
    requires Inv(s) && k in s.entries
    ensures var s' := EndAccess(s, k, false, false, newFile);
            View(s') == View(s) && (Inv(s') <==> s.entries[k].HasRefused(false))
  {
    var e := s.entries[k].EndedUngranted(false);
    OwnFile(s, k);
    UngrantedEnd(s, k, false, newFile);
    EntryStepView(s, k, e);
    assert EntryClean(s, k);
    assert EntryBase(WithEntry(s, k, e), k) ==> s.entries[k].HasRefused(false);
    if s.entries[k].HasRefused(false) {
      EntryStep(s, k, e);
      hide Base, View;
      CleanOnly(s, WithEntry(s, k, e), k);
    }
  }

  /** An entry the end has created holds nothing. */
  lemma NoFileYet(s: Cache, k: Key, write: bool, newFile: FileName)
    requires Base(s) && k !in s.entries && newFile !in s.used
    ensures var s' := EndAccess(s, k, write, false, newFile); View(s') == View(s) && !Inv(s')
  {
    var s' := EndAccess(s, k, write, false, newFile);
    FreshFile(s, k, newFile);
    assert k in s'.entries && !EntryBase(s', k);
    assert s'.entries - {k} == s.entries - {k};
    assert !HoldsAt(s, k) && !HoldsAt(s', k);
    ViewOnly(s, s', k, View(s));
  }

  /** What is in the backing file, if there is one, is what the device has. */
  ghost predicate CopyIsWhole(s: Cache, k: Key)
    requires k in s.entries
  {
    s.entries[k].file in s.files ==> k in s.device && s.device[k] == Content(s.files[s.entries[k].file])
  }

  /**
   When it ends a write access it changes what clients see exactly when no access was held by others and the failed pull left
   something else than the device's bytes.  It keeps the invariant exactly when the access was counted and refused, there is
   a copy, no pull is under way, and the device has the file.
   */
  lemma RefusedWriteEnds(s: Cache, k: Key, newFile: FileName)
    requires Inv(s) && (k !in s.entries ==> newFile !in s.used)
    ensures var s' := EndAccess(s, k, true, false, newFile);
            && (View(s') == View(s) <==> (k in s.entries ==> Holding(s.entries[k].status) || CopyIsWhole(s, k)))
            && (Inv(s') <==> k in s.entries && s.entries[k].HasRefused(true) && s.entries[k].file in s.files
                             && s.entries[k].status != Pulling && HasFile(s.device, k))
  {
    if k in s.entries {
      UngrantedEnd(s, k, true, newFile);
      RefusedWriteView(s, k);
      RefusedWriteInv(s, k);
    } else {
      NoFileYet(s, k, true, newFile);
    }
  }

  lemma RefusedWriteView(s: Cache, k: Key)
    requires k in s.entries
    ensures View(WithEntry(s, k, s.entries[k].EndedUngranted(true))) == View(s) <==>
            Holding(s.entries[k].status) || CopyIsWhole(s, k)
  {
    var e, s' := s.entries[k], WithEntry(s, k, s.entries[k].EndedUngranted(true));
    assert s'.entries - {k} == s.entries - {k};
    assert HoldsAt(s', k) <==> e.file in s.files;
    assert HoldsAt(s', k) ==> k in View(s') && View(s')[k] == Content(s.files[e.file]);
    assert !HoldsAt(s', k) ==> (k in View(s') <==> k in s.device) && (k in s.device ==> View(s')[k] == s.device[k]);
    assert HoldsAt(s, k) ==> View(s)[k] == Content(s.files[e.file]);
    assert !HoldsAt(s, k) ==> (k in View(s) <==> k in s.device) && (k in s.device ==> View(s)[k] == s.device[k]);
    if Holding(e.status) || CopyIsWhole(s, k) {
      hide HoldsAt;
      ViewOnly(s, s', k, View(s));
    }
  }

  lemma RefusedWriteInv(s: Cache, k: Key)
    requires Inv(s) && k in s.entries
    ensures var e, s' := s.entries[k], WithEntry(s, k, s.entries[k].EndedUngranted(true));
            Inv(s') <==> e.HasRefused(true) && e.file in s.files && e.status != Pulling && HasFile(s.device, k)
  {
    var e, s' := s.entries[k], WithEntry(s, k, s.entries[k].EndedUngranted(true));
    OwnFile(s, k);
    if Inv(s') {
      assert EntryBase(s', k) && EntryClean(s', k);
    }
    if e.HasRefused(true) && e.file in s.files && e.status != Pulling && HasFile(s.device, k) {
      RefusedWriteKeeps(s, k);
    }
  }

  lemma RefusedWriteKeeps(s: Cache, k: Key)
    requires Inv(s) && k in s.entries && s.entries[k].HasRefused(true)
    requires s.entries[k].file in s.files && s.entries[k].status != Pulling && HasFile(s.device, k)
    ensures Inv(WithEntry(s, k, s.entries[k].EndedUngranted(true)))
  {
    var e := s.entries[k].EndedUngranted(true);
    var s' := WithEntry(s, k, e);
    OwnFile(s, k);
    assert EntryBase(s', k) && EntryClean(s', k);
    assert s'.entries - {k} == s.entries - {k};
    hide EntryBase, EntryClean;
    RefusedWriteQueues(s, k);
    hide QueuesOk, FilesOk;
    BaseOnly(s, s', k);
    hide Base;
    CleanOnly(s, s', k);
  }

  lemma RefusedWriteQueues(s: Cache, k: Key)
    requires Base(s) && k in s.entries && s.entries[k].HasRefused(true)
    requires s.entries[k].file in s.files && s.entries[k].status != Pulling
    ensures var e := s.entries[k].EndedUngranted(true);
            QueuesOk(s.entries[k := e], s.pulls, s.pushes, s.used) && FilesOk(s.entries[k := e], s.files)
  {
    var e := s.entries[k].EndedUngranted(true);
    BaseParts(s);
    TransfersAt(s, k);
    hide Base, QueuesOk, FilesOk;
    QueuesEntry(s.entries, s.pulls, s.pushes, s.used, k, e);
    FilesEntry(s.entries, s.files, k, e);
  }

  /**
   No client writes here: a writer is refused because the pull fails part way, ends its access, and the next push writes the
   part over the device's file.
   */
  lemma RefusedWriteReachesDevice(k: Key, f: FileName, bytes: seq<byte>, part: seq<byte>)
    requires part != []
    ensures var s0 := Cache(imap[k := Content(bytes)], map[], map[], [], [], {});
            var s1 := BeginAccess(s0, k, true, f);
            && Init(s0) && s1.pulls != [] && k in s1.entries
            && var s2 := ServePull(s1, false, part);
            && k in s2.entries && s2.entries[k].CanWakeFromPull(true)
            && var s3 := WithEntry(s2, k, s2.entries[k].WokeFromPull(true));
            && Inv(s3) && View(s3) == s0.device && s3.entries[k].HasRefused(true)
            && var s4 := WithEntry(s3, k, s3.entries[k].EndedUngranted(true));
            && var s5 := PushIfDirty(s4, k);
            && s5.pushes != [] && ServePush(s5, Done).device == s0.device[k := Content(part)]
  {
    var s0 := Cache(imap[k := Content(bytes)], map[], map[], [], [], {});
    RefusedAfterPart(s0, k, f, bytes, part);
    PartIsPushed(s0.device, k, f, part);
  }

  /** The state in which a writer was refused after a pull that left a part of the file. */
  function PartPulled(device: PathMap, k: Key, f: FileName, part: seq<byte>): Cache {
    Cache(device, map[k := NewEntry(f).(status := Fail, writeAccesses := 1)], map[f := part], [], [], {f})
  }

  lemma RefusedAfterPart(s0: Cache, k: Key, f: FileName, bytes: seq<byte>, part: seq<byte>)
    requires s0 == Cache(imap[k := Content(bytes)], map[], map[], [], [], {})
    ensures var s1 := BeginAccess(s0, k, true, f);
            && Init(s0) && s1.pulls != [] && k in s1.entries
            && var s2 := ServePull(s1, false, part);
            && k in s2.entries && s2.entries[k].CanWakeFromPull(true)
            && var s3 := WithEntry(s2, k, s2.entries[k].WokeFromPull(true));
            && Inv(s3) && View(s3) == s0.device && s3 == PartPulled(s0.device, k, f, part)
  {
    BeginsFirst(s0, k, f);
    FailsPartWay(s0.device, k, f, part);
    hide ServePull, BeginAccess, Inv, View;
    PartIsOrdinary(s0.device, k, f, bytes, part);
  }

  lemma BeginsFirst(s0: Cache, k: Key, f: FileName)
    requires s0 == Cache(s0.device, map[], map[], [], [], {})
    ensures BeginAccess(s0, k, true, f) ==
            Cache(s0.device, map[k := NewEntry(f).Began(true)], map[], [Transfer(k, f)], [], {f})
  {
  }

  lemma FailsPartWay(device: PathMap, k: Key, f: FileName, part: seq<byte>)
    requires HasFile(device, k)
    ensures var s1 := Cache(device, map[k := NewEntry(f).Began(true)], map[], [Transfer(k, f)], [], {f});
            var s2 := ServePull(s1, false, part);
            && k in s2.entries && s2.entries[k].CanWakeFromPull(true)
            && WithEntry(s2, k, s2.entries[k].WokeFromPull(true)) == PartPulled(device, k, f, part)
  {
    var e := NewEntry(f).Began(true).PullDone(false);
    var s1 := Cache(device, map[k := NewEntry(f).Began(true)], map[], [Transfer(k, f)], [], {f});
    assert ServePull(s1, false, part) == Cache(device, map[k := e], map[f := part], [], [], {f});
  }

  /** Such a state is like every other: it keeps the invariant, and clients see the device. */
  lemma PartIsOrdinary(device: PathMap, k: Key, f: FileName, bytes: seq<byte>, part: seq<byte>)
    requires device == imap[k := Content(bytes)]
    ensures Inv(PartPulled(device, k, f, part)) && View(PartPulled(device, k, f, part)) == device
  {
    var s := PartPulled(device, k, f, part);
    assert EntryBase(s, k) && EntryClean(s, k);
    assert !HoldsAt(s, k);
  }

  lemma PartIsPushed(device: PathMap, k: Key, f: FileName, part: seq<byte>)
    requires part != [] && HasFile(device, k)
    ensures var s3 := PartPulled(device, k, f, part);
            && s3.entries[k].HasRefused(true)
            && var s4 := WithEntry(s3, k, s3.entries[k].EndedUngranted(true));
            && var s5 := PushIfDirty(s4, k);
            && s5.pushes != [] && ServePush(s5, Done).device == device[k := Content(part)]
  {
    var s4 := WithEntry(PartPulled(device, k, f, part), k, PartPulled(device, k, f, part).entries[k].EndedUngranted(true));
    assert s4.entries[k] == NewEntry(f).(status := Dirty);
    assert PushIfDirty(s4, k).pushes == [Transfer(k, f)];
  }
}
