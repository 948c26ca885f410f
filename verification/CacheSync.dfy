/**
 The cache's loops over its map: pushing all dirty entries, the background job's sweep, and the destructor.

 An iteration over the map visits the keys in any order.  Clocks are parameters: which keys were last written long enough
 ago to be pushed, and which were neither read nor written for long enough to be evicted.
 */
module CacheSync {
  import opened Paths
  import opened Blocks
  import opened Nodes
  import opened Drives
  import opened CacheSpec
  import opened CacheObjects

  method KeysOf(cache: FileCache) returns (keys: set<Key>)
    requires cache.Valid()
    ensures keys == cache.cachemap.Keys == cache.entries.Keys
  {
    keys := cache.cachemap.Keys;
  }

  // ---------- Destroying an entry ----------

  /** A push that the entry waits for is queued. */
  predicate PushComes(s: Cache, k: Key) {
    k in s.entries && (s.entries[k].status == Pushing ==> Transfer(k, s.entries[k].file) in s.pushes)
  }

  lemma PushComesOn(s: Cache, k: Key)
    requires PushComes(s, k) && s.pushes != [] && s.entries[k].status == Pushing
    ensures PushComes(ServePush(s, Done), k) && |ServePush(s, Done).pushes| < |s.pushes|
    ensures ServePush(s, Done).entries[k].file == s.entries[k].file
    ensures ServePush(s, Done).entries.Keys == s.entries.Keys
  {
    var t := s.pushes[0];
    assert forall u :: u in s.pushes ==> u == t || u in s.pushes[1..];
    if Live(s.entries, t) && t.key == k {
      assert t == Transfer(k, s.entries[k].file);
    }
  }

  /** The worker serves pushes until the entry is not pushing any more. */
  ghost function Drained(s: Cache, k: Key): (s': Cache)
    requires PushComes(s, k)
    ensures k in s'.entries && s'.entries[k].file == s.entries[k].file && s'.entries[k].status != Pushing
    ensures s'.entries.Keys == s.entries.Keys
    decreases |s.pushes|
  {
    if s.entries[k].status == Pushing then
      PushComesOn(s, k);
      Drained(ServePush(s, Done), k)
    else s
  }

  lemma PushIfDirtyComes(s: Cache, k: Key)
    requires PushComes(s, k)
    ensures PushComes(PushIfDirty(s, k), k) && PushIfDirty(s, k).entries.Keys == s.entries.Keys
  {
  }

  /** ~FileTableEntry without the delete-without-sync flag: push if dirty, wait, delete the backing file. */
  ghost function Destroyed(s: Cache, k: Key): (s': Cache)
    requires PushComes(s, k)
    ensures s'.entries.Keys == s.entries.Keys - {k}
  {
    PushIfDirtyComes(s, k);
    Remove(Drained(PushIfDirty(s, k), k), k)
  }

  predicate NeedsPush(e: Entry) {
    e.status == Dirty || e.status == Pushing
  }

  lemma DestroyedClean(s: Cache, k: Key)
    requires k in s.entries && !NeedsPush(s.entries[k])
    ensures PushComes(s, k) && Destroyed(s, k) == Remove(s, k)
  {
  }

  /** One turn of the wait in the destructor of the entry at k: the worker serves the oldest push. */
  method ServeMeanwhile(cache: FileCache, k: Key)
    requires cache.Valid() && cache.drive.reliable && PushComes(cache.State(), k) && cache.entries[k].status == Pushing
    modifies cache.Repr()
    ensures cache.Valid() && cache.cachemap == old(cache.cachemap) && PushComes(cache.State(), k)
    ensures |cache.pushRequests| < |old(cache.pushRequests)|
    ensures Drained(cache.State(), k) == old(Drained(cache.State(), k))
    ensures forall n :: old(cache.NamesFrom(n)) ==> cache.NamesFrom(n)
  {
    hide FileCache.Valid, ServePush, Map, FileCache.NamesFrom;
    ghost var s := cache.State();
    PushComesOn(s, k);
    ghost var outcome := cache.HandleFilePushReq();
  }

  lemma PushIfDirtyStatus(s: Cache, k: Key)
    requires PushComes(s, k)
    ensures k in PushIfDirty(s, k).entries
    ensures PushIfDirty(s, k).entries[k].status == Pushing ==> NeedsPush(s.entries[k])
  {
  }

  /** The destructor's wait, in which the worker serves pushes. */
  method AwaitPush(cache: FileCache, k: Key)
    requires cache.Valid() && PushComes(cache.State(), k) && k in cache.cachemap && k in cache.entries
    requires cache.entries[k].status == Pushing ==> cache.drive.reliable
    modifies cache.Repr()
    ensures cache.Valid() && cache.cachemap == old(cache.cachemap) && k in cache.entries
    ensures cache.State() == Drained(old(cache.State()), k)
    ensures forall n :: old(cache.NamesFrom(n)) ==> cache.NamesFrom(n)
  {
    hide FileCache.Valid, Map, PushComes, Drained, FileCache.NamesFrom;
    var status := StatusOf(cache, k);
    while status == Pushing
      invariant cache.Valid() && PushComes(cache.State(), k)
      invariant cache.cachemap == old(cache.cachemap) && k in cache.entries && status == cache.entries[k].status
      invariant Drained(cache.State(), k) == Drained(old(cache.State()), k)
      invariant status == Pushing ==> cache.drive.reliable
      invariant forall n :: old(cache.NamesFrom(n)) ==> cache.NamesFrom(n)
      decreases |cache.pushRequests|
    {
      ServeMeanwhile(cache, k);
      status := StatusOf(cache, k);
    }
    DrainedDone(cache.State(), k);
  }

  /** ~FileTableEntry. */
  method DestroyEntry(cache: FileCache, k: Key, deleteWithoutSync: bool)
    requires cache.Valid() && k in cache.entries
    requires !deleteWithoutSync ==> PushComes(cache.State(), k)
    requires !deleteWithoutSync && NeedsPush(cache.entries[k]) ==> cache.drive.reliable
    modifies cache.Repr()
    ensures cache.Valid() && cache.cachemap == old(cache.cachemap) - {k}
    ensures cache.State() == if deleteWithoutSync then Remove(old(cache.State()), k) else Destroyed(old(cache.State()), k)
    ensures forall n :: old(cache.NamesFrom(n)) ==> cache.NamesFrom(n)
  {
    hide FileCache.Valid, Map, PushComes, Drained, PushIfDirty, FileCache.NamesFrom;
    var keys := KeysOf(cache);
    if !deleteWithoutSync {
      PushIfDirtyComes(cache.State(), k);
      PushIfDirtyStatus(cache.State(), k);
      ghost var s := PushIfDirty(cache.State(), k);
      cache.PushEntry(k);
      AwaitPush(cache, k);
    }
    cache.DeleteEntry(k);
  }

  lemma DrainedDone(s: Cache, k: Key)
    requires PushComes(s, k) && s.entries[k].status != Pushing
    ensures Drained(s, k) == s
  {
  }

  method StatusOf(cache: FileCache, k: Key) returns (status: Status)
    requires cache.Valid() && k in cache.cachemap
    ensures k in cache.entries && status == cache.entries[k].status
  {
    status := cache.cachemap[k].status;
  }

  /** deleteCacheEntry: the local copy goes without a push, so clients see the device file again. */
  method DeleteCacheEntry(cache: FileCache, path: FsPath) returns (found: bool)
    requires cache.Valid()
    modifies cache.Repr()
    ensures cache.Valid() && (found <==> Keys(path) in old(cache.entries))
    ensures cache.State() == if found then Remove(old(cache.State()), Keys(path)) else old(cache.State())
  {
    hide FileCache.Valid, Map, PushComes, Keys;
    var keys := KeysOf(cache);
    found := Keys(path) in keys;
    if found {
      DestroyEntry(cache, Keys(path), true);
    }
  }

  // ---------- The background job ----------

  function SweptEntry(e: Entry, due: bool): Entry {
    if e.status == Dirty && e.writeAccesses == 0 && due then e.(status := Pushing) else e
  }

  /** The entries after a sweep that was not interrupted. */
  function Swept(entries: map<Key, Entry>, writeDue: set<Key>, idleDue: set<Key>): map<Key, Entry> {
    map k | k in entries && !(entries[k].Idle() && k in idleDue) :: SweptEntry(entries[k], k in writeDue)
  }

  function SyncedEntry(e: Entry): Entry {
    if e.status == Dirty then e.(status := Pushing) else e
  }

  /** One turn of the loop in syncAllDirties. */
  method SyncEntry(cache: FileCache, k: Key)
    requires cache.Valid() && Inv(cache.State()) && k in cache.cachemap
    modifies cache.Repr()
    ensures cache.Valid() && Inv(cache.State()) && View(cache.State()) == old(View(cache.State()))
    ensures cache.cachemap == old(cache.cachemap)
    ensures k in old(cache.entries)
    ensures cache.entries == old(cache.entries)[k := SyncedEntry(old(cache.entries)[k])]
  {
    hide Inv, View, FileCache.Valid;
    var keys := KeysOf(cache);
    PushIfDirtyKeeps(cache.State(), k);
    cache.PushEntry(k);
  }

  /** Every dirty entry is pushing and its push is queued; every other entry is as it was. */
  ghost predicate DirtiesPushed(s: Cache, s': Cache) {
    && s'.entries.Keys == s.entries.Keys
    && forall k :: k in s.entries ==>
         if s.entries[k].status == Dirty
         then s'.entries[k] == s.entries[k].(status := Pushing) && Transfer(k, s.entries[k].file) in s'.pushes
         else s'.entries[k] == s.entries[k]
  }

  lemma SyncedMeans(s: Cache, s': Cache)
    requires Inv(s') && s'.entries == map k | k in s.entries :: SyncedEntry(s.entries[k])
    ensures DirtiesPushed(s, s')
  {
    hide Base;
    forall k | k in s.entries && s.entries[k].status == Dirty ensures Transfer(k, s.entries[k].file) in s'.pushes {
      assert EntryClean(s', k);
    }
  }

  lemma PartlySynced(entries: map<Key, Entry>, todo: set<Key>)
    ensures forall k :: k in entries ==>
              (var e := if k in todo then entries[k] else SyncedEntry(entries[k]);
               e == entries[k] || (entries[k].status == Dirty && e == entries[k].(status := Pushing)))
  {
  }

  /** syncAllDirties: every dirty entry is queued for a push, unless the loop is interrupted. */
  method SyncAllDirties(cache: FileCache) returns (interrupted: bool)
    requires cache.Valid() && Inv(cache.State())
    modifies cache.Repr()
    ensures cache.Valid() && Inv(cache.State()) && View(cache.State()) == old(View(cache.State()))
    ensures cache.entries.Keys == old(cache.entries).Keys
    ensures !interrupted ==> cache.entries == map k | k in old(cache.entries) :: SyncedEntry(old(cache.entries)[k])
    ensures !interrupted ==> DirtiesPushed(old(cache.State()), cache.State())
    ensures forall k :: k in old(cache.entries) ==>
              cache.entries[k] == old(cache.entries)[k]
              || (old(cache.entries)[k].status == Dirty && cache.entries[k] == old(cache.entries)[k].(status := Pushing))
  {
    hide Inv, View, FileCache.Valid, SyncedEntry, DirtiesPushed;
    var todo := KeysOf(cache);
    interrupted := false;
    while todo != {} && !interrupted
      invariant cache.Valid() && Inv(cache.State()) && View(cache.State()) == old(View(cache.State()))
      invariant cache.cachemap == old(cache.cachemap) && todo <= cache.cachemap.Keys
      invariant cache.entries.Keys == old(cache.entries).Keys == cache.cachemap.Keys
      invariant cache.entries == map k | k in old(cache.entries) ::
                                   if k in todo then old(cache.entries)[k] else SyncedEntry(old(cache.entries)[k])
      decreases todo
    {
      var k :| k in todo;
      SyncEntry(cache, k);
      todo := todo - {k};
      if todo != {} {
        interrupted := *;
      }
    }
    PartlySynced(old(cache.entries), todo);
    if !interrupted {
      SyncedMeans(old(cache.State()), cache.State());
    }
  }

  /** Whether the scan may list this entry for deletion. */
  method IsIdle(cache: FileCache, k: Key) returns (idle: bool)
    requires cache.Valid() && k in cache.cachemap
    ensures idle <==> cache.entries[k].Idle()
  {
    idle := cache.cachemap[k].Idle();
  }

  method IsDirtyAndWriteClear(cache: FileCache, k: Key) returns (r: bool)
    requires cache.Valid() && k in cache.cachemap
    ensures r <==> cache.entries[k].status == Dirty && cache.entries[k].writeAccesses == 0
  {
    r := cache.cachemap[k].status == Dirty && cache.cachemap[k].writeAccesses == 0;
  }

  /** What the scan does with one entry; tells whether the entry is listed for deletion. */
  method ScanEntry(cache: FileCache, k: Key, writeDue: set<Key>, idleDue: set<Key>) returns (delete: bool)
    requires cache.Valid() && Inv(cache.State()) && k in cache.cachemap
    modifies cache.Repr()
    ensures cache.Valid() && Inv(cache.State()) && View(cache.State()) == old(View(cache.State()))
    ensures cache.cachemap == old(cache.cachemap)
    ensures k in old(cache.entries)
    ensures cache.entries == old(cache.entries)[k := SweptEntry(old(cache.entries)[k], k in writeDue)]
    ensures delete <==> old(cache.entries)[k].Idle() && k in idleDue
  {
    hide Inv, View, FileCache.Valid;
    var keys := KeysOf(cache);
    var push := IsDirtyAndWriteClear(cache, k);
    if push && k in writeDue {
      PushIfDirtyKeeps(cache.State(), k);
      cache.PushEntry(k);
    }
    var idle := IsIdle(cache, k);
    delete := idle && k in idleDue;
  }

  /** The entries seen so far are swept, the others untouched, and those to delete are listed. */
  ghost predicate Scanned(before: map<Key, Entry>, after: map<Key, Entry>, todo: set<Key>, listed: set<Key>,
                          writeDue: set<Key>, idleDue: set<Key>)
  {
    && after.Keys == before.Keys
    && (forall k :: k in before ==> after[k] == if k in todo then before[k] else SweptEntry(before[k], k in writeDue))
    && listed == set k | k in before && k !in todo && before[k].Idle() && k in idleDue
  }

  lemma ScannedOne(before: map<Key, Entry>, after: map<Key, Entry>, todo: set<Key>, listed: set<Key>,
                   writeDue: set<Key>, idleDue: set<Key>, k: Key)
    requires Scanned(before, after, todo, listed, writeDue, idleDue) && k in todo && k in before
    ensures Scanned(before, after[k := SweptEntry(before[k], k in writeDue)], todo - {k},
                    if before[k].Idle() && k in idleDue then listed + {k} else listed, writeDue, idleDue)
  {
  }

  lemma ScannedIdle(before: map<Key, Entry>, after: map<Key, Entry>, todo: set<Key>, listed: set<Key>,
                    writeDue: set<Key>, idleDue: set<Key>)
    requires Scanned(before, after, todo, listed, writeDue, idleDue)
    ensures forall k :: k in listed ==> k in before && before[k].Idle() && k in after && after[k].Idle() && k in idleDue
    ensures todo == {} ==> after - listed == Swept(before, writeDue, idleDue)
  {
  }

  /** The first pass of generalTimeBasedSync: push what is due, list what is idle. */
  method Scan(cache: FileCache, writeDue: set<Key>, idleDue: set<Key>)
    returns (deleteThese: set<Key>, interrupted: bool, ghost todo: set<Key>)
    requires cache.Valid() && Inv(cache.State())
    modifies cache.Repr()
    ensures cache.Valid() && Inv(cache.State()) && View(cache.State()) == old(View(cache.State()))
    ensures cache.cachemap == old(cache.cachemap) && cache.entries.Keys == cache.cachemap.Keys
    ensures Scanned(old(cache.entries), cache.entries, todo, deleteThese, writeDue, idleDue)
    ensures !interrupted ==> todo == {}
  {
    hide Inv, View, FileCache.Valid, SweptEntry, Scanned, Entry.Idle;
    deleteThese := {};
    interrupted := false;
    var left := KeysOf(cache);
    ScannedNothing(cache.entries, writeDue, idleDue);
    while left != {} && !interrupted
      invariant cache.Valid() && Inv(cache.State()) && View(cache.State()) == old(View(cache.State()))
      invariant cache.cachemap == old(cache.cachemap) && left <= cache.cachemap.Keys
      invariant cache.entries.Keys == old(cache.entries).Keys == cache.cachemap.Keys
      invariant forall k :: k in left ==> cache.entries[k] == old(cache.entries)[k]
      invariant Scanned(old(cache.entries), cache.entries, left, deleteThese, writeDue, idleDue)
      decreases left
    {
      var k :| k in left;
      ScannedOne(old(cache.entries), cache.entries, left, deleteThese, writeDue, idleDue, k);
      var delete := ScanEntry(cache, k, writeDue, idleDue);
      if delete {
        deleteThese := deleteThese + {k};
      }
      left := left - {k};
      if left != {} {
        interrupted := *;
      }
    }
    todo := left;
  }

  lemma ScannedNothing(entries: map<Key, Entry>, writeDue: set<Key>, idleDue: set<Key>)
    ensures Scanned(entries, entries, entries.Keys, {}, writeDue, idleDue)
  {
  }

  lemma DropOneMore(entries: map<Key, Entry>, listed: set<Key>, left: set<Key>, k: Key)
    requires k in left && left <= listed
    ensures entries - (listed - (left - {k})) == (entries - (listed - left)) - {k}
  {
  }

  /** Deleting an entry from the list; it is idle, so its destructor has nothing to push. */
  method DeleteIdle(cache: FileCache, k: Key)
    requires cache.Valid() && Inv(cache.State()) && k in cache.entries && cache.entries[k].Idle()
    modifies cache.Repr()
    ensures cache.Valid() && Inv(cache.State()) && View(cache.State()) == old(View(cache.State()))
    ensures cache.cachemap == old(cache.cachemap) - {k} && cache.entries == old(cache.entries) - {k}
  {
    hide Inv, View, FileCache.Valid, PushComes, Destroyed;
    EvictKeeps(cache.State(), k);
    DestroyedClean(cache.State(), k);
    DestroyEntry(cache, k, false);
  }

  /** The second pass of generalTimeBasedSync: delete what the scan listed. */
  method DeleteListed(cache: FileCache, listed: set<Key>) returns (interrupted: bool)
    requires cache.Valid() && Inv(cache.State()) && listed <= cache.cachemap.Keys
    requires forall k :: k in listed ==> k in cache.entries && cache.entries[k].Idle()
    modifies cache.Repr()
    ensures cache.Valid() && Inv(cache.State()) && View(cache.State()) == old(View(cache.State()))
    ensures cache.entries.Keys <= old(cache.entries).Keys
    ensures cache.entries == old(cache.entries) - (old(cache.entries).Keys - cache.entries.Keys)
    ensures old(cache.entries).Keys - cache.entries.Keys <= listed
    ensures !interrupted ==> cache.entries == old(cache.entries) - listed
  {
    hide Inv, View, FileCache.Valid, Entry.Idle;
    interrupted := false;
    var left := listed;
    var keys := KeysOf(cache);
    while left != {} && !interrupted
      invariant cache.Valid() && Inv(cache.State()) && View(cache.State()) == old(View(cache.State()))
      invariant left <= listed && cache.entries == old(cache.entries) - (listed - left)
      invariant cache.cachemap.Keys == cache.entries.Keys
      invariant cache.Repr() <= old(cache.Repr())
      decreases left
    {
      var k :| k in left;
      DeleteIdle(cache, k);
      DropOneMore(old(cache.entries), listed, left, k);
      left := left - {k};
      keys := KeysOf(cache);
      if left != {} {
        interrupted := *;
      }
    }
  }

  /** An entry that is counted as accessed, or has a transfer under way, or a change that is not saved. */
  predicate Busy(e: Entry) {
    e.readAccesses != 0 || e.writeAccesses != 0 || e.status == Pulling || e.status == Dirty || e.status == Pushing
  }

  /** Dirty entries that nobody writes are pushing, with their push queued, or as they were; everything else is as it was. */
  ghost predicate PushedOrSame(s: Cache, s': Cache, k: Key, due: bool)
    requires k in s.entries && k in s'.entries
  {
    var e := s.entries[k];
    || s'.entries[k] == e
    || (due && e.status == Dirty && e.writeAccesses == 0
        && s'.entries[k] == e.(status := Pushing) && Transfer(k, e.file) in s'.pushes)
  }

  /** No busy entry is deleted. */
  ghost predicate BusyKept(s: Cache, s': Cache, writeDue: set<Key>) {
    && s'.entries.Keys <= s.entries.Keys
    && (forall k :: k in s.entries && Busy(s.entries[k]) ==> k in s'.entries)
    && (forall k :: k in s'.entries ==> PushedOrSame(s, s', k, k in writeDue))
  }

  /** Every other entry that is due is deleted, and every dirty entry that is due and that nobody writes is pushed. */
  ghost predicate SweptClean(s: Cache, s': Cache, writeDue: set<Key>, idleDue: set<Key>) {
    && (forall k :: k in s.entries ==> (k in s'.entries <==> Busy(s.entries[k]) || k !in idleDue))
    && (forall k :: k in s.entries && s.entries[k].status == Dirty && s.entries[k].writeAccesses == 0 && k in writeDue ==>
          k in s'.entries && s'.entries[k].status == Pushing && Transfer(k, s.entries[k].file) in s'.pushes)
  }

  lemma KeptMeans(s: Cache, scanned: map<Key, Entry>, s': Cache, todo: set<Key>, listed: set<Key>,
                  writeDue: set<Key>, idleDue: set<Key>)
    requires Scanned(s.entries, scanned, todo, listed, writeDue, idleDue) && Inv(s')
    requires s'.entries.Keys <= scanned.Keys && scanned.Keys - s'.entries.Keys <= listed
    requires s'.entries == scanned - (scanned.Keys - s'.entries.Keys)
    ensures BusyKept(s, s', writeDue)
  {
    hide Base;
    forall k | k in s'.entries ensures k in s.entries && PushedOrSame(s, s', k, k in writeDue) {
      assert EntryClean(s', k) && s'.entries[k] == scanned[k];
    }
  }

  lemma SweptMeans(s: Cache, s': Cache, writeDue: set<Key>, idleDue: set<Key>)
    requires Inv(s') && s'.entries == Swept(s.entries, writeDue, idleDue)
    ensures SweptClean(s, s', writeDue, idleDue)
  {
    hide Base;
    forall k | k in s.entries && s.entries[k].status == Dirty && s.entries[k].writeAccesses == 0 && k in writeDue
      ensures k in s'.entries && s'.entries[k].status == Pushing && Transfer(k, s.entries[k].file) in s'.pushes
    {
      assert EntryClean(s', k);
    }
  }

  /** generalTimeBasedSync. */
  method GeneralTimeBasedSync(cache: FileCache, writeDue: set<Key>, idleDue: set<Key>) returns (interrupted: bool)
    requires cache.Valid() && Inv(cache.State())
    modifies cache.Repr()
    ensures cache.Valid() && Inv(cache.State()) && View(cache.State()) == old(View(cache.State()))
    ensures forall k :: k in old(cache.entries) && k !in cache.entries ==> old(cache.entries)[k].Idle() && k in idleDue
    ensures !interrupted ==> cache.entries == Swept(old(cache.entries), writeDue, idleDue)
    ensures BusyKept(old(cache.State()), cache.State(), writeDue)
    ensures !interrupted ==> SweptClean(old(cache.State()), cache.State(), writeDue, idleDue)
  {
    hide Inv, View, FileCache.Valid, SweptEntry, Scanned, Entry.Idle, Swept, BusyKept, SweptClean;
    var deleteThese;
    ghost var todo;
    deleteThese, interrupted, todo := Scan(cache, writeDue, idleDue);
    ScannedIdle(old(cache.entries), cache.entries, todo, deleteThese, writeDue, idleDue);
    ScannedKeys(old(cache.entries), cache.entries, todo, deleteThese, writeDue, idleDue);
    ghost var scanned := cache.entries;
    var stopped := DeleteListed(cache, deleteThese);
    interrupted := interrupted || stopped;
    KeptMeans(old(cache.State()), scanned, cache.State(), todo, deleteThese, writeDue, idleDue);
    if !interrupted {
      SweptMeans(old(cache.State()), cache.State(), writeDue, idleDue);
    }
  }

  lemma ScannedKeys(before: map<Key, Entry>, after: map<Key, Entry>, todo: set<Key>, listed: set<Key>,
                    writeDue: set<Key>, idleDue: set<Key>)
    requires Scanned(before, after, todo, listed, writeDue, idleDue)
    ensures after.Keys == before.Keys
  {
  }

  // ---------- Shutdown ----------

  ghost predicate NoClients(s: Cache) {
    && s.pulls == []
    && forall k :: k in s.entries ==> s.entries[k].writers == 0 && s.entries[k].status != Pulling
  }

  /** The device after every entry was flushed: cached contents win, except empty ones, which cannot be pushed. */
  ghost function Flushed(s: Cache): PathMap {
    imap k: Key | k in s.device ::
      if HoldsAt(s, k) && s.files[s.entries[k].file] != [] then Content(s.files[s.entries[k].file]) else s.device[k]
  }

  /** No cached file is empty, except where the device file is empty as well. */
  ghost predicate NoEmptyCopies(s: Cache) {
    forall k :: HoldsAt(s, k) && s.files[s.entries[k].file] == [] ==> k in s.device && s.device[k] == Content([])
  }

  /** A flush leaves the device equal to the view exactly when there are no empty copies. */
  lemma FlushMeetsView(s: Cache)
    requires Inv(s)
    ensures Flushed(s) == View(s) <==> NoEmptyCopies(s)
  {
    forall k | HoldsAt(s, k) ensures HasFile(s.device, k) {
      assert EntryBase(s, k);
    }
    if Flushed(s) == View(s) {
      forall k | HoldsAt(s, k) && s.files[s.entries[k].file] == [] ensures s.device[k] == Content([]) {
        assert View(s)[k] == Content([]) && Flushed(s)[k] == s.device[k];
      }
    }
  }

  /** Nobody can write any more and the entry needs no push, or cannot be pushed because it is empty. */
  ghost predicate Finished(s: Cache, k: Key)
    requires k in s.entries
  {
    var e := s.entries[k];
    e.status != Pulling && e.status != Pushing && (e.status == Dirty ==> e.file in s.files && s.files[e.file] == [])
  }

  /** When only k is touched, what a flush leaves changes at k at most. */
  lemma FlushedOnly(s: Cache, s': Cache, k: Key)
    requires Only(s, s', k) && OtherFiles(s, s', k)
    requires k in s'.device <==> k in s.device
    requires k in s.device ==> Flushed(s')[k] == Flushed(s)[k]
    ensures Flushed(s') == Flushed(s)
  {
    forall l | l != k
      ensures l in Flushed(s') <==> l in Flushed(s)
      ensures l in Flushed(s) ==> Flushed(s')[l] == Flushed(s)[l]
    {
      SameEntry(s, s', k, l);
      assert HoldsAt(s', l) <==> HoldsAt(s, l);
    }
  }

  lemma NoClientsOnly(s: Cache, s': Cache, k: Key)
    requires NoClients(s) && s'.entries - {k} == s.entries - {k} && s'.pulls == []
    requires k in s'.entries ==> s'.entries[k].writers == 0 && s'.entries[k].status != Pulling
    ensures NoClients(s')
  {
    forall l | l in s'.entries && l != k ensures s'.entries[l].writers == 0 && s'.entries[l].status != Pulling {
      SameEntry(s, s', k, l);
    }
  }

  lemma FlushAfterRemove(s: Cache, k: Key)
    requires Inv(s) && NoClients(s) && k in s.entries && Finished(s, k)
    ensures Inv(Remove(s, k)) && NoClients(Remove(s, k)) && Flushed(Remove(s, k)) == Flushed(s)
  {
    var s' := Remove(s, k);
    OwnFile(s, k);
    RemovedQueues(s, k);
    RemoveTouches(s, k);
    RemovedFlush(s, k);
    assert s'.pulls == [] && s'.entries - {k} == s.entries - {k};
    hide QueuesOk, FilesOk, Only, OtherFiles, NoClients, Flushed, EntryBase, EntryClean;
    BaseOnly(s, s', k);
    CleanOnly(s, s', k);
    NoClientsOnly(s, s', k);
    FlushedOnly(s, s', k);
  }

  /** A finished entry's copy is what the flush leaves on the device anyway. */
  lemma RemovedFlush(s: Cache, k: Key)
    requires Inv(s) && NoClients(s) && k in s.entries && Finished(s, k)
    ensures k in s.device ==> Flushed(Remove(s, k))[k] == Flushed(s)[k]
  {
    OwnFile(s, k);
    assert EntryClean(s, k);
    hide Inv;
    assert !HoldsAt(Remove(s, k), k);
  }

  lemma RemovedQueues(s: Cache, k: Key)
    requires Inv(s) && NoClients(s) && k in s.entries
    ensures QueuesOk(s.entries - {k}, s.pulls, s.pushes, s.used)
    ensures FilesOk(s.entries - {k}, s.files - {s.entries[k].file})
  {
    BaseParts(s);
    hide EntryBase;
    QueuesRemove(s.entries, s.pulls, s.pushes, s.used, k);
    FilesRemove(s.entries, s.files, k);
  }

  lemma FlushAfterPushIfDirty(s: Cache, k: Key)
    requires NoClients(s) && k in s.entries
    ensures NoClients(PushIfDirty(s, k)) && Flushed(PushIfDirty(s, k)) == Flushed(s)
  {
    var s' := PushIfDirty(s, k);
    if s.entries[k].status == Dirty {
      assert s'.entries - {k} == s.entries - {k};
      NoClientsOnly(s, s', k);
      hide NoClients;
      FlushedOnly(s, s', k);
    }
  }

  lemma LivePushTouches(s: Cache)
    requires Inv(s) && s.pushes != [] && Live(s.entries, s.pushes[0])
    ensures var t, s' := s.pushes[0], ServePush(s, Done);
            && Only(s, s', t.key) && OtherFiles(s, s', t.key)
            && HoldsAt(s, t.key) && t.key in s'.entries && HoldsAt(s', t.key)
            && s'.entries[t.key].writers == s.entries[t.key].writers
            && s'.entries[t.key].file == s.entries[t.key].file
            && s'.entries[t.key].status != Pulling
  {
    var t := s.pushes[0];
    BaseParts(s);
    TransfersAt(s, t.key);
    OwnFile(s, t.key);
    hide Inv, QueuesOk, FilesOk;
    ServePushOnly(s, Done);
  }

  /** Serving a push sends the bytes a flush would send. */
  lemma FlushAfterServePush(s: Cache)
    requires Inv(s) && NoClients(s) && s.pushes != []
    ensures NoClients(ServePush(s, Done)) && Flushed(ServePush(s, Done)) == Flushed(s)
  {
    var t := s.pushes[0];
    var s' := ServePush(s, Done);
    if Live(s.entries, t) {
      LivePushTouches(s);
      hide Inv;
      assert s'.entries - {t.key} == s.entries - {t.key};
      hide OtherFiles;
      NoClientsOnly(s, s', t.key);
      hide NoClients, Only;
      FlushedOnly(s, s', t.key);
    } else {
      OrphanHasNoFile(s, t);
      hide Inv;
      FlushedSame(s, s');
    }
  }

  lemma FlushedSame(s: Cache, s': Cache)
    requires s'.device == s.device && s'.entries == s.entries && s'.files == s.files
    ensures Flushed(s') == Flushed(s)
  {
    forall l ensures HoldsAt(s', l) <==> HoldsAt(s, l) {
    }
  }

  lemma InvPushComes(s: Cache, k: Key)
    requires Inv(s) && k in s.entries
    ensures PushComes(s, k)
  {
    assert EntryClean(s, k);
  }

  ghost predicate Draining(s: Cache, k: Key) {
    Inv(s) && NoClients(s) && k in s.entries && (s.entries[k].status == Pushing || Finished(s, k))
  }

  /** Serving a push leaves a pushing entry pushing or finishes it. */
  lemma PushFinishes(s: Cache, k: Key)
    requires Inv(s) && NoClients(s) && s.pushes != [] && k in s.entries && s.entries[k].status == Pushing
    ensures Draining(ServePush(s, Done), k)
  {
    var t := s.pushes[0];
    ServePushKeeps(s, Done);
    FlushAfterServePush(s);
    OwnFile(s, k);
    hide Inv, QueuesOk, FilesOk, NoClients;
    if Live(s.entries, t) && t.key == k {
      assert t.file == s.entries[k].file;
    }
  }

  lemma {:induction false} FlushAfterDrain(s: Cache, k: Key)
    requires Draining(s, k) && PushComes(s, k)
    ensures Draining(Drained(s, k), k) && Flushed(Drained(s, k)) == Flushed(s)
    decreases |s.pushes|
  {
    if s.entries[k].status == Pushing {
      PushComesOn(s, k);
      PushFinishes(s, k);
      FlushAfterServePush(s);
      hide Draining, Flushed, ServePush;
      FlushAfterDrain(ServePush(s, Done), k);
    }
  }

  lemma StartDraining(s: Cache, k: Key)
    requires Inv(s) && NoClients(s) && k in s.entries
    ensures Draining(PushIfDirty(s, k), k) && Flushed(PushIfDirty(s, k)) == Flushed(s)
  {
    NotPulling(s, k);
    PushIfDirtyKeeps(s, k);
    FlushAfterPushIfDirty(s, k);
  }

  /** Destroying an entry does not change what the flush will leave. */
  lemma FlushAfterDestroy(s: Cache, k: Key)
    requires Inv(s) && NoClients(s) && PushComes(s, k)
    ensures Inv(Destroyed(s, k)) && NoClients(Destroyed(s, k)) && Flushed(Destroyed(s, k)) == Flushed(s)
  {
    StartDraining(s, k);
    PushIfDirtyComes(s, k);
    hide Inv, NoClients, Flushed, PushIfDirty;
    FlushAfterDrain(PushIfDirty(s, k), k);
    FlushAfterRemove(Drained(PushIfDirty(s, k), k), k);
  }

  lemma NotPulling(s: Cache, k: Key)
    requires NoClients(s) && k in s.entries
    ensures s.entries[k].status != Pulling
  {
  }

  /**
   ~FileCache.  With no client active the device ends up as `Flushed` says, which is the view just before exactly when
   no cached file is empty (or replaces an empty one).
   */
  method DestroyCache(cache: FileCache)
    requires cache.Valid() && cache.drive.reliable && Inv(cache.State()) && NoClients(cache.State())
    modifies cache.Repr()
    ensures cache.Valid() && cache.entries == map[]
    ensures cache.drive.Items() == old(Flushed(cache.State()))
    ensures cache.drive.Items() == old(View(cache.State())) <==> old(NoEmptyCopies(cache.State()))
  {
    hide Inv, NoClients, FileCache.Valid, View, NoEmptyCopies, Flushed, Map;
    FlushMeetsView(cache.State());
    var todo := KeysOf(cache);
    while todo != {}
      invariant cache.Valid() && Inv(cache.State()) && NoClients(cache.State())
      invariant todo == cache.cachemap.Keys && cache.Repr() <= old(cache.Repr())
      invariant Flushed(cache.State()) == old(Flushed(cache.State()))
      decreases todo
    {
      var k :| k in todo;
      DestroyNext(cache, k);
      todo := todo - {k};
    }
    var keys := KeysOf(cache);
    FlushedEmpty(cache.State());
  }

  lemma FlushedEmpty(s: Cache)
    requires s.entries.Keys == {}
    ensures Flushed(s) == s.device
  {
  }

  method DestroyNext(cache: FileCache, k: Key)
    requires cache.Valid() && cache.drive.reliable && Inv(cache.State()) && NoClients(cache.State()) && k in cache.cachemap
    modifies cache.Repr()
    ensures cache.Valid() && Inv(cache.State()) && NoClients(cache.State())
    ensures cache.cachemap == old(cache.cachemap) - {k}
    ensures Flushed(cache.State()) == old(Flushed(cache.State()))
  {
    hide Inv, NoClients, FileCache.Valid, Flushed, Map, PushComes, Destroyed;
    var keys := KeysOf(cache);
    InvPushComes(cache.State(), k);
    FlushAfterDestroy(cache.State(), k);
    DestroyEntry(cache, k, false);
  }
}
