/**
 The cache's objects: an entry (FileCache::FileTableEntry) and the cache with its map, its backing files and the
 transfer queues its requests go to.  Every method is one step of `CacheSpec`, or a loop of such steps.

 A queued request finds its entry again by key and backing file name; the callback of an entry that is gone does nothing.
 */
module CacheObjects {
  import opened Paths
  import opened Blocks
  import opened Nodes
  import opened Drives
  import opened HashNames
  import opened CacheSpec
  import opened FileRequests
  import opened Requests
  import opened Names

  class FileTableEntry {
    var pathOnDevice: FsPath
    const pathInCache: FileName
    var status: Status
    var readAccesses: int
    var writeAccesses: int
    // clients that were granted access, and clients that wait
    ghost var readers: nat
    ghost var writers: nat
    ghost var pullReaders: nat
    ghost var pullWriters: nat
    ghost var pushWriters: nat

    ghost function State(): Entry
      reads this
    {
      Entry(pathInCache, status, readAccesses, writeAccesses, readers, writers, pullReaders, pullWriters, pushWriters)
    }

    constructor (devicePath: FsPath, name: FileName)
      ensures pathOnDevice == devicePath && pathInCache == name
      ensures status == NonExistent && readAccesses == 0 && writeAccesses == 0
      ensures readers == 0 && writers == 0 && pullReaders == 0 && pullWriters == 0 && pushWriters == 0
      ensures State() == NewEntry(name)
    {
      pathOnDevice := devicePath;
      pathInCache := name;
      status := NonExistent;
      readAccesses, writeAccesses := 0, 0;
      readers, writers, pullReaders, pullWriters, pushWriters := 0, 0, 0, 0, 0;
    }

    /** getReadAccess and getWriteAccess up to the first wait; tells whether a pull must be requested. */
    method GetAccess(write: bool) returns (pull: bool)
      modifies this
      ensures pathOnDevice == old(pathOnDevice)
      ensures State() == old(State()).Began(write)
      ensures pull <==> old(State()).NeedsPull()
      ensures pull <==> old(status) == NonExistent || old(status) == Fail
      ensures status == if pull then Pulling else old(status)
      ensures readAccesses == old(readAccesses) + (if write then 0 else 1)
      ensures writeAccesses == old(writeAccesses) + (if write then 1 else 0)
      ensures write && old(status) == Pushing ==> writers == old(writers) && pushWriters == old(pushWriters) + 1
      ensures write && (old(status) == Available || old(status) == Dirty) ==> writers == old(writers) + 1
      ensures !write && (old(status) == Available || old(status) == Dirty || old(status) == Pushing) ==>
                readers == old(readers) + 1
      ensures old(status) == NonExistent || old(status) == Fail || old(status) == Pulling ==>
                readers == old(readers) && writers == old(writers)
                && pullReaders == old(pullReaders) + (if write then 0 else 1)
                && pullWriters == old(pullWriters) + (if write then 1 else 0)
    {
      if write {
        writeAccesses := writeAccesses + 1;
      } else {
        readAccesses := readAccesses + 1;
      }
      pull := false;
      if status == Pushing && write {
        pushWriters := pushWriters + 1;
      } else if status == Available || status == Pushing || status == Dirty {
        if write { writers := writers + 1; } else { readers := readers + 1; }
      } else {
        if status != Pulling {
          status := Pulling;
          pull := true;
        }
        if write { pullWriters := pullWriters + 1; } else { pullReaders := pullReaders + 1; }
      }
    }

    /** A client that waited for the pull goes on. */
    method AfterPull(write: bool) returns (granted: bool)
      requires State().CanWakeFromPull(write)
      modifies this
      ensures pathOnDevice == old(pathOnDevice)
      ensures State() == old(State()).WokeFromPull(write)
      ensures granted <==> old(status) != Fail
      ensures status == old(status) && readAccesses == old(readAccesses) && writeAccesses == old(writeAccesses)
      ensures readers == old(readers) + (if granted && !write then 1 else 0)
      ensures writers == old(writers) + (if granted && write then 1 else 0)
    {
      if write { pullWriters := pullWriters - 1; } else { pullReaders := pullReaders - 1; }
      granted := status != Fail;
      if granted {
        if write { writers := writers + 1; } else { readers := readers + 1; }
      }
    }

    /** A writer that waited for a push goes on. */
    method AfterPush()
      requires State().CanWakeFromPush()
      modifies this
      ensures pathOnDevice == old(pathOnDevice)
      ensures State() == old(State()).WokeFromPush()
      ensures status == old(status) && readAccesses == old(readAccesses) && writeAccesses == old(writeAccesses)
      ensures writers == old(writers) + 1 && pushWriters == old(pushWriters) - 1
    {
      pushWriters := pushWriters - 1;
      writers := writers + 1;
    }

    /** `granted` tells what became of the access, which the original does not ask. */
    method EndReadAccess(ghost granted: bool)
      requires granted ==> State().CanEnd(false)
      modifies this
      ensures pathOnDevice == old(pathOnDevice)
      ensures State() == if granted then old(State()).Ended(false) else old(State()).EndedUngranted(false)
      ensures status == old(status) && readAccesses == old(readAccesses) - 1 && writeAccesses == old(writeAccesses)
    {
      readAccesses := readAccesses - 1;
      readers := if granted then readers - 1 else readers;
    }

    method EndWriteAccess(ghost granted: bool)
      requires granted ==> State().CanEnd(true)
      modifies this
      ensures pathOnDevice == old(pathOnDevice)
      ensures State() == if granted then old(State()).Ended(true) else old(State()).EndedUngranted(true)
      ensures status == Dirty && writeAccesses == old(writeAccesses) - 1 && readAccesses == old(readAccesses)
    {
      writeAccesses := writeAccesses - 1;
      writers := if granted then writers - 1 else writers;
      status := Dirty;
    }

    method EndAccess(write: bool, ghost granted: bool)
      requires granted ==> State().CanEnd(write)
      modifies this
      ensures pathOnDevice == old(pathOnDevice)
      ensures State() == if granted then old(State()).Ended(write) else old(State()).EndedUngranted(write)
    {
      if write {
        EndWriteAccess(granted);
      } else {
        EndReadAccess(granted);
      }
    }

    /** pushIfDirty with _asyncPush; tells whether a push must be requested. */
    method PushIfDirty() returns (push: bool)
      modifies this
      ensures pathOnDevice == old(pathOnDevice)
      ensures push <==> old(status) == Dirty
      ensures State() == if push then old(State()).(status := Pushing) else old(State())
    {
      push := status == Dirty;
      if push {
        status := Pushing;
      }
    }

    /** AvabilitySwitcher::callback. */
    method PullCallback(successful: bool)
      modifies this
      ensures pathOnDevice == old(pathOnDevice)
      ensures State() == old(State()).PullDone(successful)
      ensures status == if successful then Available else Fail
      ensures readAccesses == old(readAccesses) && writeAccesses == old(writeAccesses)
    {
      status := if !successful then Fail else Available;
    }

    /** AvabilitySwitcher2::callback. */
    method PushCallback(successful: bool)
      modifies this
      ensures pathOnDevice == old(pathOnDevice)
      ensures State() == old(State()).PushDone(successful)
      ensures status == if old(status) != Pushing then old(status) else if successful then Available else Dirty
      ensures readAccesses == old(readAccesses) && writeAccesses == old(writeAccesses)
    {
      if status == Pushing {
        if successful {
          status := Available;
        } else {
          status := Dirty;
        }
      }
    }

    method Rename(newPath: FsPath)
      modifies this`pathOnDevice
      ensures pathOnDevice == newPath
    {
      pathOnDevice := newPath;
    }

    /** isIdle() && accessClear(). */
    predicate Idle()
      reads this
      ensures Idle() <==> State().Idle()
      ensures Idle() <==> (status == NonExistent || status == Available || status == Fail)
                          && readAccesses == 0 && writeAccesses == 0
    {
      status != Pulling && status != Pushing && status != Dirty && writeAccesses == 0 && readAccesses == 0
    }
  }

  datatype Request = Request(path: FsPath, file: FileName)

  ghost function Transfers(q: seq<Request>): (r: seq<Transfer>)
    ensures |r| == |q|
  {
    seq(|q|, i requires 0 <= i < |q| => Transfer(Keys(q[i].path), q[i].file))
  }

  /** The object is the entry e under key k. */
  ghost predicate Matches(o: FileTableEntry, k: Key, e: Entry)
    reads o
  {
    o.State() == e && Keys(o.pathOnDevice) == k
  }

  class FileCache {
    var cachemap: map<Key, FileTableEntry>
    const hashprov: ConflictlessHashProvider
    // the mapped drive and the queues of the connection
    const drive: Drive
    var pullRequests: seq<Request>
    var pushRequests: seq<Request>
    // the backing files by name
    var cacheFiles: map<FileName, seq<byte>>
    // the states of the entries
    ghost var entries: map<Key, Entry>

    ghost predicate Valid()
      reads this`cachemap, this`entries, drive, hashprov, cachemap.Values
    {
      && drive.Valid() && hashprov.Valid()
      && cachemap.Keys == entries.Keys
      && (forall k :: k in cachemap ==> Matches(cachemap[k], k, entries[k]))
      && (forall k :: k in entries ==> entries[k].file in hashprov.issued)
    }

    /** Valid, but the object at k may have moved on. */
    ghost predicate ValidBut(k: Key)
      reads this`cachemap, this`entries, drive, hashprov, cachemap.Values
    {
      && drive.Valid() && hashprov.Valid()
      && cachemap.Keys == entries.Keys && k in cachemap
      && (forall l :: l in cachemap && l != k ==> Matches(cachemap[l], l, entries[l]))
      && (forall l :: l in entries ==> entries[l].file in hashprov.issued)
    }

    /** Notes the new state of the entry at k. */
    ghost method Note(k: Key, e: Entry)
      requires ValidBut(k) && Matches(cachemap[k], k, e) && k in entries && e.file == entries[k].file
      modifies this`entries
      ensures Valid() && entries == old(entries)[k := e]
    {
      hide Drive.Valid, ConflictlessHashProvider.Valid, FileTableEntry.State;
      entries := entries[k := e];
    }

    /** An entry is one object, which stands for its own key only. */
    lemma EntryOfKey(k: Key)
      requires Valid() && k in cachemap
      ensures ValidBut(k) && k in entries && Matches(cachemap[k], k, entries[k])
      ensures forall l :: l in cachemap && l != k ==> cachemap[l] != cachemap[k]
    {
      hide Drive.Valid, ConflictlessHashProvider.Valid;
    }

    lemma KeyKnown(k: Key)
      requires Valid() && k in cachemap
      ensures k in entries
    {
    }

    ghost function Repr(): set<object>
      reads this
    {
      {this, drive, hashprov} + cachemap.Values
    }

    /** Every node of the device has the name it has in the tree n. */
    ghost predicate NamesFrom(n: Node)
      reads drive
    {
      NamesKept(n, drive.root)
    }

    ghost function State(): Cache
      reads this, drive, hashprov
    {
      Cache(drive.Items(), entries, cacheFiles, Transfers(pullRequests), Transfers(pushRequests),
            hashprov.issued)
    }

    constructor (drive: Drive, generator: string -> Hash)
      requires drive.Valid()
      ensures Valid() && fresh(Repr() - {drive}) && this.drive == drive
      ensures Init(State()) && State().device == drive.Items()
    {
      this.drive := drive;
      hashprov := new ConflictlessHashProvider(generator);
      cachemap := map[];
      entries := map[];
      pullRequests, pushRequests := [], [];
      cacheFiles := map[];
    }

    /** _createCacheEntry, for a path that has no entry yet; its constructor was given this backing file name. */
    method CreateCacheEntry(path: FsPath, name: FileName) returns (fte: FileTableEntry)
      requires Valid() && Keys(path) !in cachemap && name in hashprov.issued
      modifies this`cachemap, this`entries
      ensures Valid() && fresh(fte)
      ensures cachemap == old(cachemap)[Keys(path) := fte]
      ensures entries == old(entries)[Keys(path) := NewEntry(name)]
    {
      hide Drive.Valid, ConflictlessHashProvider.Valid, Map, Keys;
      fte := new FileTableEntry(path, name);
      cachemap := cachemap[Keys(path) := fte];
      entries := entries[Keys(path) := NewEntry(name)];
    }

    /** enqueueFilePullRequest. */
    method EnqueuePull(path: FsPath, file: FileName)
      modifies this`pullRequests
      ensures Transfers(pullRequests) == old(Transfers(pullRequests)) + [Transfer(Keys(path), file)]
    {
      pullRequests := pullRequests + [Request(path, file)];
    }

    /** enqueueFilePushRequest. */
    method EnqueuePush(path: FsPath, file: FileName)
      modifies this`pushRequests
      ensures Transfers(pushRequests) == old(Transfers(pushRequests)) + [Transfer(Keys(path), file)]
    {
      pushRequests := pushRequests + [Request(path, file)];
    }

    /** Counting an access and testing the status. */
    method CountAccess(fte: FileTableEntry, ghost k: Key, write: bool) returns (pull: bool)
      requires Valid() && k in cachemap && cachemap[k] == fte
      modifies fte, this`entries
      ensures Valid() && entries == old(entries)[k := old(entries)[k].Began(write)]
      ensures fte.pathInCache == old(entries)[k].file && Keys(fte.pathOnDevice) == k
      ensures pull <==> old(entries)[k].NeedsPull()
    {
      hide Drive.Valid, ConflictlessHashProvider.Valid, Keys, Entry.Began, Entry.NeedsPull;
      EntryOfKey(k);
      hide Valid;
      pull := fte.GetAccess(write);
      BeganKeepsFile(entries[k], write);
      Note(k, entries[k].Began(write));
    }

    lemma BeganKeepsFile(e: Entry, write: bool)
      ensures e.Began(write).file == e.file
    {
    }

    /** The part of beginning an access that works on the entry. */
    method AccessEntry(fte: FileTableEntry, ghost k: Key, write: bool)
      requires Valid() && k in cachemap && cachemap[k] == fte
      modifies fte, this`pullRequests, this`entries
      ensures Valid()
      ensures entries == old(entries)[k := old(entries)[k].Began(write)]
      ensures Transfers(pullRequests) == if old(entries)[k].NeedsPull()
                then old(Transfers(pullRequests)) + [Transfer(k, old(entries)[k].file)]
                else old(Transfers(pullRequests))
    {
      hide Drive.Valid, ConflictlessHashProvider.Valid, Keys, Entry.Began, Entry.NeedsPull, Transfers;
      var pull := CountAccess(fte, k, write);
      hide Valid;
      if pull {
        EnqueuePull(fte.pathOnDevice, fte.pathInCache);
      }
    }

    /** A backing file name from the printed path, and the entry. */
    method NewCacheEntry(path: FsPath) returns (fte: FileTableEntry, ghost name: FileName)
      requires Valid() && Keys(path) !in cachemap
      requires Returns(hashprov.generator, hashprov.alreadyUsedHashes, Join(path))
      modifies this`cachemap, this`entries, hashprov
      ensures Valid() && fresh(fte) && cachemap == old(cachemap)[Keys(path) := fte]
      ensures entries == old(entries)[Keys(path) := NewEntry(name)]
      ensures name !in old(hashprov.issued) && hashprov.issued == old(hashprov.issued) + {name}
    {
      hide Drive.Valid, ConflictlessHashProvider.Valid, Keys, Join, Returns;
      var printed := GetFullPath(path);
      var hash := hashprov.GetHash(printed);
      name := hash;
      fte := CreateCacheEntry(path, hash);
    }

    /** _cacheAccess: the entry for a path, created when it is missing. */
    method CacheAccess(path: FsPath) returns (fte: FileTableEntry, ghost name: FileName)
      requires Valid()
      requires Keys(path) !in cachemap ==> Returns(hashprov.generator, hashprov.alreadyUsedHashes, Join(path))
      modifies this`cachemap, this`entries, hashprov
      ensures Valid() && Keys(path) in cachemap && cachemap[Keys(path)] == fte
      ensures fte in old(cachemap.Values) || fresh(fte)
      ensures Keys(path) !in old(cachemap) ==> name !in old(hashprov.issued)
      ensures entries == old(entries)[Keys(path) := EntryFor(old(entries), Keys(path), name)]
      ensures hashprov.issued == old(hashprov.issued) + {entries[Keys(path)].file}
    {
      hide Drive.Valid, ConflictlessHashProvider.Valid, Keys;
      var k := Keys(path);
      name := "";
      if k in cachemap {
        fte := cachemap[k];
      } else {
        fte, name := NewCacheEntry(path);
      }
    }

    /** beginAccessByFileName up to the first wait: find or create the entry, count the access, request a pull. */
    method BeginAccessByFileName(path: FsPath, write: bool) returns (ghost name: FileName)
      requires Valid()
      requires Keys(path) !in cachemap ==> Returns(hashprov.generator, hashprov.alreadyUsedHashes, Join(path))
      modifies Repr()
      ensures Valid()
      ensures Keys(path) !in old(cachemap) ==> name !in old(State()).used
      ensures State() == BeginAccess(old(State()), Keys(path), write, name)
    {
      hide Valid, Keys, Entry.Began, Entry.NeedsPull, Transfers, Map;
      ghost var k, s0 := Keys(path), State();
      var fte;
      fte, name := CacheAccess(path);
      AccessEntry(fte, k, write);
      ghost var e := EntryFor(s0.entries, k, name);
      assert s0.entries[k := e][k := e.Began(write)] == s0.entries[k := e.Began(write)];
    }

    /** A client that waited for a pull goes on: with access, unless the pull failed. */
    method WakeFromPull(path: FsPath, write: bool) returns (granted: bool)
      requires Valid() && Keys(path) in entries && entries[Keys(path)].CanWakeFromPull(write)
      modifies cachemap[Keys(path)], this`entries
      ensures Valid()
      ensures granted <==> old(entries)[Keys(path)].status != Fail
      ensures State() == WithEntry(old(State()), Keys(path), old(entries)[Keys(path)].WokeFromPull(write))
    {
      hide Drive.Valid, ConflictlessHashProvider.Valid, Keys, Transfers, Map, Entry.WokeFromPull, Entry.CanWakeFromPull;
      var k := Keys(path);
      EntryOfKey(k);
      hide Valid;
      granted := cachemap[k].AfterPull(write);
      Note(k, entries[k].WokeFromPull(write));
    }

    /** A writer that waited for a push goes on. */
    method WakeFromPush(path: FsPath)
      requires Valid() && Keys(path) in entries && entries[Keys(path)].CanWakeFromPush()
      modifies cachemap[Keys(path)], this`entries
      ensures Valid()
      ensures State() == WithEntry(old(State()), Keys(path), old(entries)[Keys(path)].WokeFromPush())
    {
      hide Drive.Valid, ConflictlessHashProvider.Valid, Keys, Transfers, Map, Entry.WokeFromPush, Entry.CanWakeFromPush;
      var k := Keys(path);
      EntryOfKey(k);
      hide Valid;
      cachemap[k].AfterPush();
      Note(k, entries[k].WokeFromPush());
    }

    /** The counter and the status of the entry. */
    method EndEntryAccess(fte: FileTableEntry, ghost k: Key, write: bool, ghost granted: bool)
      requires Valid() && k in cachemap && cachemap[k] == fte
      requires granted ==> k in entries && entries[k].CanEnd(write)
      modifies fte, this`entries
      ensures Valid() && k in old(entries)
      ensures var e := old(entries)[k];
              entries == old(entries)[k := if granted then e.Ended(write) else e.EndedUngranted(write)]
    {
      hide Drive.Valid, ConflictlessHashProvider.Valid, Keys, Entry.Ended, Entry.CanEnd, Entry.EndedUngranted;
      EntryOfKey(k);
      EndedKeepsFile(entries[k], write, granted);
      hide Valid;
      fte.EndAccess(write, granted);
      Note(k, if granted then entries[k].Ended(write) else entries[k].EndedUngranted(write));
    }

    /** endFileAccessByName, whether access was granted, refused or never begun; a path without an entry gets one. */
    method EndFileAccessByName(path: FsPath, write: bool, ghost granted: bool) returns (ghost name: FileName)
      requires Valid()
      requires Keys(path) !in cachemap ==> Returns(hashprov.generator, hashprov.alreadyUsedHashes, Join(path))
      requires granted ==> Keys(path) in entries && entries[Keys(path)].CanEnd(write)
      modifies Repr()
      ensures Valid()
      ensures Keys(path) !in old(cachemap) ==> name !in old(State()).used
      ensures State() == EndAccess(old(State()), Keys(path), write, granted, name)
    {
      hide Valid, Keys, Transfers, Map, Entry.Ended, Entry.CanEnd, Entry.EndedUngranted;
      ghost var k, s0 := Keys(path), State();
      var fte;
      fte, name := CacheAccess(path);
      EndEntryAccess(fte, k, write, granted);
      ghost var e := EntryFor(s0.entries, k, name);
      ghost var e' := if granted then e.Ended(write) else e.EndedUngranted(write);
      assert s0.entries[k := e][k := e'] == s0.entries[k := e'];
    }

    lemma EndedKeepsFile(e: Entry, write: bool, granted: bool)
      requires granted ==> e.CanEnd(write)
      ensures (if granted then e.Ended(write) else e.EndedUngranted(write)).file == e.file
    {
    }

    /** The status test and change of pushIfDirty and _asyncPush. */
    method StartPush(fte: FileTableEntry, ghost k: Key) returns (push: bool)
      requires Valid() && k in cachemap && cachemap[k] == fte
      modifies fte, this`entries
      ensures Valid() && fte.pathInCache == old(entries)[k].file && Keys(fte.pathOnDevice) == k
      ensures push <==> old(entries)[k].status == Dirty
      ensures entries == if push then old(entries)[k := old(entries)[k].(status := Pushing)] else old(entries)
    {
      hide Drive.Valid, ConflictlessHashProvider.Valid, Keys;
      EntryOfKey(k);
      hide Valid;
      push := fte.PushIfDirty();
      Note(k, if push then entries[k].(status := Pushing) else entries[k]);
    }

    /** The status change of a push and its request. */
    method RequestPush(k: Key)
      requires Valid() && k in cachemap && k in entries
      modifies cachemap[k], this`pushRequests, this`entries
      ensures Valid()
      ensures var push := old(entries)[k].status == Dirty;
              && entries == (if push then old(entries)[k := old(entries)[k].(status := Pushing)] else old(entries))
              && Transfers(pushRequests) == if push then old(Transfers(pushRequests)) + [Transfer(k, old(entries)[k].file)]
                                            else old(Transfers(pushRequests))
    {
      hide Valid, Keys, Transfers;
      var fte := cachemap[k];
      var push := StartPush(fte, k);
      if push {
        EnqueuePush(fte.pathOnDevice, fte.pathInCache);
      }
    }

    /** pushIfDirty on the entry at k. */
    method PushEntry(k: Key)
      requires Valid() && k in cachemap
      modifies cachemap[k], this`pushRequests, this`entries
      ensures Valid()
      ensures State() == PushIfDirty(old(State()), k)
      ensures k in old(entries)
      ensures var dirty := old(entries)[k].status == Dirty;
              && (dirty ==> k in entries && entries[k] == old(entries)[k].(status := Pushing))
              && (dirty ==> Transfers(pushRequests) == old(Transfers(pushRequests)) + [Transfer(k, old(entries)[k].file)])
              && (!dirty ==> entries == old(entries) && Transfers(pushRequests) == old(Transfers(pushRequests)))
    {
      KeyKnown(k);
      hide Valid, Keys, Transfers, Map, PushIfDirty;
      ghost var s := State();
      RequestPush(k);
      PushIfDirtyIs(s, State(), k);
    }

    /** pushIfDirty, field by field. */
    lemma PushIfDirtyIs(s: Cache, s': Cache, k: Key)
      requires k in s.entries && s' == s.(entries := s'.entries, pushes := s'.pushes)
      requires if s.entries[k].status == Dirty
               then s'.entries == s.entries[k := s.entries[k].(status := Pushing)]
                    && s'.pushes == s.pushes + [Transfer(k, s.entries[k].file)]
               else s'.entries == s.entries && s'.pushes == s.pushes
      ensures s' == PushIfDirty(s, k)
    {
    }

    /** pushSingleFile. */
    method PushSingleFile(path: FsPath) returns (found: bool)
      requires Valid()
      modifies Repr()
      ensures Valid() && (found <==> Keys(path) in old(entries))
      ensures State() == if found then PushIfDirty(old(State()), Keys(path)) else old(State())
    {
      hide Keys, Transfers, Map;
      found := Keys(path) in cachemap;
      if found {
        PushEntry(Keys(path));
      }
    }

    // ---------- Transfers ----------

    /** The callback of a pull. */
    method PullCallback(r: Request, successful: bool)
      requires Valid()
      modifies cachemap.Values, this`entries
      ensures Valid()
      ensures var t := Transfer(Keys(r.path), r.file);
              entries == if Live(old(entries), t) then old(entries)[t.key := old(entries)[t.key].PullDone(successful)]
                         else old(entries)
    {
      hide Drive.Valid, ConflictlessHashProvider.Valid, Keys;
      var k := Keys(r.path);
      if k in cachemap && cachemap[k].pathInCache == r.file {
        EntryOfKey(k);
        hide Valid;
        cachemap[k].PullCallback(successful);
        Note(k, entries[k].PullDone(successful));
      }
    }

    /** The callback of a push. */
    method PushCallback(r: Request, successful: bool)
      requires Valid()
      modifies cachemap.Values, this`entries
      ensures Valid()
      ensures var t := Transfer(Keys(r.path), r.file);
              entries == if Live(old(entries), t) then old(entries)[t.key := old(entries)[t.key].PushDone(successful)]
                         else old(entries)
    {
      hide Drive.Valid, ConflictlessHashProvider.Valid, Keys, Entry.PushDone;
      var k := Keys(r.path);
      if k in cachemap && cachemap[k].pathInCache == r.file {
        EntryOfKey(k);
        hide Valid;
        cachemap[k].PushCallback(successful);
        Note(k, entries[k].PushDone(successful));
      }
    }

    lemma TransfersTail(q: seq<Request>)
      requires q != []
      ensures Transfers(q)[0] == Transfer(Keys(q[0].path), q[0].file) && Transfers(q[1..]) == Transfers(q)[1..]
    {
    }

    /** _threadHandleFilePullReq on a non-empty queue; a read that fails leaves a partial file. */
    method HandleFilePullReq() returns (ghost ok: bool, ghost partialData: seq<byte>)
      requires Valid() && pullRequests != []
      modifies Repr()
      ensures Valid() && cachemap == old(cachemap) && drive.root == old(drive.root)
      ensures pullRequests == old(pullRequests)[1..] && pushRequests == old(pushRequests)
      ensures var r := old(pullRequests)[0];
              HasFile(drive.Items(), Keys(r.path)) ==>
                r.file in cacheFiles
                && cacheFiles[r.file] == if ok then drive.Items()[Keys(r.path)].bytes else partialData
      ensures State() == ServePull(old(State()), ok, partialData)
      ensures drive.reliable ==> ok
    {
      hide Valid, Keys, Transfers, Map, Entry.PullDone;
      TransfersTail(pullRequests);
      var req := pullRequests[0];
      pullRequests := pullRequests[1..];
      ok, partialData := PullFile(req);
    }

    /** The worker's handler with a pull request of this cache, up to the value its callback gets. */
    method FetchFile(req: Request) returns (successful: bool, ghost readOk: bool, ghost partialData: seq<byte>)
      modifies this`cacheFiles
      ensures var k, m := Keys(req.path), drive.Items();
              && (successful <==> readOk && HasFile(m, k))
              && cacheFiles == (if HasFile(m, k)
                                then old(cacheFiles)[req.file := if readOk then m[k].bytes else partialData]
                                else old(cacheFiles))
      ensures drive.reliable ==> readOk
    {
      hide Keys, Map;
      var folder := new CacheFolder(cacheFiles);
      var callback := new RequestCallback();
      readOk, partialData := FileRequests.HandleFilePullReq(map[0 := drive], 0, req.path, req.file, folder, callback);
      cacheFiles := folder.files;
      successful := callback.values[0];
    }

    /** The worker's handler with a push request of this cache, up to the value its callback gets. */
    method SendFile(req: Request) returns (successful: bool, ghost outcome: Outcome)
      requires drive.Valid()
      modifies drive
      ensures drive.Valid()
      ensures var k, m := Keys(req.path), old(drive.Items());
              var possible := req.file in cacheFiles && cacheFiles[req.file] != [] && HasFile(m, k);
              && (successful <==> possible && outcome == Done)
              && drive.Items() == (if !possible || outcome == Refused then m
                                   else if outcome == Lost then Lacking(m, k)
                                   else m[k := Content(cacheFiles[req.file])])
      ensures drive.reliable ==> outcome == Done
      ensures NamesKept(old(drive.root), drive.root)
    {
      hide Keys, Map, Lacking, Drive.Valid, NamesKept;
      var folder := new CacheFolder(cacheFiles);
      var callback := new RequestCallback();
      outcome := FileRequests.HandleFilePushReq(map[0 := drive], 0, req.path, req.file, folder, callback);
      successful := callback.values[0];
    }

    /** The transfer and the callback of a pull request. */
    method PullFile(req: Request) returns (ghost readOk: bool, ghost partialData: seq<byte>)
      requires Valid()
      modifies this`cacheFiles, this`entries, cachemap.Values
      ensures Valid() && cachemap == old(cachemap)
      ensures var t, m := Transfer(Keys(req.path), req.file), drive.Items();
              && cacheFiles == (if HasFile(m, t.key)
                                then old(cacheFiles)[t.file := if readOk then m[t.key].bytes else partialData]
                                else old(cacheFiles))
              && entries == if Live(old(entries), t)
                            then old(entries)[t.key := old(entries)[t.key].PullDone(readOk && HasFile(m, t.key))]
                            else old(entries)
      ensures drive.reliable ==> readOk
    {
      hide ConflictlessHashProvider.Valid, Keys, Map, Entry.PullDone;
      var successful;
      successful, readOk, partialData := FetchFile(req);
      PullCallback(req, successful);
    }

    /** _threadHandleFilePushReq on a non-empty queue; a write that fails may have deleted the device file. */
    method HandleFilePushReq() returns (ghost outcome: Outcome)
      requires Valid() && pushRequests != []
      modifies Repr()
      ensures Valid() && cachemap == old(cachemap)
      ensures pushRequests == old(pushRequests)[1..] && pullRequests == old(pullRequests)
      ensures var r, k := old(pushRequests)[0], Keys(old(pushRequests)[0].path);
              outcome == Done && r.file in cacheFiles && cacheFiles[r.file] != [] && HasFile(old(drive.Items()), k) ==>
                drive.Items() == old(drive.Items())[k := Content(cacheFiles[r.file])]
      ensures State() == ServePush(old(State()), outcome)
      ensures drive.reliable ==> outcome == Done
      ensures forall n :: old(NamesFrom(n)) ==> NamesFrom(n)
    {
      hide Valid, Keys, Transfers, Map, Lacking, Entry.PushDone, NamesKept;
      TransfersTail(pushRequests);
      var req := pushRequests[0];
      pushRequests := pushRequests[1..];
      ghost var root := drive.root;
      outcome := PushFile(req);
      forall n | NamesKept(n, root) ensures NamesKept(n, drive.root) {
        NamesKeptTrans(n, root, drive.root);
      }
    }

    /** The transfer and the callback of a push request. */
    method PushFile(req: Request) returns (ghost outcome: Outcome)
      requires Valid()
      modifies drive, this`entries, cachemap.Values
      ensures Valid() && cachemap == old(cachemap)
      ensures var t, m := Transfer(Keys(req.path), req.file), old(drive.Items());
              var possible := t.file in cacheFiles && cacheFiles[t.file] != [] && HasFile(m, t.key);
              && drive.Items() == (if !possible || outcome == Refused then m
                                   else if outcome == Lost then Lacking(m, t.key)
                                   else m[t.key := Content(cacheFiles[t.file])])
              && entries == if Live(old(entries), t)
                            then old(entries)[t.key := old(entries)[t.key].PushDone(outcome == Done && possible)]
                            else old(entries)
      ensures drive.reliable ==> outcome == Done
      ensures NamesKept(old(drive.root), drive.root)
    {
      hide ConflictlessHashProvider.Valid, Keys, Map, Entry.PushDone, Lacking, NamesKept;
      var successful;
      successful, outcome := SendFile(req);
      PushCallback(req, successful);
    }

    // ---------- Eviction ----------

    /** Deleting an entry: its destructor deletes the backing file. */
    method DeleteEntry(k: Key)
      requires Valid() && k in cachemap
      modifies this`cachemap, this`entries, this`cacheFiles
      ensures Valid() && cachemap == old(cachemap) - {k} && entries == old(entries) - {k}
      ensures cacheFiles == old(cacheFiles) - {old(cachemap[k].pathInCache)}
      ensures State() == Remove(old(State()), k)
    {
      hide Drive.Valid, ConflictlessHashProvider.Valid, Keys, Transfers, Map;
      var fte := cachemap[k];
      cacheFiles := cacheFiles - {fte.pathInCache};
      cachemap := cachemap - {k};
      entries := entries - {k};
    }
  }
}
