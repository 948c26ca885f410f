/**
 The write-back cache as a transition system over values.

 Granularity.  One step each: looking an entry up (or creating it), counting the access and testing its status; one
 re-test by a waiting client; ending an access; one write by a client; one push request; serving one transfer, device
 access and callback included; evicting one idle entry.  Clocks are not modelled, so the evictor may pick any idle entry.
 A transfer may fail: a pull may leave a part of the file in the backing file, and a push may leave the device as it was or
 without the file, because `Drives.Drive.WriteFile` deletes it before it creates it again.
 */
module CacheSpec {
  import opened Paths
  import opened Blocks
  import opened Nodes

  type FileName = string

  datatype Status = NonExistent | Pulling | Available | Dirty | Pushing | Fail

  /** The local copy counts as the file's content. */
  predicate Holding(s: Status) {
    s == Available || s == Dirty || s == Pushing
  }

  /**
   A cache entry.  `readAccesses` and `writeAccesses` are the original's counters: they are raised before access is
   granted and not lowered when it is refused.  The other counters say how many clients were granted access and how many
   wait: for the pull, to read or to write, or for the push, to write.
   */
  datatype Entry = Entry(file: FileName, status: Status, readAccesses: int, writeAccesses: int,
                         readers: nat, writers: nat, pullReaders: nat, pullWriters: nat, pushWriters: nat)
  {
    predicate NeedsPull() {
      status == NonExistent || status == Fail
    }

    /** getReadAccess or getWriteAccess up to the first wait, with the status change of _asyncPull. */
    function Began(write: bool): Entry {
      var e := if write then this.(writeAccesses := writeAccesses + 1) else this.(readAccesses := readAccesses + 1);
      if write && status == Pushing then e.(pushWriters := pushWriters + 1)
      else if Holding(status) then
        if write then e.(writers := writers + 1) else e.(readers := readers + 1)
      else
        var w := if write then e.(pullWriters := pullWriters + 1) else e.(pullReaders := pullReaders + 1);
        w.(status := Pulling)
    }

    predicate CanWakeFromPull(write: bool) {
      status != Pulling && (if write then pullWriters > 0 else pullReaders > 0)
    }

    /** A client leaves the wait for the pull; access is granted unless the pull failed. */
    function WokeFromPull(write: bool): Entry
      requires CanWakeFromPull(write)
    {
      if write then
        var e := this.(pullWriters := pullWriters - 1);
        if status == Fail then e else e.(writers := writers + 1)
      else
        var e := this.(pullReaders := pullReaders - 1);
        if status == Fail then e else e.(readers := readers + 1)
    }

    predicate CanWakeFromPush() {
      status != Pushing && pushWriters > 0
    }

    function WokeFromPush(): Entry
      requires CanWakeFromPush()
    {
      this.(pushWriters := pushWriters - 1, writers := writers + 1)
    }

    predicate CanEnd(write: bool) {
      if write then writers > 0 && writeAccesses > 0 else readers > 0 && readAccesses > 0
    }

    /** endReadAccess or endWriteAccess. */
    function Ended(write: bool): Entry
      requires CanEnd(write)
    {
      if write then this.(writeAccesses := writeAccesses - 1, writers := writers - 1, status := Dirty)
      else this.(readAccesses := readAccesses - 1, readers := readers - 1)
    }

    /** A client was counted and refused, and has not ended its access. */
    predicate HasRefused(write: bool) {
      if write then writeAccesses > writers + pullWriters + pushWriters else readAccesses > readers + pullReaders
    }

    /** The same two functions for a client that was not granted access, which they do not ask. */
    function EndedUngranted(write: bool): Entry {
      if write then this.(writeAccesses := writeAccesses - 1, status := Dirty)
      else this.(readAccesses := readAccesses - 1)
    }

    /** AvabilitySwitcher::callback. */
    function PullDone(successful: bool): Entry {
      this.(status := if successful then Available else Fail)
    }

    /** AvabilitySwitcher2::callback. */
    function PushDone(successful: bool): Entry {
      if status == Pushing then this.(status := if successful then Available else Dirty) else this
    }

    /** isIdle and accessClear. */
    predicate Idle() {
      status != Pulling && status != Pushing && status != Dirty && writeAccesses == 0 && readAccesses == 0
    }
  }

  function NewEntry(file: FileName): Entry {
    Entry(file, NonExistent, 0, 0, 0, 0, 0, 0, 0)
  }

  datatype Transfer = Transfer(key: Key, file: FileName)

  /** Device, cache map, backing files, the two transfer queues, and every backing file name ever handed out. */
  datatype Cache = Cache(device: PathMap, entries: map<Key, Entry>, files: map<FileName, seq<byte>>,
                         pulls: seq<Transfer>, pushes: seq<Transfer>, used: set<FileName>)

  // ---------- Steps ----------

  ghost predicate HasFile(m: PathMap, k: Key) {
    k in m && m[k].Content?
  }

  function EntryFor(entries: map<Key, Entry>, k: Key, newFile: FileName): Entry {
    if k in entries then entries[k] else NewEntry(newFile)
  }

  ghost function BeginAccess(s: Cache, k: Key, write: bool, newFile: FileName): Cache {
    var e := EntryFor(s.entries, k, newFile);
    s.(entries := s.entries[k := e.Began(write)],
       used := s.used + {e.file},
       pulls := if e.NeedsPull() then s.pulls + [Transfer(k, e.file)] else s.pulls)
  }

  ghost function WithEntry(s: Cache, k: Key, e: Entry): Cache {
    s.(entries := s.entries[k := e])
  }

  /** The end of an access, granted or not; the look-up creates an entry where there is none. */
  ghost function EndAccess(s: Cache, k: Key, write: bool, granted: bool, newFile: FileName): Cache
    requires granted ==> k in s.entries && s.entries[k].CanEnd(write)
  {
    var e := EntryFor(s.entries, k, newFile);
    s.(entries := s.entries[k := if granted then e.Ended(write) else e.EndedUngranted(write)],
       used := s.used + {e.file})
  }

  ghost function ClientWrite(s: Cache, k: Key, bytes: seq<byte>): Cache
    requires k in s.entries
  {
    s.(files := s.files[s.entries[k].file := bytes])
  }

  ghost function PushIfDirty(s: Cache, k: Key): Cache
    requires k in s.entries
  {
    if s.entries[k].status == Dirty then
      s.(entries := s.entries[k := s.entries[k].(status := Pushing)],
         pushes := s.pushes + [Transfer(k, s.entries[k].file)])
    else s
  }

  /** The entry a transfer was requested for still exists. */
  predicate Live(entries: map<Key, Entry>, t: Transfer) {
    t.key in entries && entries[t.key].file == t.file
  }

  /** The pull of a file that exists may still fail and then leave anything in the backing file. */
  ghost function ServePull(s: Cache, ok: bool, partialData: seq<byte>): Cache
    requires s.pulls != []
  {
    var t := s.pulls[0];
    var successful := ok && HasFile(s.device, t.key);
    s.(pulls := s.pulls[1..],
       files := if successful then s.files[t.file := s.device[t.key].bytes]
                else if HasFile(s.device, t.key) then s.files[t.file := partialData]
                else s.files,
       entries := if Live(s.entries, t) then s.entries[t.key := s.entries[t.key].PullDone(successful)] else s.entries)
  }

  /** How an attempt to write to the device ends; the device file is deleted before it is created again. */
  datatype Outcome = Done | Refused | Lost

  /** A push succeeds only when the backing file is there and not empty and the device has the file. */
  ghost predicate CanPush(s: Cache, t: Transfer) {
    t.file in s.files && s.files[t.file] != [] && HasFile(s.device, t.key)
  }

  ghost function Lacking(m: PathMap, k: Key): PathMap {
    imap l: Key | l in m && l != k :: m[l]
  }

  ghost function ServePush(s: Cache, outcome: Outcome): Cache
    requires s.pushes != []
  {
    var t := s.pushes[0];
    var successful := outcome == Done && CanPush(s, t);
    s.(pushes := s.pushes[1..],
       device := if !CanPush(s, t) || outcome == Refused then s.device
                 else if outcome == Lost then Lacking(s.device, t.key)
                 else s.device[t.key := Content(s.files[t.file])],
       entries := if Live(s.entries, t) then s.entries[t.key := s.entries[t.key].PushDone(successful)] else s.entries)
  }

  /** Deleting an entry that needs no push: the entry and its backing file are gone. */
  ghost function Remove(s: Cache, k: Key): Cache
    requires k in s.entries
  {
    s.(entries := s.entries - {k}, files := s.files - {s.entries[k].file})
  }

  datatype Step =
    | BeginStep(key: Key, write: bool, newFile: FileName)
    | WakeFromPullStep(key: Key, write: bool)
    | WakeFromPushStep(key: Key)
    | EndStep(key: Key, write: bool)
    | WriteStep(key: Key, bytes: seq<byte>)
    | PushIfDirtyStep(key: Key)
    | ServePullStep(ok: bool, partialData: seq<byte>)
    | ServePushStep(outcome: Outcome)
    | EvictStep(key: Key)

  ghost predicate Enabled(s: Cache, step: Step) {
    match step
    case BeginStep(k, _, f) => k !in s.entries ==> f !in s.used
    case WakeFromPullStep(k, write) => k in s.entries && s.entries[k].CanWakeFromPull(write)
    case WakeFromPushStep(k) => k in s.entries && s.entries[k].CanWakeFromPush()
    case EndStep(k, write) => k in s.entries && s.entries[k].CanEnd(write)
    case WriteStep(k, _) => k in s.entries && s.entries[k].writers > 0
    case PushIfDirtyStep(k) => k in s.entries
    case ServePullStep(_, _) => s.pulls != []
    case ServePushStep(_) => s.pushes != []
    case EvictStep(k) => k in s.entries && s.entries[k].Idle()
  }

  ghost function Apply(s: Cache, step: Step): Cache
    requires Enabled(s, step)
  {
    match step
    case BeginStep(k, write, f) => BeginAccess(s, k, write, f)
    case WakeFromPullStep(k, write) => WithEntry(s, k, s.entries[k].WokeFromPull(write))
    case WakeFromPushStep(k) => WithEntry(s, k, s.entries[k].WokeFromPush())
    case EndStep(k, write) => WithEntry(s, k, s.entries[k].Ended(write))
    case WriteStep(k, bytes) => ClientWrite(s, k, bytes)
    case PushIfDirtyStep(k) => PushIfDirty(s, k)
    case ServePullStep(ok, partialData) => ServePull(s, ok, partialData)
    case ServePushStep(outcome) => ServePush(s, outcome)
    case EvictStep(k) => Remove(s, k)
  }

  // ---------- What clients see ----------

  ghost predicate HoldsAt(s: Cache, k: Key) {
    k in s.entries && Holding(s.entries[k].status) && s.entries[k].file in s.files
  }

  /** The cached bytes where an entry holds the file, the device elsewhere. */
  ghost function View(s: Cache): PathMap {
    imap k: Key | HoldsAt(s, k) || k in s.device ::
      if HoldsAt(s, k) then Content(s.files[s.entries[k].file]) else s.device[k]
  }

  ghost predicate Init(s: Cache) {
    s.entries == map[] && s.pulls == [] && s.pushes == [] && s.files == map[]
  }

  // ---------- The invariant ----------

  ghost predicate EntryBase(s: Cache, k: Key)
    requires k in s.entries
  {
    var e := s.entries[k];
    && e.file in s.used
    && e.readAccesses >= e.readers + e.pullReaders
    && e.writeAccesses >= e.writers + e.pullWriters + e.pushWriters
    && (e.readers > 0 || e.writers > 0 || e.pushWriters > 0 ==> Holding(e.status))
    && (Holding(e.status) ==> e.file in s.files)
    && (e.status == Pulling <==> Transfer(k, e.file) in s.pulls)
    && (e.pullReaders > 0 || e.pullWriters > 0 ==> e.status != NonExistent)
  }

  ghost predicate Distinct<T(!new)>(q: seq<T>) {
    forall i, j :: 0 <= i < j < |q| ==> q[i] != q[j]
  }

  ghost predicate QueuesOk(entries: map<Key, Entry>, pulls: seq<Transfer>, pushes: seq<Transfer>, used: set<FileName>) {
    && Distinct(pulls)
    && (forall t :: t in pulls ==> Live(entries, t) && entries[t.key].status == Pulling)
    && (forall t :: t in pushes ==> t.file in used)
    && (forall t :: t in pushes && Live(entries, t) ==> Holding(entries[t.key].status))
    && (forall t, k :: t in pushes && k in entries && entries[k].file == t.file ==> t.key == k)
  }

  /** Backing files are not shared, and each belongs to an entry. */
  ghost predicate FilesOk(entries: map<Key, Entry>, files: map<FileName, seq<byte>>) {
    && (forall k, l :: k in entries && l in entries && entries[k].file == entries[l].file ==> k == l)
    && (forall f :: f in files ==> exists k :: k in entries && entries[k].file == f)
  }

  ghost predicate Base(s: Cache) {
    && (forall k :: k in s.entries ==> EntryBase(s, k))
    && QueuesOk(s.entries, s.pulls, s.pushes, s.used)
    && FilesOk(s.entries, s.files)
  }

  /**
   The device has the file an entry holds; an available entry without a granted writer equals it; a pushing one has its
   push queued.
   */
  ghost predicate EntryClean(s: Cache, k: Key)
    requires k in s.entries
  {
    var e := s.entries[k];
    && (Holding(e.status) ==> HasFile(s.device, k))
    && (e.status == Available && e.writers == 0 ==> e.file in s.files && s.device[k] == Content(s.files[e.file]))
    && (e.status == Pushing ==> Transfer(k, e.file) in s.pushes)
  }

  ghost predicate Clean(s: Cache) {
    forall k :: k in s.entries ==> EntryClean(s, k)
  }

  ghost predicate Inv(s: Cache) {
    Base(s) && Clean(s)
  }

  // ---------- The queues ----------

  lemma QueuesEntry(entries: map<Key, Entry>, pulls: seq<Transfer>, pushes: seq<Transfer>, used: set<FileName>, k: Key, e: Entry)
    requires QueuesOk(entries, pulls, pushes, used)
    requires k in entries && e.file == entries[k].file
    requires (exists t :: t in pulls && t.key == k) ==> e.status == Pulling
    requires Transfer(k, e.file) in pushes ==> Holding(e.status)
    ensures QueuesOk(entries[k := e], pulls, pushes, used)
  {
    forall t | t in pulls ensures Live(entries[k := e], t) && entries[k := e][t.key].status == Pulling {
      assert Live(entries, t);
    }
    forall t | t in pushes && Live(entries[k := e], t) ensures Holding(entries[k := e][t.key].status) {
      assert t == Transfer(t.key, t.file);
      assert Live(entries, t);
    }
  }

  lemma QueuesNew(entries: map<Key, Entry>, pulls: seq<Transfer>, pushes: seq<Transfer>, used: set<FileName>, k: Key, e: Entry)
    requires QueuesOk(entries, pulls, pushes, used)
    requires k !in entries && e.file !in used
    ensures QueuesOk(entries[k := e], pulls, pushes, used + {e.file})
  {
    forall t | t in pulls ensures Live(entries[k := e], t) && entries[k := e][t.key].status == Pulling {
      assert Live(entries, t);
    }
  }

  lemma QueuesAddPull(entries: map<Key, Entry>, pulls: seq<Transfer>, pushes: seq<Transfer>, used: set<FileName>, k: Key)
    requires QueuesOk(entries, pulls, pushes, used)
    requires k in entries && entries[k].status == Pulling && Transfer(k, entries[k].file) !in pulls
    ensures QueuesOk(entries, pulls + [Transfer(k, entries[k].file)], pushes, used)
  {
  }

  lemma QueuesAddPush(entries: map<Key, Entry>, pulls: seq<Transfer>, pushes: seq<Transfer>, used: set<FileName>, k: Key)
    requires QueuesOk(entries, pulls, pushes, used)
    requires k in entries && Holding(entries[k].status) && entries[k].file in used
    requires forall l :: l in entries && entries[l].file == entries[k].file ==> l == k
    ensures QueuesOk(entries, pulls, pushes + [Transfer(k, entries[k].file)], used)
  {
    var t0 := Transfer(k, entries[k].file);
    assert forall t :: t in pushes + [t0] ==> t in pushes || t == t0;
  }

  lemma QueueTail(q: seq<Transfer>)
    requires q != [] && Distinct(q)
    ensures forall u :: u in q[1..] <==> u in q && u != q[0]
    ensures Distinct(q[1..])
  {
    assert forall i :: 0 <= i < |q| - 1 ==> q[1..][i] == q[i + 1];
  }

  lemma QueuesPop(entries: map<Key, Entry>, pulls: seq<Transfer>, pushes: seq<Transfer>, used: set<FileName>)
    requires QueuesOk(entries, pulls, pushes, used)
    ensures pulls != [] ==> QueuesOk(entries, pulls[1..], pushes, used)
    ensures pushes != [] ==> QueuesOk(entries, pulls, pushes[1..], used)
  {
    if pulls != [] {
      QueueTail(pulls);
    }
  }

  lemma QueuesRemove(entries: map<Key, Entry>, pulls: seq<Transfer>, pushes: seq<Transfer>, used: set<FileName>, k: Key)
    requires QueuesOk(entries, pulls, pushes, used)
    requires forall t :: t in pulls ==> t.key != k
    ensures QueuesOk(entries - {k}, pulls, pushes, used)
  {
    forall t | t in pulls ensures Live(entries - {k}, t) {
      assert Live(entries, t);
    }
    forall t | t in pushes && Live(entries - {k}, t) ensures Holding((entries - {k})[t.key].status) {
      assert Live(entries, t);
    }
  }

  // ---------- The files ----------

  lemma FilesEntry(entries: map<Key, Entry>, files: map<FileName, seq<byte>>, k: Key, e: Entry)
    requires FilesOk(entries, files)
    requires if k in entries then e.file == entries[k].file else forall l :: l in entries ==> entries[l].file != e.file
    ensures FilesOk(entries[k := e], files)
  {
    var entries' := entries[k := e];
    forall f | f in files ensures exists l :: l in entries' && entries'[l].file == f {
      var l :| l in entries && entries[l].file == f;
      assert l in entries' && entries'[l].file == f;
    }
  }

  lemma FilesWrite(entries: map<Key, Entry>, files: map<FileName, seq<byte>>, k: Key, bytes: seq<byte>)
    requires FilesOk(entries, files) && k in entries
    ensures FilesOk(entries, files[entries[k].file := bytes])
  {
  }

  lemma FilesRemove(entries: map<Key, Entry>, files: map<FileName, seq<byte>>, k: Key)
    requires FilesOk(entries, files) && k in entries
    ensures FilesOk(entries - {k}, files - {entries[k].file})
  {
    forall f | f in files - {entries[k].file} ensures exists l :: l in entries - {k} && entries[l].file == f {
      var l :| l in entries && entries[l].file == f;
      assert l in entries - {k};
    }
  }

  // ---------- A step that touches the entry at k ----------

  /** Everything but the entry at k, its transfers and its file is as before. */
  ghost predicate Only(s: Cache, s': Cache, k: Key) {
    && s'.entries - {k} == s.entries - {k}
    && s.used <= s'.used
    && (forall l :: l != k ==> (l in s'.device <==> l in s.device) && (l in s.device ==> s'.device[l] == s.device[l]))
    && (forall t: Transfer :: t.key != k ==> (t in s'.pulls <==> t in s.pulls) && (t in s'.pushes <==> t in s.pushes))
  }

  /** The other entries' backing files are as before. */
  ghost predicate OtherFiles(s: Cache, s': Cache, k: Key) {
    forall l :: l in s.entries && l != k ==>
      var f := s.entries[l].file;
      (f in s'.files <==> f in s.files) && (f in s.files ==> s'.files[f] == s.files[f])
  }

  lemma SameEntry(s: Cache, s': Cache, k: Key, l: Key)
    requires s'.entries - {k} == s.entries - {k} && l != k
    ensures l in s'.entries <==> l in s.entries
    ensures l in s.entries ==> s'.entries[l] == s.entries[l]
  {
    var m, m' := s.entries - {k}, s'.entries - {k};
    assert l in m <==> l in s.entries;
    assert l in m' <==> l in s'.entries;
    if l in s.entries {
      assert m[l] == m'[l];
    }
  }

  lemma OtherEntry(s: Cache, s': Cache, k: Key, l: Key)
    requires Only(s, s', k) && OtherFiles(s, s', k) && l != k && l in s.entries && EntryBase(s, l)
    ensures l in s'.entries && EntryBase(s', l)
  {
    SameEntry(s, s', k, l);
  }

  lemma BaseOnly(s: Cache, s': Cache, k: Key)
    requires Base(s) && Only(s, s', k) && OtherFiles(s, s', k)
    requires k in s'.entries ==> EntryBase(s', k)
    requires QueuesOk(s'.entries, s'.pulls, s'.pushes, s'.used) && FilesOk(s'.entries, s'.files)
    ensures Base(s')
  {
    hide QueuesOk;
    hide FilesOk;
    hide EntryBase;
    forall l | l in s'.entries ensures EntryBase(s', l) {
      if l != k {
        SameEntry(s, s', k, l);
        OtherEntry(s, s', k, l);
      }
    }
  }

  /** When only k is touched, the view changes at k at most. */
  lemma ViewOnly(s: Cache, s': Cache, k: Key, v: PathMap)
    requires Only(s, s', k) && OtherFiles(s, s', k)
    requires forall l :: l != k ==> (l in v <==> l in View(s)) && (l in v ==> v[l] == View(s)[l])
    requires k in v <==> k in View(s')
    requires k in v ==> View(s')[k] == v[k]
    ensures View(s') == v
  {
    forall l | l != k
      ensures l in v <==> l in View(s')
      ensures l in v ==> View(s')[l] == v[l]
    {
      SameEntry(s, s', k, l);
      assert HoldsAt(s', l) <==> HoldsAt(s, l);
    }
  }

  lemma OwnFile(s: Cache, k: Key)
    requires Base(s) && k in s.entries
    ensures EntryBase(s, k)
    ensures forall l :: l in s.entries && l != k ==> s.entries[l].file != s.entries[k].file
  {
  }

  /** The transfers queued for an entry fit its status. */
  lemma TransfersAt(s: Cache, k: Key)
    requires QueuesOk(s.entries, s.pulls, s.pushes, s.used)
    ensures forall t :: t in s.pulls && t.key == k ==> Live(s.entries, t) && s.entries[k].status == Pulling
    ensures k in s.entries && Transfer(k, s.entries[k].file) in s.pushes ==> Holding(s.entries[k].status)
  {
    if k in s.entries && Transfer(k, s.entries[k].file) in s.pushes {
      assert Live(s.entries, Transfer(k, s.entries[k].file));
    }
  }

  lemma BaseParts(s: Cache)
    requires Base(s)
    ensures QueuesOk(s.entries, s.pulls, s.pushes, s.used) && FilesOk(s.entries, s.files)
  {
  }

  /** Only the entry at k changes, and not its backing file. */
  lemma EntryStep(s: Cache, k: Key, e: Entry)
    requires Base(s) && k in s.entries && e.file == s.entries[k].file
    requires (e.status == Pulling) == (s.entries[k].status == Pulling)
    requires Holding(e.status) == Holding(s.entries[k].status)
    requires EntryBase(WithEntry(s, k, e), k)
    ensures Base(WithEntry(s, k, e)) && View(WithEntry(s, k, e)) == View(s)
  {
    var s' := WithEntry(s, k, e);
    EntryQueues(s, k, e);
    BaseParts(s);
    hide QueuesOk;
    hide EntryBase;
    FilesEntry(s.entries, s.files, k, e);
    hide FilesOk;
    EntryStepView(s, k, e);
    BaseOnly(s, s', k);
  }

  lemma EntryStepView(s: Cache, k: Key, e: Entry)
    requires k in s.entries && e.file == s.entries[k].file && Holding(e.status) == Holding(s.entries[k].status)
    ensures Only(s, WithEntry(s, k, e), k) && OtherFiles(s, WithEntry(s, k, e), k)
    ensures View(WithEntry(s, k, e)) == View(s)
  {
    var s' := WithEntry(s, k, e);
    assert s'.entries - {k} == s.entries - {k};
    assert HoldsAt(s', k) <==> HoldsAt(s, k);
    ViewOnly(s, s', k, View(s));
  }

  lemma EntryQueues(s: Cache, k: Key, e: Entry)
    requires Base(s) && k in s.entries && e.file == s.entries[k].file
    requires (e.status == Pulling) == (s.entries[k].status == Pulling)
    requires Holding(e.status) == Holding(s.entries[k].status)
    ensures QueuesOk(s.entries[k := e], s.pulls, s.pushes, s.used)
  {
    hide EntryBase;
    hide FilesOk;
    TransfersAt(s, k);
    QueuesEntry(s.entries, s.pulls, s.pushes, s.used, k, e);
  }

  lemma WakeFromPullKeeps(s: Cache, k: Key, write: bool)
    requires Base(s) && k in s.entries && s.entries[k].CanWakeFromPull(write)
    ensures Base(WithEntry(s, k, s.entries[k].WokeFromPull(write)))
    ensures View(WithEntry(s, k, s.entries[k].WokeFromPull(write))) == View(s)
  {
    OwnFile(s, k);
    EntryStep(s, k, s.entries[k].WokeFromPull(write));
  }

  lemma WakeFromPushKeeps(s: Cache, k: Key)
    requires Base(s) && k in s.entries && s.entries[k].CanWakeFromPush()
    ensures Base(WithEntry(s, k, s.entries[k].WokeFromPush()))
    ensures View(WithEntry(s, k, s.entries[k].WokeFromPush())) == View(s)
  {
    OwnFile(s, k);
    EntryStep(s, k, s.entries[k].WokeFromPush());
  }

  lemma EndKeeps(s: Cache, k: Key, write: bool)
    requires Base(s) && k in s.entries && s.entries[k].CanEnd(write)
    ensures Base(WithEntry(s, k, s.entries[k].Ended(write)))
    ensures View(WithEntry(s, k, s.entries[k].Ended(write))) == View(s)
  {
    OwnFile(s, k);
    EntryStep(s, k, s.entries[k].Ended(write));
  }

  // ---------- Beginning an access ----------

  lemma FreshFile(s: Cache, k: Key, newFile: FileName)
    requires Base(s) && k !in s.entries && newFile !in s.used
    ensures forall l :: l in s.entries ==> s.entries[l].file != newFile
    ensures newFile !in s.files
    ensures forall t :: t in s.pulls ==> t.key != k
    ensures Transfer(k, newFile) !in s.pushes
  {
    forall l | l in s.entries ensures s.entries[l].file != newFile {
      assert EntryBase(s, l);
    }
    forall t | t in s.pulls ensures t.key != k {
      assert Live(s.entries, t);
    }
  }

  lemma BeginQueues(s: Cache, k: Key, write: bool, newFile: FileName)
    requires Base(s) && (k !in s.entries ==> newFile !in s.used)
    ensures var s' := BeginAccess(s, k, write, newFile);
            QueuesOk(s'.entries, s'.pulls, s'.pushes, s'.used) && FilesOk(s'.entries, s'.files)
  {
    var e := EntryFor(s.entries, k, newFile);
    var e' := e.Began(write);
    BaseParts(s);
    if k in s.entries {
      OwnFile(s, k);
      assert s.used + {e.file} == s.used;
      TransfersAt(s, k);
      QueuesEntry(s.entries, s.pulls, s.pushes, s.used, k, e');
    } else {
      FreshFile(s, k, newFile);
      QueuesNew(s.entries, s.pulls, s.pushes, s.used, k, e');
    }
    FilesEntry(s.entries, s.files, k, e');
    if e.NeedsPull() {
      assert Transfer(k, e.file) !in s.pulls;
      QueuesAddPull(s.entries[k := e'], s.pulls, s.pushes, s.used + {e.file}, k);
    }
  }

  lemma BeginEntry(s: Cache, k: Key, write: bool, newFile: FileName)
    requires Base(s) && (k !in s.entries ==> newFile !in s.used)
    ensures EntryBase(BeginAccess(s, k, write, newFile), k)
  {
    if k in s.entries {
      OwnFile(s, k);
    } else {
      FreshFile(s, k, newFile);
    }
  }

  lemma BeginKeeps(s: Cache, k: Key, write: bool, newFile: FileName)
    requires Base(s) && (k !in s.entries ==> newFile !in s.used)
    ensures Base(BeginAccess(s, k, write, newFile)) && View(BeginAccess(s, k, write, newFile)) == View(s)
  {
    var s' := BeginAccess(s, k, write, newFile);
    BeginQueues(s, k, write, newFile);
    BeginEntry(s, k, write, newFile);
    hide EntryBase;
    hide QueuesOk;
    hide FilesOk;
    BeginOnly(s, k, write, newFile);
    BaseOnly(s, s', k);
    BeginView(s, k, write, newFile);
  }

  lemma BeginOnly(s: Cache, k: Key, write: bool, newFile: FileName)
    ensures Only(s, BeginAccess(s, k, write, newFile), k) && OtherFiles(s, BeginAccess(s, k, write, newFile), k)
  {
    var s' := BeginAccess(s, k, write, newFile);
    assert s'.entries - {k} == s.entries - {k};
  }

  lemma BeginView(s: Cache, k: Key, write: bool, newFile: FileName)
    ensures View(BeginAccess(s, k, write, newFile)) == View(s)
  {
    var s' := BeginAccess(s, k, write, newFile);
    BeginOnly(s, k, write, newFile);
    assert HoldsAt(s', k) <==> HoldsAt(s, k);
    ViewOnly(s, s', k, View(s));
  }

  // ---------- Writing and pushing ----------

  lemma WriteKeeps(s: Cache, k: Key, bytes: seq<byte>)
    requires Base(s) && k in s.entries && s.entries[k].writers > 0
    ensures Base(ClientWrite(s, k, bytes)) && View(ClientWrite(s, k, bytes)) == View(s)[k := Content(bytes)]
  {
    var s' := ClientWrite(s, k, bytes);
    OwnFile(s, k);
    BaseParts(s);
    hide QueuesOk;
    FilesWrite(s.entries, s.files, k, bytes);
    hide FilesOk;
    assert EntryBase(s', k);
    BaseOnly(s, s', k);
    ViewOnly(s, s', k, View(s)[k := Content(bytes)]);
  }

  lemma PushIfDirtyQueues(s: Cache, k: Key)
    requires Base(s) && k in s.entries && s.entries[k].status == Dirty
    ensures var s' := PushIfDirty(s, k);
            QueuesOk(s'.entries, s'.pulls, s'.pushes, s'.used) && FilesOk(s'.entries, s'.files)
  {
    var e' := s.entries[k].(status := Pushing);
    OwnFile(s, k);
    BaseParts(s);
    EntryQueues(s, k, e');
    FilesEntry(s.entries, s.files, k, e');
    hide Base, EntryBase;
    QueuesAddPush(s.entries[k := e'], s.pulls, s.pushes, s.used, k);
  }

  lemma PushIfDirtyView(s: Cache, k: Key)
    requires k in s.entries && s.entries[k].status == Dirty
    ensures Only(s, PushIfDirty(s, k), k) && OtherFiles(s, PushIfDirty(s, k), k)
    ensures View(PushIfDirty(s, k)) == View(s)
  {
    var s' := PushIfDirty(s, k);
    assert s'.entries - {k} == s.entries - {k};
    assert HoldsAt(s', k) <==> HoldsAt(s, k);
    ViewOnly(s, s', k, View(s));
  }

  lemma PushIfDirtyKeepsBase(s: Cache, k: Key)
    requires Base(s) && k in s.entries
    ensures Base(PushIfDirty(s, k)) && View(PushIfDirty(s, k)) == View(s)
  {
    if s.entries[k].status == Dirty {
      OwnFile(s, k);
      PushIfDirtyQueues(s, k);
      PushIfDirtyView(s, k);
      hide QueuesOk, FilesOk;
      assert EntryBase(PushIfDirty(s, k), k);
      hide Only, OtherFiles, View, EntryBase;
      BaseOnly(s, PushIfDirty(s, k), k);
    }
  }

  // ---------- Serving transfers ----------

  lemma ServePullQueues(s: Cache, t: Transfer, successful: bool, bytes: seq<byte>)
    requires Base(s) && s.pulls != [] && t == s.pulls[0]
    ensures Live(s.entries, t) && s.entries[t.key].status == Pulling
    ensures var entries' := s.entries[t.key := s.entries[t.key].PullDone(successful)];
            && QueuesOk(entries', s.pulls[1..], s.pushes, s.used)
            && FilesOk(entries', s.files)
            && FilesOk(entries', s.files[t.file := bytes])
  {
    BaseParts(s);
    TransfersAt(s, t.key);
    hide EntryBase;
    assert t in s.pulls;
    var e' := s.entries[t.key].PullDone(successful);
    QueuesPop(s.entries, s.pulls, s.pushes, s.used);
    QueueTail(s.pulls);
    assert forall u :: u in s.pulls[1..] ==> u.key != t.key;
    QueuesEntry(s.entries, s.pulls[1..], s.pushes, s.used, t.key, e');
    FilesEntry(s.entries, s.files, t.key, e');
    FilesWrite(s.entries[t.key := e'], s.files, t.key, bytes);
  }

  lemma ServePullKeeps(s: Cache, ok: bool, partialData: seq<byte>)
    requires Base(s) && s.pulls != []
    ensures Base(ServePull(s, ok, partialData)) && View(ServePull(s, ok, partialData)) == View(s)
  {
    var t := s.pulls[0];
    var s' := ServePull(s, ok, partialData);
    ServePullQueues(s, t, ok && HasFile(s.device, t.key), if t.file in s'.files then s'.files[t.file] else []);
    ServePullEntry(s, ok, partialData);
    ServePullOnly(s, ok, partialData);
    hide QueuesOk;
    hide FilesOk;
    hide EntryBase;
    BaseOnly(s, s', t.key);
  }

  lemma ServePullEntry(s: Cache, ok: bool, partialData: seq<byte>)
    requires Base(s) && s.pulls != []
    requires Live(s.entries, s.pulls[0]) && s.entries[s.pulls[0].key].status == Pulling
    ensures EntryBase(ServePull(s, ok, partialData), s.pulls[0].key)
  {
    OwnFile(s, s.pulls[0].key);
    QueueTail(s.pulls);
  }

  lemma ServePullOnly(s: Cache, ok: bool, partialData: seq<byte>)
    requires Base(s) && s.pulls != []
    requires Live(s.entries, s.pulls[0]) && s.entries[s.pulls[0].key].status == Pulling
    ensures Only(s, ServePull(s, ok, partialData), s.pulls[0].key)
    ensures OtherFiles(s, ServePull(s, ok, partialData), s.pulls[0].key)
    ensures View(ServePull(s, ok, partialData)) == View(s)
  {
    var t := s.pulls[0];
    var s' := ServePull(s, ok, partialData);
    OwnFile(s, t.key);
    QueueTail(s.pulls);
    assert s'.entries - {t.key} == s.entries - {t.key};
    assert !HoldsAt(s, t.key);
    ViewOnly(s, s', t.key, View(s));
  }

  lemma ServePushQueues(s: Cache, t: Transfer, successful: bool)
    requires Base(s) && s.pushes != [] && t == s.pushes[0] && Live(s.entries, t)
    ensures Holding(s.entries[t.key].status)
    ensures QueuesOk(s.entries[t.key := s.entries[t.key].PushDone(successful)], s.pulls, s.pushes[1..], s.used)
    ensures FilesOk(s.entries[t.key := s.entries[t.key].PushDone(successful)], s.files)
  {
    BaseParts(s);
    TransfersAt(s, t.key);
    hide EntryBase;
    assert t in s.pushes;
    QueuesPop(s.entries, s.pulls, s.pushes, s.used);
    QueuesEntry(s.entries, s.pulls, s.pushes[1..], s.used, t.key, s.entries[t.key].PushDone(successful));
    FilesEntry(s.entries, s.files, t.key, s.entries[t.key].PushDone(successful));
  }

  /** A push whose entry was evicted finds no backing file. */
  lemma OrphanHasNoFile(s: Cache, t: Transfer)
    requires Base(s) && t in s.pushes && !Live(s.entries, t)
    ensures t.file !in s.files
  {
    assert forall l :: l in s.entries && s.entries[l].file == t.file ==> t.key == l;
  }

  lemma OrphanPush(s: Cache, s': Cache)
    requires Base(s) && s.pushes != [] && !Live(s.entries, s.pushes[0]) && s' == s.(pushes := s.pushes[1..])
    ensures Base(s') && View(s') == View(s)
  {
    QueuesPop(s.entries, s.pulls, s.pushes, s.used);
    forall l | l in s'.entries ensures EntryBase(s', l) {
      assert EntryBase(s, l);
    }
    assert forall l :: HoldsAt(s', l) <==> HoldsAt(s, l);
  }

  lemma ServePushKeepsBase(s: Cache, outcome: Outcome)
    requires Base(s) && s.pushes != []
    ensures Base(ServePush(s, outcome)) && View(ServePush(s, outcome)) == View(s)
  {
    var t := s.pushes[0];
    var s' := ServePush(s, outcome);
    if Live(s.entries, t) {
      ServePushQueues(s, t, outcome == Done && CanPush(s, t));
      ServePushEntry(s, outcome);
      hide QueuesOk;
      hide FilesOk;
      hide EntryBase;
      ServePushOnly(s, outcome);
      BaseOnly(s, s', t.key);
    } else {
      OrphanHasNoFile(s, t);
      OrphanPush(s, s');
    }
  }

  lemma ServePushOnly(s: Cache, outcome: Outcome)
    requires s.pushes != [] && Live(s.entries, s.pushes[0]) && HoldsAt(s, s.pushes[0].key)
    ensures Only(s, ServePush(s, outcome), s.pushes[0].key) && OtherFiles(s, ServePush(s, outcome), s.pushes[0].key)
    ensures View(ServePush(s, outcome)) == View(s)
  {
    var t := s.pushes[0];
    var s' := ServePush(s, outcome);
    assert s'.entries - {t.key} == s.entries - {t.key};
    assert HoldsAt(s', t.key);
    ViewOnly(s, s', t.key, View(s));
  }

  lemma ServePushEntry(s: Cache, outcome: Outcome)
    requires Base(s) && s.pushes != [] && Live(s.entries, s.pushes[0])
    requires Holding(s.entries[s.pushes[0].key].status)
    ensures EntryBase(ServePush(s, outcome), s.pushes[0].key) && HoldsAt(s, s.pushes[0].key)
  {
    OwnFile(s, s.pushes[0].key);
  }

  // ---------- Evicting ----------

  lemma RemoveTouches(s: Cache, k: Key)
    requires k in s.entries && forall l :: l in s.entries && l != k ==> s.entries[l].file != s.entries[k].file
    ensures Only(s, Remove(s, k), k) && OtherFiles(s, Remove(s, k), k)
  {
    var s' := Remove(s, k);
    assert s'.entries - {k} == s.entries - {k};
  }

  /** The device has the bytes of the entry's copy, if the entry holds one. */
  ghost predicate Saved(s: Cache, k: Key) {
    HoldsAt(s, k) ==> k in s.device && s.device[k] == Content(s.files[s.entries[k].file])
  }

  /** The view after a deletion: a local copy that differs from the device file is lost. */
  lemma RemoveView(s: Cache, k: Key)
    requires k in s.entries && forall l :: l in s.entries && l != k ==> s.entries[l].file != s.entries[k].file
    ensures View(Remove(s, k)) == View(s) <==> Saved(s, k)
  {
    var s' := Remove(s, k);
    RemoveTouches(s, k);
    hide Only, OtherFiles;
    assert !HoldsAt(s', k);
    assert HoldsAt(s, k) ==> k in View(s) && View(s)[k] == Content(s.files[s.entries[k].file]);
    assert k in View(s') <==> k in s.device;
    assert k in s.device ==> View(s')[k] == s.device[k];
    if Saved(s, k) {
      ViewOnly(s, s', k, View(s));
    }
  }

  lemma EvictKeepsBase(s: Cache, k: Key)
    requires Base(s) && k in s.entries && s.entries[k].Idle()
    ensures Base(Remove(s, k))
    ensures View(Remove(s, k)) == View(s) <==> Saved(s, k)
  {
    OwnFile(s, k);
    BaseParts(s);
    forall t | t in s.pulls ensures t.key != k {
      assert Live(s.entries, t);
    }
    QueuesRemove(s.entries, s.pulls, s.pushes, s.used, k);
    FilesRemove(s.entries, s.files, k);
    RemoveTouches(s, k);
    RemoveView(s, k);
    hide QueuesOk, FilesOk, View, Only, OtherFiles;
    BaseOnly(s, Remove(s, k), k);
  }

  /** In the model with atomic pushes an idle entry equals the device file. */
  lemma EvictKeeps(s: Cache, k: Key)
    requires Inv(s) && k in s.entries && s.entries[k].Idle()
    ensures Saved(s, k) && Inv(Remove(s, k)) && View(Remove(s, k)) == View(s)
  {
    OwnFile(s, k);
    assert EntryClean(s, k);
    EvictKeepsBase(s, k);
    hide Base;
    var s' := Remove(s, k);
    assert s'.entries - {k} == s.entries - {k};
    CleanOnly(s, s', k);
  }

  // ---------- Clean entries stay clean ----------

  lemma CleanOnly(s: Cache, s': Cache, k: Key)
    requires Clean(s) && Only(s, s', k) && OtherFiles(s, s', k)
    requires k in s'.entries ==> EntryClean(s', k)
    ensures Clean(s')
  {
    forall l | l in s'.entries && l != k ensures EntryClean(s', l) {
      SameEntry(s, s', k, l);
      assert EntryClean(s, l);
    }
  }

  lemma BeginClean(s: Cache, k: Key, write: bool, newFile: FileName)
    requires Clean(s)
    ensures Clean(BeginAccess(s, k, write, newFile))
  {
    BeginOnly(s, k, write, newFile);
    assert k in s.entries ==> EntryClean(s, k);
    CleanOnly(s, BeginAccess(s, k, write, newFile), k);
  }

  /** A changed entry stays clean when it did not become available or pushing, or lose a writer. */
  lemma EntryStepClean(s: Cache, k: Key, e: Entry)
    requires Clean(s) && k in s.entries && e.file == s.entries[k].file
    requires Holding(e.status) ==> Holding(s.entries[k].status)
    requires e.status == Dirty || (e.status == s.entries[k].status && e.writers >= s.entries[k].writers)
    ensures Clean(WithEntry(s, k, e))
  {
    assert WithEntry(s, k, e).entries - {k} == s.entries - {k};
    assert EntryClean(s, k);
    CleanOnly(s, WithEntry(s, k, e), k);
  }

  lemma WriteClean(s: Cache, k: Key, bytes: seq<byte>)
    requires Inv(s) && k in s.entries && s.entries[k].writers > 0
    ensures Clean(ClientWrite(s, k, bytes))
  {
    OwnFile(s, k);
    assert EntryClean(s, k);
    hide Base;
    CleanOnly(s, ClientWrite(s, k, bytes), k);
  }

  lemma PushIfDirtyKeeps(s: Cache, k: Key)
    requires Inv(s) && k in s.entries
    ensures Inv(PushIfDirty(s, k)) && View(PushIfDirty(s, k)) == View(s)
  {
    PushIfDirtyKeepsBase(s, k);
    hide Base;
    if s.entries[k].status == Dirty {
      assert PushIfDirty(s, k).entries - {k} == s.entries - {k};
      CleanOnly(s, PushIfDirty(s, k), k);
    }
  }

  lemma ServePullClean(s: Cache, ok: bool, partialData: seq<byte>)
    requires Inv(s) && s.pulls != []
    ensures Clean(ServePull(s, ok, partialData))
  {
    BaseParts(s);
    assert s.pulls[0] in s.pulls;
    ServePullOnly(s, ok, partialData);
    hide Base, QueuesOk, FilesOk;
    CleanOnly(s, ServePull(s, ok, partialData), s.pulls[0].key);
  }

  lemma ServePushCleanEntry(s: Cache, outcome: Outcome)
    requires Clean(s) && s.pushes != [] && outcome != Lost && Live(s.entries, s.pushes[0])
    ensures s.pushes[0].key in ServePush(s, outcome).entries
    ensures EntryClean(ServePush(s, outcome), s.pushes[0].key)
  {
    assert EntryClean(s, s.pushes[0].key);
    hide Clean;
    assert forall u :: u in s.pushes && u != s.pushes[0] ==> u in s.pushes[1..];
  }

  lemma ServePushKeeps(s: Cache, outcome: Outcome)
    requires Inv(s) && s.pushes != [] && outcome != Lost
    ensures Inv(ServePush(s, outcome)) && View(ServePush(s, outcome)) == View(s)
  {
    var t := s.pushes[0];
    var s' := ServePush(s, outcome);
    ServePushKeepsBase(s, outcome);
    if Live(s.entries, t) {
      ServePushQueues(s, t, outcome == Done && CanPush(s, t));
      ServePushEntry(s, outcome);
      ServePushCleanEntry(s, outcome);
      hide Base, QueuesOk, FilesOk, View, EntryClean, ServePush;
      ServePushOnly(s, outcome);
      hide Only, OtherFiles;
      CleanOnly(s, s', t.key);
    } else {
      OrphanHasNoFile(s, t);
      hide Base, QueuesOk, FilesOk, View;
      forall l | l in s'.entries ensures EntryClean(s', l) {
        assert EntryClean(s, l);
      }
    }
  }

  ghost function Written(m: PathMap, step: Step): PathMap {
    if step.WriteStep? then m[step.key := Content(step.bytes)] else m
  }

  /** Only a client's write changes what clients see. */
  ghost predicate Coherent(s: Cache, step: Step, s': Cache) {
    View(s') == Written(View(s), step)
  }

  lemma StepKeeps(s: Cache, step: Step)
    requires Inv(s) && Enabled(s, step) && step != ServePushStep(Lost)
    ensures Inv(Apply(s, step)) && Coherent(s, step, Apply(s, step))
  {
    hide Base;
    hide Clean;
    hide View;
    match step
    case BeginStep(k, write, f) =>
      BeginKeeps(s, k, write, f);
      BeginClean(s, k, write, f);
    case WriteStep(k, bytes) =>
      WriteKeeps(s, k, bytes);
      WriteClean(s, k, bytes);
    case PushIfDirtyStep(k) => PushIfDirtyKeeps(s, k);
    case ServePullStep(ok, partialData) =>
      ServePullKeeps(s, ok, partialData);
      ServePullClean(s, ok, partialData);
    case ServePushStep(outcome) => ServePushKeeps(s, outcome);
    case EvictStep(k) => EvictKeeps(s, k);
    case WakeFromPullStep(k, write) =>
      WakeFromPullKeeps(s, k, write);
      EntryStepClean(s, k, s.entries[k].WokeFromPull(write));
    case WakeFromPushStep(k) =>
      WakeFromPushKeeps(s, k);
      EntryStepClean(s, k, s.entries[k].WokeFromPush());
    case EndStep(k, write) =>
      EndKeeps(s, k, write);
      OwnFile(s, k);
      EntryStepClean(s, k, s.entries[k].Ended(write));
  }

  // ---------- Whole runs ----------

  ghost predicate IsRun(run: seq<Cache>, steps: seq<Step>) {
    && |run| == |steps| + 1
    && forall i :: 0 <= i < |steps| ==> Enabled(run[i], steps[i]) && run[i + 1] == Apply(run[i], steps[i])
  }

  /** The simple map the cache stands for: only the clients' writes count. */
  ghost function Replay(m: PathMap, steps: seq<Step>): PathMap {
    if steps == [] then m else Written(Replay(m, steps[..|steps| - 1]), steps[|steps| - 1])
  }

  /** An available entry without a granted writer equals the device file. */
  ghost predicate CleanMatchesDevice(s: Cache) {
    forall k :: k in s.entries && s.entries[k].status == Available && s.entries[k].writers == 0 ==>
                  s.entries[k].file in s.files && k in s.device && s.device[k] == Content(s.files[s.entries[k].file])
  }

  lemma InvMeans(s: Cache)
    requires Inv(s)
    ensures CleanMatchesDevice(s)
  {
    forall k | k in s.entries ensures EntryClean(s, k) {
    }
  }

  /**
   Over every interleaving of clients, worker and evictor, with transfers that may fail but lose no device file, the view
   is the initial device plus the clients' writes; and an available entry without a granted writer equals the device file.
   */
  lemma {:induction false} CacheIsCoherent(run: seq<Cache>, steps: seq<Step>)
    requires IsRun(run, steps) && Init(run[0])
    requires forall i :: 0 <= i < |steps| ==> steps[i] != ServePushStep(Lost)
    ensures Inv(run[|steps|])
    ensures View(run[|steps|]) == Replay(run[0].device, steps)
    ensures CleanMatchesDevice(run[|steps|])
    decreases |steps|
  {
    var n := |steps|;
    if n == 0 {
      assert View(run[0]) == run[0].device;
    } else {
      hide Apply;
      hide Enabled;
      hide View;
      hide Inv;
      CacheIsCoherent(run[..n], steps[..n - 1]);
      StepKeeps(run[n - 1], steps[n - 1]);
    }
    InvMeans(run[n]);
  }

  // ---------- Pushes that lose the device file ----------

  /**
   A push that fails after it deleted the device file is not seen by clients.  But it leaves an entry available that
   differs from the device exactly when the entry was available, without a writer, with this push still queued.
   */
  lemma LostPush(s: Cache)
    requires Inv(s) && s.pushes != [] && CanPush(s, s.pushes[0])
    ensures var t, s' := s.pushes[0], ServePush(s, Lost);
            && Live(s.entries, t) && View(s') == View(s) && t.key !in s'.device
            && (CleanMatchesDevice(s') <==> !(s.entries[t.key].status == Available && s.entries[t.key].writers == 0))
  {
    var t := s.pushes[0];
    if !Live(s.entries, t) {
      OrphanHasNoFile(s, t);
    }
    ServePushKeepsBase(s, Lost);
    InvMeans(s);
    hide Inv, View;
    LostPushClean(s);
  }

  lemma LostPushClean(s: Cache)
    requires s.pushes != [] && CanPush(s, s.pushes[0]) && Live(s.entries, s.pushes[0]) && CleanMatchesDevice(s)
    ensures var e := s.entries[s.pushes[0].key];
            CleanMatchesDevice(ServePush(s, Lost)) <==> !(e.status == Available && e.writers == 0)
  {
    var k, s' := s.pushes[0].key, ServePush(s, Lost);
    assert k in s'.entries && k !in s'.device && s'.files == s.files;
    assert s'.entries[k].status == Available <==> s.entries[k].status == Available;
    forall l | l in s.entries && l != k && s.entries[l].status == Available && s.entries[l].writers == 0
      ensures l in s'.entries && s'.entries[l] == s.entries[l] && l in s'.device && s'.device[l] == s.device[l]
    {
    }
  }

  /** No eviction takes the only copy of what clients see. */
  ghost predicate EvictsSaved(s: Cache, step: Step) {
    step.EvictStep? ==> Saved(s, step.key)
  }

  /** Whatever fails, a step changes what clients see wrongly exactly when it evicts a copy the device does not have. */
  lemma StepIsCoherent(s: Cache, step: Step)
    requires Base(s) && Enabled(s, step)
    ensures Base(Apply(s, step)) && (Coherent(s, step, Apply(s, step)) <==> EvictsSaved(s, step))
  {
    hide Base, View, Saved;
    match step
    case BeginStep(k, write, f) => BeginKeeps(s, k, write, f);
    case WriteStep(k, bytes) => WriteKeeps(s, k, bytes);
    case PushIfDirtyStep(k) => PushIfDirtyKeepsBase(s, k);
    case ServePullStep(ok, partialData) => ServePullKeeps(s, ok, partialData);
    case ServePushStep(outcome) => ServePushKeepsBase(s, outcome);
    case EvictStep(k) => EvictKeepsBase(s, k);
    case WakeFromPullStep(k, write) => WakeFromPullKeeps(s, k, write);
    case WakeFromPushStep(k) => WakeFromPushKeeps(s, k);
    case EndStep(k, write) => EndKeeps(s, k, write);
  }

  ghost predicate Sees(s: Cache, m: PathMap, steps: seq<Step>) {
    View(s) == Replay(m, steps)
  }

  /** At every point of the run clients see the initial device plus their writes so far. */
  ghost predicate AlwaysCoherent(run: seq<Cache>, steps: seq<Step>)
    requires |run| == |steps| + 1
  {
    forall i :: 0 <= i <= |steps| ==> Sees(run[i], run[0].device, steps[..i])
  }

  ghost predicate AlwaysSaved(run: seq<Cache>, steps: seq<Step>)
    requires |run| == |steps| + 1
  {
    forall i :: 0 <= i < |steps| ==> EvictsSaved(run[i], steps[i])
  }

  lemma CoherentSnoc(run: seq<Cache>, steps: seq<Step>)
    requires |run| == |steps| + 1 && steps != []
    ensures AlwaysCoherent(run, steps) <==>
            AlwaysCoherent(run[..|steps|], steps[..|steps| - 1]) && Sees(run[|steps|], run[0].device, steps)
  {
    hide Sees;
    var n := |steps|;
    var front, before := run[..n], steps[..n - 1];
    assert steps[..n] == steps;
    forall i | 0 <= i < n ensures before[..i] == steps[..i] && front[i] == run[i] {
    }
    if AlwaysCoherent(front, before) && Sees(run[n], run[0].device, steps) {
      forall i | 0 <= i <= n ensures Sees(run[i], run[0].device, steps[..i]) {
        assert i < n ==> Sees(front[i], front[0].device, before[..i]);
      }
    }
    if AlwaysCoherent(run, steps) {
      forall i | 0 <= i <= n - 1 ensures Sees(front[i], front[0].device, before[..i]) {
        assert Sees(run[i], run[0].device, steps[..i]);
      }
      assert Sees(run[n], run[0].device, steps[..n]);
    }
  }

  lemma SavedSnoc(run: seq<Cache>, steps: seq<Step>)
    requires |run| == |steps| + 1 && steps != []
    ensures AlwaysSaved(run, steps) <==>
            AlwaysSaved(run[..|steps|], steps[..|steps| - 1]) && EvictsSaved(run[|steps| - 1], steps[|steps| - 1])
  {
    hide EvictsSaved;
    var n := |steps|;
    var front, before := run[..n], steps[..n - 1];
    assert forall i :: 0 <= i < n - 1 ==> front[i] == run[i] && before[i] == steps[i];
    if AlwaysSaved(front, before) && EvictsSaved(run[n - 1], steps[n - 1]) {
      forall i | 0 <= i < n ensures EvictsSaved(run[i], steps[i]) {
        if i < n - 1 {
          assert EvictsSaved(front[i], before[i]);
        }
      }
    }
  }

  lemma CoherentAtEnd(run: seq<Cache>, steps: seq<Step>)
    requires |run| == |steps| + 1 && AlwaysCoherent(run, steps)
    ensures Sees(run[|steps|], run[0].device, steps)
  {
    hide Sees;
    assert steps[..|steps|] == steps;
  }

  /**
   Over every run, pushes that lose the device file included, clients always see the initial device plus their writes
   exactly when every eviction finds its copy on the device.
   */
  lemma {:induction false} CoherentExactlyWhenSaved(run: seq<Cache>, steps: seq<Step>)
    requires IsRun(run, steps) && Init(run[0])
    ensures Base(run[|steps|])
    ensures AlwaysCoherent(run, steps) <==> AlwaysSaved(run, steps)
    decreases |steps|
  {
    var n := |steps|;
    if n == 0 {
      assert View(run[0]) == run[0].device;
    } else {
      var front, before := run[..n], steps[..n - 1];
      hide Apply, Enabled, View, Base, EvictsSaved, Written, AlwaysCoherent, AlwaysSaved;
      CoherentExactlyWhenSaved(front, before);
      StepIsCoherent(run[n - 1], steps[n - 1]);
      CoherentSnoc(run, steps);
      SavedSnoc(run, steps);
      if AlwaysCoherent(front, before) {
        CoherentAtEnd(front, before);
      }
    }
  }
}
