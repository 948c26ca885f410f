/**
 Moving or renaming through the cache (moveOrRenameInode): the device moves the node, then the cache entries of every file
 below it are bound to their new paths, so that bytes not yet pushed move along.

 Moves are modelled one at a time and with empty transfer queues.
 */
module CacheMove {
  import opened Paths
  import opened Blocks
  import opened Nodes
  import opened Children
  import opened Drives
  import opened Moving
  import opened CacheSpec
  import opened CacheObjects
  import opened CacheSync
  import opened Names

  // ---------- What rebinding does to the cache ----------

  /** _unsyncedCacheRebind for an entry that exists at a: the entry at b is destroyed and the one at a takes its place. */
  ghost function Rebind(s: Cache, a: Key, b: Key): Cache
    requires a in s.entries && a != b && (b in s.entries ==> PushComes(s, b))
  {
    var s1 := if b in s.entries then Destroyed(s, b) else s;
    s1.(entries := (s1.entries - {a})[b := s1.entries[a]])
  }

  ghost function EntryAt(entries: map<Key, Entry>, k: Key): Option<Entry> {
    if k in entries then Some(entries[k]) else None
  }

  /** The entry at k once the files `done`, given relative to the moved node, are rebound. */
  ghost function Relocated(entries: map<Key, Entry>, from: Key, to: Key, done: iset<Key>, k: Key): Option<Entry> {
    if Prefix(to, k) && k[|to|..] in done && from + k[|to|..] in entries then Some(entries[from + k[|to|..]])
    else if Prefix(from, k) && k[|from|..] in done then None
    else EntryAt(entries, k)
  }

  ghost predicate FileKept(s0: Cache, s: Cache, f: FileName) {
    (f in s.files <==> f in s0.files) && (f in s.files ==> s.files[f] == s0.files[f])
  }

  ghost predicate Rebound(s0: Cache, s: Cache, from: Key, to: Key, done: iset<Key>) {
    && s == s0.(entries := s.entries, files := s.files)
    && (forall k :: EntryAt(s.entries, k) == Relocated(s0.entries, from, to, done, k))
    && (forall k :: k in s.entries ==> FileKept(s0, s, s.entries[k].file))
    && FilesOk(s.entries, s.files)
  }

  /** No entry at or below the target needs a push. */
  ghost predicate TargetClear(entries: map<Key, Entry>, from: Key, to: Key) {
    && Apart(from, to)
    && forall k :: k in entries && Prefix(to, k) ==> !NeedsPush(entries[k])
  }

  lemma NotBelowBoth(from: Key, to: Key, k: Key)
    requires Apart(from, to)
    ensures !(Prefix(from, k) && Prefix(to, k))
  {
    if Prefix(from, k) {
      assert k == from + k[|from|..];
      ApartExtends(to, from, k[|from|..]);
    }
  }

  lemma PrefixOf(p: Key, r: Key)
    ensures Prefix(p, p + r) && (p + r)[|p|..] == r
  {
  }

  lemma SameSuffix(p: Key, k: Key, r: Key)
    requires Prefix(p, k) && k[|p|..] == r
    ensures k == p + r
  {
  }

  lemma RelocatedStep(entries: map<Key, Entry>, from: Key, to: Key, done: iset<Key>, r: Key, k: Key)
    requires Apart(from, to) && r !in done
    ensures Relocated(entries, from, to, done + iset{r}, k) ==
            if from + r !in entries then Relocated(entries, from, to, done, k)
            else if k == to + r then Some(entries[from + r])
            else if k == from + r then None
            else Relocated(entries, from, to, done, k)
    ensures Relocated(entries, from, to, done, from + r) == EntryAt(entries, from + r)
    ensures Relocated(entries, from, to, done, to + r) == EntryAt(entries, to + r)
  {
    NotBelowBoth(from, to, k);
    NotBelowBoth(from, to, from + r);
    NotBelowBoth(from, to, to + r);
    PrefixOf(from, r);
    PrefixOf(to, r);
    if Prefix(to, k) && k[|to|..] == r {
      SameSuffix(to, k, r);
    }
    if Prefix(from, k) && k[|from|..] == r {
      SameSuffix(from, k, r);
    }
  }

  lemma FilesRebound(entries: map<Key, Entry>, files: map<FileName, seq<byte>>, a: Key, b: Key)
    requires FilesOk(entries, files) && a in entries && b !in entries
    ensures FilesOk((entries - {a})[b := entries[a]], files)
  {
    var entries' := (entries - {a})[b := entries[a]];
    forall f | f in files ensures exists k :: k in entries' && entries'[k].file == f {
      var k :| k in entries && entries[k].file == f;
      var k' := if k == a then b else k;
      assert k' in entries' && entries'[k'].file == f;
    }
  }

  lemma RebindOver(entries: map<Key, Entry>, a: Key, b: Key)
    requires a in entries && b in entries && a != b
    ensures (entries - {b} - {a})[b := entries[a]] == (entries - {a})[b := entries[a]]
  {
  }

  lemma SameFileSameKey(s: Cache, k: Key, l: Key)
    requires FilesOk(s.entries, s.files) && k in s.entries && l in s.entries
    ensures s.entries[k].file == s.entries[l].file ==> k == l
  {
  }

  lemma RebindFiles(s: Cache, a: Key, b: Key)
    requires FilesOk(s.entries, s.files) && a in s.entries && a != b && (b in s.entries ==> !NeedsPush(s.entries[b]))
    ensures b in s.entries ==> PushComes(s, b)
    ensures Rebind(s, a, b) == s.(entries := Rebind(s, a, b).entries, files := Rebind(s, a, b).files)
    ensures Rebind(s, a, b).entries == (s.entries - {a})[b := s.entries[a]]
    ensures FilesOk(Rebind(s, a, b).entries, Rebind(s, a, b).files)
    ensures forall k :: k in s.entries && k != b ==> FileKept(s, Rebind(s, a, b), s.entries[k].file)
  {
    if b in s.entries {
      DestroyedClean(s, b);
      FilesRemove(s.entries, s.files, b);
      RebindOver(s.entries, a, b);
      hide Destroyed, PushComes;
      FilesRebound(Remove(s, b).entries, Remove(s, b).files, a, b);
      forall k | k in s.entries && k != b ensures s.entries[k].file != s.entries[b].file {
        SameFileSameKey(s, k, b);
      }
      hide FilesOk;
    } else {
      FilesRebound(s.entries, s.files, a, b);
    }
  }

  /** Rebinding one more file. */
  lemma ReboundStep(s0: Cache, s: Cache, from: Key, to: Key, done: iset<Key>, r: Key)
    requires Rebound(s0, s, from, to, done) && TargetClear(s0.entries, from, to) && r !in done
    ensures from + r != to + r
    ensures to + r in s.entries ==> !NeedsPush(s.entries[to + r]) && PushComes(s, to + r)
    ensures Rebound(s0, if from + r in s.entries then Rebind(s, from + r, to + r) else s, from, to, done + iset{r})
  {
    var a, b := from + r, to + r;
    NotBelowBoth(from, to, a);
    PrefixOf(from, r);
    PrefixOf(to, r);
    RelocatedStep(s0.entries, from, to, done, r, b);
    assert EntryAt(s.entries, a) == EntryAt(s0.entries, a);
    assert EntryAt(s.entries, b) == EntryAt(s0.entries, b);
    hide Relocated;
    assert b in s.entries ==> !NeedsPush(s.entries[b]) && PushComes(s, b);
    var s' := if a in s.entries then Rebind(s, a, b) else s;
    if a in s.entries {
      RebindFiles(s, a, b);
    }
    hide Rebind, Destroyed, NeedsPush, PushComes;
    hide FilesOk;
    forall k ensures EntryAt(s'.entries, k) == Relocated(s0.entries, from, to, done + iset{r}, k) {
      RelocatedStep(s0.entries, from, to, done, r, k);
      assert EntryAt(s.entries, k) == Relocated(s0.entries, from, to, done, k);
    }
    forall k | k in s'.entries ensures FileKept(s0, s', s'.entries[k].file) {
      var k0 := if a in s.entries && k == b then a else k;
      assert k0 in s.entries && s'.entries[k] == s.entries[k0];
      assert FileKept(s0, s, s.entries[k0].file);
    }
  }

  // ---------- The files below a directory ----------

  ghost function FilesOf(n: Node): iset<Key> {
    iset r: Key | r in Map(n) && Map(n)[r].Content?
  }

  ghost function At(rel: Key, files: iset<Key>): iset<Key> {
    iset r: Key | Prefix(rel, r) && r[|rel|..] in files
  }

  function FirstKids(d: Node, i: nat): Node
    requires d.Dir? && i <= |d.kids|
  {
    Dir(d.name, d.kids[..i])
  }

  lemma FilesOfKid(d: Node, i: nat)
    requires d.Dir? && i < |d.kids| && DistinctKeys(d.kids)
    ensures forall r :: r in FilesOf(FirstKids(d, i + 1)) <==>
                          r in FilesOf(FirstKids(d, i)) ||
                          (r != [] && r[0] == KeyOf(d.kids[i]) && r[1..] in FilesOf(d.kids[i]))
    ensures forall r :: r in FilesOf(FirstKids(d, i)) ==> r != [] && r[0] != KeyOf(d.kids[i])
  {
    var a, x := FirstKids(d, i), d.kids[i];
    assert FirstKids(d, i + 1) == WithKid(a, x);
    assert !HasKid(a, KeyOf(x));
    forall r: Key
      ensures r in FilesOf(WithKid(a, x)) <==> r in FilesOf(a) || (r != [] && r[0] == KeyOf(x) && r[1..] in FilesOf(x))
      ensures r in FilesOf(a) ==> r != [] && r[0] != KeyOf(x)
    {
      MapOfKids(a, r);
      MapOfKids(WithKid(a, x), r);
      if r != [] {
        AddedKid(a, x, r[0]);
      }
    }
  }

  lemma AtKid(rel: Key, k: string, files: iset<Key>, r: Key)
    ensures r in At(rel + [k], files) <==>
            Prefix(rel, r) && r[|rel|..] != [] && r[|rel|..][0] == k && r[|rel|..][1..] in files
  {
    if Prefix(rel, r) && r[|rel|..] != [] {
      assert r[..|rel| + 1] == r[..|rel|] + [r[|rel|]];
    }
    if Prefix(rel + [k], r) {
      assert r[..|rel|] == r[..|rel| + 1][..|rel|];
    }
  }

  lemma FilesOfKids(d: Node, i: nat, rel: Key)
    requires d.Dir? && i < |d.kids| && DistinctKeys(d.kids)
    ensures At(rel, FilesOf(FirstKids(d, i + 1))) ==
            At(rel, FilesOf(FirstKids(d, i))) + At(rel + [KeyOf(d.kids[i])], FilesOf(d.kids[i]))
    ensures At(rel, FilesOf(FirstKids(d, i))) !! At(rel + [KeyOf(d.kids[i])], FilesOf(d.kids[i]))
  {
    FilesOfKid(d, i);
    hide FilesOf, FirstKids;
    forall r: Key
      ensures r in At(rel + [KeyOf(d.kids[i])], FilesOf(d.kids[i])) <==>
              Prefix(rel, r) && r[|rel|..] != [] && r[|rel|..][0] == KeyOf(d.kids[i])
              && r[|rel|..][1..] in FilesOf(d.kids[i])
    {
      AtKid(rel, KeyOf(d.kids[i]), FilesOf(d.kids[i]), r);
    }
  }

  lemma FilesOfLeaves(d: Node, rel: Key)
    ensures d.Dir? ==> At(rel, FilesOf(FirstKids(d, 0))) == iset{}
    ensures d.File? ==> At(rel, FilesOf(d)) == iset{rel}
    ensures d.Dir? ==> FirstKids(d, |d.kids|) == d
  {
    if d.File? {
      LeafMaps(d.name, d.blocks);
      assert forall r: Key :: r in FilesOf(d) <==> r == [];
      assert forall r: Key :: Prefix(rel, r) && r[|rel|..] == [] ==> r == rel;
      assert rel[|rel|..] == [];
    } else {
      LeafMaps(d.name, []);
    }
  }

  // ---------- The moved cache ----------

  ghost predicate Quiet(s: Cache) {
    s.pulls == [] && s.pushes == []
  }

  lemma QuietEntry(s: Cache, k: Key)
    requires Inv(s) && Quiet(s) && k in s.entries
    ensures EntryBase(s, k) && EntryClean(s, k)
    ensures s.entries[k].status != Pulling && s.entries[k].status != Pushing
  {
  }

  lemma EraseQueues(s: Cache, k: Key)
    requires Inv(s) && Quiet(s) && k in s.entries
    ensures QueuesOk(s.entries - {k}, s.pulls, s.pushes, s.used)
    ensures FilesOk(s.entries - {k}, s.files - {s.entries[k].file})
  {
    BaseParts(s);
    hide EntryBase, EntryClean;
    QueuesRemove(s.entries, s.pulls, s.pushes, s.used, k);
    FilesRemove(s.entries, s.files, k);
  }

  lemma EraseKeeps(s: Cache, k: Key)
    requires Inv(s) && Quiet(s) && k in s.entries
    ensures Inv(Remove(s, k)) && Quiet(Remove(s, k)) && (View(Remove(s, k)) == View(s) <==> Saved(s, k))
  {
    var s' := Remove(s, k);
    OwnFile(s, k);
    EraseQueues(s, k);
    RemoveTouches(s, k);
    RemoveView(s, k);
    hide QueuesOk, FilesOk, EntryBase, EntryClean, View, Only, OtherFiles, Saved;
    BaseOnly(s, s', k);
    CleanOnly(s, s', k);
  }

  /** The entry's copy is on the device or gets there when it is pushed; an empty copy cannot be pushed. */
  ghost predicate Flushable(s: Cache, k: Key) {
    HoldsAt(s, k) ==>
      var bytes := s.files[s.entries[k].file];
      (s.entries[k].status == Dirty && bytes != []) || (k in s.device && s.device[k] == Content(bytes))
  }

  /** At most the bytes of the file at k differ. */
  ghost predicate DeviceSame(s: Cache, s': Cache, k: Key) {
    s'.device == s.device || (k in s.device && k in s'.device && s'.device == s.device[k := s'.device[k]])
  }

  /** What the destructor of a dirty entry leaves before it deletes the backing file. */
  lemma FlushedDirty(s: Cache, k: Key)
    requires Inv(s) && Quiet(s) && k in s.entries && s.entries[k].status == Dirty
    ensures PushComes(s, k)
    ensures var s2 := Drained(PushIfDirty(s, k), k);
            && Inv(s2) && Quiet(s2) && View(s2) == View(s) && (Saved(s2, k) <==> Flushable(s, k))
            && DeviceSame(s, s2, k)
  {
    QuietEntry(s, k);
    PushIfDirtyKeeps(s, k);
    var s1 := PushIfDirty(s, k);
    ServePushKeeps(s1, Done);
    hide Inv, View;
    assert s1.pushes == [Transfer(k, s.entries[k].file)];
    PushComesOn(s1, k);
    var s2 := ServePush(s1, Done);
    DrainedDone(s2, k);
    assert Drained(s1, k) == s2;
  }

  lemma FlushedEntries(s: Cache, k: Key)
    requires Quiet(s) && k in s.entries && s.entries[k].status == Dirty
    ensures PushComes(s, k) && Destroyed(s, k).entries == s.entries - {k}
  {
    var s1 := PushIfDirty(s, k);
    assert s1.pushes == [Transfer(k, s.entries[k].file)];
    PushComesOn(s1, k);
    DrainedDone(ServePush(s1, Done), k);
  }

  /** Destroying an entry while no transfer is queued is unseen exactly when its copy can be flushed. */
  lemma DestroyKeeps(s: Cache, k: Key)
    requires Inv(s) && Quiet(s) && k in s.entries
    ensures PushComes(s, k)
    ensures var s' := Destroyed(s, k);
            && Inv(s') && Quiet(s') && (View(s') == View(s) <==> Flushable(s, k))
            && DeviceSame(s, s', k) && s'.entries == s.entries - {k}
            && (k !in s.device ==> Flushable(s, k))
  {
    QuietEntry(s, k);
    if s.entries[k].status == Dirty {
      FlushedDirty(s, k);
      FlushedEntries(s, k);
      hide Inv, View, Saved, Flushable;
      EraseKeeps(Drained(PushIfDirty(s, k), k), k);
    } else {
      hide Inv, View;
      DestroyedClean(s, k);
      EraseKeeps(s, k);
    }
  }

  ghost function FilesBelow(m: PathMap, p: Key): iset<Key> {
    iset r: Key | HasFile(m, p + r)
  }

  /** The device has moved and the files below are rebound. */
  ghost predicate Moves(s: Cache, s': Cache, from: Key, to: Key) {
    && Inv(s) && Quiet(s) && Apart(from, to)
    && (forall k :: Prefix(to, k) ==> k !in s.device)
    && Rebound(s.(device := Moved(s.device, from, to)), s', from, to, FilesBelow(s.device, from))
  }

  /** Where the entry at k was before the move. */
  ghost function Source(s: Cache, from: Key, to: Key, k: Key): Key {
    if Prefix(to, k) && k[|to|..] in FilesBelow(s.device, from) && from + k[|to|..] in s.entries then from + k[|to|..] else k
  }

  lemma MovedEntry(s: Cache, s': Cache, from: Key, to: Key, k: Key)
    requires Moves(s, s', from, to) && k in s'.entries
    ensures var k0 := Source(s, from, to, k);
            && k0 in s.entries && s'.entries[k] == s.entries[k0] && FileKept(s, s', s.entries[k0].file)
            && (Holding(s.entries[k0].status) ==>
                  && HasFile(s.device, k0) && k in s'.device && s'.device[k] == s.device[k0]
                  && (Prefix(to, k) ==> k0 == from + k[|to|..])
                  && !Prefix(from, k))
  {
    var k0 := Source(s, from, to, k);
    var s0 := s.(device := Moved(s.device, from, to));
    var done := FilesBelow(s.device, from);
    assert EntryAt(s'.entries, k) == Relocated(s0.entries, from, to, done, k);
    assert FileKept(s0, s', s'.entries[k].file);
    QuietEntry(s, k0);
    hide Inv, EntryBase, EntryClean, FilesOk;
    NotBelowBoth(from, to, k);
    MovedAt(s.device, from, to, k);
    if Prefix(from, k) {
      SameSuffix(from, k, k[|from|..]);
    }
    HoldingHasFile(s, k0);
  }

  lemma HoldingHasFile(s: Cache, k: Key)
    requires Inv(s) && k in s.entries
    ensures Holding(s.entries[k].status) ==> HasFile(s.device, k) && s.entries[k].file in s.files
  {
    assert EntryBase(s, k);
  }

  lemma MovedEntryOk(s: Cache, s': Cache, from: Key, to: Key, k: Key)
    requires Moves(s, s', from, to) && k in s'.entries
    ensures EntryBase(s', k) && EntryClean(s', k)
  {
    var k0 := Source(s, from, to, k);
    MovedEntry(s, s', from, to, k);
    QuietEntry(s, k0);
    hide Inv, Relocated, FilesOk, Moved, Source, FilesBelow;
  }

  lemma MovedInv(s: Cache, s': Cache, from: Key, to: Key)
    requires Moves(s, s', from, to)
    ensures Inv(s')
  {
    MovesParts(s, s', from, to);
    hide Moves, EntryBase, EntryClean, FilesOk, QueuesOk;
    forall k | k in s'.entries ensures EntryBase(s', k) && EntryClean(s', k) {
      MovedEntryOk(s, s', from, to, k);
    }
  }

  lemma MovesParts(s: Cache, s': Cache, from: Key, to: Key)
    requires Moves(s, s', from, to)
    ensures QueuesOk(s'.entries, s'.pulls, s'.pushes, s'.used) && FilesOk(s'.entries, s'.files)
  {
    hide Inv, FilesOk;
  }

  lemma MovesAt(s: Cache, s': Cache, from: Key, to: Key, k: Key)
    requires Moves(s, s', from, to)
    ensures Inv(s) && !(Prefix(from, k) && Prefix(to, k))
    ensures EntryAt(s'.entries, k) == Relocated(s.entries, from, to, FilesBelow(s.device, from), k)
  {
    NotBelowBoth(from, to, k);
    hide Inv, FilesOk, Moved, Relocated;
  }

  lemma MovedHolds(s: Cache, s': Cache, from: Key, to: Key, k: Key)
    requires Moves(s, s', from, to)
    ensures Prefix(to, k) ==> (HoldsAt(s', k) <==> HoldsAt(s, from + k[|to|..]))
    ensures Prefix(to, k) && HoldsAt(s', k) ==>
              s'.files[s'.entries[k].file] == s.files[s.entries[from + k[|to|..]].file]
    ensures Prefix(from, k) ==> !HoldsAt(s', k)
    ensures !Prefix(to, k) && !Prefix(from, k) ==>
              && (HoldsAt(s', k) <==> HoldsAt(s, k))
              && (HoldsAt(s', k) ==> s'.files[s'.entries[k].file] == s.files[s.entries[k].file])
  {
    MovesAt(s, s', from, to, k);
    if k in s'.entries {
      MovedEntry(s, s', from, to, k);
    }
    if Prefix(to, k) && from + k[|to|..] in s.entries {
      HoldingHasFile(s, from + k[|to|..]);
    }
    hide Moves, Prefix;
  }

  lemma ViewAt(s: Cache, k: Key)
    ensures ItemAt(View(s), k) ==
            if HoldsAt(s, k) then Some(Content(s.files[s.entries[k].file])) else ItemAt(s.device, k)
  {
  }

  /** Moving commutes with the view. */
  lemma MovedView(s: Cache, s': Cache, from: Key, to: Key)
    requires Moves(s, s', from, to)
    ensures View(s') == Moved(View(s), from, to)
  {
    forall k ensures ItemAt(View(s'), k) == ItemAt(Moved(View(s), from, to), k) {
      MovedHolds(s, s', from, to, k);
      assert s'.device == Moved(s.device, from, to) && Apart(from, to);
      hide Moves, Moved, HoldsAt, ItemAt, View;
      MovedAt(s.device, from, to, k);
      MovedAt(View(s), from, to, k);
      ViewAt(s', k);
      ViewAt(s, if Prefix(to, k) then from + k[|to|..] else k);
    }
    SameMap(View(s'), Moved(View(s), from, to));
  }

  /** The entries of the files below the old path are now those at their new paths, as they are; no other entry changed. */
  ghost predicate EntriesMoved(before: map<Key, Entry>, after: map<Key, Entry>, device: PathMap, from: Key, to: Key) {
    && (forall r: Key :: from + r in before && from + r in device && device[from + r].Content? ==>
          from + r !in after && to + r in after && after[to + r] == before[from + r])
    && (forall k: Key :: !Prefix(from, k) && !Prefix(to, k) ==>
          (k in after <==> k in before) && (k in before ==> after[k] == before[k]))
  }

  lemma MovedFileEntry(s: Cache, s': Cache, from: Key, to: Key, r: Key)
    requires Moves(s, s', from, to) && from + r in s.entries && HasFile(s.device, from + r)
    ensures from + r !in s'.entries && to + r in s'.entries && s'.entries[to + r] == s.entries[from + r]
  {
    MovesAt(s, s', from, to, from + r);
    MovesAt(s, s', from, to, to + r);
    assert Apart(from, to);
    hide Moves;
    PrefixOf(from, r);
    PrefixOf(to, r);
    assert r in FilesBelow(s.device, from);
  }

  lemma OtherEntry(s: Cache, s': Cache, from: Key, to: Key, k: Key)
    requires Moves(s, s', from, to) && !Prefix(from, k) && !Prefix(to, k)
    ensures (k in s'.entries <==> k in s.entries) && (k in s.entries ==> s'.entries[k] == s.entries[k]) && k != to
  {
    MovesAt(s, s', from, to, k);
    hide Moves;
  }

  lemma MovesEntries(s: Cache, s': Cache, from: Key, to: Key, before: map<Key, Entry>)
    requires Moves(s, s', from, to) && s.entries == before - {to}
    ensures EntriesMoved(before, s'.entries, s.device, from, to)
  {
    hide Moves, Prefix;
    forall r: Key | from + r in before && from + r in s.device && s.device[from + r].Content?
      ensures from + r !in s'.entries && to + r in s'.entries && s'.entries[to + r] == before[from + r]
    {
      assert from + r != to by { FileIsNotTarget(s, s', from, to, r); }
      MovedFileEntry(s, s', from, to, r);
    }
    forall k: Key | !Prefix(from, k) && !Prefix(to, k)
      ensures (k in s'.entries <==> k in before) && (k in before ==> s'.entries[k] == before[k])
    {
      OtherEntry(s, s', from, to, k);
    }
  }

  lemma FileIsNotTarget(s: Cache, s': Cache, from: Key, to: Key, r: Key)
    requires Moves(s, s', from, to)
    ensures from + r != to
  {
    assert Apart(from, to);
    PrefixOf(from, r);
  }

  // ---------- The methods ----------

  lemma KeysMatch(cache: FileCache)
    requires cache.Valid()
    ensures cache.cachemap.Keys == cache.entries.Keys
  {
  }

  /** The end of _unsyncedCacheRebind: insert the entry at the new key, erase it at the old one, rename it. */
  method Rekey(cache: FileCache, oldpath: FsPath, newpath: FsPath)
    requires cache.Valid() && Keys(oldpath) != Keys(newpath)
    requires Keys(oldpath) in cache.cachemap && Keys(newpath) !in cache.cachemap
    modifies cache`cachemap, cache`entries, cache.cachemap.Values
    ensures cache.Valid() && cache.cachemap.Values <= old(cache.cachemap.Values)
    ensures Keys(oldpath) in old(cache.entries)
    ensures cache.entries == (old(cache.entries) - {Keys(oldpath)})[Keys(newpath) := old(cache.entries)[Keys(oldpath)]]
  {
    hide Drive.Valid, HashNames.ConflictlessHashProvider.Valid, Keys, FileTableEntry.State;
    var kold, knew := Keys(oldpath), Keys(newpath);
    var entry := cache.cachemap[kold];
    cache.cachemap := cache.cachemap[knew := entry];
    cache.cachemap := cache.cachemap - {kold};
    cache.entries := (cache.entries - {kold})[knew := cache.entries[kold]];
    RenameEntry(entry, newpath, cache.entries[knew]);
  }

  method RenameEntry(entry: FileTableEntry, newPath: FsPath, ghost e: Entry)
    requires entry.State() == e
    modifies entry`pathOnDevice
    ensures Matches(entry, Keys(newPath), e)
  {
    entry.Rename(newPath);
  }

  /** _unsyncedCacheRebind. */
  method UnsyncedCacheRebind(cache: FileCache, oldpath: FsPath, newpath: FsPath) returns (found: bool)
    requires cache.Valid() && (Keys(oldpath) in cache.entries ==> Keys(oldpath) != Keys(newpath))
    requires Keys(oldpath) in cache.entries && Keys(newpath) in cache.entries ==>
               PushComes(cache.State(), Keys(newpath)) && (NeedsPush(cache.entries[Keys(newpath)]) ==> cache.drive.reliable)
    modifies cache.Repr()
    ensures cache.Valid() && cache.Repr() <= old(cache.Repr())
    ensures found <==> Keys(oldpath) in old(cache.entries)
    ensures cache.State() == if found then Rebind(old(cache.State()), Keys(oldpath), Keys(newpath)) else old(cache.State())
    ensures forall n :: old(cache.NamesFrom(n)) ==> cache.NamesFrom(n)
  {
    hide FileCache.Valid, Keys, Transfers, Map, Destroyed, PushComes, NeedsPush, FileCache.NamesFrom;
    KeysMatch(cache);
    if Keys(oldpath) !in cache.cachemap {
      return false;
    }
    if Keys(newpath) in cache.cachemap {
      DestroyEntry(cache, Keys(newpath), false);
    }
    KeysMatch(cache);
    Rekey(cache, oldpath, newpath);
    return true;
  }

  /** Rebinding one file of the moved directory, given by its old and new path. */
  method RebindFile(cache: FileCache, oldNodePath: FsPath, newNodePath: FsPath,
                    ghost s0: Cache, ghost from: Key, ghost to: Key, ghost rel: Key, ghost done: iset<Key>)
    requires Keys(oldNodePath) == from + rel && Keys(newNodePath) == to + rel && rel !in done
    requires cache.Valid() && TargetClear(s0.entries, from, to) && Rebound(s0, cache.State(), from, to, done)
    modifies cache.Repr()
    ensures cache.Valid() && cache.Repr() <= old(cache.Repr())
    ensures Rebound(s0, cache.State(), from, to, done + iset{rel})
    ensures forall n :: old(cache.NamesFrom(n)) ==> cache.NamesFrom(n)
  {
    hide FileCache.Valid, Keys, Transfers, Map, Rebound, Rebind, TargetClear, PushComes, FileCache.NamesFrom;
    ReboundStep(s0, cache.State(), from, to, done, rel);
    var found := UnsyncedCacheRebind(cache, oldNodePath, newNodePath);
  }

  /** CacheRebinder: all files below a directory of the device, which was moved already. */
  method RebindDirectory(cache: FileCache, oldPathOfDir: FsPath, newPathOfDir: FsPath, dir: Node,
                         ghost s0: Cache, ghost from: Key, ghost to: Key, ghost rel: Key, ghost done: iset<Key>)
    requires dir.Dir? && Good(dir) && ValidPath(oldPathOfDir) && ValidPath(newPathOfDir)
    requires Keys(oldPathOfDir) == from + rel && Keys(newPathOfDir) == to + rel && At(rel, FilesOf(dir)) !! done
    requires cache.Valid() && TargetClear(s0.entries, from, to) && Rebound(s0, cache.State(), from, to, done)
    modifies cache.Repr()
    ensures cache.Valid() && cache.Repr() <= old(cache.Repr())
    ensures Rebound(s0, cache.State(), from, to, done + At(rel, FilesOf(dir)))
    ensures forall n :: old(cache.NamesFrom(n)) ==> cache.NamesFrom(n)
    decreases dir
  {
    hide FileCache.Valid, Keys, Transfers, Map, Rebound, TargetClear, At, FilesOf, FirstKids, FileCache.NamesFrom;
    FilesOfLeaves(dir, rel);
    assert done + iset{} == done;
    for i := 0 to |dir.kids|
      invariant cache.Valid() && cache.Repr() <= old(cache.Repr())
      invariant Rebound(s0, cache.State(), from, to, done + At(rel, FilesOf(FirstKids(dir, i))))
      invariant forall n :: old(cache.NamesFrom(n)) ==> cache.NamesFrom(n)
    {
      ghost var done' := done + At(rel, FilesOf(FirstKids(dir, i)));
      FilesOfKids(dir, i, rel);
      KidIsFree(dir, i, rel, done);
      VisitNode(cache, oldPathOfDir, newPathOfDir, dir, i, dir.kids[i], s0, from, to, rel, done');
      assert done' + At(rel + [KeyOf(dir.kids[i])], FilesOf(dir.kids[i])) == done + At(rel, FilesOf(FirstKids(dir, i + 1)));
    }
  }

  lemma KidIsFree(dir: Node, i: nat, rel: Key, done: iset<Key>)
    requires dir.Dir? && i < |dir.kids| && DistinctKeys(dir.kids) && At(rel, FilesOf(dir)) !! done
    ensures At(rel + [KeyOf(dir.kids[i])], FilesOf(dir.kids[i])) !! done
  {
    var k := KeyOf(dir.kids[i]);
    FindIs(dir.kids, i);
    hide FilesOf;
    forall r | r in At(rel + [k], FilesOf(dir.kids[i])) ensures r in At(rel, FilesOf(dir)) {
      AtKid(rel, k, FilesOf(dir.kids[i]), r);
      FileOfKid(dir, i, r[|rel|..]);
    }
  }

  lemma FileOfKid(dir: Node, i: nat, r: Key)
    requires dir.Dir? && i < |dir.kids| && Find(dir.kids, KeyOf(dir.kids[i])) == i
    requires r != [] && r[0] == KeyOf(dir.kids[i]) && r[1..] in FilesOf(dir.kids[i])
    ensures r in FilesOf(dir)
  {
  }

  /** CacheRebinder::doForAllDirContentMethod. */
  method VisitNode(cache: FileCache, oldPathOfDir: FsPath, newPathOfDir: FsPath,
                   ghost dir: Node, ghost i: nat, currentNode: Node,
                   ghost s0: Cache, ghost from: Key, ghost to: Key, ghost rel: Key, ghost done: iset<Key>)
    requires dir.Dir? && i < |dir.kids| && currentNode == dir.kids[i]
    requires Good(currentNode) && ValidName(currentNode.name) && ValidPath(oldPathOfDir) && ValidPath(newPathOfDir)
    requires Keys(oldPathOfDir) == from + rel && Keys(newPathOfDir) == to + rel
    requires At(rel + [KeyOf(currentNode)], FilesOf(currentNode)) !! done
    requires cache.Valid() && TargetClear(s0.entries, from, to) && Rebound(s0, cache.State(), from, to, done)
    modifies cache.Repr()
    ensures cache.Valid() && cache.Repr() <= old(cache.Repr())
    ensures Rebound(s0, cache.State(), from, to, done + At(rel + [KeyOf(currentNode)], FilesOf(currentNode)))
    ensures forall n :: old(cache.NamesFrom(n)) ==> cache.NamesFrom(n)
    decreases dir, 0
  {
    hide FileCache.Valid, Transfers, Map, Rebound, TargetClear, At, FilesOf, FileCache.NamesFrom;
    var name := currentNode.name;
    var oldNodePath := ChildPath(oldPathOfDir, name, from, rel);
    var newNodePath := ChildPath(newPathOfDir, name, to, rel);
    ghost var below := rel + [Upper(name)];
    assert below == rel + [KeyOf(currentNode)];
    hide Keys, Good, ValidPath, ValidName, KeyOf, Upper, FileCache.State, FileCache.Repr;
    FilesOfLeaves(currentNode, below);
    if currentNode.Dir? {
      RebindDirectory(cache, oldNodePath, newNodePath, currentNode, s0, from, to, below, done);
    } else {
      RebindFile(cache, oldNodePath, newNodePath, s0, from, to, below, done);
    }
  }

  /** The path of a child, by printing and parsing. */
  method ChildPath(path: FsPath, name: string, ghost base: Key, ghost rel: Key) returns (child: FsPath)
    requires ValidPath(path) && ValidName(name) && Keys(path) == base + rel
    ensures ValidPath(child) && Keys(child) == base + (rel + [Upper(name)])
  {
    var printed := GetFullPath(path);
    child := Parse(printed + "\\" + name);
    ChildKeys(path, name, base, rel);
  }

  lemma ChildKeys(path: FsPath, name: string, base: Key, rel: Key)
    requires ValidPath(path) && ValidName(name) && Keys(path) == base + rel
    ensures Keys(Split(Join(path) + "\\" + name)) == base + (rel + [Upper(name)])
    ensures ValidPath(Split(Join(path) + "\\" + name))
  {
    ParseChild(path, name);
    assert Keys(path + [name]) == Keys(path) + [Upper(name)];
    assert base + rel + [Upper(name)] == base + (rel + [Upper(name)]);
  }

  // ---------- moveOrRenameInode ----------

  /** moveInode: the request carries the printed new path, and the worker parses it again. */
  method MoveInode(drive: Drive, oldname: FsPath, newname: FsPath) returns (ok: bool)
    requires drive.Valid() && drive.reliable && ValidPath(oldname) && ValidPath(newname)
    requires Prefix(Keys(oldname), Keys(newname)) ==> !CanMove(drive.Items(), Keys(oldname), Keys(newname))
    modifies drive
    ensures drive.Valid()
    ensures ok <==> CanMove(old(drive.Items()), Keys(oldname), Keys(newname))
    ensures ok ==> newname != [] &&
                   NamesMoved(old(drive.root), drive.root, Keys(oldname), Keys(newname), newname[|newname| - 1])
    ensures drive.Items() == if ok then Moved(old(drive.Items()), Keys(oldname), Keys(newname)) else old(drive.Items())
  {
    var printed := GetFullPath(newname);
    var parsed := Parse(printed);
    ParsePrinted(newname);
    ok := MoveNode(drive, oldname, parsed);
  }

  /** moveInode or renameInode, as _mustMove decides. */
  method MoveOnDevice(drive: Drive, oldpath: FsPath, newpath: FsPath) returns (ok: bool)
    requires drive.Valid() && drive.reliable && ValidPath(oldpath) && ValidPath(newpath)
    requires Prefix(Keys(oldpath), Keys(newpath)) ==> !CanMove(drive.Items(), Keys(oldpath), Keys(newpath))
    modifies drive
    ensures drive.Valid()
    ensures ok <==> CanMove(old(drive.Items()), Keys(oldpath), Keys(newpath))
    ensures ok ==> newpath != [] &&
                   NamesMoved(old(drive.root), drive.root, Keys(oldpath), Keys(newpath), newpath[|newpath| - 1])
    ensures drive.Items() == if ok then Moved(old(drive.Items()), Keys(oldpath), Keys(newpath)) else old(drive.Items())
  {
    hide Map, Moved, CanMove, NamesMoved;
    var mustMove := MustMove(oldpath, newpath);
    if mustMove {
      ok := MoveInode(drive, oldpath, newpath);
    } else {
      RenameMeansMove(drive.root, oldpath, newpath);
      ok := drive.RenameObject(oldpath, PathOnLayer(newpath, |newpath| - 1));
    }
  }

  lemma SameDirectoryIff(root: Node, from: Key, to: Key)
    requires from != [] && to != [] && Parent(from) == Parent(to)
    ensures CanMove(Map(root), from, to) <==> from in Map(root) && to !in Map(root)
  {
    if from in Map(root) && to !in Map(root) {
      SameDirectory(root, from, to);
    }
  }

  lemma LastKey(path: FsPath)
    requires path != []
    ensures Parent(Keys(path)) + [Upper(path[|path| - 1])] == Keys(path)
  {
  }

  /** Within one directory, renaming succeeds exactly when moving would. */
  lemma RenameMeansMove(root: Node, oldpath: FsPath, newpath: FsPath)
    requires root.Dir? && ValidPath(oldpath) && ValidPath(newpath) && |oldpath| == |newpath|
    requires oldpath != [] ==> Parent(Keys(oldpath)) == Parent(Keys(newpath))
    ensures var from, to, name := Keys(oldpath), Keys(newpath), PathOnLayer(newpath, |newpath| - 1);
            && (CanMove(Map(root), from, to) <==> from in Map(root) && SiblingKeys(oldpath, name) !in Map(root))
            && (oldpath != [] ==> ValidName(name) && Parent(from) + [Upper(name)] == to)
            && (oldpath == [] ==> !CanMove(Map(root), from, to))
  {
    var from, to, name := Keys(oldpath), Keys(newpath), PathOnLayer(newpath, |newpath| - 1);
    if oldpath == [] {
      SplitWord("");
      assert SiblingKeys(oldpath, name) == [] && Lookup(root, []).Some?;
    } else {
      SiblingParses(oldpath, name);
      LastKey(newpath);
      hide SiblingKeys, Upper, Keys, Map, CanMove;
      SameDirectoryIff(root, from, to);
    }
  }

  /** What moveOrRenameInode does when the device has moved the node: bind the entries below it to their new paths. */
  method RebindMoved(cache: FileCache, oldpath: FsPath, newpath: FsPath, ghost s: Cache)
    requires cache.Valid() && Inv(s) && Quiet(s) && ValidPath(oldpath) && ValidPath(newpath)
    requires Apart(Keys(oldpath), Keys(newpath)) && Keys(oldpath) in s.device
    requires forall k :: Prefix(Keys(newpath), k) ==> k !in s.device
    requires cache.State() == s.(device := Moved(s.device, Keys(oldpath), Keys(newpath)))
    modifies cache.Repr()
    ensures cache.Valid() && Moves(s, cache.State(), Keys(oldpath), Keys(newpath))
    ensures forall n :: old(cache.NamesFrom(n)) ==> cache.NamesFrom(n)
  {
    hide FileCache.Valid, Keys, Transfers, Rebound, TargetClear, Inv, Moved, FilesOf, At, Drive.Valid, FileCache.NamesFrom;
    ghost var from, to := Keys(oldpath), Keys(newpath);
    ghost var s0 := cache.State();
    ReboundNothing(s, from, to);
    MovedRoot(cache.drive.root, s.device, from, to);
    assert from + [] == from && to + [] == to;
    assert iset{} + At([], FilesBelow(s.device, from)) == FilesBelow(s.device, from) by {
      AtRoot(FilesBelow(s.device, from));
    }
    assert cache.drive.Valid() by { DriveIsValid(cache); }
    var isDir := cache.drive.CheckIfExists(newpath);
    var node := cache.drive.FilePathToNode(newpath);
    AtRoot(FilesOf(node.value));
    FilesOfLeaves(node.value, []);
    if isDir == IsDirectory {
      assert Good(node.value) by { GoodAt(cache.drive, to); }
      RebindDirectory(cache, oldpath, newpath, node.value, s0, from, to, [], iset{});
    } else {
      RebindFile(cache, oldpath, newpath, s0, from, to, [], iset{});
    }
  }

  lemma DriveIsValid(cache: FileCache)
    requires cache.Valid()
    ensures cache.drive.Valid()
  {
  }

  lemma GoodAt(drive: Drive, p: Key)
    requires drive.Valid() && Lookup(drive.root, p).Some?
    ensures Good(Lookup(drive.root, p).value)
  {
    GoodLookup(drive.root, p);
  }

  lemma AtRoot(files: iset<Key>)
    ensures At([], files) == files
  {
    assert forall r: Key :: r[0..] == r;
  }

  lemma ReboundNothing(s: Cache, from: Key, to: Key)
    requires Inv(s) && Quiet(s) && Apart(from, to) && (forall k :: Prefix(to, k) ==> k !in s.device)
    ensures TargetClear(s.entries, from, to)
    ensures var s0 := s.(device := Moved(s.device, from, to)); Rebound(s0, s0, from, to, iset{})
  {
    forall k | k in s.entries && Prefix(to, k) ensures !NeedsPush(s.entries[k]) {
      QuietEntry(s, k);
    }
    BaseParts(s);
  }

  /** The moved node on the device has the files the source had. */
  lemma MovedRoot(root: Node, m: PathMap, from: Key, to: Key)
    requires Apart(from, to) && from in m && Map(root) == Moved(m, from, to)
    ensures Lookup(root, to).Some? && FilesOf(Lookup(root, to).value) == FilesBelow(m, from)
  {
    forall r: Key
      ensures to + r in Map(root) <==> from + r in m
      ensures to + r in Map(root) ==> Map(root)[to + r] == m[from + r]
    {
      PrefixOf(to, r);
      MovedAt(m, from, to, to + r);
    }
    assert to + [] == to && from + [] == from;
    SubMap(root, to);
    assert forall r :: r in Sub(Map(root), to) <==> to + r in Map(root);
  }

  /**
   The erasure at the new path that comes first.  It is unseen exactly when the copy there, if there is one, can be
   flushed; the device gains and loses no path.
   */
  method EraseTarget(cache: FileCache, newpath: FsPath)
    requires cache.Valid() && cache.drive.reliable && Inv(cache.State()) && Quiet(cache.State())
    modifies cache.Repr()
    ensures cache.Valid() && Inv(cache.State()) && Quiet(cache.State()) && cache.Repr() <= old(cache.Repr())
    ensures View(cache.State()) == old(View(cache.State())) <==> old(Flushable(cache.State(), Keys(newpath)))
    ensures Keys(newpath) !in old(cache.drive.Items()) ==>
              cache.drive.Items() == old(cache.drive.Items()) && old(Flushable(cache.State(), Keys(newpath)))
    ensures Keys(newpath) in old(cache.drive.Items()) ==> Keys(newpath) in cache.drive.Items()
    ensures cache.entries == old(cache.entries) - {Keys(newpath)}
    ensures forall n :: old(cache.NamesFrom(n)) ==> cache.NamesFrom(n)
  {
    hide FileCache.Valid, Keys, Transfers, Inv, View, Map, Flushable, Destroyed, PushComes, FileCache.NamesFrom;
    KeysMatch(cache);
    if Keys(newpath) !in cache.cachemap {
      NothingToFlush(cache.State(), Keys(newpath));
    } else {
      DestroyKeeps(cache.State(), Keys(newpath));
      DestroyEntry(cache, Keys(newpath), false);
    }
  }

  lemma NothingToFlush(s: Cache, k: Key)
    requires k !in s.entries
    ensures Flushable(s, k)
  {
  }

  /** The device's part, seen from the cache. */
  method MoveBehindCache(cache: FileCache, oldpath: FsPath, newpath: FsPath) returns (ok: bool)
    requires cache.Valid() && cache.drive.reliable && ValidPath(oldpath) && ValidPath(newpath)
    requires Prefix(Keys(oldpath), Keys(newpath)) ==> !CanMove(cache.drive.Items(), Keys(oldpath), Keys(newpath))
    modifies cache.drive
    ensures cache.Valid()
    ensures ok <==> CanMove(old(cache.drive.Items()), Keys(oldpath), Keys(newpath))
    ensures ok ==> newpath != [] && NamesMoved(old(cache.drive.root), cache.drive.root, Keys(oldpath), Keys(newpath),
                                               newpath[|newpath| - 1])
    ensures cache.State() ==
            if ok then old(cache.State()).(device := Moved(old(cache.drive.Items()), Keys(oldpath), Keys(newpath)))
            else old(cache.State())
  {
    hide Drive.Valid, HashNames.ConflictlessHashProvider.Valid, Keys, Map, Moved, Transfers, NamesMoved;
    ok := MoveOnDevice(cache.drive, oldpath, newpath);
  }

  lemma TargetIsFree(root: Node, from: Key, to: Key)
    requires CanMove(Map(root), from, to) && !Prefix(from, to)
    ensures Apart(from, to) && from in Map(root) && forall k :: Prefix(to, k) ==> k !in Map(root)
  {
    CannotBeBelow(root, from, to);
    forall k | Prefix(to, k) ensures k !in Map(root) {
      NothingBelow(root, to, k);
    }
  }

  /**
   moveOrRenameInode.  With no transfer queued it succeeds exactly when the device can move, and then clients see the same
   map with the path prefix rewritten, dirty bytes included, for files and whole directories alike.  When it fails, they
   see no change exactly when the copy at the new path, which is destroyed first, could be flushed: always when the device
   has nothing there.
   */
  method MoveOrRenameInode(cache: FileCache, oldpath: FsPath, newpath: FsPath) returns (ok: bool)
    requires cache.Valid() && cache.drive.reliable && Inv(cache.State()) && Quiet(cache.State())
    requires ValidPath(oldpath) && ValidPath(newpath)
    requires Prefix(Keys(oldpath), Keys(newpath)) ==> !CanMove(cache.drive.Items(), Keys(oldpath), Keys(newpath))
    modifies cache.Repr()
    ensures cache.Valid() && Inv(cache.State()) && Quiet(cache.State())
    ensures ok <==> CanMove(old(cache.drive.Items()), Keys(oldpath), Keys(newpath))
    ensures var m, from, to := old(cache.drive.Items()), Keys(oldpath), Keys(newpath);
            ok <==> from in m && to !in m && to != [] && Parent(to) in m && m[Parent(to)] == Folder
    ensures ok ==> View(cache.State()) == Moved(old(View(cache.State())), Keys(oldpath), Keys(newpath))
    ensures ok ==> newpath != [] && NamesMoved(old(cache.drive.root), cache.drive.root, Keys(oldpath), Keys(newpath),
                                               newpath[|newpath| - 1])
    ensures ok ==> EntriesMoved(old(cache.entries), cache.entries, old(cache.drive.Items()), Keys(oldpath), Keys(newpath))
    ensures !ok ==> cache.entries == old(cache.entries) - {Keys(newpath)}
    ensures !ok ==>
              (View(cache.State()) == old(View(cache.State())) <==> old(Flushable(cache.State(), Keys(newpath))))
    ensures Keys(newpath) !in old(cache.drive.Items()) ==> old(Flushable(cache.State(), Keys(newpath)))
  {
    hide FileCache.Valid, Keys, Transfers, Inv, View, Moved, Map, Moves, Flushable, NamesMoved, NamesKept;
    ghost var from, to := Keys(oldpath), Keys(newpath);
    AllNamesKept(cache.drive.root);
    assert cache.NamesFrom(cache.drive.root);
    EraseTarget(cache, newpath);
    ghost var s := cache.State();
    ghost var root := cache.drive.root;
    ok := MoveBehindCache(cache, oldpath, newpath);
    if ok {
      TargetIsFree(root, from, to);
      ghost var moved, name := cache.drive.root, newpath[|newpath| - 1];
      AllNamesKept(moved);
      assert cache.NamesFrom(moved);
      RebindMoved(cache, oldpath, newpath, s);
      KeptThenMoved(old(cache.drive.root), root, moved, from, to, name);
      MovedThenKept(old(cache.drive.root), moved, cache.drive.root, from, to, name);
      MovedInv(s, cache.State(), from, to);
      MovedView(s, cache.State(), from, to);
      MovesQuietly(s, cache.State(), from, to);
      MovesEntries(s, cache.State(), from, to, old(cache.entries));
    }
  }

  lemma MovesQuietly(s: Cache, s': Cache, from: Key, to: Key)
    requires Moves(s, s', from, to)
    ensures Quiet(s')
  {
  }
}
