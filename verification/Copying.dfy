/**
 The recursive copy behind a directory move (CopyAllStuffThatIsInsideADirectory): the visitor copies one child of the
 source directory after the other into the new directory, and then deletes those children that were copied completely.

 On a drive that may refuse creations, reads and deletions the copy can fail part way.  No file is lost then.
 */
module Copying {
  import opened Paths
  import opened Blocks
  import opened Nodes
  import opened Children
  import opened Names
  import opened Drives
  import opened Printing

  /** Every file of a is still in s with its bytes, or is in d. */
  ghost predicate Survives(a: PathMap, s: PathMap, d: PathMap) {
    forall r :: r in a && a[r].Content? ==> (r in s && s[r] == a[r]) || (r in d && d[r] == a[r])
  }

  // ---------- Two subtrees of one tree ----------

  /** The tree `root` is the tree `before` with s at src and d at dst. */
  ghost predicate Holds(before: Node, src: Key, s: Node, dst: Key, d: Node, root: Node) {
    && Apart(src, dst)
    && Fits(before, src, s)
    && Fits(before, dst, d)
    && Fits(Put(before, src, s), dst, d)
    && root == Put(Put(before, src, s), dst, d)
  }

  lemma HoldsLookup(before: Node, src: Key, s: Node, dst: Key, d: Node, root: Node)
    requires Holds(before, src, s, dst, d, root)
    ensures Lookup(root, src) == Some(s) && Lookup(root, dst) == Some(d)
  {
    PutLookup(before, src, s, src);
    PutLookup(Put(before, src, s), dst, d, src);
    PutLookup(Put(before, src, s), dst, d, dst);
    assert src[|src|..] == [] && dst[|dst|..] == [];
  }

  lemma HoldsStart(root: Node, src: Key, dst: Key)
    requires Apart(src, dst) && Lookup(root, src).Some? && Lookup(root, dst).Some?
    ensures Holds(root, src, Lookup(root, src).value, dst, Lookup(root, dst).value, root)
  {
    PutSame(root, src);
    PutSame(root, dst);
  }

  /** An assignment below dst. */
  lemma HoldsPutDst(before: Node, src: Key, s: Node, dst: Key, d: Node, root: Node, r: Key, x: Node)
    requires Holds(before, src, s, dst, d, root) && Fits(d, r, x) && (r == [] ==> KeyOf(x) == KeyOf(d))
    ensures Fits(root, dst + r, x)
    ensures Holds(before, src, s, dst, Put(d, r, x), Put(root, dst + r, x))
  {
    HoldsLookup(before, src, s, dst, d, root);
    PutInner(root, dst, r, x);
    var d' := Put(d, r, x);
    if r != [] {
      PutName(d, r, x);
    }
    PutPut(Put(before, src, s), dst, d, d');
  }

  /** An assignment below src. */
  lemma HoldsPutSrc(before: Node, src: Key, s: Node, dst: Key, d: Node, root: Node, r: Key, x: Node)
    requires Holds(before, src, s, dst, d, root) && Fits(s, r, x) && (r == [] ==> KeyOf(x) == KeyOf(s))
    ensures Fits(root, src + r, x)
    ensures Holds(before, src, Put(s, r, x), dst, d, Put(root, src + r, x))
  {
    HoldsLookup(before, src, s, dst, d, root);
    PutInner(root, src, r, x);
    var s' := Put(s, r, x);
    if r != [] {
      PutName(s, r, x);
    }
    PutCommute(before, src, s, dst, d);
    PutPut(Put(before, dst, d), src, s, s');
    PutCommute(before, src, s', dst, d);
  }

  lemma ApartBelow(src: Key, dst: Key, k: string)
    requires Apart(src, dst)
    ensures Apart(src + [k], dst + [k])
  {
    PrefixButLast(src, dst, k);
    PrefixButLast(dst, src, k);
  }

  lemma PrefixButLast(p: Key, q: Key, k: string)
    ensures Prefix(p + [k], q + [k]) ==> Prefix(p, q)
  {
    if |p| <= |q| {
      assert (q + [k])[..|p| + 1][..|p|] == q[..|p|];
      assert (p + [k])[..|p|] == p;
    }
  }

  lemma KidMapPut(n: Node, k0: string, x: Node, k: string)
    requires HasKid(n, k0) && KeyOf(x) == k0
    ensures Fits(n, [k0], x) && Put(n, [k0], x).Dir?
    ensures Put(n, [k0], x).kids == n.kids[Find(n.kids, k0) := x] && Put(n, [k0], x).name == n.name
    ensures HasKid(Put(n, [k0], x), k) <==> HasKid(n, k)
    ensures HasKid(n, k) ==> Kid(Put(n, [k0], x), k) == if k == k0 then x else Kid(n, k)
    ensures KidMap(Put(n, [k0], x), k) == if k == k0 then Map(x) else KidMap(n, k)
  {
    hide Map;
    assert Lookup(n, [k0]) == Some(Kid(n, k0));
    PutKid(n, [k0], x, k);
    assert [k0][1..] == [];
  }

  // ---------- Progress of the visitor ----------

  /**
   The first i children of s0 have been visited.  s and d are what the source and the new directory hold now, `done` the
   keys on the visitor's deletion list.
   */
  ghost predicate Visited(s0: Node, i: nat, s: Node, d: Node, done: seq<string>, failed: bool) {
    && s0.Dir? && s.Dir? && d.Dir?
    && i <= |s0.kids| == |s.kids|
    && s.name == s0.name
    && (forall j :: 0 <= j < |s.kids| ==> s.kids[j].name == s0.kids[j].name)
    && (forall j :: i <= j < |s.kids| ==> s.kids[j] == s0.kids[j])
    && (forall k :: HasKid(d, k) ==> KidBefore(s0, i, k))
    && (forall k :: Survives(KidMap(s0, k), KidMap(s, k), KidMap(d, k)))
    && Listed(s0, i, d, done)
    && (!failed ==> forall j :: 0 <= j < i ==> KidMap(d, KeyOf(s0.kids[j])) == KidMap(s0, KeyOf(s0.kids[j])))
  }

  /** One of the first i children has the key k. */
  ghost predicate KidBefore(s0: Node, i: nat, k: string)
    requires s0.Dir? && i <= |s0.kids|
  {
    exists j :: 0 <= j < i && KeyOf(s0.kids[j]) == k
  }

  /** The keys on the deletion list are distinct keys of visited children, all of them copied completely. */
  ghost predicate Listed(s0: Node, i: nat, d: Node, done: seq<string>)
    requires s0.Dir? && i <= |s0.kids|
  {
    && (forall a :: 0 <= a < |done| ==> KidMap(d, done[a]) == KidMap(s0, done[a]))
    && (forall a :: 0 <= a < |done| ==> KidBefore(s0, i, done[a]))
    && (forall a, b :: 0 <= a < b < |done| ==> done[a] != done[b])
  }

  /** The visit of child i changes the maps under that child's key only. */
  lemma VisitOne(s0: Node, i: nat, s: Node, d: Node, done: seq<string>, failed: bool,
                 s': Node, d': Node, copied: bool)
    requires Visited(s0, i, s, d, done, failed) && i < |s0.kids| && DistinctKeys(s0.kids)
    requires s'.Dir? && d'.Dir? && s'.name == s.name && |s'.kids| == |s.kids|
    requires forall j :: 0 <= j < |s.kids| ==> s'.kids[j].name == s.kids[j].name
    requires forall j :: i < j < |s.kids| ==> s'.kids[j] == s.kids[j]
    requires forall k :: k != KeyOf(s0.kids[i]) ==> (HasKid(d', k) <==> HasKid(d, k))
    requires forall k :: k != KeyOf(s0.kids[i]) ==> KidMap(d', k) == KidMap(d, k) && KidMap(s', k) == KidMap(s, k)
    requires var k := KeyOf(s0.kids[i]); Survives(KidMap(s0, k), KidMap(s', k), KidMap(d', k))
    requires copied ==> var k := KeyOf(s0.kids[i]); KidMap(d', k) == KidMap(s0, k)
    ensures Visited(s0, i + 1, s', d', if copied then done + [KeyOf(s0.kids[i])] else done, failed || !copied)
  {
    hide KidMap;
    hide Survives;
    hide Listed;
    var key := KeyOf(s0.kids[i]);
    forall k ensures Survives(KidMap(s0, k), KidMap(s', k), KidMap(d', k)) {
      assert Survives(KidMap(s0, k), KidMap(s, k), KidMap(d, k));
    }
    forall k | HasKid(d', k) ensures KidBefore(s0, i + 1, k) {
      if k != key {
        assert HasKid(d, k);
      }
    }
    VisitListed(s0, i, d, done, d', copied);
  }

  lemma VisitListed(s0: Node, i: nat, d: Node, done: seq<string>, d': Node, copied: bool)
    requires s0.Dir? && i < |s0.kids| && DistinctKeys(s0.kids) && Listed(s0, i, d, done)
    requires forall k :: k != KeyOf(s0.kids[i]) ==> KidMap(d', k) == KidMap(d, k)
    requires copied ==> var k := KeyOf(s0.kids[i]); KidMap(d', k) == KidMap(s0, k)
    ensures Listed(s0, i + 1, d', if copied then done + [KeyOf(s0.kids[i])] else done)
    ensures forall j :: 0 <= j < i ==> KidMap(d', KeyOf(s0.kids[j])) == KidMap(d, KeyOf(s0.kids[j]))
  {
    hide KidMap;
    var key := KeyOf(s0.kids[i]);
    forall a | 0 <= a < |done|
      ensures done[a] != key && KidMap(d', done[a]) == KidMap(s0, done[a])
      ensures KidBefore(s0, i + 1, done[a])
    {
      assert KidBefore(s0, i, done[a]);
      var j :| 0 <= j < i && KeyOf(s0.kids[j]) == done[a];
      assert done[a] != key;
    }
  }

  lemma VisitedStart(node: Node, d: Node)
    requires node.Dir? && d.Dir? && d.kids == []
    ensures Visited(node, 0, node, d, [], false)
  {
  }

  /** Child i has not been touched yet: the source still has it and the new directory does not. */
  lemma NotVisited(s0: Node, i: nat, s: Node, d: Node, done: seq<string>, failed: bool)
    requires Visited(s0, i, s, d, done, failed) && i < |s0.kids| && DistinctKeys(s0.kids)
    ensures var k := KeyOf(s0.kids[i]);
            && Find(s.kids, k) == i == Find(s0.kids, k) && !HasKid(d, k)
            && Kid(s, k) == s0.kids[i] && Kid(s0, k) == s0.kids[i]
  {
    assert forall j :: 0 <= j < |s.kids| ==> KeyOf(s.kids[j]) == KeyOf(s0.kids[j]);
    FindIs(s.kids, i);
    FindIs(s0.kids, i);
  }

  /** When every child was copied, the new directory has the map of the source directory. */
  lemma AllCopied(s0: Node, s: Node, d: Node, done: seq<string>)
    requires s0.Dir? && Visited(s0, |s0.kids|, s, d, done, false)
    ensures Map(d) == Map(s0)
  {
    forall k ensures KidMap(d, k) == KidMap(s0, k) {
      if HasKid(s0, k) {
        assert KeyOf(s0.kids[Find(s0.kids, k)]) == k;
      }
    }
    MapByKids(d, s0);
  }

  lemma SurvivesByKids(s0: Node, s: Node, d: Node)
    requires s0.Dir? && s.Dir? && d.Dir?
    requires forall k :: Survives(KidMap(s0, k), KidMap(s, k), KidMap(d, k))
    ensures Survives(Map(s0), Map(s), Map(d))
  {
    forall r | r in Map(s0) && Map(s0)[r].Content?
      ensures (r in Map(s) && Map(s)[r] == Map(s0)[r]) || (r in Map(d) && Map(d)[r] == Map(s0)[r])
    {
      MapOfKids(s0, r);
      MapOfKids(s, r);
      MapOfKids(d, r);
      assert Survives(KidMap(s0, r[0]), KidMap(s, r[0]), KidMap(d, r[0]));
    }
  }

  // ---------- The visitor ----------

  /** A file: read it into the temporary file, create it in the directory at dst from there. */
  method CopyFileTo(drive: Drive, at: Key, dst: Key) returns (copied: bool, pushed: bool, ghost blocks: seq<Block>)
    requires drive.Valid() && at != []
    requires Lookup(drive.root, at).Some? && Lookup(drive.root, at).value.File?
    requires Lookup(drive.root, dst).Some? && Lookup(drive.root, dst).value.Dir?
    modifies drive
    ensures drive.Valid() && (copied ==> pushed)
    ensures pushed ==>
              var d, node := Lookup(old(drive.root), dst).value, Lookup(old(drive.root), at).value;
              !HasKid(d, KeyOf(node)) && drive.root == Put(old(drive.root), dst, WithKid(d, File(node.name, blocks)))
    ensures !pushed ==> drive.root == old(drive.root)
    ensures copied ==> Flatten(blocks) == Flatten(Lookup(old(drive.root), at).value.blocks)
    ensures drive.reliable && !HasKid(Lookup(old(drive.root), dst).value, KeyOf(Lookup(old(drive.root), at).value)) ==> copied
  {
    GoodLookup(drive.root, at);
    var node := Lookup(drive.root, at).value;
    var gotFile, tempFile := drive.ContentToStream(at);
    var tempCopyBack := new InStream(tempFile);
    pushed, blocks := drive.CreateNewFileWithStream(dst, node.name, tempCopyBack, |tempFile|);
    assert Taken(tempFile, |tempFile|) == tempFile;
    if pushed {
      AddedFile(old(drive.root), dst, node.name, blocks);
    }
    copied := gotFile && pushed;
  }

  /** A folder: create it in the directory at dst and look it up by its printed path. */
  method NewFolderIn(drive: Drive, name: string, dst: Key) returns (newFolder: Option<Node>)
    requires drive.Valid() && ValidName(name)
    requires Lookup(drive.root, dst).Some? && Lookup(drive.root, dst).value.Dir?
    requires !HasKid(Lookup(drive.root, dst).value, Upper(name))
    modifies drive
    ensures drive.Valid()
    ensures newFolder.None? ==> drive.root == old(drive.root)
    ensures newFolder.Some? ==>
              && drive.root == Put(old(drive.root), dst, WithKid(Lookup(old(drive.root), dst).value, Dir(name, [])))
              && newFolder == Lookup(drive.root, dst + [Upper(name)]) == Some(Dir(name, []))
    ensures drive.reliable ==> newFolder.Some?
  {
    ghost var d := Lookup(drive.root, dst).value;
    ChildLookup(drive.root, dst, Upper(name));
    var created := drive.CreateNewFolder(dst, name);
    if created {
      FolderAdded(old(drive.root), dst, name);
    }
    ChildPathParses(drive.root, dst, name);
    var newFolderPath := Parse(NodePath([drive.root.name] + NamesAlong(drive.root, dst)) + "\\" + name);
    newFolder := drive.FilePathToNode(newFolderPath);
  }

  lemma FolderAdded(before: Node, dst: Key, name: string)
    requires Good(before) && before.Dir? && before.name == "" && ValidName(name)
    requires Lookup(before, dst).Some? && Lookup(before, dst).value.Dir?
    requires !HasKid(Lookup(before, dst).value, Upper(name))
    ensures var root := Put(before, dst, WithKid(Lookup(before, dst).value, Dir(name, [])));
            && Good(root) && root.Dir? && root.name == "" && Lookup(root, dst).Some?
            && Lookup(root, dst + [Upper(name)]) == Some(Dir(name, []))
  {
    var d := Lookup(before, dst).value;
    var e := WithKid(d, Dir(name, []));
    AddedFolder(before, dst, name);
    PutLookup(before, dst, e, dst);
    assert dst[|dst|..] == [];
    hide Put, Good;
    ChildLookup(Put(before, dst, e), dst, Upper(name));
    AddedKid(d, Dir(name, []), Upper(name));
  }

  /** A file child. */
  method CopyFile(drive: Drive, src: Key, dst: Key, k: string, ghost before: Node, ghost s: Node, ghost d: Node)
    returns (copied: bool, ghost d': Node)
    requires drive.Valid()
    requires Holds(before, src, s, dst, d, drive.root)
    requires HasKid(s, k) && Kid(s, k).File? && d.Dir? && !HasKid(d, k)
    modifies drive
    ensures drive.Valid()
    ensures Holds(before, src, s, dst, d', drive.root) && d'.Dir? && d'.name == d.name
    ensures forall k' :: k' != k ==> (HasKid(d', k') <==> HasKid(d, k')) && KidMap(d', k') == KidMap(d, k')
    ensures copied ==> KidMap(d', k) == KidMap(s, k)
    ensures KidAgrees(s, d', k) && OthersSame(d, d', k)
    ensures drive.reliable ==> copied
  {
    HoldsLookup(before, src, s, dst, d, drive.root);
    ChildLookup(drive.root, src, k);
    ghost var node := Kid(s, k);
    var pushed: bool;
    ghost var blocks;
    copied, pushed, blocks := CopyFileTo(drive, src + [k], dst);
    d' := d;
    if pushed {
      d' := WithKid(d, File(node.name, blocks));
      GrownDst(before, src, s, dst, d, old(drive.root), File(node.name, blocks));
      LeafMaps(node.name, blocks);
      LeafMaps(node.name, node.blocks);
      assert node == File(node.name, node.blocks);
      EmptyAgrees(node, File(node.name, blocks));
    }
  }

  /** The children under other keys are those of d. */
  ghost predicate OthersSame(d: Node, d': Node, k: string) {
    forall k' :: k' != k && HasKid(d', k') ==> HasKid(d, k') && Kid(d', k') == Kid(d, k')
  }

  /** A new child in the directory at dst. */
  lemma GrownDst(before: Node, src: Key, s: Node, dst: Key, d: Node, root: Node, x: Node)
    requires Holds(before, src, s, dst, d, root) && d.Dir? && !HasKid(d, KeyOf(x))
    ensures Lookup(root, dst) == Some(d)
    ensures Holds(before, src, s, dst, WithKid(d, x), Put(root, dst, WithKid(d, x)))
    ensures forall k :: k != KeyOf(x) ==>
              (HasKid(WithKid(d, x), k) <==> HasKid(d, k)) && KidMap(WithKid(d, x), k) == KidMap(d, k)
    ensures HasKid(WithKid(d, x), KeyOf(x)) && Kid(WithKid(d, x), KeyOf(x)) == x
    ensures KidMap(WithKid(d, x), KeyOf(x)) == Map(x) && OthersSame(d, WithKid(d, x), KeyOf(x))
  {
    HoldsLookup(before, src, s, dst, d, root);
    HoldsPutDst(before, src, s, dst, d, root, [], WithKid(d, x));
    assert dst + [] == dst;
    hide Holds, Put, Map, KidMap;
    forall k
      ensures HasKid(WithKid(d, x), k) <==> k == KeyOf(x) || HasKid(d, k)
      ensures HasKid(WithKid(d, x), k) ==> Kid(WithKid(d, x), k) == if k == KeyOf(x) then x else Kid(d, k)
      ensures KidMap(WithKid(d, x), k) == if k == KeyOf(x) then Map(x) else KidMap(d, k)
    {
      AddedKid(d, x, k);
    }
  }

  /** A directory child: create the folder, copy into it. */
  method CopyFolder(drive: Drive, src: Key, dst: Key, k: string, ghost before: Node, ghost s: Node, ghost d: Node)
    returns (copied: bool, ghost s': Node, ghost d': Node)
    requires drive.Valid()
    requires Holds(before, src, s, dst, d, drive.root)
    requires HasKid(s, k) && Kid(s, k).Dir? && d.Dir? && !HasKid(d, k)
    modifies drive
    decreases Kid(s, k), 1
    ensures drive.Valid()
    ensures Holds(before, src, s', dst, d', drive.root)
    ensures d'.Dir? && d'.name == d.name && s'.Dir? && s'.name == s.name && |s'.kids| == |s.kids|
    ensures forall j :: 0 <= j < |s.kids| ==> s'.kids[j].name == s.kids[j].name
    ensures forall j :: 0 <= j < |s.kids| && j != Find(s.kids, k) ==> s'.kids[j] == s.kids[j]
    ensures forall k' :: k' != k ==> (HasKid(d', k') <==> HasKid(d, k')) && KidMap(d', k') == KidMap(d, k')
    ensures forall k' :: k' != k ==> KidMap(s', k') == KidMap(s, k')
    ensures Survives(KidMap(s, k), KidMap(s', k), KidMap(d', k))
    ensures copied ==> KidMap(d', k) == KidMap(s, k)
    ensures KidAgrees(s, d', k) && OthersSame(d, d', k) && KidAgrees(s, s', k) && OthersSame(s, s', k)
    ensures drive.reliable ==> copied
  {
    ghost var node := Kid(s, k);
    AgreesWithItself(node);
    HoldsLookup(before, src, s, dst, d, drive.root);
    ChildLookup(drive.root, src, k);
    GoodLookup(drive.root, src + [k]);
    s', d' := s, d;
    var newlyCreatedFolder := NewFolderIn(drive, Lookup(drive.root, src + [k]).value.name, dst);
    if newlyCreatedFolder.None? {
      return false, s', d';
    }
    GrownDst(before, src, s, dst, d, old(drive.root), Dir(node.name, []));
    ghost var d1, root1 := WithKid(d, Dir(node.name, [])), drive.root;
    HoldsLookup(before, src, s, dst, d1, root1);
    ChildLookup(root1, src, k);
    ApartBelow(src, dst, k);
    hide Put, Holds, AgreeBelow, OthersSame;
    var failed := CopyContents(drive, src + [k], dst + [k], node);
    s', d' := AfterNested(before, src, s, dst, d1, root1, k, drive.root);
    OthersSameTrans(d, d1, d', k);
    copied := !failed;
  }

  lemma OthersSameTrans(a: Node, b: Node, c: Node, k: string)
    requires OthersSame(a, b, k) && OthersSame(b, c, k)
    ensures OthersSame(a, c, k)
  {
  }

  /** The nested copy assigned below src + [k] and dst + [k] only. */
  lemma AfterNested(before: Node, src: Key, s: Node, dst: Key, d: Node, root1: Node, k: string, root: Node)
    returns (s': Node, d': Node)
    requires Holds(before, src, s, dst, d, root1) && HasKid(s, k) && HasKid(d, k)
    requires Lookup(root, src + [k]).Some? && Lookup(root, dst + [k]).Some?
    requires Lookup(root, src + [k]).value.name == Kid(s, k).name
    requires KeyOf(Lookup(root, dst + [k]).value) == k
    requires Holds(root1, src + [k], Lookup(root, src + [k]).value, dst + [k], Lookup(root, dst + [k]).value, root)
    ensures Holds(before, src, s', dst, d', root)
    ensures d'.Dir? && d'.name == d.name && s'.Dir? && s'.name == s.name && |s'.kids| == |s.kids|
    ensures forall j :: 0 <= j < |s.kids| ==> s'.kids[j].name == s.kids[j].name
    ensures forall j :: 0 <= j < |s.kids| && j != Find(s.kids, k) ==> s'.kids[j] == s.kids[j]
    ensures forall k' :: HasKid(d', k') <==> HasKid(d, k')
    ensures forall k' :: k' != k ==> KidMap(d', k') == KidMap(d, k') && KidMap(s', k') == KidMap(s, k')
    ensures KidMap(s', k) == Map(Lookup(root, src + [k]).value) && KidMap(d', k) == Map(Lookup(root, dst + [k]).value)
    ensures HasKid(s', k) && Kid(s', k) == Lookup(root, src + [k]).value && OthersSame(s, s', k)
    ensures HasKid(d', k) && Kid(d', k) == Lookup(root, dst + [k]).value && OthersSame(d, d', k)
  {
    var x, y := Lookup(root, src + [k]).value, Lookup(root, dst + [k]).value;
    s', d' := Put(s, [k], x), Put(d, [k], y);
    forall k'
      ensures (HasKid(d', k') <==> HasKid(d, k')) && (HasKid(s', k') <==> HasKid(s, k'))
      ensures k' != k ==> KidMap(d', k') == KidMap(d, k') && KidMap(s', k') == KidMap(s, k')
      ensures HasKid(d, k') ==> Kid(d', k') == if k' == k then y else Kid(d, k')
      ensures HasKid(s, k') ==> Kid(s', k') == if k' == k then x else Kid(s, k')
    {
      KidMapPut(s, k, x, k');
      KidMapPut(d, k, y, k');
    }
    KidMapPut(s, k, x, k);
    KidMapPut(d, k, y, k);
    HoldsPutSrc(before, src, s, dst, d, root1, [k], x);
    HoldsPutDst(before, src, s', dst, d, Put(root1, src + [k], x), [k], y);
  }

  /** doForAllContent with the copying visitor, then tidyUp. */
  method CopyContents(drive: Drive, src: Key, dst: Key, ghost node: Node) returns (failed: bool)
    requires drive.Valid() && Apart(src, dst)
    requires Lookup(drive.root, src) == Some(node) && node.Dir?
    requires Lookup(drive.root, dst).Some? && Lookup(drive.root, dst).value.Dir?
    requires Lookup(drive.root, dst).value.kids == []
    modifies drive
    decreases node, 0
    ensures drive.Valid()
    ensures Lookup(drive.root, src).Some? && Lookup(drive.root, src).value.Dir?
    ensures Lookup(drive.root, dst).Some? && Lookup(drive.root, dst).value.Dir?
    ensures Lookup(drive.root, src).value.name == node.name
    ensures Lookup(drive.root, dst).value.name == Lookup(old(drive.root), dst).value.name
    ensures AgreeBelow(node, Lookup(drive.root, src).value) && AgreeBelow(node, Lookup(drive.root, dst).value)
    ensures Holds(old(drive.root), src, Lookup(drive.root, src).value, dst, Lookup(drive.root, dst).value, drive.root)
    ensures Survives(Map(node), Map(Lookup(drive.root, src).value), Map(Lookup(drive.root, dst).value))
    ensures !failed ==> Map(Lookup(drive.root, dst).value) == Map(node)
    ensures drive.reliable ==> !failed
  {
    GoodLookup(drive.root, src);
    failed := false;
    var deleteThem: seq<string> := [];
    ghost var before := drive.root;
    ghost var s, d := node, Lookup(before, dst).value;
    ghost var dName := d.name;
    AgreesWithItself(node);
    EmptyAgrees(node, d);
    HoldsStart(before, src, dst);
    VisitedStart(node, d);
    hide Visited, Holds, Put, Map, AgreeBelow;
    var i := 0;
    var count := |Lookup(drive.root, src).value.kids|;
    while i < count
      invariant 0 <= i <= count == |node.kids|
      invariant drive.Valid()
      invariant Holds(before, src, s, dst, d, drive.root)
      invariant Visited(node, i, s, d, deleteThem, failed)
      invariant d.name == dName
      invariant AgreeBelow(node, s) && AgreeBelow(node, d)
      invariant drive.reliable ==> !failed
    {
      var copied: bool;
      var key: string;
      copied, key, s, d := VisitChild(drive, src, dst, i, before, node, s, d, deleteThem, failed);
      if copied {
        deleteThem := deleteThem + [key];
      } else {
        failed := true;
      }
      i := i + 1;
    }
    if !failed {
      AllCopied(node, s, d, deleteThem);
    }
    AnyFailed(node, i, s, d, deleteThem, failed);
    TidyUp(drive, src, dst, deleteThem, before, node, s, d);
  }

  lemma AnyFailed(s0: Node, i: nat, s: Node, d: Node, done: seq<string>, failed: bool)
    requires Visited(s0, i, s, d, done, failed)
    ensures Visited(s0, i, s, d, done, true) && d.Dir?
  {
  }

  /** doForAllDirContentMethod on child i. */
  method VisitChild(drive: Drive, src: Key, dst: Key, i: nat, ghost before: Node, ghost node: Node,
                    ghost s: Node, ghost d: Node, ghost done: seq<string>, ghost failed: bool)
    returns (copied: bool, key: string, ghost s': Node, ghost d': Node)
    requires drive.Valid()
    requires Holds(before, src, s, dst, d, drive.root)
    requires node.Dir? && i < |node.kids| && DistinctKeys(node.kids) && Visited(node, i, s, d, done, failed)
    requires AgreeBelow(node, s) && AgreeBelow(node, d)
    modifies drive
    decreases node.kids[i], 2
    ensures drive.Valid()
    ensures Holds(before, src, s', dst, d', drive.root) && d'.name == d.name
    ensures AgreeBelow(node, s') && AgreeBelow(node, d')
    ensures key == KeyOf(node.kids[i])
    ensures Visited(node, i + 1, s', d', if copied then done + [key] else done, failed || !copied)
    ensures drive.reliable ==> copied
  {
    HoldsLookup(before, src, s, dst, d, drive.root);
    NotVisited(node, i, s, d, done, failed);
    var currentNode := Lookup(drive.root, src).value.kids[i];
    key := KeyOf(currentNode);
    s' := s;
    if currentNode.Dir? {
      copied, s', d' := CopyFolder(drive, src, dst, key, before, s, d);
    } else {
      copied, d' := CopyFile(drive, src, dst, key, before, s, d);
    }
    VisitOne(node, i, s, d, done, failed, s', d', copied);
    VisitAgrees(node, s, s', d, d', key);
  }

  lemma VisitAgrees(s0: Node, s: Node, s': Node, d: Node, d': Node, k: string)
    requires AgreeBelow(s0, s) && AgreeBelow(s0, d) && HasKid(s, k) && HasKid(s0, k) && Kid(s, k) == Kid(s0, k)
    requires KidAgrees(s, d', k) && OthersSame(d, d', k) && (s' == s || (KidAgrees(s, s', k) && OthersSame(s, s', k)))
    ensures AgreeBelow(s0, s') && AgreeBelow(s0, d')
  {
    hide AgreeBelow;
    if s' != s {
      OneKidAgrees(s0, s, s', k);
    }
    OneKidAgrees(s0, d, d', k);
  }

  lemma RemovedSurvives(s0: Node, s: Node, d: Node, f: nat)
    requires s.Dir? && f < |s.kids| && DistinctKeys(s.kids)
    requires forall k :: Survives(KidMap(s0, k), KidMap(s, k), KidMap(d, k))
    requires Survives(KidMap(s0, KeyOf(s.kids[f])), NOTHING, KidMap(d, KeyOf(s.kids[f])))
    ensures forall k :: Survives(KidMap(s0, k), KidMap(WithoutKid(s, f), k), KidMap(d, k))
    ensures forall k :: k != KeyOf(s.kids[f]) && HasKid(s, k) ==> HasKid(WithoutKid(s, f), k)
  {
    hide Survives, KidMap, HasKid;
    forall k
      ensures Survives(KidMap(s0, k), KidMap(WithoutKid(s, f), k), KidMap(d, k))
      ensures k != KeyOf(s.kids[f]) && HasKid(s, k) ==> HasKid(WithoutKid(s, f), k)
    {
      RemovedKid(s, f, k);
      assert Survives(KidMap(s0, k), KidMap(s, k), KidMap(d, k));
    }
  }

  lemma SurvivesCopied(s0: Node, s: Node, d: Node, done: seq<string>, n: nat)
    requires Visited(s0, if s0.Dir? then |s0.kids| else 0, s, d, done, true) && n < |done|
    ensures Survives(KidMap(s0, done[n]), NOTHING, KidMap(d, done[n]))
  {
    assert KidMap(d, done[n]) == KidMap(s0, done[n]);
    hide KidMap;
  }

  /** One deletion of tidyUp: the child with this key goes, or the device refuses. */
  method TidyOne(drive: Drive, src: Key, dst: Key, k: string, ghost before: Node, ghost s0: Node, ghost s: Node, ghost d: Node)
    returns (ghost s': Node)
    requires drive.Valid() && Holds(before, src, s, dst, d, drive.root) && s.Dir? && HasKid(s, k)
    requires forall l :: Survives(KidMap(s0, l), KidMap(s, l), KidMap(d, l))
    requires Survives(KidMap(s0, k), NOTHING, KidMap(d, k)) && AgreeBelow(s0, s)
    modifies drive
    ensures drive.Valid() && Holds(before, src, s', dst, d, drive.root) && s'.Dir? && s'.name == s.name
    ensures forall l :: Survives(KidMap(s0, l), KidMap(s', l), KidMap(d, l))
    ensures forall l :: l != k && HasKid(s, l) ==> HasKid(s', l)
    ensures AgreeBelow(s0, s')
  {
    ghost var root0 := drive.root;
    HoldsLookup(before, src, s, dst, d, root0);
    GoodLookup(root0, src);
    ChildLookup(root0, src, k);
    ghost var f := Find(s.kids, k);
    RemovedSurvives(s0, s, d, f);
    RemovedAgrees(s0, s, f);
    HoldsPutSrc(before, src, s, dst, d, root0, [], WithoutKid(s, f));
    assert src + [] == src;
    assert Parent(src + [k]) == src && Last(src + [k]) == k;
    hide Survives, KidMap, Map, Holds, Good, AgreeBelow;
    s' := s;
    var deleted := drive.DeleteMe(src + [k]);
    if deleted {
      s' := WithoutKid(s, f);
    }
  }

  lemma ListedKids(s0: Node, s: Node, d: Node, done: seq<string>)
    requires s0.Dir? && Visited(s0, |s0.kids|, s, d, done, true)
    ensures forall a :: 0 <= a < |done| ==> HasKid(s, done[a]) && Survives(KidMap(s0, done[a]), NOTHING, KidMap(d, done[a]))
    ensures forall a, b :: 0 <= a < b < |done| ==> done[a] != done[b]
    ensures s.Dir? && s.name == s0.name && forall k :: Survives(KidMap(s0, k), KidMap(s, k), KidMap(d, k))
  {
    forall a | 0 <= a < |done| ensures HasKid(s, done[a]) && Survives(KidMap(s0, done[a]), NOTHING, KidMap(d, done[a])) {
      assert KidBefore(s0, |s0.kids|, done[a]);
      var j :| 0 <= j < |s0.kids| && KeyOf(s0.kids[j]) == done[a];
      assert KeyOf(s.kids[j]) == done[a];
      SurvivesCopied(s0, s, d, done, a);
    }
  }

  /** tidyUp: delete the children on the list. */
  method TidyUp(drive: Drive, src: Key, dst: Key, deleteThem: seq<string>,
                ghost before: Node, ghost s0: Node, ghost s1: Node, ghost d: Node)
    requires drive.Valid()
    requires Holds(before, src, s1, dst, d, drive.root)
    requires s0.Dir? && d.Dir? && Visited(s0, |s0.kids|, s1, d, deleteThem, true) && AgreeBelow(s0, s1)
    modifies drive
    ensures drive.Valid()
    ensures Lookup(drive.root, src).Some? && Lookup(drive.root, dst) == Some(d)
    ensures Lookup(drive.root, src).value.Dir? && Lookup(drive.root, src).value.name == s0.name
    ensures Holds(before, src, Lookup(drive.root, src).value, dst, d, drive.root)
    ensures Survives(Map(s0), Map(Lookup(drive.root, src).value), Map(d))
    ensures AgreeBelow(s0, Lookup(drive.root, src).value)
  {
    hide Visited, Holds, Survives, KidMap, Map, Lookup, HasKid, AgreeBelow;
    ghost var s := s1;
    ListedKids(s0, s1, d, deleteThem);
    for n := 0 to |deleteThem|
      invariant drive.Valid()
      invariant s.Dir? && s.name == s0.name && AgreeBelow(s0, s)
      invariant Holds(before, src, s, dst, d, drive.root)
      invariant forall k :: Survives(KidMap(s0, k), KidMap(s, k), KidMap(d, k))
      invariant forall a :: n <= a < |deleteThem| ==> HasKid(s, deleteThem[a])
    {
      s := TidyOne(drive, src, dst, deleteThem[n], before, s0, s, d);
    }
    HoldsLookup(before, src, s, dst, d, drive.root);
    SurvivesByKids(s0, s, d);
  }
}
