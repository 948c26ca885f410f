/**
 Moving a node on the drive (moveNode, internalMoveNode).

 The original never asks whether the target lies below the source.  The one case in which it then copies a directory into
 its own new copy is in `MovingBelow`: an existing directory moved to a free path at which it can create a folder.
 */
module Moving {
  import opened Paths
  import opened Blocks
  import opened Nodes
  import opened Children
  import opened Names
  import opened Drives
  import opened Copying

  /** The source exists, the target is free and its directory exists. */
  ghost predicate CanMove(m: PathMap, from: Key, to: Key) {
    from in m && to !in m && to != [] && Parent(to) in m && m[Parent(to)] == Folder
  }

  ghost predicate SameOutside(m: PathMap, m': PathMap, from: Key, to: Key) {
    forall q :: !Prefix(from, q) && !Prefix(to, q) ==> (q in m <==> q in m') && (q in m ==> m'[q] == m[q])
  }

  /**
   What a move that may fail part way leaves behind: paths beside source and target are untouched, and every file of the
   source subtree is still there with its bytes, at its old path or at the corresponding new one.
   */
  ghost predicate NothingLost(m: PathMap, m': PathMap, from: Key, to: Key) {
    SameOutside(m, m', from, to) && Survives(Sub(m, from), Sub(m', from), Sub(m', to))
  }

  lemma NothingChangedNothingLost(m: PathMap, from: Key, to: Key)
    ensures NothingLost(m, m, from, to)
  {
  }

  lemma CannotBeBelow(n: Node, from: Key, to: Key)
    requires Lookup(n, from).Some? && Lookup(n, to).None? && !Prefix(from, to)
    ensures Apart(from, to)
  {
    if Prefix(to, from) {
      NothingBelow(n, to, from);
    }
  }

  /** Below the parent of an apart path nothing of that path is touched. */
  lemma ApartFromParent(from: Key, to: Key)
    requires Apart(from, to)
    ensures from != [] && to != []
    ensures Parent(to) + [Last(to)] == to
  {
  }

  lemma SurvivesAtTarget(a: PathMap, s: PathMap)
    ensures Survives(a, s, a) && Survives(a, a, s)
  {
  }

  /** A successful copy followed by the deletion of the source. */
  lemma CopiedAndDeleted(m: PathMap, copy: PathMap, m': PathMap, from: Key, to: Key)
    requires Apart(from, to)
    requires SameOutside(m, copy, from, to) && Sub(copy, to) == Sub(m, from)
    requires m' == copy || m' == Without(copy, from)
    ensures NothingLost(m, m', from, to) && Sub(m', to) == Sub(m, from)
    ensures m' == Without(copy, from) ==> m' == Moved(m, from, to)
  {
    assert Sub(m', to) == Sub(copy, to) by {
      forall r: Key ensures !Prefix(from, to + r) {
        ApartExtends(from, to, r);
      }
    }
    SurvivesAtTarget(Sub(m, from), Sub(m', from));
    assert SameOutside(m, m', from, to);
    if m' == Without(copy, from) {
      WithoutIsMoved(m, copy, from, to);
    }
  }

  lemma OutsideAt(m: PathMap, m': PathMap, from: Key, to: Key, q: Key)
    requires SameOutside(m, m', from, to) && !Prefix(from, q) && !Prefix(to, q)
    ensures ItemAt(m', q) == ItemAt(m, q)
  {
  }

  /** What Moved has at each path. */
  lemma MovedAt(m: PathMap, from: Key, to: Key, q: Key)
    requires Apart(from, to)
    ensures ItemAt(Moved(m, from, to), q) ==
            if Prefix(to, q) then ItemAt(m, from + q[|to|..]) else if Prefix(from, q) then None else ItemAt(m, q)
    ensures !(Prefix(to, q) && Prefix(from, q))
  {
    if Prefix(to, q) {
      ApartExtends(from, to, q[|to|..]);
      assert q == to + q[|to|..];
      SubAt(m, from, q[|to|..]);
    }
    WithoutAt(m, from, q);
    GraftAt(Without(m, from), to, Sub(m, from), q);
  }

  lemma WithoutIsMoved(m: PathMap, copy: PathMap, from: Key, to: Key)
    requires Apart(from, to)
    requires SameOutside(m, copy, from, to) && Sub(copy, to) == Sub(m, from)
    ensures Without(copy, from) == Moved(m, from, to)
  {
    hide SameOutside, Without, Moved, Sub, ItemAt, Apart;
    forall q: Key ensures ItemAt(Without(copy, from), q) == ItemAt(Moved(m, from, to), q) {
      WithoutAt(copy, from, q);
      MovedAt(m, from, to, q);
      if Prefix(to, q) {
        assert q == to + q[|to|..];
        SubAt(copy, to, q[|to|..]);
        SubAt(m, from, q[|to|..]);
      } else if !Prefix(from, q) {
        OutsideAt(m, copy, from, to, q);
      }
    }
    SameMap(Without(copy, from), Moved(m, from, to));
  }

  lemma ApartExtends(p: Key, q: Key, r: Key)
    requires Apart(p, q)
    ensures !Prefix(p, q + r) && Prefix(q, q + r) && (q + r)[|q|..] == r
  {
    if |p| <= |q| {
      assert (q + r)[..|p|] == q[..|p|];
    } else if |p| <= |q + r| {
      assert (q + r)[..|p|][..|q|] == q;
      assert p[..|q|] != q;
    }
  }

  /** The tree after the recursive copy, beside source and target. */
  lemma CopyOutside(before: Node, src: Key, s: Node, dst: Key, d: Node, root: Node)
    requires Holds(before, src, s, dst, d, root)
    ensures SameOutside(Map(before), Map(root), src, dst)
    ensures Sub(Map(root), src) == Map(s) && Sub(Map(root), dst) == Map(d)
  {
    HoldsLookup(before, src, s, dst, d, root);
    SubMap(root, src);
    SubMap(root, dst);
    PutMap(before, src, s);
    PutMap(Put(before, src, s), dst, d);
  }

  lemma GraftOutside(m: PathMap, from: Key, to: Key, b: PathMap)
    ensures SameOutside(m, Graft(m, to, b), from, to)
  {
  }

  lemma GraftSub(m: PathMap, to: Key, b: PathMap, p: Key, r: Key)
    requires !Prefix(to, p + r)
    ensures ItemAt(Sub(Graft(m, to, b), p), r) == ItemAt(Sub(m, p), r)
  {
    hide Graft, Sub, ItemAt;
    SubAt(Graft(m, to, b), p, r);
    SubAt(m, p, r);
    GraftAt(m, to, b, p + r);
  }

  lemma GraftedSub(m: PathMap, to: Key, b: PathMap, r: Key)
    ensures ItemAt(Sub(Graft(m, to, b), to), r) == ItemAt(b, r)
  {
    hide Graft, Sub, ItemAt;
    assert Prefix(to, to + r) && (to + r)[|to|..] == r;
    SubAt(Graft(m, to, b), to, r);
    GraftAt(m, to, b, to + r);
  }

  /** The new, still empty folder changes nothing beside the target and nothing in the source. */
  lemma NewFolderOutside(m: PathMap, m1: PathMap, from: Key, to: Key, b: PathMap)
    requires Apart(from, to) && m1 == Graft(m, to, b)
    ensures SameOutside(m, m1, from, to) && Sub(m1, from) == Sub(m, from) && Sub(m1, to) == b
  {
    GraftOutside(m, from, to, b);
    assert Apart(to, from);
    hide Graft, Sub, Apart, Prefix, SameOutside, ItemAt;
    forall r: Key ensures ItemAt(Sub(m1, from), r) == ItemAt(Sub(m, from), r) && ItemAt(Sub(m1, to), r) == ItemAt(b, r) {
      ApartExtends(to, from, r);
      GraftSub(m, to, b, from, r);
      GraftedSub(m, to, b, r);
    }
    SameMap(Sub(m1, from), Sub(m, from));
    SameMap(Sub(m1, to), b);
  }

  /** The source is there, the target is not, and the copy does not run into itself. */
  lemma ApartOrNoDirectory(root: Node, from: Key, to: Key)
    requires Lookup(root, from).Some? && Lookup(root, to).None?
    requires Prefix(from, to) ==> !CanMove(Map(root), from, to)
    ensures to != []
    ensures Apart(from, to) || Lookup(root, Parent(to)).None? || Lookup(root, Parent(to)).value.File?
  {
    if !Prefix(from, to) {
      CannotBeBelow(root, from, to);
    }
  }

  /** internalMoveNode. */
  method InternalMoveNode(drive: Drive, oldPath: FsPath, newPath: FsPath) returns (ok: bool)
    requires drive.Valid() && ValidPath(oldPath) && ValidPath(newPath)
    requires Prefix(Keys(oldPath), Keys(newPath)) ==> !CanMove(drive.Items(), Keys(oldPath), Keys(newPath))
    modifies drive
    ensures drive.Valid()
    ensures NothingLost(old(drive.Items()), drive.Items(), Keys(oldPath), Keys(newPath))
    ensures ok ==> CanMove(old(drive.Items()), Keys(oldPath), Keys(newPath))
    ensures ok ==> newPath != [] &&
                   NamesMoved(old(drive.root), drive.root, Keys(oldPath), Keys(newPath), newPath[|newPath| - 1])
    ensures ok ==> Sub(drive.Items(), Keys(newPath)) == Sub(old(drive.Items()), Keys(oldPath))
    ensures drive.reliable && CanMove(old(drive.Items()), Keys(oldPath), Keys(newPath)) ==> ok
    ensures drive.reliable && ok ==> drive.Items() == Moved(old(drive.Items()), Keys(oldPath), Keys(newPath))
    ensures drive.reliable && !ok ==> drive.root == old(drive.root)
  {
    ghost var from, to := Keys(oldPath), Keys(newPath);
    NothingChangedNothingLost(drive.Items(), from, to);
    var oldNode := drive.FilePathToNode(oldPath);
    var newNode := drive.FilePathToNode(newPath);
    var newBasePath := GetLeftSubPath(newPath, |newPath| - 2);
    var newBaseNode := drive.FilePathToNode(newBasePath);
    assert newPath != [] ==> Keys(newBasePath) == Parent(to);
    if newNode.Some? || oldNode.None? || newBaseNode.None? {
      return false;
    }
    ApartOrNoDirectory(drive.root, from, to);
    assert Keys(newBasePath) == Parent(to) && Upper(newPath[|newPath| - 1]) == Last(to);
    ChildLookup(drive.root, Parent(to), Last(to));
    if oldNode.value.File? {
      ok := MoveFile(drive, oldPath, newPath, newBasePath);
    } else {
      ok := MoveDirectory(drive, oldPath, newPath, newBasePath);
    }
  }

  /** The tree with the file's copy at the new path. */
  lemma FileCopied(before: Node, from: Key, to: Key, name: string, blocks: seq<Block>)
    requires Good(before) && before.Dir? && before.name == "" && ValidName(name)
    requires Apart(from, to) && to != [] && to == Parent(to) + [Upper(name)] && Lookup(before, from).Some?
    requires Lookup(before, from).value.File?
    requires Lookup(before, Parent(to)).Some? && Lookup(before, Parent(to)).value.Dir?
    requires !HasKid(Lookup(before, Parent(to)).value, Upper(name))
    ensures var root := Put(before, Parent(to), WithKid(Lookup(before, Parent(to)).value, File(name, blocks)));
            && Good(root) && root.Dir? && root.name == "" && Lookup(root, from).Some?
            && SameOutside(Map(before), Map(root), from, to) && NothingLost(Map(before), Map(root), from, to)
            && Sub(Map(root), to) == Single(Content(Flatten(blocks)))
            && forall p :: Prefix(to, p) && p != to ==> Lookup(root, p).None?
  {
    var root := Put(before, Parent(to), WithKid(Lookup(before, Parent(to)).value, File(name, blocks)));
    forall p | Prefix(to, p) && p != to ensures Lookup(root, p).None? {
      NewFileIsLeaf(before, to, name, blocks, p);
    }
    AddedFile(before, Parent(to), name, blocks);
    hide Put, Good, Map, Lookup, SameOutside;
    NewFolderOutside(Map(before), Map(root), from, to, Single(Content(Flatten(blocks))));
    SurvivesAtTarget(Sub(Map(before), from), Sub(Map(root), to));
    StillThere(before, root, from);
  }

  lemma NewFileIsLeaf(before: Node, to: Key, name: string, blocks: seq<Block>, p: Key)
    requires to != [] && to == Parent(to) + [Upper(name)] && Prefix(to, p) && p != to
    requires Lookup(before, Parent(to)).Some? && Lookup(before, Parent(to)).value.Dir?
    requires !HasKid(Lookup(before, Parent(to)).value, Upper(name))
    ensures var e := WithKid(Lookup(before, Parent(to)).value, File(name, blocks));
            Fits(before, Parent(to), e) && Lookup(Put(before, Parent(to), e), p).None?
  {
    var e := WithKid(Lookup(before, Parent(to)).value, File(name, blocks));
    NodeThere(before, Parent(to), e);
    ChildLookup(Put(before, Parent(to), e), Parent(to), Upper(name));
    AddedKid(Lookup(before, Parent(to)).value, File(name, blocks), Upper(name));
    NothingBelow(Put(before, Parent(to), e), to, p);
  }

  lemma StillThere(before: Node, root: Node, from: Key)
    requires Lookup(before, from).Some? && Sub(Map(root), from) == Sub(Map(before), from)
    ensures Lookup(root, from).Some?
  {
    assert from + [] == from;
    assert [] in Sub(Map(before), from);
  }

  lemma FileMap(before: Node, from: Key)
    requires Lookup(before, from).Some? && Lookup(before, from).value.File?
    ensures Sub(Map(before), from) == Single(ItemOf(Lookup(before, from).value))
  {
    var node := Lookup(before, from).value;
    SubMap(before, from);
    LeafMaps(node.name, node.blocks);
    assert node == File(node.name, node.blocks);
  }

  lemma TargetName(before: Node, to: Key, name: string)
    requires to != [] && Last(to) == Upper(name) && Lookup(before, to).None? && Lookup(before, Parent(to)).Some?
    ensures to == Parent(to) + [Upper(name)]
    ensures !HasKid(Lookup(before, Parent(to)).value, Upper(name))
  {
    assert to == Parent(to) + [Upper(name)];
    ChildLookup(before, Parent(to), Upper(name));
  }

  /** The deletion of the source once the target holds the whole copy. */
  method DeleteSource(drive: Drive, from: Key, to: Key, ghost m: PathMap)
    requires drive.Valid() && Apart(from, to) && Lookup(drive.root, from).Some?
    requires SameOutside(m, drive.Items(), from, to) && Sub(drive.Items(), to) == Sub(m, from)
    modifies drive
    ensures drive.Valid() && NothingLost(m, drive.Items(), from, to) && Sub(drive.Items(), to) == Sub(m, from)
    ensures NamesKept(old(drive.root), drive.root)
    ensures drive.reliable ==> drive.Items() == Moved(m, from, to)
  {
    ghost var copy := drive.Items();
    ApartFromParent(from, to);
    hide Map, Sub, Moved, NothingLost, SameOutside, Apart, Put, Lookup, Good;
    var deleted := drive.DeleteMe(from);
    CopiedAndDeleted(m, copy, drive.Items(), from, to);
  }

  /** The file branch of internalMoveNode. */
  method MoveFile(drive: Drive, oldPath: FsPath, newPath: FsPath, newBasePath: FsPath) returns (ok: bool)
    requires drive.Valid() && newPath != [] && ValidPath(newPath)
    requires Keys(newBasePath) == Parent(Keys(newPath))
    requires Lookup(drive.root, Keys(oldPath)).Some? && Lookup(drive.root, Keys(oldPath)).value.File?
    requires Lookup(drive.root, Keys(newPath)).None? && Lookup(drive.root, Keys(newBasePath)).Some?
    requires Apart(Keys(oldPath), Keys(newPath)) || Lookup(drive.root, Keys(newBasePath)).value.File?
    modifies drive
    ensures drive.Valid()
    ensures NothingLost(old(drive.Items()), drive.Items(), Keys(oldPath), Keys(newPath))
    ensures ok ==> Lookup(old(drive.root), Keys(newBasePath)).value.Dir?
    ensures ok ==> NamesMoved(old(drive.root), drive.root, Keys(oldPath), Keys(newPath), newPath[|newPath| - 1])
    ensures ok ==> Sub(drive.Items(), Keys(newPath)) == Sub(old(drive.Items()), Keys(oldPath))
    ensures drive.reliable ==> (ok <==> Lookup(old(drive.root), Keys(newBasePath)).value.Dir?)
    ensures drive.reliable && ok ==> drive.Items() == Moved(old(drive.Items()), Keys(oldPath), Keys(newPath))
    ensures drive.reliable && !ok ==> drive.root == old(drive.root)
  {
    var from, to := Keys(oldPath), Keys(newPath);
    var name := newPath[|newPath| - 1];
    ghost var before := drive.root;
    TargetName(before, to, name);
    FileMap(before, from);
    NothingChangedNothingLost(Map(before), from, to);
    hide Map, Sub, Moved, NothingLost, SameOutside, Apart, Put, Lookup, Good, NamesMoved, NamesKept, NamesAdded;
    var gotFile, tempCopy := drive.ContentToStream(from);
    var tempCopyBack := new InStream(tempCopy);
    var pushedFile, blocks := drive.CreateNewFileWithStream(Keys(newBasePath), name, tempCopyBack, |tempCopy|);
    if pushedFile {
      FileCopied(before, from, to, name, blocks);
    }
    if gotFile && pushedFile {
      assert Taken(tempCopy, |tempCopy|) == tempCopy;
      ghost var copied := drive.root;
      AddedIsMoved(before, copied, from, to, name);
      DeleteSource(drive, from, to, Map(before));
      MovedThenKept(before, copied, drive.root, from, to, name);
      return true;
    }
    return false;
  }

  lemma FailedCopy(m: PathMap, created: PathMap, m': PathMap, from: Key, to: Key)
    requires SameOutside(m, created, from, to) && SameOutside(created, m', from, to)
    requires Survives(Sub(m, from), Sub(m', from), Sub(m', to))
    ensures SameOutside(m, m', from, to) && NothingLost(m, m', from, to)
  {
    SameOutsideTrans(m, created, m', from, to);
  }

  /** The copy into the folder created at the new path, and the deletion of the source. */
  method CopyAndDelete(drive: Drive, from: Key, to: Key, ghost before: Node, ghost node: Node) returns (ok: bool)
    requires drive.Valid() && Apart(from, to) && Lookup(before, from) == Some(node) && node.Dir?
    requires Lookup(drive.root, from) == Some(node)
    requires Lookup(drive.root, to).Some? && Lookup(drive.root, to).value.Dir? && Lookup(drive.root, to).value.kids == []
    requires SameOutside(Map(before), drive.Items(), from, to)
    modifies drive
    ensures drive.Valid() && NothingLost(Map(before), drive.Items(), from, to)
    ensures ok ==> Sub(drive.Items(), to) == Sub(Map(before), from)
    ensures NamesMoved(old(drive.root), drive.root, from, to, Lookup(old(drive.root), to).value.name)
    ensures drive.reliable ==> ok && drive.Items() == Moved(Map(before), from, to)
  {
    ghost var created := drive.root;
    SubMap(before, from);
    ApartFromParent(from, to);
    hide Map, Sub, Moved, NothingLost, SameOutside, Put, Lookup, Good, Holds, Survives, AgreeBelow, NamesMoved, NamesKept;
    var failed := CopyContents(drive, from, to, node);
    ghost var copy := drive.root;
    CopiedNames(created, from, node, Lookup(copy, from).value, to, Lookup(copy, to).value, copy);
    CopyOutside(created, from, Lookup(copy, from).value, to, Lookup(copy, to).value, copy);
    FailedCopy(Map(before), Map(created), Map(copy), from, to);
    if failed {
      return false;
    }
    DeleteSource(drive, from, to, Map(before));
    MovedThenKept(created, copy, drive.root, from, to, Lookup(created, to).value.name);
    return true;
  }

  /** Names after a copy: those below the new directory are the source's. */
  lemma CopiedNames(before: Node, src: Key, node: Node, s: Node, dst: Key, d: Node, root: Node)
    requires Holds(before, src, s, dst, d, root) && Lookup(before, src) == Some(node) && s.name == node.name
    requires AgreeBelow(node, s) && AgreeBelow(node, d)
    ensures NamesMoved(before, root, src, dst, d.name)
  {
    var middle := Put(before, src, s);
    forall q | Lookup(root, q).Some?
      ensures NameAt(root, q) == if q == dst then Some(d.name) else if Prefix(dst, q) then NameAt(before, src + q[|dst|..])
                                 else NameAt(before, q)
    {
      PutNameAt(middle, dst, d, q);
      PutLookup(middle, dst, d, q);
      if Prefix(dst, q) {
        var r := q[|dst|..];
        PathOfPrefix(dst, q);
        NameBelow(before, src, r);
        assert r == [] ==> q == dst;
      } else {
        assert NameAt(root, q).Some?;
        RestOfSourceNames(before, src, node, s, q);
      }
    }
  }

  /** What is left of the source has the names it had. */
  lemma RestOfSourceNames(before: Node, src: Key, node: Node, s: Node, q: Key)
    requires Fits(before, src, s) && Lookup(before, src) == Some(node) && s.name == node.name && AgreeBelow(node, s)
    requires Lookup(Put(before, src, s), q).Some?
    ensures NameAt(Put(before, src, s), q) == NameAt(before, q)
  {
    PutNameAt(before, src, s, q);
    PutLookup(before, src, s, q);
    if Prefix(src, q) {
      PathOfPrefix(src, q);
      NameBelow(before, src, q[|src|..]);
    }
  }

  /** The directory branch of internalMoveNode. */
  method MoveDirectory(drive: Drive, oldPath: FsPath, newPath: FsPath, newBasePath: FsPath) returns (ok: bool)
    requires drive.Valid() && newPath != [] && ValidPath(newPath)
    requires Keys(newBasePath) == Parent(Keys(newPath))
    requires Lookup(drive.root, Keys(oldPath)).Some? && Lookup(drive.root, Keys(oldPath)).value.Dir?
    requires Lookup(drive.root, Keys(newPath)).None? && Lookup(drive.root, Keys(newBasePath)).Some?
    requires Apart(Keys(oldPath), Keys(newPath)) || Lookup(drive.root, Keys(newBasePath)).value.File?
    modifies drive
    ensures drive.Valid()
    ensures NothingLost(old(drive.Items()), drive.Items(), Keys(oldPath), Keys(newPath))
    ensures ok ==> Lookup(old(drive.root), Keys(newBasePath)).value.Dir?
    ensures ok ==> NamesMoved(old(drive.root), drive.root, Keys(oldPath), Keys(newPath), newPath[|newPath| - 1])
    ensures ok ==> Sub(drive.Items(), Keys(newPath)) == Sub(old(drive.Items()), Keys(oldPath))
    ensures drive.reliable ==> (ok <==> Lookup(old(drive.root), Keys(newBasePath)).value.Dir?)
    ensures drive.reliable && ok ==> drive.Items() == Moved(old(drive.Items()), Keys(oldPath), Keys(newPath))
    ensures drive.reliable && !ok ==> drive.root == old(drive.root)
  {
    var from, to := Keys(oldPath), Keys(newPath);
    var name := newPath[|newPath| - 1];
    ghost var before := drive.root;
    TargetName(before, to, name);
    NothingChangedNothingLost(Map(before), from, to);
    hide Map, Sub, Moved, NothingLost, SameOutside, Apart, Put, Lookup, Good, NamesMoved, NamesKept, NamesAdded;
    var created := drive.CreateNewFolder(Keys(newBasePath), name);
    if !created {
      return false;
    }
    NewFolderLookup(before, from, to, name);
    var newFolder := drive.FilePathToNode(newPath);
    if newFolder.None? {
      return false;
    }
    ghost var withFolder := drive.root;
    ok := CopyAndDelete(drive, from, to, before, Lookup(before, from).value);
    AddedThenMoved(before, withFolder, drive.root, from, to, name);
  }

  lemma SameOutsideTrans(a: PathMap, b: PathMap, c: PathMap, from: Key, to: Key)
    requires SameOutside(a, b, from, to) && SameOutside(b, c, from, to)
    ensures SameOutside(a, c, from, to)
  {
  }

  lemma NewFolderTarget(before: Node, p: Key, e: Node, x: Node)
    requires Lookup(before, p).Some? && Lookup(before, p).value.Dir? && !HasKid(Lookup(before, p).value, KeyOf(x))
    requires e == WithKid(Lookup(before, p).value, x) && Fits(before, p, e)
    ensures Lookup(Put(before, p, e), p + [KeyOf(x)]) == Some(x)
  {
    var base := Lookup(before, p).value;
    PutLookup(before, p, e, p);
    assert p[|p|..] == [];
    hide Put;
    ChildLookup(Put(before, p, e), p, KeyOf(x));
    AddedKid(base, x, KeyOf(x));
  }

  lemma NewFolderSource(before: Node, p: Key, e: Node, x: Node, from: Key)
    requires Lookup(before, p).Some? && Lookup(before, p).value.Dir? && !HasKid(Lookup(before, p).value, KeyOf(x))
    requires e == WithKid(Lookup(before, p).value, x) && Fits(before, p, e)
    requires Apart(from, p + [KeyOf(x)])
    ensures Lookup(Put(before, p, e), from) == Lookup(before, from)
  {
    var base := Lookup(before, p).value;
    PutLookup(before, p, e, from);
    ApartFromChild(from, p, KeyOf(x));
    hide Put;
    if Prefix(p, from) {
      var r := from[|p|..];
      assert from == p + r;
      LookupConcat(before, p, r);
      AddedKid(base, x, r[0]);
    }
  }

  lemma NewFolderLookup(before: Node, from: Key, to: Key, name: string)
    requires Good(before) && before.Dir? && before.name == "" && ValidName(name)
    requires Apart(from, to) && to != [] && to == Parent(to) + [Upper(name)]
    requires Lookup(before, Parent(to)).Some? && Lookup(before, Parent(to)).value.Dir?
    requires Lookup(before, from).Some? && !HasKid(Lookup(before, Parent(to)).value, Upper(name))
    ensures Fits(before, Parent(to), WithKid(Lookup(before, Parent(to)).value, Dir(name, [])))
    ensures var root := Put(before, Parent(to), WithKid(Lookup(before, Parent(to)).value, Dir(name, [])));
            && Good(root) && root.Dir? && root.name == ""
            && Lookup(root, to) == Some(Dir(name, []))
            && SameOutside(Map(before), Map(root), from, to)
            && Lookup(root, from) == Lookup(before, from)
  {
    var p, x := Parent(to), Dir(name, []);
    var e := WithKid(Lookup(before, p).value, x);
    AddedFolder(before, p, name);
    hide Put, Map, Good, Lookup, Apart, SameOutside, Fits, HasKid;
    NewFolderOutside(Map(before), Map(Put(before, p, e)), from, to, Single(Folder));
    NewFolderTarget(before, p, e, x);
    NewFolderSource(before, p, e, x, from);
  }

  lemma ApartFromChild(from: Key, p: Key, k: string)
    requires Apart(from, p + [k])
    ensures !Prefix(from, p)
    ensures Prefix(p, from) ==> from[|p|..] != [] && from[|p|..][0] != k
  {
    if |from| <= |p| {
      assert (p + [k])[..|from|] == p[..|from|];
    } else {
      assert from[..|p| + 1] == from[..|p|] + [from[|p|]];
    }
  }

  /** Whether two paths lie in different directories, as moveNode and _mustMove decide it. */
  method MustMove(oldPath: FsPath, newPath: FsPath) returns (mustMove: bool)
    ensures mustMove <==> |oldPath| != |newPath| || (oldPath != [] && Parent(Keys(oldPath)) != Parent(Keys(newPath)))
  {
    if |oldPath| != |newPath| {
      return true;
    }
    var different := false;
    var i := 0;
    while i < |oldPath| - 1 && !different
      invariant 0 <= i <= |oldPath|
      invariant !different ==> forall j :: 0 <= j < i ==> Upper(oldPath[j]) == Upper(newPath[j])
      invariant different ==> oldPath != [] && Parent(Keys(oldPath)) != Parent(Keys(newPath))
    {
      if Upper(oldPath[i]) != Upper(newPath[i]) {
        assert Parent(Keys(oldPath))[i] != Parent(Keys(newPath))[i];
        different := true;
      }
      i := i + 1;
    }
    return different;
  }

  /** The new directory with the old name is the old path when both paths lie in the same directory. */
  lemma SiblingPath(oldPath: FsPath, newPath: FsPath)
    requires ValidPath(oldPath) && ValidPath(newPath) && oldPath != [] && newPath != []
    requires Parent(Keys(oldPath)) == Parent(Keys(newPath))
    ensures Keys(Split(Join(newPath[..|newPath| - 1]) + "\\" + oldPath[|oldPath| - 1])) == Keys(oldPath)
  {
    var left, name := newPath[..|newPath| - 1], oldPath[|oldPath| - 1];
    ParseChild(left, name);
    assert Keys(left) == Parent(Keys(newPath));
    assert Keys(left + [name]) == Keys(left) + [Upper(name)];
    assert Keys(oldPath) == Parent(Keys(oldPath)) + [Upper(name)];
  }

  /** moveNode: a copy into another directory, or a rename within the same one. */
  method MoveNode(drive: Drive, oldPath: FsPath, newPath: FsPath) returns (ok: bool)
    requires drive.Valid() && ValidPath(oldPath) && ValidPath(newPath)
    requires Prefix(Keys(oldPath), Keys(newPath)) ==> !CanMove(drive.Items(), Keys(oldPath), Keys(newPath))
    modifies drive
    ensures drive.Valid()
    ensures NothingLost(old(drive.Items()), drive.Items(), Keys(oldPath), Keys(newPath))
    ensures ok ==> CanMove(old(drive.Items()), Keys(oldPath), Keys(newPath))
    ensures ok ==> newPath != [] &&
                   NamesMoved(old(drive.root), drive.root, Keys(oldPath), Keys(newPath), newPath[|newPath| - 1])
    ensures drive.reliable && CanMove(old(drive.Items()), Keys(oldPath), Keys(newPath)) ==> ok
    ensures drive.reliable ==>
              var m, from, to := old(drive.Items()), Keys(oldPath), Keys(newPath);
              ok <==> from in m && to !in m && to != [] && Parent(to) in m && m[Parent(to)] == Folder
    ensures drive.reliable && ok ==> drive.Items() == Moved(old(drive.Items()), Keys(oldPath), Keys(newPath))
    ensures drive.reliable && !ok ==> drive.root == old(drive.root)
  {
    ghost var from, to := Keys(oldPath), Keys(newPath);
    NothingChangedNothingLost(drive.Items(), from, to);
    var node := drive.FilePathToNode(oldPath);
    var thisNodeMustBeFree := drive.FilePathToNode(newPath);
    if node.None? || thisNodeMustBeFree.Some? {
      return false;
    }
    var mustMove := MustMove(oldPath, newPath);
    if mustMove {
      ok := InternalMoveNode(drive, oldPath, newPath);
      return;
    }
    NotBelowSibling(drive.root, from, to);
    ok := RenameInPlace(drive, oldPath, newPath);
  }

  /** Of two paths of the same length neither lies below the other. */
  lemma NotBelowSibling(root: Node, from: Key, to: Key)
    requires |from| == |to| && Lookup(root, from).Some? && Lookup(root, to).None?
    ensures Apart(from, to)
  {
    assert to[..|from|] == to && from[..|to|] == from;
    hide Lookup;
  }

  /** A node can move within its directory when the new name is free there. */
  lemma SameDirectory(root: Node, from: Key, to: Key)
    requires from != [] && to != [] && Parent(from) == Parent(to)
    requires Lookup(root, from).Some? && Lookup(root, to).None?
    ensures CanMove(Map(root), from, to) && Parent(to) + [Last(to)] == to
    ensures Lookup(root, Parent(from)).Some? && !HasKid(Lookup(root, Parent(from)).value, Last(to))
  {
    ParentDir(root, from);
    ChildLookup(root, Parent(to), Last(to));
    assert Parent(to) + [Last(to)] == to;
  }

  lemma LastDiffers(from: Key, to: Key)
    requires Apart(from, to) && from != [] && to != [] && Parent(from) == Parent(to)
    ensures Last(from) != Last(to)
  {
    assert from == Parent(from) + [Last(from)] && to == Parent(to) + [Last(to)];
    assert from[..|from|] == from;
  }

  /** The end of moveNode: source and target lie in the same directory. */
  method RenameInPlace(drive: Drive, oldPath: FsPath, newPath: FsPath) returns (ok: bool)
    requires drive.Valid() && ValidPath(oldPath) && ValidPath(newPath) && oldPath != [] && newPath != []
    requires Apart(Keys(oldPath), Keys(newPath)) && Parent(Keys(oldPath)) == Parent(Keys(newPath))
    requires Lookup(drive.root, Keys(oldPath)).Some? && Lookup(drive.root, Keys(newPath)).None?
    modifies drive
    ensures drive.Valid() && ok
    ensures NamesMoved(old(drive.root), drive.root, Keys(oldPath), Keys(newPath), newPath[|newPath| - 1])
    ensures CanMove(old(drive.Items()), Keys(oldPath), Keys(newPath))
    ensures drive.Items() == Moved(old(drive.Items()), Keys(oldPath), Keys(newPath))
    ensures NothingLost(old(drive.Items()), drive.Items(), Keys(oldPath), Keys(newPath))
  {
    hide Map, Moved, CanMove, NothingLost, Split, Join, Upper;
    ghost var from, to := Keys(oldPath), Keys(newPath);
    SameDirectory(drive.root, from, to);
    LastDiffers(from, to);
    var left := GetLeftSubPath(newPath, |newPath| - 2);
    var printed := GetFullPath(left);
    var pathAfterInitialMove := Parse(printed + "\\" + oldPath[|oldPath| - 1]);
    SiblingPath(oldPath, newPath);
    var nodeAfterMove := drive.FilePathToNode(pathAfterInitialMove);
    if nodeAfterMove.None? {
      assert false;
      return false;
    }
    if Upper(pathAfterInitialMove[|pathAfterInitialMove| - 1]) != Upper(newPath[|newPath| - 1]) {
      hide Apart;
      drive.Rename(Keys(pathAfterInitialMove), newPath[|newPath| - 1]);
      RenameLosesNothing(old(drive.Items()), from, to);
      return true;
    } else {
      assert false;
      return true;
    }
  }

  lemma RenameLosesNothing(m: PathMap, from: Key, to: Key)
    requires Apart(from, to)
    ensures NothingLost(m, Moved(m, from, to), from, to)
  {
    var m' := Moved(m, from, to);
    assert SameOutside(m, m', from, to) by {
      hide Moved;
      forall q ensures !Prefix(from, q) && !Prefix(to, q) ==> ItemAt(m', q) == ItemAt(m, q) {
        MovedAt(m, from, to, q);
      }
    }
    hide Moved, Sub, SameOutside, ItemAt, Survives, Prefix, Apart;
    forall r: Key ensures ItemAt(Sub(m', to), r) == ItemAt(Sub(m, from), r) {
      ApartExtends(from, to, r);
      MovedAt(m, from, to, to + r);
      SubAt(m', to, r);
      SubAt(m, from, r);
    }
    SameMap(Sub(m', to), Sub(m, from));
    SurvivesAtTarget(Sub(m, from), Sub(m', from));
  }
}
