/**
 Moving a directory to a free path below itself (internalMoveNode does not exclude it): on the way to the new directory the
 visitor copies the directory that holds its own copy, and never gets to the end.

 `levels` bounds how deep the visitors may be nested; a method that would need one level more stops and says that it has not
 finished.  It has not finished whatever the bound is, so the call of the original does not return.
 */
module MovingBelow {
  import opened Paths
  import opened Blocks
  import opened Nodes
  import opened Children
  import opened Drives
  import opened Copying
  import opened Moving

  // ---------- The state of a visitor whose new directory lies below its source ----------

  /** The way from the source to the new directory, seen from the next directory on the way. */
  function Turned(rel: Key): Key {
    if rel == [] then [] else rel[1..] + [rel[0]]
  }

  /** The names of the folders nested in the new directory after so many levels. */
  function Trail(rel: Key, levels: nat): Key
    decreases levels
  {
    if rel == [] || levels == 0 then [] else [rel[0]] + Trail(Turned(rel), levels - 1)
  }

  /** Both directories are there, the source with the children of s0; those from the i-th on are not in the new directory. */
  ghost predicate Visiting(root: Node, src: Key, rel: Key, s0: Node, i: nat) {
    && Lookup(root, src).Some? && SameNames(s0, Lookup(root, src).value)
    && Lookup(root, src + rel).Some? && Lookup(root, src + rel).value.Dir?
    && forall j :: i <= j < |s0.kids| ==> !HasKid(Lookup(root, src + rel).value, KeyOf(s0.kids[j]))
  }

  ghost predicate SameNames(s0: Node, s: Node) {
    && s0.Dir? && s.Dir? && |s.kids| == |s0.kids|
    && forall j :: 0 <= j < |s0.kids| ==> s.kids[j].name == s0.kids[j].name
  }

  lemma PutNames(s: Node, p: Key, m: Node)
    requires Fits(s, p, m) && p != [] && (|p| == 1 ==> m.name == Kid(s, p[0]).name)
    ensures SameNames(s, Put(s, p, m))
  {
    var kid := Kid(s, p[0]);
    if |p| > 1 {
      PutName(kid, p[1..], m);
    }
  }

  lemma SameNamesTrans(a: Node, b: Node, c: Node)
    requires SameNames(a, b) && SameNames(b, c)
    ensures SameNames(a, c)
  {
  }

  lemma PrefixOfSum(p: Key, r: Key)
    ensures Prefix(p, p + r) && (p + r)[|p|..] == r
  {
  }

  lemma BesideTheWay(src: Key, rel: Key, k: string)
    requires rel != [] && k != rel[0]
    ensures Apart(src + [k], src + rel) && Apart(src + [k], src + rel + [k])
  {
    assert (src + [k])[|src|] == k && (src + rel)[|src|] == rel[0] && (src + rel + [k])[|src|] == rel[0];
  }

  /** A new child in the new directory. */
  lemma GrownBelow(root: Node, src: Key, rel: Key, s0: Node, i: nat, x: Node)
    requires Visiting(root, src, rel, s0, i) && rel != [] && i < |s0.kids| && DistinctKeys(s0.kids)
    requires KeyOf(x) == KeyOf(s0.kids[i])
    ensures var d := Lookup(root, src + rel).value;
            Fits(root, src + rel, WithKid(d, x)) && Visiting(Put(root, src + rel, WithKid(d, x)), src, rel, s0, i + 1)
  {
    var d, s := Lookup(root, src + rel).value, Lookup(root, src).value;
    var root' := Put(root, src + rel, WithKid(d, x));
    PutLookup(root, src + rel, WithKid(d, x), src + rel);
    PutLookup(root, src + rel, WithKid(d, x), src);
    PrefixOfSum(src, rel);
    PrefixOfSum(src + rel, []);
    LookupConcat(root, src, rel);
    assert src + rel + [] == src + rel;
    if |rel| == 1 {
      ChildLookup(root, src, rel[0]);
      assert rel == [rel[0]];
    }
    PutNames(s, rel, WithKid(d, x));
    SameNamesTrans(s0, s, Put(s, rel, WithKid(d, x)));
    forall j | i + 1 <= j < |s0.kids| ensures !HasKid(WithKid(d, x), KeyOf(s0.kids[j])) {
      AddedKid(d, x, KeyOf(s0.kids[j]));
    }
  }

  /** An assignment to another child of the source. */
  lemma AssignedBeside(root: Node, src: Key, rel: Key, s0: Node, i: nat, k: string, x: Node)
    requires Visiting(root, src, rel, s0, i) && rel != [] && k != rel[0]
    requires Fits(root, src + [k], x) && x.name == Lookup(root, src + [k]).value.name
    ensures Visiting(Put(root, src + [k], x), src, rel, s0, i)
  {
    var s := Lookup(root, src).value;
    BesideTheWay(src, rel, k);
    PutLookup(root, src + [k], x, src);
    PutLookup(root, src + [k], x, src + rel);
    PrefixOfSum(src, [k]);
    ChildLookup(root, src, k);
    PutNames(s, [k], x);
    SameNamesTrans(s0, s, Put(s, [k], x));
  }

  /** An assignment to a child of the new directory. */
  lemma AssignedBelow(root: Node, src: Key, rel: Key, s0: Node, i: nat, k: string, y: Node)
    requires Visiting(root, src, rel, s0, i) && rel != [] && Fits(root, src + rel + [k], y)
    ensures Visiting(Put(root, src + rel + [k], y), src, rel, s0, i)
  {
    var s, d := Lookup(root, src).value, Lookup(root, src + rel).value;
    PutLookup(root, src + rel + [k], y, src);
    PutLookup(root, src + rel + [k], y, src + rel);
    assert src + rel + [k] == src + (rel + [k]);
    PrefixOfSum(src, rel + [k]);
    PrefixOfSum(src + rel, [k]);
    PutNames(s, rel + [k], y);
    SameNamesTrans(s0, s, Put(s, rel + [k], y));
    forall j | i <= j < |s0.kids| ensures !HasKid(Put(d, [k], y), KeyOf(s0.kids[j])) {
      PutKid(d, [k], y, KeyOf(s0.kids[j]));
    }
  }

  // ---------- The visitor ----------

  /** A child beside the way to the new directory is copied, and its copy is a new child of the new directory. */
  method VisitBeside(drive: Drive, src: Key, rel: Key, i: nat, ghost s0: Node)
    requires drive.Valid() && drive.reliable && rel != [] && Visiting(drive.root, src, rel, s0, i)
    requires i < |s0.kids| && DistinctKeys(s0.kids) && KeyOf(s0.kids[i]) != rel[0]
    modifies drive
    ensures drive.Valid() && Visiting(drive.root, src, rel, s0, i + 1)
  {
    var currentNode := Lookup(drive.root, src).value.kids[i];
    var k := KeyOf(currentNode);
    ChildOfSource(drive.root, src, s0, i);
    GoodLookup(drive.root, src + [k]);
    ghost var before := drive.root;
    if currentNode.Dir? {
      GrownBelow(before, src, rel, s0, i, Dir(currentNode.name, []));
      var newlyCreatedFolder := NewFolderIn(drive, currentNode.name, src + rel);
      BesideTheWay(src, rel, k);
      StillBeside(before, src, rel, k, Dir(currentNode.name, []));
      ghost var root1 := drive.root;
      hide Visiting, Put;
      var failed := CopyContents(drive, src + [k], src + rel + [k], currentNode);
      ghost var x, y := Lookup(drive.root, src + [k]).value, Lookup(drive.root, src + rel + [k]).value;
      AssignedBeside(root1, src, rel, s0, i + 1, k, x);
      AssignedBelow(Put(root1, src + [k], x), src, rel, s0, i + 1, k, y);
    } else {
      var copied, pushed, blocks := CopyFileTo(drive, src + [k], src + rel);
      GrownBelow(before, src, rel, s0, i, File(currentNode.name, blocks));
    }
  }

  lemma ChildOfSource(root: Node, src: Key, s0: Node, i: nat)
    requires Good(root) && Lookup(root, src).Some? && SameNames(s0, Lookup(root, src).value) && i < |s0.kids|
    ensures var x := Lookup(root, src).value.kids[i];
            KeyOf(x) == KeyOf(s0.kids[i]) && Lookup(root, src + [KeyOf(x)]) == Some(x)
  {
    GoodLookup(root, src);
    FindIs(Lookup(root, src).value.kids, i);
    ChildLookup(root, src, KeyOf(s0.kids[i]));
  }

  /** The child of the source is still there when its copy begins. */
  lemma StillBeside(root: Node, src: Key, rel: Key, k: string, x: Node)
    requires rel != [] && k != rel[0] && Lookup(root, src + rel).Some? && Lookup(root, src + rel).value.Dir?
    requires Fits(root, src + rel, WithKid(Lookup(root, src + rel).value, x))
    ensures Lookup(Put(root, src + rel, WithKid(Lookup(root, src + rel).value, x)), src + [k]) == Lookup(root, src + [k])
  {
    BesideTheWay(src, rel, k);
    PutLookup(root, src + rel, WithKid(Lookup(root, src + rel).value, x), src + [k]);
  }

  /**
   doForAllContent with a visitor whose new directory, src + rel, lies below its source: the children before the one on the
   way are copied; for that one it creates a folder in the new directory and starts a visitor in the same situation.
   */
  method CopyContentsBelow(drive: Drive, src: Key, rel: Key, levels: nat) returns (finished: bool)
    requires drive.Valid() && drive.reliable && rel != []
    requires Lookup(drive.root, src + rel).Some? && Lookup(drive.root, src + rel).value.Dir?
    requires Lookup(drive.root, src + rel).value.kids == []
    modifies drive
    ensures drive.Valid() && !finished
    ensures Lookup(drive.root, src + rel + Trail(rel, levels)).Some?
    decreases levels
  {
    if levels == 0 {
      assert src + rel + [] == src + rel;
      return false;
    }
    var c := rel[0];
    ghost var s0 := StartBelow(drive.root, src, rel);
    var i := VisitUntil(drive, src, rel, s0);
    hide Visiting, Lookup, Good, Trail, Turned, Drive.Valid;
    NextFolder(drive, src, rel, i, s0);
    TurnedPath(src, rel, levels);
    finished := CopyContentsBelow(drive, src + [c], Turned(rel), levels - 1);
  }

  /** The folder for the child on the way to the new directory. */
  method NextFolder(drive: Drive, src: Key, rel: Key, i: nat, ghost s0: Node)
    requires drive.Valid() && drive.reliable && rel != [] && Visiting(drive.root, src, rel, s0, i)
    requires i < |s0.kids| && KeyOf(s0.kids[i]) == rel[0]
    modifies drive
    ensures drive.Valid()
    ensures var nested := Lookup(drive.root, src + rel + [rel[0]]);
            nested.Some? && nested.value.Dir? && nested.value.kids == []
  {
    ChildOfSource(drive.root, src, s0, i);
    GoodLookup(drive.root, src + [rel[0]]);
    var newFolder := NewFolderIn(drive, Lookup(drive.root, src).value.kids[i].name, src + rel);
  }

  /** The children before the one on the way to the new directory. */
  method VisitUntil(drive: Drive, src: Key, rel: Key, ghost s0: Node) returns (i: nat)
    requires drive.Valid() && drive.reliable && rel != [] && Visiting(drive.root, src, rel, s0, 0)
    requires s0.Dir? && DistinctKeys(s0.kids) && Find(s0.kids, rel[0]) < |s0.kids|
    modifies drive
    ensures drive.Valid() && Visiting(drive.root, src, rel, s0, i)
    ensures i < |s0.kids| && KeyOf(s0.kids[i]) == rel[0]
  {
    hide Drive.Valid, Put, Lookup, Visiting, DistinctKeys, KeyOf;
    i := 0;
    SourceKid(drive.root, src, rel, s0, i);
    while KeyOf(Lookup(drive.root, src).value.kids[i]) != rel[0]
      invariant 0 <= i <= Find(s0.kids, rel[0]) < |s0.kids| && drive.Valid()
      invariant Visiting(drive.root, src, rel, s0, i)
      invariant Lookup(drive.root, src).Some? && Lookup(drive.root, src).value.Dir?
      invariant i < |Lookup(drive.root, src).value.kids|
      invariant KeyOf(Lookup(drive.root, src).value.kids[i]) == KeyOf(s0.kids[i])
      decreases Find(s0.kids, rel[0]) - i
    {
      VisitBeside(drive, src, rel, i, s0);
      i := i + 1;
      SourceKid(drive.root, src, rel, s0, i);
    }
  }

  lemma SourceKid(root: Node, src: Key, rel: Key, s0: Node, i: nat)
    requires Visiting(root, src, rel, s0, i) && i < |s0.kids|
    ensures Lookup(root, src).Some? && Lookup(root, src).value.Dir? && i < |Lookup(root, src).value.kids|
    ensures KeyOf(Lookup(root, src).value.kids[i]) == KeyOf(s0.kids[i])
  {
  }

  lemma StartBelow(root: Node, src: Key, rel: Key) returns (s0: Node)
    requires Good(root) && rel != [] && Lookup(root, src + rel).Some? && Lookup(root, src + rel).value.Dir?
    requires Lookup(root, src + rel).value.kids == []
    ensures Visiting(root, src, rel, s0, 0) && s0.Dir? && DistinctKeys(s0.kids) && Find(s0.kids, rel[0]) < |s0.kids|
  {
    PrefixOfSum(src, rel);
    PrefixIsThere(root, src, src + rel);
    s0 := Lookup(root, src).value;
    LookupConcat(root, src, rel);
    GoodLookup(root, src);
  }

  lemma PrefixIsThere(root: Node, p: Key, q: Key)
    requires Prefix(p, q) && p != q && Lookup(root, q).Some?
    ensures Lookup(root, p).Some? && Lookup(root, p).value.Dir?
  {
    PrefixClosed(root, p, q);
  }

  lemma TurnedPath(src: Key, rel: Key, levels: nat)
    requires rel != [] && levels > 0
    ensures src + [rel[0]] + Turned(rel) == src + rel + [rel[0]]
    ensures src + rel + Trail(rel, levels) == src + [rel[0]] + Turned(rel) + Trail(Turned(rel), levels - 1)
  {
    assert rel == [rel[0]] + rel[1..];
    assert Trail(rel, levels) == [rel[0]] + Trail(Turned(rel), levels - 1);
    hide Trail;
    var rest := Trail(Turned(rel), levels - 1);
    assert src + rel + ([rel[0]] + rest) == src + rel + [rel[0]] + rest;
    assert src + [rel[0]] + Turned(rel) == src + rel + [rel[0]];
  }

  // ---------- The move ----------

  /**
   internalMoveNode for a target below the source at which the device can create a folder: whatever the number of levels, it
   has not finished, and that many folders have been created inside each other in the new directory.
   */
  method MoveBelowItself(drive: Drive, oldPath: FsPath, newPath: FsPath, levels: nat) returns (finished: bool)
    requires drive.Valid() && drive.reliable && ValidPath(oldPath) && ValidPath(newPath)
    requires Prefix(Keys(oldPath), Keys(newPath)) && CanMove(drive.Items(), Keys(oldPath), Keys(newPath))
    modifies drive
    ensures drive.Valid() && !finished
    ensures Keys(newPath) + Trail(Keys(newPath)[|oldPath|..], levels) in drive.Items()
  {
    var from, to := Keys(oldPath), Keys(newPath);
    TargetBelow(drive.root, from, to);
    hide Map, Lookup, Put, Good, HasKid, CanMove, Trail, Keys;
    var newBasePath := GetLeftSubPath(newPath, |newPath| - 2);
    BaseAndName(newPath);
    var name := newPath[|newPath| - 1];
    TargetName(drive.root, to, name);
    FolderAdded(drive.root, Parent(to), name);
    var created := drive.CreateNewFolder(Keys(newBasePath), name);
    var newFolder := drive.FilePathToNode(newPath);
    ghost var rel := to[|from|..];
    assert from + rel == to;
    finished := CopyContentsBelow(drive, from, to[|from|..], levels);
    InMap(drive.root, to + Trail(rel, levels));
  }

  lemma InMap(root: Node, p: Key)
    requires Lookup(root, p).Some?
    ensures p in Map(root)
  {
  }

  lemma BaseAndName(path: FsPath)
    requires path != []
    ensures Keys(LeftSubPath(path, |path| - 2)) == Parent(Keys(path)) && Last(Keys(path)) == Upper(path[|path| - 1])
    ensures |Keys(path)| == |path|
  {
  }

  lemma TargetBelow(root: Node, from: Key, to: Key)
    requires Prefix(from, to) && CanMove(Map(root), from, to)
    ensures to != [] && from != to && to[|from|..] != [] && from + to[|from|..] == to
    ensures Lookup(root, to).None? && Lookup(root, Parent(to)).Some? && Lookup(root, Parent(to)).value.Dir?
  {
  }
}
