/**
 The mapped drive over the in-memory nodes (AbstractMappableDrive, TestFsDirectory, TestFsNode).

 A pointer to a node is the node's key path.  A drive that is not `reliable` may refuse any creation, read or deletion;
 the in-memory drive is reliable.  Times are not modelled.
 */
module Drives {
  import opened Paths
  import opened Blocks
  import opened Nodes
  import opened Children
  import opened Names

  datatype Existence = DoesNotExist | IsDirectory | IsFile

  function ExistenceOf(node: Option<Node>): Existence {
    if node.None? then DoesNotExist else if node.value.Dir? then IsDirectory else IsFile
  }

  /** The key path of a node's parent. */
  function Parent(p: Key): Key
    requires p != []
  {
    p[..|p| - 1]
  }

  function Last(p: Key): string
    requires p != []
  {
    p[|p| - 1]
  }

  /** The directory that holds an existing non-root node. */
  lemma {:induction false} ParentDir(n: Node, p: Key)
    requires Lookup(n, p).Some? && p != []
    ensures Lookup(n, Parent(p)).Some? && HasKid(Lookup(n, Parent(p)).value, Last(p))
    ensures Kid(Lookup(n, Parent(p)).value, Last(p)) == Lookup(n, p).value
    decreases |p|
  {
    if |p| > 1 {
      ParentDir(Kid(n, p[0]), p[1..]);
      assert p[1..][..|p| - 2] == p[..|p| - 1][1..];
    }
  }

  /** A child's path extends its directory's path. */
  lemma ChildLookup(n: Node, p: Key, k: string)
    requires Lookup(n, p).Some?
    ensures Lookup(n, p + [k]) == if HasKid(Lookup(n, p).value, k) then Some(Kid(Lookup(n, p).value, k)) else None
  {
    LookupConcat(n, p, [k]);
  }

  lemma {:induction false} NothingBelow(n: Node, p: Key, q: Key)
    requires Prefix(p, q) && (Lookup(n, p).None? || (Lookup(n, p).value.File? && p != q))
    ensures Lookup(n, q).None?
    decreases |p|
  {
    if p != [] {
      PrefixTail(p, q);
      if HasKid(n, p[0]) {
        NothingBelow(Kid(n, p[0]), p[1..], q[1..]);
      }
    }
  }

  /** Nothing lies under a missing path or under a file, so putting one item there is a plain map update. */
  lemma GraftIsUpdate(n: Node, p: Key, item: Item)
    requires Lookup(n, p).None? || Lookup(n, p).value.File?
    ensures Graft(Map(n), p, Single(item)) == Map(n)[p := item]
    ensures Graft(Without(Map(n), p), p, Single(item)) == Map(n)[p := item]
  {
    hide Graft, Without, Map;
    var m := Map(n);
    forall q: Key
      ensures ItemAt(Graft(m, p, Single(item)), q) == ItemAt(m[p := item], q)
      ensures ItemAt(Graft(Without(m, p), p, Single(item)), q) == ItemAt(m[p := item], q)
    {
      GraftAt(m, p, Single(item), q);
      GraftAt(Without(m, p), p, Single(item), q);
      WithoutAt(m, p, q);
      if Prefix(p, q) {
        assert q == p + q[|p|..];
        if p != q {
          NothingBelow(n, p, q);
          MapAt(n, q);
        }
      }
    }
    SameMap(Graft(m, p, Single(item)), m[p := item]);
    SameMap(Graft(Without(m, p), p, Single(item)), m[p := item]);
  }

  lemma LeafMaps(name: string, blocks: seq<Block>)
    ensures Map(File(name, blocks)) == Single(Content(Flatten(blocks)))
    ensures Map(Dir(name, [])) == Single(Folder)
  {
    forall p: Key | p != [] ensures Lookup(File(name, blocks), p).None? && Lookup(Dir(name, []), p).None? {
    }
  }

  lemma SameTextIsSameKey(kids: seq<Node>, name: string)
    ensures forall i :: 0 <= i < |kids| ==> (SameText(kids[i].name, name) <==> KeyOf(kids[i]) == Upper(name))
  {
    forall i | 0 <= i < |kids| ensures SameText(kids[i].name, name) <==> KeyOf(kids[i]) == Upper(name) {
      SameTextIsSameUpper(kids[i].name, name);
    }
  }

  class Drive {
    var root: Node
    const reliable: bool

    ghost predicate Valid()
      reads this
    {
      root.Dir? && root.name == "" && Good(root)
    }

    /** The drive as a map from upper-cased paths to folders and file contents. */
    ghost function Items(): PathMap
      reads this
    {
      Map(root)
    }

    constructor (reliable: bool)
      ensures Valid() && this.reliable == reliable
      ensures Items() == Single(Folder)
    {
      this.reliable := reliable;
      root := Dir("", []);
      new;
      LeafMaps("", []);
    }

    // ---------- Nodes ----------

    /** TestFsDirectory::getContentByName; other nodes have no content. */
    static method GetContentByName(node: Node, subdirName: string) returns (kid: Option<Node>)
      ensures kid == if HasKid(node, Upper(subdirName)) then Some(Kid(node, Upper(subdirName))) else None
      ensures kid.None? <==> node.File? || forall i :: 0 <= i < |node.kids| ==> !SameText(node.kids[i].name, subdirName)
      ensures kid.Some? ==>
                exists i :: 0 <= i < |node.kids| && kid.value == node.kids[i] && SameText(node.kids[i].name, subdirName)
                            && forall j :: 0 <= j < i ==> !SameText(node.kids[j].name, subdirName)
    {
      if node.Dir? {
        SameTextIsSameKey(node.kids, subdirName);
      }
      if node.File? {
        return None;
      }
      for i := 0 to |node.kids|
        invariant forall j :: 0 <= j < i ==> KeyOf(node.kids[j]) != Upper(subdirName)
      {
        if KeyOf(node.kids[i]) == Upper(subdirName) {
          FindIsAt(node.kids, i, Upper(subdirName));
          return Some(node.kids[i]);
        }
      }
      return None;
    }

    /** A device that is not reliable may refuse. */
    method Refuses() returns (refused: bool)
      ensures reliable ==> !refused
    {
      refused := false;
      if !reliable {
        refused := *;
      }
    }

    method CreateNewFolder(at: Key, name: string) returns (ok: bool)
      requires Lookup(root, at).Some?
      modifies this
      ensures ok ==> (var d := Lookup(old(root), at).value;
                      d.Dir? && !HasKid(d, Upper(name)) && root == Put(old(root), at, WithKid(d, Dir(name, [])))
                      && Lookup(root, at) == Some(Dir(d.name, d.kids + [Dir(name, [])])))
      ensures ok ==> NamesAdded(old(root), root, at + [Upper(name)], name)
      ensures !ok ==> root == old(root)
      ensures reliable && !ok ==> var d := Lookup(root, at).value; d.File? || HasKid(d, Upper(name))
    {
      var refused := Refuses();
      var d := Lookup(root, at).value;
      var existing := GetContentByName(d, name);
      if refused || d.File? || existing.Some? {
        return false;
      }
      root := Put(root, at, WithKid(d, Dir(name, [])));
      AddedNames(old(root), at, Dir(name, []));
      NodeThere(old(root), at, WithKid(d, Dir(name, [])));
      return true;
    }

    method CreateNewFileWithStream(at: Key, name: string, stream: InStream, size: nat)
      returns (ok: bool, ghost blocks: seq<Block>)
      requires Lookup(root, at).Some?
      modifies this, stream
      ensures ok ==> Flatten(blocks) == Taken(old(stream.unread), size)
      ensures ok ==> (var d := Lookup(old(root), at).value;
                      d.Dir? && !HasKid(d, Upper(name)) && root == Put(old(root), at, WithKid(d, File(name, blocks)))
                      && Lookup(root, at) == Some(Dir(d.name, d.kids + [File(name, blocks)])))
      ensures ok ==> NamesAdded(old(root), root, at + [Upper(name)], name)
      ensures !ok ==> root == old(root)
      ensures reliable && !ok ==> var d := Lookup(root, at).value; d.File? || HasKid(d, Upper(name))
    {
      blocks := [];
      var refused := Refuses();
      var d := Lookup(root, at).value;
      var existing := GetContentByName(d, name);
      if refused || d.File? || existing.Some? {
        return false, [];
      }
      var stored := FillWithData(stream, size);
      root := Put(root, at, WithKid(d, File(name, stored)));
      AddedNames(old(root), at, File(name, stored));
      NodeThere(old(root), at, WithKid(d, File(name, stored)));
      return true, stored;
    }

    /** contentToStream: a read that fails may have delivered anything. */
    method ContentToStream(at: Key) returns (ok: bool, data: seq<byte>)
      requires Lookup(root, at).Some?
      ensures ok ==> ItemOf(Lookup(root, at).value) == Content(data)
      ensures reliable && !ok ==> Lookup(root, at).value.Dir?
    {
      var node := Lookup(root, at).value;
      var refused := Refuses();
      if node.Dir? {
        return false, [];
      }
      if refused {
        data := *;
        return false, data;
      }
      data := Blocks.ContentToStream(node.blocks);
      return true, data;
    }

    /** TestFsDirectory::deleteContentByName, which compares names exactly. */
    method DeleteContentByName(at: Key, name: string) returns (ok: bool)
      requires Lookup(root, at).Some? && Lookup(root, at).value.Dir?
      modifies this
      ensures ok ==> exists i: nat :: (
                       var d := Lookup(old(root), at).value;
                       && i < |d.kids| && d.kids[i].name == name && (forall j :: 0 <= j < i ==> d.kids[j].name != name)
                       && root == Put(old(root), at, WithoutKid(d, i))
                       && Lookup(root, at) == Some(Dir(d.name, d.kids[..i] + d.kids[i + 1..])))
      ensures !ok ==> root == old(root)
      ensures reliable && !ok ==>
                forall i :: 0 <= i < |Lookup(root, at).value.kids| ==> Lookup(root, at).value.kids[i].name != name
    {
      var refused := Refuses();
      if refused {
        return false;
      }
      var d := Lookup(root, at).value;
      for i := 0 to |d.kids|
        invariant root == old(root)
        invariant forall j :: 0 <= j < i ==> d.kids[j].name != name
      {
        if d.kids[i].name == name {
          root := Put(root, at, WithoutKid(d, i));
          NodeThere(old(root), at, WithoutKid(d, i));
          return true;
        }
      }
      return false;
    }

    /** TestFsNode::deleteMe: the parent deletes its child of this name, with everything below it. */
    method DeleteMe(at: Key) returns (ok: bool)
      requires Valid() && Lookup(root, at).Some?
      modifies this
      ensures Valid()
      ensures ok ==> (at != [] && var d := Lookup(old(root), Parent(at));
                      d.Some? && HasKid(d.value, Last(at)) &&
                      root == Put(old(root), Parent(at), WithoutKid(d.value, Find(d.value.kids, Last(at)))))
      ensures ok ==> Items() == Without(old(Items()), at)
      ensures NamesKept(old(root), root)
      ensures !ok ==> root == old(root)
      ensures reliable ==> (ok <==> at != [])
    {
      if at == [] {
        return false;
      }
      ParentDir(root, at);
      AllNamesKept(root);
      ok := DeleteContentByName(Parent(at), Lookup(root, at).value.name);
      if ok {
        ghost var d := Lookup(old(root), Parent(at)).value;
        ghost var i: nat :| i < |d.kids| && d.kids[i].name == Lookup(old(root), at).value.name
          && root == Put(old(root), Parent(at), WithoutKid(d, i));
        DeletedChild(old(root), at, i);
      }
    }

    // ---------- Paths ----------

    /** _filePathToNode. */
    method FilePathToNode(path: FsPath) returns (node: Option<Node>)
      ensures node == Lookup(root, Keys(path))
    {
      var currentNode := root;
      for i := 0 to |path|
        invariant Lookup(root, Keys(path)) == Lookup(currentNode, Keys(path)[i..])
      {
        var next := GetContentByName(currentNode, path[i]);
        assert Keys(path)[i..][0] == Upper(path[i]);
        assert Keys(path)[i..][1..] == Keys(path)[i + 1..];
        if next.None? {
          return None;
        }
        currentNode := next.value;
      }
      return Some(currentNode);
    }

    method CheckIfExists(path: FsPath) returns (r: Existence)
      ensures r == ExistenceOf(Lookup(root, Keys(path)))
      ensures r == DoesNotExist <==> Keys(path) !in Items()
      ensures r == IsDirectory <==> Keys(path) in Items() && Items()[Keys(path)] == Folder
      ensures r == IsFile <==> Keys(path) in Items() && Items()[Keys(path)].Content?
    {
      var node := FilePathToNode(path);
      r := ExistenceOf(node);
    }

    method ReadFile(path: FsPath) returns (ok: bool, data: seq<byte>)
      ensures ok ==> Keys(path) in Items() && Items()[Keys(path)] == Content(data)
      ensures reliable ==> (ok <==> Keys(path) in Items() && Items()[Keys(path)].Content?)
    {
      var node := FilePathToNode(path);
      if node.None? || node.value.Dir? {
        return false, [];
      }
      ok, data := ContentToStream(Keys(path));
    }

    /** Replaces a file's bytes by deleting the file and creating it again under its own name. */
    method WriteFile(path: FsPath, source: InStream, size: nat) returns (ok: bool)
      requires Valid()
      modifies this, source
      ensures Valid()
      ensures ok ==> Items() == old(Items())[Keys(path) := Content(Taken(old(source.unread), size))]
      ensures ok ==> Keys(path) in old(Items()) && old(Items())[Keys(path)].Content?
      ensures !ok ==>
                || Items() == old(Items())
                || (Keys(path) in old(Items()) && old(Items())[Keys(path)].Content?
                    && Items() == Without(old(Items()), Keys(path)))
      ensures reliable && !ok ==> root == old(root)
      ensures reliable ==> (ok <==> Keys(path) in old(Items()) && old(Items())[Keys(path)].Content?)
      ensures NamesKept(old(root), root)
    {
      var p := Keys(path);
      var node := FilePathToNode(path);
      if node.None? || node.value.Dir? {
        return false;
      }
      if p == [] {
        return false;
      }
      ok := ReplaceFile(p, node.value.name, source, size);
    }

    /** writeFile on a file that is there: it is deleted and created again under its name. */
    method ReplaceFile(p: Key, name: string, source: InStream, size: nat) returns (ok: bool)
      requires Valid() && p != [] && NameAt(root, p) == Some(name)
      requires Lookup(root, p).Some? && Lookup(root, p).value.File?
      modifies this, source
      ensures Valid()
      ensures ok ==> Items() == old(Items())[p := Content(Taken(old(source.unread), size))]
      ensures !ok ==> Items() == old(Items()) || Items() == Without(old(Items()), p)
      ensures reliable ==> ok
      ensures NamesKept(old(root), root)
    {
      hide Put, Map, Without, Lookup, Good, NamesKept, NamesAdded, Taken, Flatten, Upper;
      ghost var before := root;
      FileNode(before, p);
      var deleted := DeleteMe(p);
      if deleted {
        DeletedLookup(before, p);
        ghost var without := root;
        ghost var blocks;
        ok, blocks := CreateNewFileWithStream(Parent(p), name, source, size);
        if ok {
          Recreated(before, without, p, name, blocks);
          NamesBack(before, without, root, p, name);
        }
      } else {
        ok := false;
      }
    }

    /** createFileWithStream; an empty name or one with a separator is accepted and makes the node unreachable by paths. */
    method CreateFileWithStream(baseDirectory: FsPath, filename: string, source: InStream, size: nat) returns (ok: bool)
      requires Valid()
      modifies this, source
      ensures ValidName(filename) ==> Valid()
      ensures ok ==>
                Items() == old(Items())[Keys(baseDirectory) + [Upper(filename)] := Content(Taken(old(source.unread), size))]
      ensures !ok ==> root == old(root)
      ensures ok ==> NamesAdded(old(root), root, Keys(baseDirectory) + [Upper(filename)], filename)
      ensures ok ==> CanCreate(old(Items()), Keys(baseDirectory), Upper(filename))
      ensures reliable && CanCreate(old(Items()), Keys(baseDirectory), Upper(filename)) ==> ok
    {
      var p := Keys(baseDirectory);
      var node := FilePathToNode(baseDirectory);
      if node.Some? {
        ChildLookup(root, p, Upper(filename));
      }
      if node.None? || !node.value.Dir? {
        return false;
      }
      ghost var blocks;
      ok, blocks := CreateNewFileWithStream(p, filename, source, size);
      if ok {
        AddedFile(old(root), p, filename, blocks);
        GraftIsUpdate(old(root), p + [Upper(filename)], Content(Flatten(blocks)));
      }
    }

    method CreateFolder(baseDirectory: FsPath, name: string) returns (ok: bool)
      requires Valid()
      modifies this
      ensures ValidName(name) ==> Valid()
      ensures ok ==> Items() == old(Items())[Keys(baseDirectory) + [Upper(name)] := Folder]
      ensures !ok ==> root == old(root)
      ensures ok ==> NamesAdded(old(root), root, Keys(baseDirectory) + [Upper(name)], name)
      ensures ok ==> CanCreate(old(Items()), Keys(baseDirectory), Upper(name))
      ensures reliable && CanCreate(old(Items()), Keys(baseDirectory), Upper(name)) ==> ok
    {
      var p := Keys(baseDirectory);
      var node := FilePathToNode(baseDirectory);
      if node.None? {
        return false;
      }
      ChildLookup(root, p, Upper(name));
      ok := CreateNewFolder(p, name);
      if ok {
        AddedFolder(old(root), p, name);
        GraftIsUpdate(old(root), p + [Upper(name)], Folder);
      }
    }

    method DeleteFileOrDirectory(path: FsPath, expectFile: bool) returns (ok: bool)
      requires Valid()
      modifies this
      ensures Valid()
      ensures ok ==> Items() == Without(old(Items()), Keys(path))
      ensures NamesKept(old(root), root)
      ensures !ok ==> root == old(root)
      ensures reliable ==> (ok <==> path != [] && Keys(path) in old(Items())
                                    && !(expectFile && old(Items())[Keys(path)] == Folder))
    {
      var node := FilePathToNode(path);
      if node.None? || (node.value.Dir? && expectFile) {
        return false;
      }
      if path == [] {
        return false;
      }
      ok := DeleteMe(Keys(path));
    }

    /** TestFsNode::rename. */
    method Rename(at: Key, newName: string)
      requires Valid() && Lookup(root, at).Some?
      modifies this
      ensures at == [] ==> root == Renamed(old(root), newName) && Items() == old(Items())
      ensures at != [] ==>
                var d := Lookup(old(root), Parent(at));
                && d.Some? && HasKid(d.value, Last(at))
                && root == Put(old(root), Parent(at), WithRenamedKid(d.value, Find(d.value.kids, Last(at)), newName))
                && (HasKid(d.value, Upper(newName)) ||
                    (Items() == Moved(old(Items()), at, Parent(at) + [Upper(newName)]) && (ValidName(newName) ==> Valid())
                     && NamesMoved(old(root), root, at, Parent(at) + [Upper(newName)], newName)))
    {
      hide NamesMoved, Moved, Map, Put, WithRenamedKid;
      if at == [] {
        root := Renamed(root, newName);
        RenamedMap(old(root), newName);
        return;
      }
      ParentDir(root, at);
      var d := Lookup(root, Parent(at)).value;
      var i := Find(d.kids, Last(at));
      root := Put(root, Parent(at), WithRenamedKid(d, i, newName));
      if !HasKid(d, Upper(newName)) {
        RenamedChild(old(root), at, newName);
        RenamedChildNames(old(root), at, newName);
      }
    }

    /** renameObject. */
    method RenameObject(objectPath: FsPath, newName: string) returns (ok: bool)
      requires Valid() && ValidPath(objectPath)
      modifies this
      ensures ok <==> Keys(objectPath) in old(Items()) && SiblingKeys(objectPath, newName) !in old(Items())
      ensures ok && objectPath != [] ==>
                Items() == Moved(old(Items()), Keys(objectPath), Parent(Keys(objectPath)) + [Upper(newName)])
      ensures ok && objectPath == [] ==> Items() == old(Items()) && root == old(root).(name := newName)
      ensures ok && objectPath != [] ==>
                NamesMoved(old(root), root, Keys(objectPath), Parent(Keys(objectPath)) + [Upper(newName)], newName)
      ensures objectPath != [] && ValidName(newName) ==>
                Valid() && SiblingKeys(objectPath, newName) == Parent(Keys(objectPath)) + [Upper(newName)]
      ensures !ok ==> root == old(root)
    {
      var p := Keys(objectPath);
      var node := FilePathToNode(objectPath);
      var left := GetLeftSubPath(objectPath, |objectPath| - 2);
      var printed := GetFullPath(left);
      var newPath := Parse(printed + "\\" + newName);
      SiblingParses(objectPath, newName);
      var mustBeNull := FilePathToNode(newPath);
      if node.None? || mustBeNull.Some? {
        return false;
      }
      if p != [] {
        ParentDir(root, p);
        SiblingIsFree(root, objectPath, newName);
      }
      Rename(p, newName);
      return true;
    }
  }

  /** The keys of the path renameObject looks up before it renames: the new name is parsed, the object's name dropped. */
  function SiblingKeys(objectPath: FsPath, newName: string): Key {
    Keys(LeftSubPath(objectPath, |objectPath| - 2)) + Keys(Split(newName))
  }

  lemma SiblingParses(objectPath: FsPath, newName: string)
    requires ValidPath(objectPath)
    ensures Keys(Split(Join(LeftSubPath(objectPath, |objectPath| - 2)) + "\\" + newName)) == SiblingKeys(objectPath, newName)
    ensures objectPath != [] && ValidName(newName) ==>
              SiblingKeys(objectPath, newName) == Parent(Keys(objectPath)) + [Upper(newName)]
  {
    var left := LeftSubPath(objectPath, |objectPath| - 2);
    ParsePrinted(left);
    SplitAtSeparator(Join(left), '\\', newName);
    hide Split, Join;
    assert Keys(left + Split(newName)) == Keys(left) + Keys(Split(newName));
    if objectPath != [] && ValidName(newName) {
      SiblingOf(objectPath, newName);
    }
  }

  lemma SiblingOf(objectPath: FsPath, newName: string)
    requires objectPath != [] && ValidName(newName)
    ensures SiblingKeys(objectPath, newName) == Parent(Keys(objectPath)) + [Upper(newName)]
  {
    SplitWord(newName);
    hide Split;
    assert Keys(LeftSubPath(objectPath, |objectPath| - 2)) == Parent(Keys(objectPath));
    assert Keys([newName]) == [Upper(newName)];
  }

  lemma UpperKeepsValid(s: string, t: string)
    requires Upper(s) == Upper(t) && ValidName(s)
    ensures ValidName(t)
  {
    assert |s| == |Upper(s)| == |t|;
    forall i | 0 <= i < |t| ensures !IsSeparator(t[i]) {
      assert Upper(s)[i] == Upper(t)[i];
      assert !IsSeparator(s[i]);
    }
  }

  /** When the path to the new name is free, no sibling has the new name, however the name is spelled. */
  lemma SiblingIsFree(root: Node, objectPath: FsPath, newName: string)
    requires Good(root) && objectPath != [] && Lookup(root, Parent(Keys(objectPath))).Some? && ValidPath(objectPath)
    requires Lookup(root, SiblingKeys(objectPath, newName)).None?
    ensures !HasKid(Lookup(root, Parent(Keys(objectPath))).value, Upper(newName))
  {
    var d := Lookup(root, Parent(Keys(objectPath))).value;
    GoodLookup(root, Parent(Keys(objectPath)));
    if HasKid(d, Upper(newName)) {
      UpperKeepsValid(Kid(d, Upper(newName)).name, newName);
      SiblingParses(objectPath, newName);
      ChildLookup(root, Parent(Keys(objectPath)), Upper(newName));
    }
  }

  /** A non-root file: its parent directory, and its own name, which is valid and has the last key. */
  lemma FileNode(root: Node, p: Key)
    requires Good(root) && p != [] && Lookup(root, p).Some? && Lookup(root, p).value.File?
    ensures Lookup(root, Parent(p)).Some? && HasKid(Lookup(root, Parent(p)).value, Last(p))
    ensures ValidName(Lookup(root, p).value.name) && Upper(Lookup(root, p).value.name) == Last(p)
    ensures p in Map(root) && Map(root)[p].Content?
  {
    ParentDir(root, p);
    GoodLookup(root, p);
  }

  /** The tree after the directory has deleted its child of this node's name. */
  lemma DeletedChild(before: Node, at: Key, i: nat)
    requires Good(before) && before.Dir? && before.name == "" && at != [] && Lookup(before, at).Some?
    requires Lookup(before, Parent(at)).Some? && Lookup(before, Parent(at)).value.Dir?
    requires i < |Lookup(before, Parent(at)).value.kids|
    requires Lookup(before, Parent(at)).value.kids[i].name == Lookup(before, at).value.name
    ensures var d := Lookup(before, Parent(at)).value;
            var after := Put(before, Parent(at), WithoutKid(d, i));
            && i == Find(d.kids, Last(at)) && HasKid(d, Last(at))
            && Good(after) && after.Dir? && after.name == ""
            && Map(after) == Without(Map(before), at) && NamesKept(before, after)
  {
    var d := Lookup(before, Parent(at)).value;
    ParentDir(before, at);
    GoodLookup(before, Parent(at));
    FindIs(d.kids, i);
    assert at == Parent(at) + [Last(at)];
    hide Put, Map, WithoutKid, Without, NamesKept;
    RemoveAt(before, Parent(at), i);
    RemovedNames(before, Parent(at), i);
    RemovedKidGood(d, i);
    if Parent(at) != [] {
      PutName(before, Parent(at), WithoutKid(d, i));
    }
    PutGood(before, Parent(at), WithoutKid(d, i));
    RemovedRoot(before, Parent(at), i);
  }

  lemma RemovedRoot(before: Node, p: Key, i: nat)
    requires Lookup(before, p).Some? && Lookup(before, p).value.Dir? && i < |Lookup(before, p).value.kids|
    requires Fits(before, p, WithoutKid(Lookup(before, p).value, i)) && before.Dir?
    ensures Put(before, p, WithoutKid(Lookup(before, p).value, i)).Dir?
    ensures p == [] ==> Put(before, p, WithoutKid(Lookup(before, p).value, i)).name == before.name
  {
  }

  /** The tree after a deletion: the directory is there, without the child. */
  lemma DeletedLookup(before: Node, p: Key)
    requires Good(before) && p != [] && Lookup(before, Parent(p)).Some? && HasKid(Lookup(before, Parent(p)).value, Last(p))
    ensures var d := Lookup(before, Parent(p)).value;
            var without := Put(before, Parent(p), WithoutKid(d, Find(d.kids, Last(p))));
            && Lookup(without, Parent(p)).Some? && Lookup(without, Parent(p)).value.Dir?
            && !HasKid(Lookup(without, Parent(p)).value, Last(p))
  {
    var d := Lookup(before, Parent(p)).value;
    var f := Find(d.kids, Last(p));
    GoodLookup(before, Parent(p));
    assert Fits(before, Parent(p), WithoutKid(d, f));
    PutLookup(before, Parent(p), WithoutKid(d, f), Parent(p));
    assert Parent(p)[|Parent(p)|..] == [];
    RemovedKid(d, f, Last(p));
  }

  lemma NodeThere(before: Node, at: Key, m: Node)
    requires Fits(before, at, m)
    ensures Lookup(Put(before, at, m), at) == Some(m)
  {
    PutLookup(before, at, m, at);
    assert at[|at|..] == [];
  }

  lemma NamesBack(before: Node, without: Node, after: Node, p: Key, name: string)
    requires NamesKept(before, without) && NamesAdded(without, after, p, name) && NameAt(before, p) == Some(name)
    ensures NamesKept(before, after)
  {
    forall q | Lookup(after, q).Some? ensures NameAt(after, q) == NameAt(before, q) {
      assert NameAt(after, q).Some?;
      assert q != p ==> Lookup(without, q).Some?;
    }
  }

  /** Deleting a file and creating it again under its name replaces its bytes. */
  lemma Recreated(before: Node, without: Node, p: Key, name: string, blocks: seq<Block>)
    requires p != [] && Upper(name) == Last(p) && ValidName(name)
    requires Lookup(before, p).Some? && Lookup(before, p).value.File?
    requires Good(without) && without.Dir? && without.name == "" && Map(without) == Without(Map(before), p)
    requires Lookup(without, Parent(p)).Some? && Lookup(without, Parent(p)).value.Dir?
    requires !HasKid(Lookup(without, Parent(p)).value, Last(p))
    ensures var root := Put(without, Parent(p), WithKid(Lookup(without, Parent(p)).value, File(name, blocks)));
            Good(root) && root.Dir? && root.name == "" && Map(root) == Map(before)[p := Content(Flatten(blocks))]
  {
    hide Put, Map, Lookup, Good, Flatten;
    AddedFile(without, Parent(p), name, blocks);
    assert p == Parent(p) + [Last(p)];
    GraftIsUpdate(before, p, Content(Flatten(blocks)));
  }

  /** The tree after renaming a non-root node to a name no sibling has. */
  lemma RenamedChild(before: Node, at: Key, newName: string)
    requires Good(before) && before.Dir? && before.name == "" && at != [] && Lookup(before, at).Some?
    requires Lookup(before, Parent(at)).Some? && HasKid(Lookup(before, Parent(at)).value, Last(at))
    requires !HasKid(Lookup(before, Parent(at)).value, Upper(newName))
    ensures var d := Lookup(before, Parent(at)).value;
            var root := Put(before, Parent(at), WithRenamedKid(d, Find(d.kids, Last(at)), newName));
            && Map(root) == Moved(Map(before), at, Parent(at) + [Upper(newName)])
            && (ValidName(newName) ==> Good(root) && root.Dir? && root.name == "")
  {
    var d := Lookup(before, Parent(at)).value;
    var i := Find(d.kids, Last(at));
    GoodLookup(before, Parent(at));
    RenameAt(before, Parent(at), i, newName);
    assert at == Parent(at) + [Last(at)];
    if ValidName(newName) {
      RenamedKidGood(d, i, newName);
      if Parent(at) != [] {
        PutName(before, Parent(at), WithRenamedKid(d, i, newName));
      }
      PutGood(before, Parent(at), WithRenamedKid(d, i, newName));
    }
  }

  lemma RenamedChildNames(before: Node, at: Key, newName: string)
    requires Good(before) && at != [] && Lookup(before, Parent(at)).Some?
    requires HasKid(Lookup(before, Parent(at)).value, Last(at)) && !HasKid(Lookup(before, Parent(at)).value, Upper(newName))
    ensures var d := Lookup(before, Parent(at)).value;
            var root := Put(before, Parent(at), WithRenamedKid(d, Find(d.kids, Last(at)), newName));
            NamesMoved(before, root, at, Parent(at) + [Upper(newName)], newName)
  {
    var d := Lookup(before, Parent(at)).value;
    GoodLookup(before, Parent(at));
    assert at == Parent(at) + [Last(at)];
    hide NamesMoved, Put, WithRenamedKid;
    RenamedNames(before, Parent(at), Find(d.kids, Last(at)), newName);
  }

  /** The directory exists and the name is free in it. */
  ghost predicate CanCreate(m: PathMap, base: Key, k: string) {
    base in m && m[base] == Folder && base + [k] !in m
  }

  lemma AddedNode(n: Node, p: Key, x: Node)
    requires Lookup(n, p).Some? && Lookup(n, p).value.Dir? && !HasKid(Lookup(n, p).value, KeyOf(x))
    ensures Fits(n, p, WithKid(Lookup(n, p).value, x))
    ensures var n' := Put(n, p, WithKid(Lookup(n, p).value, x));
            && Map(n') == Graft(Map(n), p + [KeyOf(x)], Map(x))
            && (Good(n) && n.Dir? && n.name == "" && Good(x) && ValidName(x.name) ==> Good(n') && n'.Dir? && n'.name == "")
  {
    AddAt(n, p, x);
    if Good(n) && n.Dir? && n.name == "" && Good(x) && ValidName(x.name) {
      AddedNodeGood(n, p, x);
    }
  }

  lemma AddedNodeGood(n: Node, p: Key, x: Node)
    requires Lookup(n, p).Some? && Lookup(n, p).value.Dir? && !HasKid(Lookup(n, p).value, KeyOf(x))
    requires Good(n) && n.Dir? && n.name == "" && Good(x) && ValidName(x.name)
    ensures var n' := Put(n, p, WithKid(Lookup(n, p).value, x)); Good(n') && n'.Dir? && n'.name == ""
  {
    var d := Lookup(n, p).value;
    GoodLookup(n, p);
    AddedKidGood(d, x);
    PutGood(n, p, WithKid(d, x));
    if p != [] {
      PutName(n, p, WithKid(d, x));
    }
  }

  lemma AddedFile(n: Node, p: Key, name: string, blocks: seq<Block>)
    requires Lookup(n, p).Some? && Lookup(n, p).value.Dir? && !HasKid(Lookup(n, p).value, Upper(name))
    ensures Fits(n, p, WithKid(Lookup(n, p).value, File(name, blocks)))
    ensures var n' := Put(n, p, WithKid(Lookup(n, p).value, File(name, blocks)));
            && Map(n') == Graft(Map(n), p + [Upper(name)], Single(Content(Flatten(blocks))))
            && (Good(n) && n.Dir? && n.name == "" && ValidName(name) ==> Good(n') && n'.Dir? && n'.name == "")
  {
    LeafMaps(name, blocks);
    AddedNode(n, p, File(name, blocks));
  }

  lemma AddedFolder(n: Node, p: Key, name: string)
    requires Lookup(n, p).Some? && Lookup(n, p).value.Dir? && !HasKid(Lookup(n, p).value, Upper(name))
    ensures Fits(n, p, WithKid(Lookup(n, p).value, Dir(name, [])))
    ensures var n' := Put(n, p, WithKid(Lookup(n, p).value, Dir(name, [])));
            && Map(n') == Graft(Map(n), p + [Upper(name)], Single(Folder))
            && (Good(n) && n.Dir? && n.name == "" && ValidName(name) ==> Good(n') && n'.Dir? && n'.name == "")
  {
    LeafMaps(name, []);
    AddedNode(n, p, Dir(name, []));
  }
}
