/**
 The worker's handler for tree requests (ConnectionSync::_threadHandleTreeAccessReq): its effect on the device, and the
 calls it makes to the request's callback, which may be missing.
 */
module Requests {
  import opened Paths
  import opened Blocks
  import opened Nodes
  import opened Drives
  import opened Names
  import opened Moving

  datatype Command = CreateAsFile | CreateAsDirectory | DeleteDirOrFile | CheckDirExistence | CheckFileExistence

  // ---------- What a request means on path maps ----------

  ghost predicate CanCreateAt(m: PathMap, p: Key) {
    p != [] && CanCreate(m, Parent(p), Last(p))
  }

  ghost predicate IsFileIn(m: PathMap, p: Key) {
    p in m && m[p].Content?
  }

  ghost predicate IsDirectoryIn(m: PathMap, p: Key) {
    p in m && m[p] == Folder
  }

  ghost function Effect(command: Command, m: PathMap, p: Key): PathMap {
    match command
    case CreateAsFile => if CanCreateAt(m, p) then m[p := Content([])] else m
    case CreateAsDirectory => if CanCreateAt(m, p) then m[p := Folder] else m
    case DeleteDirOrFile => if p in m && p != [] then Without(m, p) else m
    case _ => m
  }

  ghost predicate Answer(command: Command, m: PathMap, p: Key) {
    match command
    case CreateAsFile => p != [] && (IsFileIn(m, p) || CanCreateAt(m, p))
    case CreateAsDirectory => p != [] && (IsDirectoryIn(m, p) || CanCreateAt(m, p))
    case DeleteDirOrFile => p !in m || p != []
    case CheckDirExistence => IsDirectoryIn(m, p)
    case CheckFileExistence => IsFileIn(m, p)
  }

  /** What the requester wanted to be the case. */
  ghost predicate Goal(command: Command, m: PathMap, p: Key) {
    match command
    case CreateAsFile => IsFileIn(m, p)
    case CreateAsDirectory => IsDirectoryIn(m, p)
    case DeleteDirOrFile => p !in m
    case CheckDirExistence => IsDirectoryIn(m, p)
    case CheckFileExistence => IsFileIn(m, p)
  }

  /**
   The answer tells whether the goal holds in the state the request leaves, for every tree, request and path, with one
   exception: asked to create the root as a directory the handler answers false, although the root is one.
   */
  lemma AnswerDescribesState(command: Command, n: Node, p: Key)
    requires n.Dir?
    ensures (Answer(command, Map(n), p) <==> Goal(command, Effect(command, Map(n), p), p))
            <==> !(command == CreateAsDirectory && p == [])
  {
    var m := Map(n);
    assert [] in m && m[[]] == Folder;
    assert Prefix(p, p);
  }

  /** Repeating a request changes nothing and gets the same answer. */
  lemma RepeatingChangesNothing(command: Command, m: PathMap, p: Key)
    ensures var m' := Effect(command, m, p);
            Effect(command, m', p) == m' && (Answer(command, m', p) <==> Answer(command, m, p))
  {
    assert Prefix(p, p);
  }

  /**
   What can be done is done, and nothing else: a file or folder is created where its directory exists and nothing is there
   yet, everything but the root is deleted, and no path beside the requested one changes.
   */
  lemma RequestDoesItsWork(command: Command, n: Node, p: Key, q: Key)
    requires n.Dir?
    ensures var m, m' := Map(n), Effect(command, Map(n), p);
            && (p != [] && p !in m && Parent(p) in m && m[Parent(p)] == Folder ==>
                  && (command == CreateAsFile ==> p in m' && m'[p] == Content([]))
                  && (command == CreateAsDirectory ==> p in m' && m'[p] == Folder))
            && (command == DeleteDirOrFile && p != [] && Prefix(p, q) ==> q !in m')
            && (!Prefix(p, q) || (command == CheckDirExistence || command == CheckFileExistence || p == []) ==>
                  (q in m' <==> q in m) && (q in m ==> m'[q] == m[q]))
            && (p in m && command != DeleteDirOrFile ==> m' == m)
  {
    if p != [] {
      PathIsParentAndLast(p);
    }
    assert Prefix(p, p);
    if command == DeleteDirOrFile && p !in Map(n) && Prefix(p, q) {
      assert Lookup(n, p).None?;
      NothingBelow(n, p, q);
    }
  }

  // ---------- All tree requests ----------

  datatype Kind =
    | User(command: Command)
    | DiscoverDirectory
    | DiscoverInode
    | RenameInode
    | MoveInode

  /** `dir2` is the new name of a rename and the printed new path of a move. */
  datatype TreeAccessRequest = TreeAccessRequest(drv: int, kind: Kind, dir: FsPath, dir2: string)

  ghost predicate CanRename(m: PathMap, dir: FsPath, name: string) {
    Keys(dir) in m && SiblingKeys(dir, name) !in m
  }

  /** The path map after a request; whether it has a callback makes no difference. */
  ghost function TreeEffect(r: TreeAccessRequest, m: PathMap): PathMap {
    var p := Keys(r.dir);
    match r.kind
    case User(command) => Effect(command, m, p)
    case RenameInode => if p != [] && CanRename(m, r.dir, r.dir2) then Moved(m, p, Parent(p) + [Upper(r.dir2)]) else m
    case MoveInode => if CanMove(m, p, Keys(Split(r.dir2))) then Moved(m, p, Keys(Split(r.dir2))) else m
    case _ => m
  }

  ghost predicate TreeAnswer(r: TreeAccessRequest, m: PathMap, hasFunction: bool) {
    var p := Keys(r.dir);
    match r.kind
    case User(command) => Answer(command, m, p)
    case DiscoverDirectory => hasFunction && IsDirectoryIn(m, p)
    case DiscoverInode => hasFunction && p in m
    case RenameInode => CanRename(m, r.dir, r.dir2)
    case MoveInode => CanMove(m, p, Keys(Split(r.dir2)))
  }

  /** The request does not copy a directory into itself. */
  ghost predicate NotIntoItself(r: TreeAccessRequest, m: PathMap) {
    var p, q := Keys(r.dir), Keys(Split(r.dir2));
    r.kind == MoveInode && Prefix(p, q) ==> !CanMove(m, p, q)
  }

  // ---------- The objects of a request ----------

  /** A callback object that remembers the values it was called with. */
  class RequestCallback {
    var values: seq<bool>

    constructor ()
      ensures values == []
    {
      values := [];
    }

    method Callback(successful: bool)
      modifies this
      ensures values == old(values) + [successful]
    {
      values := values + [successful];
    }
  }

  /** A function object for directory contents; it remembers the nodes it was given and its answers. */
  class FunctionObject {
    var seen: seq<(Node, bool)>

    constructor ()
      ensures seen == []
    {
      seen := [];
    }

    method DoForAllDirContentMethod(currentNode: Node) returns (goOn: bool)
      modifies this
      ensures seen == old(seen) + [(currentNode, goOn)]
    {
      goOn := *;
      seen := seen + [(currentNode, goOn)];
    }
  }

  /** `if (callback != NULL) { callback->callback(...); }` */
  method Report(callback: RequestCallback?, successful: bool)
    modifies if callback == null then {} else {callback}
    ensures callback != null ==> callback.values == old(callback.values) + [successful]
  {
    if callback != null {
      callback.Callback(successful);
    }
  }

  // ---------- The handler ----------

  method HandleDelete(drive: Drive, dir: FsPath, callback: RequestCallback?)
    requires drive.Valid() && drive.reliable
    modifies drive, if callback == null then {} else {callback}
    ensures drive.Valid() && drive.Items() == Effect(DeleteDirOrFile, old(drive.Items()), Keys(dir))
    ensures NamesKept(old(drive.root), drive.root)
    ensures callback != null ==>
              callback.values == old(callback.values) + [Answer(DeleteDirOrFile, old(drive.Items()), Keys(dir))]
  {
    hide Map;
    AllNamesKept(drive.root);
    var r := drive.CheckIfExists(dir);
    if r == DoesNotExist {
      Report(callback, true);
      return;
    }
    var ok := drive.DeleteFileOrDirectory(dir, false);
    Report(callback, ok);
  }

  lemma BasePath(dir: FsPath)
    requires dir != []
    ensures Keys(dir[..|dir| - 1]) == Parent(Keys(dir)) && Keys(dir) == Parent(Keys(dir)) + [Last(Keys(dir))]
    ensures Last(Keys(dir)) == Upper(dir[|dir| - 1])
  {
  }

  lemma CreateMeans(m: PathMap, p: Key)
    requires p != []
    ensures var can := CanCreate(m, Parent(p), Last(p));
            && Effect(CreateAsFile, m, p) == (if can then m[p := Content([])] else m)
            && Effect(CreateAsDirectory, m, p) == (if can then m[p := Folder] else m)
            && (Answer(CreateAsFile, m, p) <==> can || (p in m && m[p].Content?))
            && (Answer(CreateAsDirectory, m, p) <==> can || (p in m && m[p] == Folder))
            && (can ==> p !in m)
  {
    if p in m {
      assert p == Parent(p) + [Last(p)];
    }
  }

  /** The creation itself: the last component in the directory the others lead to. */
  method CreateEmptyFile(drive: Drive, dir: FsPath) returns (ok: bool)
    requires drive.Valid() && drive.reliable && ValidPath(dir) && dir != []
    modifies drive
    ensures drive.Valid() && (ok <==> CanCreate(old(drive.Items()), Parent(Keys(dir)), Last(Keys(dir))))
    ensures drive.Items() == if ok then old(drive.Items())[Keys(dir) := Content([])] else old(drive.Items())
    ensures if ok then NamesAdded(old(drive.root), drive.root, Keys(dir), dir[|dir| - 1]) else drive.root == old(drive.root)
  {
    BasePath(dir);
    hide Map, NamesAdded, Drive.Valid, CanCreate, Keys, Parent, Last;
    var baseDir := GetLeftSubPath(dir, |dir| - 2);
    var pseudoFile := new InStream([]);
    ok := drive.CreateFileWithStream(baseDir, dir[|dir| - 1], pseudoFile, 0);
    assert Taken([], 0) == [];
  }

  method CreateEmptyFolder(drive: Drive, dir: FsPath) returns (ok: bool)
    requires drive.Valid() && drive.reliable && ValidPath(dir) && dir != []
    modifies drive
    ensures drive.Valid() && (ok <==> CanCreate(old(drive.Items()), Parent(Keys(dir)), Last(Keys(dir))))
    ensures drive.Items() == if ok then old(drive.Items())[Keys(dir) := Folder] else old(drive.Items())
    ensures if ok then NamesAdded(old(drive.root), drive.root, Keys(dir), dir[|dir| - 1]) else drive.root == old(drive.root)
  {
    BasePath(dir);
    hide Map, NamesAdded, Drive.Valid, CanCreate, Keys, Parent, Last;
    var baseDir := GetLeftSubPath(dir, |dir| - 2);
    ok := drive.CreateFolder(baseDir, dir[|dir| - 1]);
  }

  /** Without a callback the handler does not stop at an existing node, but the creation then fails. */
  method HandleCreateAsFile(drive: Drive, dir: FsPath, callback: RequestCallback?)
    requires drive.Valid() && drive.reliable && ValidPath(dir)
    modifies drive, if callback == null then {} else {callback}
    ensures drive.Valid() && drive.Items() == Effect(CreateAsFile, old(drive.Items()), Keys(dir))
    ensures drive.root == old(drive.root) ||
            (dir != [] && NamesAdded(old(drive.root), drive.root, Keys(dir), dir[|dir| - 1]))
    ensures callback != null ==>
              callback.values == old(callback.values) + [Answer(CreateAsFile, old(drive.Items()), Keys(dir))]
  {
    hide Map, NamesAdded, Drive.Valid, CanCreate;
    if |dir| < 1 {
      Report(callback, false);
      return;
    }
    BasePath(dir);
    CreateMeans(drive.Items(), Keys(dir));
    var r := drive.CheckIfExists(dir);
    if r == IsFile {
      if callback != null {
        callback.Callback(true);
        return;
      }
    }
    if r == IsDirectory {
      if callback != null {
        callback.Callback(false);
        return;
      }
    }
    var ok := CreateEmptyFile(drive, dir);
    Report(callback, ok);
  }

  method HandleCreateAsDirectory(drive: Drive, dir: FsPath, callback: RequestCallback?)
    requires drive.Valid() && drive.reliable && ValidPath(dir)
    modifies drive, if callback == null then {} else {callback}
    ensures drive.Valid() && drive.Items() == Effect(CreateAsDirectory, old(drive.Items()), Keys(dir))
    ensures drive.root == old(drive.root) ||
            (dir != [] && NamesAdded(old(drive.root), drive.root, Keys(dir), dir[|dir| - 1]))
    ensures callback != null ==>
              callback.values == old(callback.values) + [Answer(CreateAsDirectory, old(drive.Items()), Keys(dir))]
  {
    hide Map, NamesAdded, Drive.Valid, CanCreate;
    if |dir| < 1 {
      Report(callback, false);
      return;
    }
    BasePath(dir);
    CreateMeans(drive.Items(), Keys(dir));
    var r := drive.CheckIfExists(dir);
    if r == IsFile {
      if callback != null {
        callback.Callback(false);
        return;
      }
    }
    if r == IsDirectory {
      if callback != null {
        callback.Callback(true);
        return;
      }
    }
    var ok := CreateEmptyFolder(drive, dir);
    Report(callback, ok);
  }

  lemma PathIsParentAndLast(p: Key)
    ensures p != [] ==> p == Parent(p) + [Last(p)]
  {
  }

  /** The children were given one after the other: all of them, or up to the first for which the answer was false. */
  ghost predicate WentThrough(kids: seq<Node>, shown: seq<(Node, bool)>) {
    && |shown| <= |kids|
    && (forall i :: 0 <= i < |shown| ==> shown[i].0 == kids[i])
    && (forall i :: 0 <= i < |shown| - 1 ==> shown[i].1)
    && (|shown| < |kids| ==> shown != [] && !shown[|shown| - 1].1)
  }

  /** doForAllContent of a directory. */
  method DoForAllContent(dir: Node, doWhat: FunctionObject) returns (ok: bool)
    requires dir.Dir?
    modifies doWhat
    ensures ok
    ensures old(doWhat.seen) <= doWhat.seen && WentThrough(dir.kids, doWhat.seen[|old(doWhat.seen)|..])
  {
    ghost var n := |doWhat.seen|;
    for i := 0 to |dir.kids|
      invariant old(doWhat.seen) <= doWhat.seen && |doWhat.seen| == n + i
      invariant forall j :: 0 <= j < i ==> doWhat.seen[n + j] == (dir.kids[j], true)
    {
      var goOn := doWhat.DoForAllDirContentMethod(dir.kids[i]);
      if !goOn {
        return true;
      }
    }
    return true;
  }

  /** What a request shows to its function object. */
  ghost predicate Shown(r: TreeAccessRequest, root: Node, shown: seq<(Node, bool)>) {
    var node := Lookup(root, Keys(r.dir));
    if r.kind == DiscoverInode && node.Some? then |shown| == 1 && shown[0].0 == node.value
    else if r.kind == DiscoverDirectory && node.Some? && node.value.Dir? then WentThrough(node.value.kids, shown)
    else shown == []
  }

  /** Between the two states of the function object the request was shown to it. */
  ghost predicate WasShown(r: TreeAccessRequest, root: Node, before: seq<(Node, bool)>, after: seq<(Node, bool)>) {
    before <= after && Shown(r, root, after[|before|..])
  }

  /** INTERNAL_DISCOVER_DIRECTORY and INTERNAL_DISCOVER_INODE. */
  method HandleDiscover(drive: Drive, req: TreeAccessRequest, dirfunc: FunctionObject?, callback: RequestCallback?)
    requires req.kind == DiscoverDirectory || req.kind == DiscoverInode
    modifies if callback == null then {} else {callback}, if dirfunc == null then {} else {dirfunc}
    ensures callback != null ==>
              callback.values == old(callback.values) + [TreeAnswer(req, drive.Items(), dirfunc != null)]
    ensures dirfunc != null ==> WasShown(req, drive.root, old(dirfunc.seen), dirfunc.seen)
  {
    if dirfunc == null {
      Report(callback, false);
      return;
    }
    var node := drive.FilePathToNode(req.dir);
    if req.kind == DiscoverDirectory {
      var existence := drive.CheckIfExists(req.dir);
      if existence != IsDirectory {
        Report(callback, false);
        return;
      }
      var ok := DoForAllContent(node.value, dirfunc);
      Report(callback, ok);
    } else {
      if node.None? {
        Report(callback, false);
        return;
      }
      var goOn := dirfunc.DoForAllDirContentMethod(node.value);
      Report(callback, true);
    }
  }

  /** INTERNAL_RENAME_INODE. */
  method HandleRename(drive: Drive, req: TreeAccessRequest, callback: RequestCallback?)
    requires drive.Valid() && ValidPath(req.dir) && req.kind == RenameInode
    modifies drive, if callback == null then {} else {callback}
    ensures ValidName(req.dir2) && req.dir != [] ==> drive.Valid()
    ensures drive.Items() == TreeEffect(req, old(drive.Items()))
    ensures callback != null ==> callback.values == old(callback.values) + [TreeAnswer(req, old(drive.Items()), false)]
    ensures drive.root == old(drive.root) || req.dir == [] ||
            NamesMoved(old(drive.root), drive.root, Keys(req.dir), Parent(Keys(req.dir)) + [Upper(req.dir2)], req.dir2)
    ensures var m, free := old(drive.Items()), SiblingKeys(req.dir, req.dir2) !in old(drive.Items());
            && drive.Items() == (if req.dir != [] && Keys(req.dir) in m && free
                                 then Moved(m, Keys(req.dir), Parent(Keys(req.dir)) + [Upper(req.dir2)]) else m)
            && (callback != null ==> callback.values == old(callback.values) + [Keys(req.dir) in m && free])
  {
    hide Map, Moved, NamesMoved;
    var ok := drive.RenameObject(req.dir, req.dir2);
    Report(callback, ok);
  }

  lemma MoveMeans(req: TreeAccessRequest, m: PathMap)
    requires req.kind == MoveInode
    ensures var p, q := Keys(req.dir), Keys(Split(req.dir2));
            && (TreeAnswer(req, m, false) <==> CanMove(m, p, q))
            && TreeEffect(req, m) == (if CanMove(m, p, q) then Moved(m, p, q) else m)
            && (NotIntoItself(req, m) ==> Prefix(p, q) ==> !CanMove(m, p, q))
  {
  }

  /** INTERNAL_MOVE_INODE. */
  method HandleMove(drive: Drive, req: TreeAccessRequest, callback: RequestCallback?)
    requires drive.Valid() && drive.reliable && ValidPath(req.dir) && req.kind == MoveInode
    requires NotIntoItself(req, drive.Items())
    modifies drive, if callback == null then {} else {callback}
    ensures drive.Valid() && drive.Items() == TreeEffect(req, old(drive.Items()))
    ensures callback != null ==> callback.values == old(callback.values) + [TreeAnswer(req, old(drive.Items()), false)]
    ensures var newPath := Split(req.dir2);
            drive.root == old(drive.root) || (newPath != [] &&
              NamesMoved(old(drive.root), drive.root, Keys(req.dir), Keys(newPath), newPath[|newPath| - 1]))
    ensures var m, from, to := old(drive.Items()), Keys(req.dir), Keys(Split(req.dir2));
            var can := from in m && to !in m && to != [] && Parent(to) in m && m[Parent(to)] == Folder;
            && drive.Items() == (if can then Moved(m, from, to) else m)
            && (callback != null ==> callback.values == old(callback.values) + [can])
  {
    MoveMeans(req, drive.Items());
    hide Map, Moved, NamesMoved, TreeEffect, TreeAnswer, NotIntoItself, Split, Drive.Valid;
    var newPath := Parse(req.dir2);
    var ok := MoveNode(drive, req.dir, newPath);
    Report(callback, ok);
  }

  /** The requests that create, delete or check one path. */
  method HandleCommand(drive: Drive, command: Command, dir: FsPath, callback: RequestCallback?)
    requires drive.Valid() && drive.reliable && ValidPath(dir)
    modifies drive, if callback == null then {} else {callback}
    ensures drive.Valid() && drive.Items() == Effect(command, old(drive.Items()), Keys(dir))
    ensures callback != null ==>
              && callback.values == old(callback.values) + [Answer(command, old(drive.Items()), Keys(dir))]
              && ((Answer(command, old(drive.Items()), Keys(dir)) <==> Goal(command, drive.Items(), Keys(dir)))
                  <==> !(command == CreateAsDirectory && dir == []))
    ensures callback != null ==>
              var m, p := drive.Items(), Keys(dir);
              callback.values == old(callback.values) + [
                match command
                case DeleteDirOrFile => p !in m
                case CreateAsFile => p in m && m[p] != Folder
                case CheckFileExistence => p in m && m[p] != Folder
                case CheckDirExistence => p in m && m[p] == Folder
                case CreateAsDirectory => p != [] && p in m && m[p] == Folder]
  {
    hide Map, Drive.Valid;
    assert drive.root.Dir? by { RootIsDirectory(drive); }
    AnswerDescribesState(command, drive.root, Keys(dir));
    match command
    case DeleteDirOrFile => HandleDelete(drive, dir, callback);
    case CreateAsFile => HandleCreateAsFile(drive, dir, callback);
    case CreateAsDirectory => HandleCreateAsDirectory(drive, dir, callback);
    case CheckDirExistence =>
      var r := drive.CheckIfExists(dir);
      Report(callback, r == IsDirectory);
    case CheckFileExistence =>
      var r := drive.CheckIfExists(dir);
      Report(callback, r == IsFile);
  }

  lemma RootIsDirectory(drive: Drive)
    requires drive.Valid()
    ensures drive.root.Dir?
  {
  }

  /**
   _threadHandleTreeAccessReq on the request it popped: whatever the branch, a callback is called exactly once, and the
   device ends up the same with and without one.
   */
  method HandleTreeAccessReq(drives: map<int, Drive>, req: TreeAccessRequest, dirfunc: FunctionObject?,
                             callback: RequestCallback?)
    requires ValidPath(req.dir)
    requires req.drv in drives ==>
               var drive := drives[req.drv]; drive.Valid() && drive.reliable && NotIntoItself(req, drive.Items())
    modifies if req.drv in drives then {drives[req.drv]} else {}
    modifies if callback == null then {} else {callback}, if dirfunc == null then {} else {dirfunc}
    ensures req.drv in drives ==> drives[req.drv].Items() == TreeEffect(req, old(drives[req.drv].Items()))
    ensures req.drv in drives && (req.kind == RenameInode ==> ValidName(req.dir2) && req.dir != []) ==>
              drives[req.drv].Valid()
    ensures dirfunc != null && req.drv in drives ==>
              WasShown(req, old(drives[req.drv].root), old(dirfunc.seen), dirfunc.seen)
    ensures dirfunc != null && req.drv !in drives ==> dirfunc.seen == old(dirfunc.seen)
    ensures callback != null ==>
              callback.values == old(callback.values) +
              [req.drv in drives && TreeAnswer(req, old(drives[req.drv].Items()), dirfunc != null)]
  {
    hide Map, Drive.Valid, Moved, CanMove;
    if req.drv !in drives {
      Report(callback, false);
      return;
    }
    var drive := drives[req.drv];
    match req.kind
    case User(command) => HandleCommand(drive, command, req.dir, callback);
    case DiscoverDirectory => HandleDiscover(drive, req, dirfunc, callback);
    case DiscoverInode => HandleDiscover(drive, req, dirfunc, callback);
    case RenameInode => HandleRename(drive, req, callback);
    case MoveInode => HandleMove(drive, req, callback);
  }
}
