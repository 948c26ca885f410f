/**
 The worker's handlers for pulls and pushes (ConnectionSync::_threadHandleFilePullReq and _threadHandleFilePushReq): the
 bytes they carry between the device and the backing files, and the calls they make to the request's callback.
 */
module FileRequests {
  import opened Paths
  import opened Blocks
  import opened Nodes
  import opened Drives
  import opened CacheSpec
  import opened Requests
  import opened Names

  /** The directory of the backing files. */
  class CacheFolder {
    var files: map<FileName, seq<byte>>

    constructor (files: map<FileName, seq<byte>>)
      ensures this.files == files
    {
      this.files := files;
    }
  }

  /** The existence test and readFile; a read that fails may have delivered anything. */
  method ReadCopy(drive: Drive, path: FsPath) returns (found: bool, ok: bool, data: seq<byte>)
    ensures found <==> HasFile(drive.Items(), Keys(path))
    ensures found && ok ==> data == drive.Items()[Keys(path)].bytes
    ensures !found || drive.reliable ==> ok
  {
    hide Map;
    var existence := drive.CheckIfExists(path);
    if existence != IsFile {
      return false, true, [];
    }
    found := true;
    ok, data := drive.ReadFile(path);
  }

  /** writeFile with a whole backing file. */
  method WriteCopy(drive: Drive, path: FsPath, bytes: seq<byte>) returns (ok: bool, ghost outcome: Outcome)
    requires drive.Valid()
    modifies drive
    ensures drive.Valid()
    ensures var m, k := old(drive.Items()), Keys(path);
            && drive.Items() == (if !HasFile(m, k) || outcome == Refused then m
                                 else if outcome == Lost then Lacking(m, k)
                                 else m[k := Content(bytes)])
            && (ok <==> outcome == Done && HasFile(m, k))
    ensures drive.reliable ==> outcome == Done
    ensures NamesKept(old(drive.root), drive.root)
  {
    hide Drive.Valid, NamesKept;
    var cachefile := new InStream(bytes);
    ghost var root := drive.root;
    ok := drive.WriteFile(path, cachefile, |bytes|);
    assert Taken(bytes, |bytes|) == bytes;
    LackingIsWithout(root, Keys(path));
    outcome := if ok || drive.reliable then Done else if drive.Items() == Map(root) then Refused else Lost;
  }

  /** Nothing lies below a file. */
  lemma LackingIsWithout(root: Node, p: Key)
    ensures Lookup(root, p).Some? && Lookup(root, p).value.File? ==> Without(Map(root), p) == Lacking(Map(root), p)
  {
    if Lookup(root, p).Some? && Lookup(root, p).value.File? {
      forall q: Key | Prefix(p, q) && p != q ensures q !in Map(root) {
        NothingBelow(root, p, q);
      }
    }
  }

  /**
   _threadHandleFilePullReq on the request it popped: exactly one call to a callback, true exactly when the backing file
   now has the device file's bytes.
   */
  method HandleFilePullReq(drives: map<int, Drive>, drv: int, dFile: FsPath, pFile: FileName, folder: CacheFolder,
                           callback: RequestCallback?)
    returns (ghost ok: bool, ghost partialData: seq<byte>)
    modifies folder, if callback == null then {} else {callback}
    ensures var k := Keys(dFile);
            var possible := drv in drives && HasFile(drives[drv].Items(), k);
            && folder.files == (if possible
                                then old(folder.files)[pFile := if ok then drives[drv].Items()[k].bytes else partialData]
                                else old(folder.files))
            && (callback != null ==> callback.values == old(callback.values) + [possible && ok])
    ensures drv in drives && drives[drv].reliable ==> ok
  {
    hide Map;
    ok, partialData := true, [];
    if drv !in drives {
      Report(callback, false);
      return;
    }
    var found, readOk, data := ReadCopy(drives[drv], dFile);
    ok, partialData := readOk, data;
    if !found {
      Report(callback, false);
      return;
    }
    folder.files := folder.files[pFile := data];
    Report(callback, readOk);
  }

  /**
   _threadHandleFilePushReq on the request it popped: exactly one call to a callback, true exactly when the device file
   now has the backing file's bytes, which must not be empty.
   */
  method HandleFilePushReq(drives: map<int, Drive>, drv: int, dFile: FsPath, pFile: FileName, folder: CacheFolder,
                           callback: RequestCallback?)
    returns (ghost outcome: Outcome)
    requires drv in drives ==> drives[drv].Valid()
    modifies if drv in drives then {drives[drv]} else {}, if callback == null then {} else {callback}
    ensures drv in drives ==>
              var k, m := Keys(dFile), old(drives[drv].Items());
              var possible := pFile in folder.files && folder.files[pFile] != [] && HasFile(m, k);
              && drives[drv].Valid()
              && drives[drv].Items() == (if !possible || outcome == Refused then m
                                         else if outcome == Lost then Lacking(m, k)
                                         else m[k := Content(folder.files[pFile])])
              && (callback != null ==> callback.values == old(callback.values) + [possible && outcome == Done])
              && (drives[drv].reliable ==> outcome == Done)
              && NamesKept(old(drives[drv].root), drives[drv].root)
    ensures drv !in drives && callback != null ==> callback.values == old(callback.values) + [false]
  {
    hide Map, Drive.Valid, Lacking;
    outcome := Done;
    if drv !in drives {
      Report(callback, false);
      return;
    }
    AllNamesKept(drives[drv].root);
    hide NamesKept;
    if pFile !in folder.files || |folder.files[pFile]| == 0 {
      Report(callback, false);
    } else {
      var ok;
      ok, outcome := WriteCopy(drives[drv], dFile, folder.files[pFile]);
      Report(callback, ok);
    }
  }
}
