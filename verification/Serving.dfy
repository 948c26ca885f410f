/**
 The worker serving a request: the handler runs with the request's callback, if it has one, and every call the handler
 makes is a call the scheduler sees.  So the one call per request that `Scheduler` has is what the handlers do.
 */
module Serving {
  import opened Paths
  import opened Nodes
  import opened Drives
  import opened CacheSpec
  import Requests
  import FileRequests
  import Scheduler
  import ConnectionSync

  /** The callback object of a request in service. */
  method CallbackOf(r: Scheduler.Request) returns (callback: Requests.RequestCallback?)
    ensures callback == null <==> r.callback == Scheduler.NoCallback
    ensures callback != null ==> fresh(callback) && callback.values == []
  {
    callback := null;
    if r.callback != Scheduler.NoCallback {
      callback := new Requests.RequestCallback();
    }
  }

  ghost predicate InService(conn: ConnectionSync.ConnectionSync, r: Scheduler.Request)
    reads conn, conn.waiters.Values
  {
    conn.Valid() && Scheduler.SchedInv(conn.State()) && conn.worker == Scheduler.Serving(r)
  }

  /** The calls recorded are passed on; the scheduler's step is the one with the value of the only call. */
  method PassOn(conn: ConnectionSync.ConnectionSync, r: Scheduler.Request, callback: Requests.RequestCallback?,
                ghost outcome: bool)
    requires InService(conn, r) && (callback == null <==> r.callback == Scheduler.NoCallback)
    requires callback != null ==> callback.values == [outcome]
    modifies conn, conn.waiters.Values
    ensures conn.Valid() && conn.State() == Scheduler.Work(old(conn.State()), outcome)
  {
    WaiterThere(conn, r);
    hide Scheduler.SchedInv;
    var value := callback != null && callback.values[0];
    conn.CallBack(r, value);
  }

  lemma WaiterThere(conn: ConnectionSync.ConnectionSync, r: Scheduler.Request)
    requires InService(conn, r)
    ensures r.callback == Scheduler.Sync ==> r.id in conn.waiters
  {
    ConnectionSync.WaiterExists(conn.State());
    hide Scheduler.SchedInv;
  }

  /** A tree request. */
  method ServeTree(conn: ConnectionSync.ConnectionSync, r: Scheduler.Request, drives: map<int, Drive>,
                   req: Requests.TreeAccessRequest, dirfunc: Requests.FunctionObject?)
    requires InService(conn, r) && ValidPath(req.dir)
    requires req.drv in drives ==>
               var drive := drives[req.drv];
               drive.Valid() && drive.reliable && Requests.NotIntoItself(req, drive.Items())
    modifies conn, conn.waiters.Values, if req.drv in drives then {drives[req.drv]} else {}
    modifies if dirfunc == null then {} else {dirfunc}
    ensures conn.Valid()
    ensures conn.State() == Scheduler.Work(old(conn.State()),
              req.drv in drives && Requests.TreeAnswer(req, old(drives[req.drv].Items()), dirfunc != null))
    ensures req.drv in drives ==> drives[req.drv].Items() == Requests.TreeEffect(req, old(drives[req.drv].Items()))
  {
    hide Scheduler.SchedInv, Requests.TreeAnswer, Requests.TreeEffect, Requests.NotIntoItself, Map, Drive.Valid;
    ghost var outcome :=
      req.drv in drives && Requests.TreeAnswer(req, drives[req.drv].Items(), dirfunc != null);
    var callback := CallbackOf(r);
    Requests.HandleTreeAccessReq(drives, req, dirfunc, callback);
    assert callback != null ==> [] + [outcome] == [outcome];
    PassOn(conn, r, callback, outcome);
  }

  /** A pull. */
  method ServePull(conn: ConnectionSync.ConnectionSync, r: Scheduler.Request, drives: map<int, Drive>, drv: int,
                   dFile: FsPath, pFile: FileName, folder: FileRequests.CacheFolder)
    returns (ghost successful: bool)
    requires InService(conn, r)
    modifies conn, conn.waiters.Values, folder
    ensures conn.Valid() && conn.State() == Scheduler.Work(old(conn.State()), successful)
    ensures successful ==>
              && drv in drives && HasFile(drives[drv].Items(), Keys(dFile))
              && folder.files == old(folder.files)[pFile := drives[drv].Items()[Keys(dFile)].bytes]
    ensures drv in drives && drives[drv].reliable && HasFile(drives[drv].Items(), Keys(dFile)) ==> successful
  {
    hide Scheduler.SchedInv, Map, Keys;
    var callback := CallbackOf(r);
    ghost var ok, partialData := FileRequests.HandleFilePullReq(drives, drv, dFile, pFile, folder, callback);
    successful := drv in drives && HasFile(drives[drv].Items(), Keys(dFile)) && ok;
    assert callback != null ==> [] + [successful] == [successful];
    PassOn(conn, r, callback, successful);
  }

  /** A push. */
  method ServePush(conn: ConnectionSync.ConnectionSync, r: Scheduler.Request, drives: map<int, Drive>, drv: int,
                   dFile: FsPath, pFile: FileName, folder: FileRequests.CacheFolder)
    returns (ghost successful: bool)
    requires InService(conn, r) && (drv in drives ==> drives[drv].Valid())
    modifies conn, conn.waiters.Values, if drv in drives then {drives[drv]} else {}
    ensures conn.Valid() && conn.State() == Scheduler.Work(old(conn.State()), successful)
    ensures successful ==>
              && drv in drives && pFile in folder.files && folder.files[pFile] != []
              && drives[drv].Items() == old(drives[drv].Items())[Keys(dFile) := Content(folder.files[pFile])]
    ensures (drv in drives && drives[drv].reliable && pFile in folder.files && folder.files[pFile] != []
             && HasFile(old(drives[drv].Items()), Keys(dFile))) ==> successful
  {
    hide Scheduler.SchedInv, Map, Keys, Drive.Valid, Lacking;
    var callback := CallbackOf(r);
    ghost var possible := drv in drives && pFile in folder.files && folder.files[pFile] != []
                          && HasFile(drives[drv].Items(), Keys(dFile));
    ghost var outcome := FileRequests.HandleFilePushReq(drives, drv, dFile, pFile, folder, callback);
    successful := possible && outcome == Done;
    assert callback != null ==> [] + [successful] == [successful];
    PassOn(conn, r, callback, successful);
  }
}
