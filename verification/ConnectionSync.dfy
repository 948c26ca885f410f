/**
 The connection's objects: WaitOnResult and the class with the queues and flags.  Every method is one critical section
 and one step of `Scheduler`.
 */
module ConnectionSync {
  import opened Scheduler

  /** The callback behind the synchronous calls. */
  class WaitOnResult {
    var success: bool
    var unlocked: bool

    ghost function State(): Wait
      reads this
    {
      Wait(success, unlocked)
    }

    constructor ()
      ensures State() == Wait(false, false)
    {
      unlocked := false;
      success := false;
    }

    /** The callback's first assignment. */
    method SetSuccess(successful: bool)
      modifies this
      ensures State() == old(State()).(success := successful)
    {
      success := successful;
    }

    /** The callback's second assignment. */
    method Unlock()
      modifies this
      ensures State() == old(State()).(unlocked := true)
    {
      unlocked := true;
    }

    /** One test of the loop in wait, and the return value when it is passed. */
    method TestUnlocked() returns (done: bool, result: bool)
      ensures done <==> unlocked
      ensures done ==> result == success
    {
      done, result := unlocked, success;
    }
  }

  class ConnectionSync {
    var treeAccessRequests: seq<Request>
    var filePullRequests: seq<Request>
    var filePushRequests: seq<Request>
    var threadStopCondVarUnlocked: bool
    var threadNormalStop: bool
    // where the worker thread is
    var worker: Worker
    // the WaitOnResult of each synchronous call
    var waiters: map<nat, WaitOnResult>
    ghost var pending: set<nat>
    ghost var stopping: bool
    ghost var past: History
    ghost var results: Results

    ghost predicate Valid()
      reads this, waiters.Values
    {
      && waiters.Keys == results.waits.Keys
      && (forall id :: id in waiters ==> waiters[id].State() == results.waits[id])
      && (forall a, b :: a in waiters && b in waiters && a != b ==> waiters[a] != waiters[b])
    }

    ghost function State(): Sched
      reads this
    {
      Sched(Queues(treeAccessRequests, filePullRequests, filePushRequests),
            Signals(threadStopCondVarUnlocked, threadNormalStop, pending, stopping), worker, past, results)
    }

    constructor ()
      ensures Valid() && State() == STARTED
    {
      treeAccessRequests, filePullRequests, filePushRequests := [], [], [];
      threadStopCondVarUnlocked, threadNormalStop := false, false;
      worker := CheckTree;
      waiters := map[];
      pending, stopping := {}, false;
      past := History([], [], [], []);
      results := Results(map[], map[]);
    }

    /** A synchronous call's WaitOnResult. */
    method MakeWaiter(id: nat)
      requires Valid() && id !in waiters
      modifies this`waiters, this`results
      ensures Valid() && results == SetWait(old(results), id, Wait(false, false))
    {
      var w := new WaitOnResult();
      waiters := waiters[id := w];
      results := SetWait(results, id, Wait(false, false));
    }

    /** An enqueue up to _threadWakeup, after making the WaitOnResult if the call is synchronous. */
    method EnqueueRequest(request: Request)
      requires Valid() && request.id !in waiters
      modifies this
      ensures Valid() && State() == Enqueue(old(State()), request)
      ensures treeAccessRequests == old(treeAccessRequests) + if request.kind == Tree then [request] else []
      ensures filePullRequests == old(filePullRequests) + if request.kind == Pull then [request] else []
      ensures filePushRequests == old(filePushRequests) + if request.kind == Push then [request] else []
    {
      if request.callback == Sync {
        MakeWaiter(request.id);
      }
      match request.kind {
        case Tree => treeAccessRequests := treeAccessRequests + [request];
        case Pull => filePullRequests := filePullRequests + [request];
        case Push => filePushRequests := filePushRequests + [request];
      }
      pending := pending + {request.id};
      past := past.(enqueued := past.enqueued + [request]);
    }

    /** _threadWakeup, reached by the thread that enqueued this request. */
    method ThreadWakeup(ghost id: nat)
      requires Valid() && id in pending
      modifies this
      ensures Valid() && State() == Apply(old(State()), WakeStep(id)) && threadStopCondVarUnlocked
    {
      threadStopCondVarUnlocked := true;
      pending := pending - {id};
    }

    /** The destructor's first statement. */
    method Stop()
      requires Valid() && !threadNormalStop
      modifies this
      ensures Valid() && State() == Apply(old(State()), StopStep) && threadNormalStop
    {
      threadNormalStop := true;
      stopping := true;
    }

    /** _threadWakeup, reached by the destructor. */
    method ThreadWakeupForStop()
      requires Valid() && stopping
      modifies this
      ensures Valid() && State() == Apply(old(State()), WakeForStopStep) && threadStopCondVarUnlocked
    {
      threadStopCondVarUnlocked := true;
      stopping := false;
    }

    /** The check of _threadHandleTreeAccessReq, with the pop. */
    method CheckTreeAccessRequests()
      requires Valid()
      modifies this
      ensures Valid() && State() == Check(old(State()), Tree, CheckPull)
      ensures old(treeAccessRequests) == [] ==> worker == CheckPull && treeAccessRequests == []
      ensures old(treeAccessRequests) != [] ==>
                worker == Serving(old(treeAccessRequests)[0]) && treeAccessRequests == old(treeAccessRequests)[1..]
    {
      if |treeAccessRequests| == 0 {
        worker := CheckPull;
        past := past.(log := past.log + [FoundEmpty(Tree)]);
      } else {
        var req := treeAccessRequests[0];
        treeAccessRequests := treeAccessRequests[1..];
        worker := Serving(req);
        past := past.(popped := past.popped + [req], log := past.log + [Popped(req)]);
      }
    }

    /** The check of _threadHandleFilePullReq, with the pop. */
    method CheckFilePullRequests()
      requires Valid()
      modifies this
      ensures Valid() && State() == Check(old(State()), Pull, CheckPush)
      ensures old(filePullRequests) == [] ==> worker == CheckPush && filePullRequests == []
      ensures old(filePullRequests) != [] ==>
                worker == Serving(old(filePullRequests)[0]) && filePullRequests == old(filePullRequests)[1..]
    {
      if |filePullRequests| == 0 {
        worker := CheckPush;
        past := past.(log := past.log + [FoundEmpty(Pull)]);
      } else {
        var req := filePullRequests[0];
        filePullRequests := filePullRequests[1..];
        worker := Serving(req);
        past := past.(popped := past.popped + [req], log := past.log + [Popped(req)]);
      }
    }

    /** The check of _threadHandleFilePushReq, with the pop. */
    method CheckFilePushRequests()
      requires Valid()
      modifies this
      ensures Valid() && State() == Check(old(State()), Push, CheckStop)
      ensures old(filePushRequests) == [] ==> worker == CheckStop && filePushRequests == []
      ensures old(filePushRequests) != [] ==>
                worker == Serving(old(filePushRequests)[0]) && filePushRequests == old(filePushRequests)[1..]
    {
      if |filePushRequests| == 0 {
        worker := CheckStop;
        past := past.(log := past.log + [FoundEmpty(Push)]);
      } else {
        var req := filePushRequests[0];
        filePushRequests := filePushRequests[1..];
        worker := Serving(req);
        past := past.(popped := past.popped + [req], log := past.log + [Popped(req)]);
      }
    }

    /** One test of the flag in _threadYield. */
    method ThreadYield()
      requires Valid() && worker == Yield
      modifies this
      ensures Valid() && State() == Work(old(State()), false)
      ensures worker == if old(threadStopCondVarUnlocked) then CheckTree else Yield
      ensures !threadStopCondVarUnlocked
    {
      if threadStopCondVarUnlocked {
        threadStopCondVarUnlocked := false;
        worker := CheckTree;
      }
    }

    /** The end of a handler: the callback, if there is one, is called with the outcome. */
    method CallBack(req: Request, outcome: bool)
      requires Valid() && (req.callback == Sync ==> req.id in waiters)
      modifies this, waiters.Values
      ensures Valid() && State() == Answer(old(State()), req, outcome)
      ensures req.callback == Sync ==> waiters[req.id].success == outcome && worker == Unlocking(req, outcome)
      ensures req.callback != Sync ==> worker == CheckTree
    {
      match req.callback
      case NoCallback =>
        worker := CheckTree;
      case Async =>
        worker := CheckTree;
        past := past.(calls := past.calls + [Call(req.id, outcome)]);
      case Sync =>
        waiters[req.id].SetSuccess(outcome);
        results := SetWait(results, req.id, results.waits[req.id].(success := outcome));
        worker := Unlocking(req, outcome);
        past := past.(calls := past.calls + [Call(req.id, outcome)]);
    }

    method FinishCallBack(req: Request)
      requires Valid() && req.id in waiters
      modifies this, waiters.Values
      ensures Valid() && State() == Unlock(old(State()), req)
      ensures worker == CheckTree && req.id in waiters && waiters[req.id].unlocked
    {
      waiters[req.id].Unlock();
      results := SetWait(results, req.id, results.waits[req.id].(unlocked := true));
      worker := CheckTree;
    }

    /** One step of ConnectionSyncThreadRoutine; the outcome is what the handler's work on the device gives. */
    method ThreadRoutine(outcome: bool)
      requires Valid() && SchedInv(State())
      modifies this, waiters.Values
      ensures Valid() && State() == Work(old(State()), outcome) && SchedInv(State())
    {
      hide SchedInv, Check, Answer, Unlock;
      WorkKeeps(State(), outcome);
      WaiterExists(State());
      WaitersMatch();
      hide Valid;
      match worker
      case CheckTree => CheckTreeAccessRequests();
      case CheckPull => CheckFilePullRequests();
      case CheckPush => CheckFilePushRequests();
      case CheckStop => TestStop();
      case Yield => ThreadYield();
      case Serving(req) =>
        CallBack(req, outcome);
      case Unlocking(req, _) =>
        FinishCallBack(req);
      case Exited =>
    }

    method TestStop()
      requires Valid() && worker == CheckStop
      modifies this
      ensures Valid() && State() == Work(old(State()), false)
      ensures worker == if threadNormalStop then Exited else Yield
    {
      worker := if threadNormalStop then Exited else Yield;
    }

    lemma WaitersMatch()
      requires Valid()
      ensures waiters.Keys == results.waits.Keys
    {
    }

    /** One test by the thread that made the synchronous call; when it passes, the call returns. */
    method WaitFor(id: nat) returns (done: bool, result: bool)
      requires Valid() && SchedInv(State()) && id in waiters && id !in results.returned
      modifies this`results
      ensures Valid() && SchedInv(State())
      ensures done <==> old(Enabled(State(), ReturnStep(id)))
      ensures State() == if done then Apply(old(State()), ReturnStep(id)) else old(State())
      ensures done ==> Call(id, result) in past.calls
    {
      hide SchedInv;
      done, result := waiters[id].TestUnlocked();
      if done {
        ReturnGivesAnswer(State(), id);
        results := results.(returned := results.returned[id := result]);
      }
    }
  }

  lemma ReturnGivesAnswer(s: Sched, id: nat)
    requires SchedInv(s) && Enabled(s, ReturnStep(id))
    ensures SchedInv(Apply(s, ReturnStep(id))) && Call(id, s.results.waits[id].success) in s.past.calls
  {
    SchedStepKeeps(s, ReturnStep(id));
    hide QueueInv, WakeInv, LogInv, UniqueInv, CallInv;
  }

  /** A synchronous request in service has its WaitOnResult. */
  lemma WaiterExists(s: Sched)
    requires SchedInv(s)
    ensures s.worker.Serving? && s.worker.request.callback == Sync ==> s.worker.request.id in s.results.waits
    ensures s.worker.Unlocking? ==> s.worker.request.id in s.results.waits
  {
    hide QueueInv, WakeInv, LogInv;
    if s.worker.Serving? {
      assert s.worker.request in s.past.popped;
    }
  }
}
