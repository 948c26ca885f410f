/**
 The request scheduler (ConnectionSync) as a transition system: three prioritised queues, one worker thread, the wake-up
 flag, and callbacks.

 One step each: adding a request to its queue; reaching _threadWakeup; each of the worker's three queue checks, with the
 pop; its stop test; one test of the flag in _threadYield; serving a request up to its callback; the two assignments of
 a WaitOnResult callback; a waiting caller's test.  What a request does to the device is not part of this model: its
 outcome is any truth value.
 */
module Scheduler {

  datatype Kind = Tree | Pull | Push

  /** No callback, a caller's own callback object, or the WaitOnResult of a synchronous call. */
  datatype Callback = NoCallback | Async | Sync

  datatype Request = Request(id: nat, kind: Kind, callback: Callback)

  datatype Worker =
    | CheckTree
    | CheckPull
    | CheckPush
    | CheckStop
    | Yield
    | Exited
    | Serving(request: Request)
    | Unlocking(request: Request, value: bool)

  datatype Queues = Queues(trees: seq<Request>, pulls: seq<Request>, pushes: seq<Request>) {
    function Of(c: Kind): seq<Request> {
      match c
      case Tree => trees
      case Pull => pulls
      case Push => pushes
    }

    function With(c: Kind, q: seq<Request>): Queues {
      match c
      case Tree => this.(trees := q)
      case Pull => this.(pulls := q)
      case Push => this.(pushes := q)
    }
  }

  /**
   The wake-up flag and the stop flag, and who has yet to reach _threadWakeup: the enqueuers, by request, and the thread
   that stops.
   */
  datatype Signals = Signals(flag: bool, stop: bool, pending: set<nat>, stopping: bool)

  /** The worker's own history. */
  datatype Event = FoundEmpty(kind: Kind) | Popped(request: Request)

  /** A callback was called. */
  datatype Call = Call(id: nat, value: bool)

  datatype History = History(enqueued: seq<Request>, popped: seq<Request>, calls: seq<Call>, log: seq<Event>)

  /** A WaitOnResult. */
  datatype Wait = Wait(success: bool, unlocked: bool)

  /** The WaitOnResult of every synchronous call, and what the calls that returned gave back. */
  datatype Results = Results(waits: map<nat, Wait>, returned: map<nat, bool>)

  datatype Sched = Sched(queues: Queues, signals: Signals, worker: Worker, past: History, results: Results)

  const STARTED := Sched(Queues([], [], []), Signals(false, false, {}, false), CheckTree, History([], [], [], []),
                         Results(map[], map[]))

  predicate Known(q: seq<Request>, id: nat) {
    exists i :: 0 <= i < |q| && q[i].id == id
  }

  // ---------- Steps ----------

  /** The critical section of an enqueue; a synchronous call has made its WaitOnResult before. */
  function Enqueue(s: Sched, r: Request): Sched {
    s.(queues := s.queues.With(r.kind, s.queues.Of(r.kind) + [r]),
       signals := s.signals.(pending := s.signals.pending + {r.id}),
       past := s.past.(enqueued := s.past.enqueued + [r]),
       results := if r.callback == Sync then s.results.(waits := s.results.waits[r.id := Wait(false, false)]) else s.results)
  }

  /** One of the worker's three checks: pop and serve, or go on. */
  function Check(s: Sched, c: Kind, otherwise: Worker): Sched {
    var q := s.queues.Of(c);
    if q == [] then s.(worker := otherwise, past := s.past.(log := s.past.log + [FoundEmpty(c)]))
    else
      s.(queues := s.queues.With(c, q[1..]), worker := Serving(q[0]),
         past := s.past.(popped := s.past.popped + [q[0]], log := s.past.log + [Popped(q[0])]))
  }

  function SetWait(results: Results, id: nat, wait: Wait): Results {
    results.(waits := results.waits[id := wait])
  }

  function WaitOf(results: Results, id: nat): Wait {
    if id in results.waits then results.waits[id] else Wait(false, false)
  }

  /** The request in service is done; its callback, if it has one, is called with the outcome. */
  function Answer(s: Sched, r: Request, value: bool): Sched {
    if r.callback == NoCallback then s.(worker := CheckTree)
    else
      s.(worker := if r.callback == Sync then Unlocking(r, value) else CheckTree,
         past := s.past.(calls := s.past.calls + [Call(r.id, value)]),
         results := if r.callback == Sync then SetWait(s.results, r.id, WaitOf(s.results, r.id).(success := value))
                    else s.results)
  }

  function Unlock(s: Sched, r: Request): Sched {
    s.(worker := CheckTree, results := SetWait(s.results, r.id, WaitOf(s.results, r.id).(unlocked := true)))
  }

  /** One step of ConnectionSyncThreadRoutine. */
  function Work(s: Sched, outcome: bool): Sched {
    match s.worker
    case CheckTree => Check(s, Tree, CheckPull)
    case CheckPull => Check(s, Pull, CheckPush)
    case CheckPush => Check(s, Push, CheckStop)
    case CheckStop => s.(worker := if s.signals.stop then Exited else Yield)
    case Yield => if s.signals.flag then s.(signals := s.signals.(flag := false), worker := CheckTree) else s
    case Serving(r) => Answer(s, r, outcome)
    case Unlocking(r, _) => Unlock(s, r)
    case Exited => s
  }

  datatype Step =
    | EnqueueStep(request: Request)
    | WakeStep(id: nat)
    | StopStep
    | WakeForStopStep
    | WorkStep(outcome: bool)
    | ReturnStep(id: nat)

  predicate Enabled(s: Sched, step: Step) {
    match step
    case EnqueueStep(r) => !Known(s.past.enqueued, r.id)
    case WakeStep(id) => id in s.signals.pending
    case StopStep => !s.signals.stop
    case WakeForStopStep => s.signals.stopping
    case WorkStep(_) => true
    case ReturnStep(id) => id in s.results.waits && s.results.waits[id].unlocked && id !in s.results.returned
  }

  function Apply(s: Sched, step: Step): Sched
    requires Enabled(s, step)
  {
    match step
    case EnqueueStep(r) => Enqueue(s, r)
    case WakeStep(id) => s.(signals := s.signals.(pending := s.signals.pending - {id}, flag := true))
    case StopStep => s.(signals := s.signals.(stop := true, stopping := true))
    case WakeForStopStep => s.(signals := s.signals.(stopping := false, flag := true))
    case WorkStep(outcome) => Work(s, outcome)
    case ReturnStep(id) => s.(results := s.results.(returned := s.results.returned[id := s.results.waits[id].success]))
  }

  // ---------- No request is missed ----------

  /** The worker's current round has checked this queue already. */
  predicate Past(w: Worker, c: Kind) {
    w == CheckStop || w == Yield || (w == CheckPush && c != Push) || (w == CheckPull && c == Tree)
  }

  /** Every queued request was announced by the flag, or its thread has not yet reached _threadWakeup. */
  predicate Announced(q: seq<Request>, signals: Signals) {
    signals.flag || forall r :: r in q ==> r.id in signals.pending
  }

  /** The phase-indexed invariant: what came in after its check is announced. */
  predicate WakeInv(queues: Queues, signals: Signals, w: Worker) {
    && (forall c :: Past(w, c) ==> Announced(queues.Of(c), signals))
    && (w == Yield && signals.stop ==> signals.flag || signals.stopping)
  }

  lemma EnqueueAnnounced(s: Sched, r: Request)
    requires WakeInv(s.queues, s.signals, s.worker)
    ensures var s' := Enqueue(s, r); WakeInv(s'.queues, s'.signals, s'.worker)
  {
    var s' := Enqueue(s, r);
    forall c | Past(s.worker, c) ensures Announced(s'.queues.Of(c), s'.signals) {
      assert Announced(s.queues.Of(c), s.signals);
      assert forall x :: x in s'.queues.Of(c) ==> x in s.queues.Of(c) || x == r;
    }
  }

  lemma WakeStepKeeps(s: Sched, step: Step)
    requires WakeInv(s.queues, s.signals, s.worker) && Enabled(s, step)
    ensures var s' := Apply(s, step); WakeInv(s'.queues, s'.signals, s'.worker)
  {
    var s' := Apply(s, step);
    if step.EnqueueStep? {
      EnqueueAnnounced(s, step.request);
    } else if step.WorkStep? {
      WorkAnnounced(s, step.outcome);
    } else {
      forall c | Past(s.worker, c) ensures Announced(s'.queues.Of(c), s'.signals) {
        assert Announced(s.queues.Of(c), s.signals);
      }
    }
  }

  lemma WorkAnnounced(s: Sched, outcome: bool)
    requires WakeInv(s.queues, s.signals, s.worker)
    ensures var s' := Work(s, outcome); WakeInv(s'.queues, s'.signals, s'.worker)
  {
    hide Announced;
    var s' := Work(s, outcome);
    forall c | Past(s'.worker, c) ensures Announced(s'.queues.Of(c), s'.signals) {
      if Past(s.worker, c) {
        assert Announced(s.queues.Of(c), s.signals);
      } else {
        NothingToAnnounce(s.signals);
      }
    }
  }

  lemma NothingToAnnounce(signals: Signals)
    ensures Announced([], signals)
  {
  }

  // ---------- Queue discipline ----------

  function OfKind(q: seq<Request>, c: Kind): seq<Request> {
    if q == [] then []
    else OfKind(q[..|q| - 1], c) + if q[|q| - 1].kind == c then [q[|q| - 1]] else []
  }

  lemma OfKindAppend(q: seq<Request>, r: Request, c: Kind)
    ensures OfKind(q + [r], c) == OfKind(q, c) + if r.kind == c then [r] else []
  {
    assert (q + [r])[..|q|] == q;
  }

  /** Of one class, what was enqueued is what was popped followed by what is queued, in order. */
  predicate Fifo(q: seq<Request>, past: History, c: Kind) {
    OfKind(past.enqueued, c) == OfKind(past.popped, c) + q && forall r :: r in q ==> r.kind == c
  }

  predicate QueueInv(queues: Queues, past: History) {
    forall c :: Fifo(queues.Of(c), past, c)
  }

  lemma FifoEnqueue(q: seq<Request>, past: History, c: Kind, r: Request)
    requires Fifo(q, past, c)
    ensures Fifo(if r.kind == c then q + [r] else q, past.(enqueued := past.enqueued + [r]), c)
  {
    OfKindAppend(past.enqueued, r, c);
  }

  lemma FifoPop(q: seq<Request>, past: History, c: Kind, r: Request, log: seq<Event>)
    requires Fifo(q, past, c) && (r.kind == c ==> q != [] && q[0] == r)
    ensures Fifo(if r.kind == c then q[1..] else q, past.(popped := past.popped + [r], log := log), c)
  {
    OfKindAppend(past.popped, r, c);
    if r.kind == c {
      assert q == [r] + q[1..];
    }
  }

  lemma CheckKeepsQueues(s: Sched, c: Kind, otherwise: Worker)
    requires QueueInv(s.queues, s.past)
    ensures var s' := Check(s, c, otherwise); QueueInv(s'.queues, s'.past)
  {
    var s' := Check(s, c, otherwise);
    var q := s.queues.Of(c);
    assert Fifo(q, s.past, c);
    if q != [] {
      assert q[0] in q;
      forall d ensures Fifo(s'.queues.Of(d), s'.past, d) {
        assert Fifo(s.queues.Of(d), s.past, d);
        hide Fifo;
        FifoPop(s.queues.Of(d), s.past, d, q[0], s'.past.log);
      }
    } else {
      forall d ensures Fifo(s'.queues.Of(d), s'.past, d) {
        assert Fifo(s.queues.Of(d), s.past, d);
      }
    }
  }

  lemma EnqueueKeepsQueues(s: Sched, r: Request)
    requires QueueInv(s.queues, s.past)
    ensures QueueInv(Enqueue(s, r).queues, Enqueue(s, r).past)
  {
    hide Fifo;
    forall d ensures Fifo(Enqueue(s, r).queues.Of(d), Enqueue(s, r).past, d) {
      FifoEnqueue(s.queues.Of(d), s.past, d, r);
    }
  }

  lemma SameQueues(s: Sched, s': Sched)
    requires QueueInv(s.queues, s.past) && s'.queues == s.queues
    requires s'.past.enqueued == s.past.enqueued && s'.past.popped == s.past.popped
    ensures QueueInv(s'.queues, s'.past)
  {
    forall d ensures Fifo(s'.queues.Of(d), s'.past, d) {
      assert Fifo(s.queues.Of(d), s.past, d);
    }
  }

  lemma QueueStepKeeps(s: Sched, step: Step)
    requires QueueInv(s.queues, s.past) && Enabled(s, step)
    ensures QueueInv(Apply(s, step).queues, Apply(s, step).past)
  {
    hide QueueInv;
    if step.EnqueueStep? {
      EnqueueKeepsQueues(s, step.request);
    } else if step.WorkStep? && (s.worker == CheckTree || s.worker == CheckPull || s.worker == CheckPush) {
      CheckKeepsQueues(s, Tree, CheckPull);
      CheckKeepsQueues(s, Pull, CheckPush);
      CheckKeepsQueues(s, Push, CheckStop);
    } else {
      SameQueues(s, Apply(s, step));
    }
  }

  // ---------- Priorities ----------

  /** Just before the i-th event the worker found the tree queue empty, and for a push then the pull queue too. */
  predicate InOrder(log: seq<Event>, i: nat)
    requires i < |log|
  {
    log[i].Popped? ==>
      match log[i].request.kind
      case Tree => true
      case Pull => i >= 1 && log[i - 1] == FoundEmpty(Tree)
      case Push => i >= 2 && log[i - 1] == FoundEmpty(Pull) && log[i - 2] == FoundEmpty(Tree)
  }

  /** What the worker found empty before it came to its next check. */
  predicate FoundBefore(log: seq<Event>, w: Worker) {
    var n := |log|;
    && (w == CheckPull ==> n >= 1 && log[n - 1] == FoundEmpty(Tree))
    && (w == CheckPush ==> n >= 2 && log[n - 1] == FoundEmpty(Pull) && log[n - 2] == FoundEmpty(Tree))
  }

  predicate LogInv(log: seq<Event>, w: Worker) {
    FoundBefore(log, w) && forall i :: 0 <= i < |log| ==> InOrder(log, i)
  }

  lemma LogAppend(log: seq<Event>, e: Event)
    requires forall i :: 0 <= i < |log| ==> InOrder(log, i)
    requires InOrder(log + [e], |log|)
    ensures forall i :: 0 <= i < |log + [e]| ==> InOrder(log + [e], i)
  {
    forall i | 0 <= i < |log| ensures InOrder(log + [e], i) {
      assert InOrder(log, i);
    }
  }

  lemma CheckKeepsLog(s: Sched, c: Kind, otherwise: Worker)
    requires LogInv(s.past.log, s.worker) && QueueInv(s.queues, s.past)
    requires if c == Tree then otherwise == CheckPull
             else if c == Pull then s.worker == CheckPull && otherwise == CheckPush
             else s.worker == CheckPush && otherwise == CheckStop
    ensures LogInv(Check(s, c, otherwise).past.log, Check(s, c, otherwise).worker)
  {
    var q := s.queues.Of(c);
    assert Fifo(q, s.past, c);
    if q == [] {
      LogAppend(s.past.log, FoundEmpty(c));
    } else {
      assert q[0] in q;
      LogAppend(s.past.log, Popped(q[0]));
    }
  }

  lemma LogStepKeeps(s: Sched, step: Step)
    requires LogInv(s.past.log, s.worker) && QueueInv(s.queues, s.past) && Enabled(s, step)
    ensures LogInv(Apply(s, step).past.log, Apply(s, step).worker)
  {
    hide InOrder, QueueInv, Check;
    if step.WorkStep? {
      match s.worker
      case CheckTree => CheckKeepsLog(s, Tree, CheckPull);
      case CheckPull => CheckKeepsLog(s, Pull, CheckPush);
      case CheckPush => CheckKeepsLog(s, Push, CheckStop);
      case _ =>
    }
  }

  // ---------- Every request is served at most once ----------

  ghost predicate DistinctIds(q: seq<Request>) {
    forall i, j :: 0 <= i < j < |q| ==> q[i].id != q[j].id
  }

  ghost predicate Apart(q: seq<Request>, other: seq<Request>) {
    forall i, j :: 0 <= i < |q| && 0 <= j < |other| ==> q[i].id != other[j].id
  }

  /** The requests of one queue were enqueued, none twice, and none was popped. */
  ghost predicate QueueUnique(q: seq<Request>, past: History) {
    (forall r :: r in q ==> r in past.enqueued) && DistinctIds(q) && Apart(q, past.popped)
  }

  ghost predicate PoppedUnique(past: History) {
    DistinctIds(past.popped) && forall r :: r in past.popped ==> r in past.enqueued
  }

  /** No request is queued twice, popped twice, or both queued and popped. */
  ghost predicate UniqueInv(queues: Queues, past: History) {
    && PoppedUnique(past)
    && (forall c :: QueueUnique(queues.Of(c), past))
    && (forall c, d :: c != d ==> Apart(queues.Of(c), queues.Of(d)))
  }

  lemma FreshApart(q: seq<Request>, past: History, r: Request)
    requires (forall x :: x in q ==> x in past.enqueued) && !Known(past.enqueued, r.id)
    ensures Apart(q, [r])
  {
    forall i | 0 <= i < |q| ensures q[i].id != r.id {
      assert q[i] in past.enqueued;
    }
  }

  lemma ApartAppend(q: seq<Request>, other: seq<Request>, r: Request)
    requires Apart(q, other) && Apart(q, [r])
    ensures Apart(q, other + [r]) && Apart(other + [r], q)
  {
    assert [r][0] == r;
  }

  lemma DistinctAppend(q: seq<Request>, r: Request)
    requires DistinctIds(q) && Apart(q, [r])
    ensures DistinctIds(q + [r])
  {
    assert [r][0] == r;
  }

  lemma EnqueueUnique(s: Sched, r: Request)
    requires UniqueInv(s.queues, s.past) && !Known(s.past.enqueued, r.id)
    ensures UniqueInv(Enqueue(s, r).queues, Enqueue(s, r).past)
  {
    var s' := Enqueue(s, r);
    FreshApart(s.past.popped, s.past, r);
    forall c ensures QueueUnique(s.queues.Of(c), s.past) && Apart(s.queues.Of(c), [r]) {
      FreshApart(s.queues.Of(c), s.past, r);
    }
    forall c ensures QueueUnique(s'.queues.Of(c), s'.past) {
      QueueUniqueEnqueue(s.queues.Of(c), s.past, r);
    }
    hide QueueUnique, PoppedUnique, Known, Apart;
    forall c, d | c != d ensures Apart(s'.queues.Of(c), s'.queues.Of(d)) {
      assert Apart(s.queues.Of(c), s.queues.Of(d));
      assert Apart(s.queues.Of(d), s.queues.Of(c));
      if d == r.kind {
        ApartAppend(s.queues.Of(c), s.queues.Of(d), r);
      } else if c == r.kind {
        ApartAppend(s.queues.Of(d), s.queues.Of(c), r);
      }
    }
    assert PoppedUnique(s'.past) by { PoppedUniqueEnqueue(s.past, r); }
  }

  lemma PoppedUniqueEnqueue(past: History, r: Request)
    requires PoppedUnique(past)
    ensures PoppedUnique(past.(enqueued := past.enqueued + [r]))
  {
  }

  lemma QueueUniqueEnqueue(q: seq<Request>, past: History, r: Request)
    requires QueueUnique(q, past) && Apart(q, [r]) && Apart(past.popped, [r])
    ensures QueueUnique(q, past.(enqueued := past.enqueued + [r]))
    ensures QueueUnique(q + [r], past.(enqueued := past.enqueued + [r]))
  {
    DistinctAppend(q, r);
    ApartAppend(past.popped, q, r);
  }

  lemma PoppedUniquePop(q: seq<Request>, past: History, log: seq<Event>)
    requires PoppedUnique(past) && QueueUnique(q, past) && q != []
    ensures PoppedUnique(past.(popped := past.popped + [q[0]], log := log))
    ensures QueueUnique(q[1..], past.(popped := past.popped + [q[0]], log := log))
  {
    assert forall x :: x in q[1..] ==> x in q;
    assert q[0] in q;
    DistinctAppend(past.popped, q[0]);
  }

  lemma OtherQueueUniquePop(q: seq<Request>, other: seq<Request>, past: History, log: seq<Event>)
    requires QueueUnique(other, past) && q != [] && Apart(q, other)
    ensures QueueUnique(other, past.(popped := past.popped + [q[0]], log := log))
    ensures Apart(q[1..], other) && Apart(other, q[1..])
  {
  }

  lemma PopUnique(s: Sched, c: Kind, otherwise: Worker)
    requires UniqueInv(s.queues, s.past)
    ensures UniqueInv(Check(s, c, otherwise).queues, Check(s, c, otherwise).past)
  {
    hide QueueUnique, PoppedUnique, Apart;
    var q := s.queues.Of(c);
    var s' := Check(s, c, otherwise);
    if q != [] {
      PoppedUniquePop(q, s.past, s'.past.log);
      forall d | d != c
        ensures QueueUnique(s'.queues.Of(d), s'.past) && Apart(q[1..], s.queues.Of(d)) && Apart(s.queues.Of(d), q[1..])
      {
        OtherQueueUniquePop(q, s.queues.Of(d), s.past, s'.past.log);
      }
      forall d, e | d != e ensures Apart(s'.queues.Of(d), s'.queues.Of(e)) {
        assert Apart(s.queues.Of(d), s.queues.Of(e));
      }
    } else {
      SameUnique(s, s');
    }
  }

  lemma SameUnique(s: Sched, s': Sched)
    requires UniqueInv(s.queues, s.past) && s'.queues == s.queues
    requires s'.past.enqueued == s.past.enqueued && s'.past.popped == s.past.popped
    ensures UniqueInv(s'.queues, s'.past)
  {
    forall c ensures QueueUnique(s'.queues.Of(c), s'.past) {
      assert QueueUnique(s.queues.Of(c), s.past);
    }
  }

  lemma UniqueStepKeeps(s: Sched, step: Step)
    requires UniqueInv(s.queues, s.past) && Enabled(s, step)
    ensures UniqueInv(Apply(s, step).queues, Apply(s, step).past)
  {
    if step.EnqueueStep? {
      EnqueueUnique(s, step.request);
    } else if step.WorkStep? && (s.worker == CheckTree || s.worker == CheckPull || s.worker == CheckPush) {
      hide UniqueInv;
      PopUnique(s, Tree, CheckPull);
      PopUnique(s, Pull, CheckPush);
      PopUnique(s, Push, CheckStop);
    } else {
      SameUnique(s, Apply(s, step));
    }
  }

  // ---------- Callbacks ----------

  /** The requests with a callback, by id. */
  function Called(q: seq<Request>): seq<nat> {
    if q == [] then []
    else Called(q[..|q| - 1]) + if q[|q| - 1].callback == NoCallback then [] else [q[|q| - 1].id]
  }

  lemma CalledAppend(q: seq<Request>, r: Request)
    ensures Called(q + [r]) == Called(q) + if r.callback == NoCallback then [] else [r.id]
  {
    assert (q + [r])[..|q|] == q;
  }

  function CallIds(calls: seq<Call>): seq<nat> {
    seq(|calls|, i requires 0 <= i < |calls| => calls[i].id)
  }

  /** The requests that were popped, except the one in service. */
  function Done(past: History, w: Worker): seq<Request> {
    if w.Serving? && past.popped != [] then past.popped[..|past.popped| - 1] else past.popped
  }

  /** The callbacks called are those of the served requests, in order. */
  ghost predicate CallInv(past: History, w: Worker) {
    && CallIds(past.calls) == Called(Done(past, w))
    && (w.Serving? || w.Unlocking? ==> past.popped != [] && past.popped[|past.popped| - 1] == w.request)
  }

  lemma CallIdsAppend(calls: seq<Call>, call: Call)
    ensures CallIds(calls + [call]) == CallIds(calls) + [call.id]
  {
  }

  lemma AnswerCalls(s: Sched, outcome: bool)
    requires CallInv(s.past, s.worker) && s.worker.Serving?
    ensures var s' := Answer(s, s.worker.request, outcome); CallInv(s'.past, s'.worker)
  {
    var done, r := Done(s.past, s.worker), s.worker.request;
    assert s.past.popped == done + [r];
    CalledAppend(done, r);
    CallIdsAppend(s.past.calls, Call(r.id, outcome));
    hide Called, CallIds;
  }

  lemma CheckCalls(s: Sched, c: Kind, otherwise: Worker)
    requires CallInv(s.past, s.worker) && !s.worker.Serving? && !otherwise.Serving? && !otherwise.Unlocking?
    ensures CallInv(Check(s, c, otherwise).past, Check(s, c, otherwise).worker)
  {
    var q := s.queues.Of(c);
    if q != [] {
      assert Done(Check(s, c, otherwise).past, Check(s, c, otherwise).worker) == s.past.popped;
    }
  }

  lemma CallStepKeeps(s: Sched, step: Step)
    requires CallInv(s.past, s.worker) && Enabled(s, step)
    ensures CallInv(Apply(s, step).past, Apply(s, step).worker)
  {
    if step.WorkStep? {
      hide CallInv, Check, Answer;
      match s.worker
      case CheckTree => CheckCalls(s, Tree, CheckPull);
      case CheckPull => CheckCalls(s, Pull, CheckPush);
      case CheckPush => CheckCalls(s, Push, CheckStop);
      case Serving(_) => AnswerCalls(s, step.outcome);
      case _ => CallsUntouched(s, step.outcome);
    }
  }

  lemma CallsUntouched(s: Sched, outcome: bool)
    requires CallInv(s.past, s.worker)
    requires !s.worker.Serving? && s.worker != CheckTree && s.worker != CheckPull && s.worker != CheckPush
    ensures CallInv(Work(s, outcome).past, Work(s, outcome).worker)
  {
  }

  lemma {:induction false} CalledIsKnown(q: seq<Request>, id: nat)
    ensures id in Called(q) ==> Known(q, id)
    decreases |q|
  {
    if q != [] {
      var front := q[..|q| - 1];
      CalledIsKnown(front, id);
      if Known(front, id) {
        var i :| 0 <= i < |front| && front[i].id == id;
        assert q[i].id == id;
      }
    }
  }

  /** Each of these requests is called exactly once if it has a callback, and never otherwise. */
  lemma {:induction false} CalledOnce(q: seq<Request>, i: nat)
    requires DistinctIds(q) && i < |q|
    ensures multiset(Called(q))[q[i].id] == if q[i].callback == NoCallback then 0 else 1
    decreases |q|
  {
    var front, last := q[..|q| - 1], q[|q| - 1];
    assert q == front + [last];
    CalledAppend(front, last);
    if i < |front| {
      CalledOnce(front, i);
      assert front[i].id != last.id;
    } else {
      CalledIsKnown(front, last.id);
      assert last.id !in Called(front);
    }
  }

  // ---------- Results of synchronous calls ----------

  ghost predicate ResultInv(results: Results, past: History, w: Worker) {
    && (forall id :: id in results.waits ==> Known(past.enqueued, id))
    && (forall r :: r in past.enqueued && r.callback == Sync ==> r.id in results.waits)
    && (forall id :: id in results.waits && results.waits[id].unlocked ==> Call(id, results.waits[id].success) in past.calls)
    && (forall id :: id in results.returned ==> Call(id, results.returned[id]) in past.calls)
    && (w.Unlocking? ==>
          && w.request.id in results.waits && results.waits[w.request.id] == Wait(w.value, false)
          && Call(w.request.id, w.value) in past.calls)
  }

  lemma {:induction false} CallOfDone(calls: seq<Call>, done: seq<Request>, id: nat, value: bool)
    requires CallIds(calls) == Called(done) && Call(id, value) in calls
    ensures Known(done, id)
  {
    var i :| 0 <= i < |calls| && calls[i] == Call(id, value);
    assert CallIds(calls)[i] == id;
    CalledIsKnown(done, id);
  }

  /** The request in service has not been answered before. */
  lemma NotYetCalled(past: History, w: Worker)
    requires CallInv(past, w) && DistinctIds(past.popped) && w.Serving?
    ensures forall value :: Call(w.request.id, value) !in past.calls
  {
    var done, n := Done(past, w), |past.popped|;
    forall value | Call(w.request.id, value) in past.calls ensures Known(done, w.request.id) {
      CallOfDone(past.calls, done, w.request.id, value);
    }
    assert forall j :: 0 <= j < |done| ==> done[j] == past.popped[j] && past.popped[j].id != past.popped[n - 1].id;
  }

  lemma AnswerResults(s: Sched, outcome: bool)
    requires ResultInv(s.results, s.past, s.worker) && CallInv(s.past, s.worker) && PoppedUnique(s.past)
    requires s.worker.Serving?
    ensures var s' := Answer(s, s.worker.request, outcome); ResultInv(s'.results, s'.past, s'.worker)
  {
    var r := s.worker.request;
    assert r in s.past.popped;
    NotYetCalled(s.past, s.worker);
    hide CallInv, PoppedUnique, Known;
  }

  lemma KnownAppend(q: seq<Request>, r: Request, id: nat)
    ensures Known(q + [r], id) <==> Known(q, id) || id == r.id
  {
    if Known(q, id) {
      var i :| 0 <= i < |q| && q[i].id == id;
      assert (q + [r])[i].id == id;
    }
    assert (q + [r])[|q|] == r;
  }

  lemma EnqueueResults(s: Sched, r: Request)
    requires ResultInv(s.results, s.past, s.worker) && !Known(s.past.enqueued, r.id)
    ensures ResultInv(Enqueue(s, r).results, Enqueue(s, r).past, s.worker)
  {
    var s' := Enqueue(s, r);
    assert r.id !in s.results.waits;
    hide Known;
    forall id | Known(s.past.enqueued, id) || id == r.id ensures Known(s'.past.enqueued, id) {
      KnownAppend(s.past.enqueued, r, id);
    }
    forall x | x in s'.past.enqueued && x.callback == Sync ensures x.id in s'.results.waits {
    }
  }

  lemma OtherResults(s: Sched, step: Step)
    requires ResultInv(s.results, s.past, s.worker) && Enabled(s, step)
    requires !step.EnqueueStep? && !(step.WorkStep? && s.worker.Serving?)
    ensures ResultInv(Apply(s, step).results, Apply(s, step).past, Apply(s, step).worker)
  {
    hide Known;
  }

  lemma ResultStepKeeps(s: Sched, step: Step)
    requires ResultInv(s.results, s.past, s.worker) && CallInv(s.past, s.worker) && PoppedUnique(s.past)
    requires Enabled(s, step)
    ensures ResultInv(Apply(s, step).results, Apply(s, step).past, Apply(s, step).worker)
  {
    hide ResultInv, CallInv, PoppedUnique;
    if step.EnqueueStep? {
      EnqueueResults(s, step.request);
    } else if step.WorkStep? && s.worker.Serving? {
      AnswerResults(s, step.outcome);
    } else {
      OtherResults(s, step);
    }
  }

  // ---------- The end of the worker ----------

  /** The worker has left its loop only if somebody stopped it. */
  predicate ExitsOnStop(s: Sched) {
    s.worker == Exited ==> s.signals.stop
  }

  lemma ExitStepKeeps(s: Sched, step: Step)
    requires ExitsOnStop(s) && Enabled(s, step)
    ensures ExitsOnStop(Apply(s, step))
  {
  }

  // ---------- Whole runs ----------

  ghost predicate SchedInv(s: Sched) {
    && ExitsOnStop(s)
    && WakeInv(s.queues, s.signals, s.worker)
    && QueueInv(s.queues, s.past)
    && LogInv(s.past.log, s.worker)
    && UniqueInv(s.queues, s.past)
    && CallInv(s.past, s.worker)
    && ResultInv(s.results, s.past, s.worker)
  }

  lemma UniqueParts(s: Sched)
    requires UniqueInv(s.queues, s.past)
    ensures PoppedUnique(s.past)
  {
  }

  lemma SchedStepKeeps(s: Sched, step: Step)
    requires SchedInv(s) && Enabled(s, step)
    ensures SchedInv(Apply(s, step))
  {
    hide ExitsOnStop, WakeInv, QueueInv, LogInv, UniqueInv, CallInv, ResultInv, Enabled, Apply;
    ExitStepKeeps(s, step);
    WakeStepKeeps(s, step);
    QueueStepKeeps(s, step);
    LogStepKeeps(s, step);
    UniqueStepKeeps(s, step);
    CallStepKeeps(s, step);
    assert PoppedUnique(s.past) by { UniqueParts(s); }
    ResultStepKeeps(s, step);
  }

  /**
   While the worker is in _threadYield every queued request, and a pending stop, is announced by the wake-up flag, or the
   thread responsible has not yet reached _threadWakeup.
   */
  predicate NoRequestMissed(s: Sched) {
    s.worker == Yield ==>
      && (forall c, r :: r in s.queues.Of(c) ==> s.signals.flag || r.id in s.signals.pending)
      && (s.signals.stop ==> s.signals.flag || s.signals.stopping)
  }

  /** Per class, requests are served in the order they were enqueued, and none is lost or added. */
  predicate FirstInFirstOut(s: Sched) {
    forall c :: OfKind(s.past.enqueued, c) == OfKind(s.past.popped, c) + s.queues.Of(c)
  }

  predicate PrioritiesKept(s: Sched) {
    forall i :: 0 <= i < |s.past.log| ==> InOrder(s.past.log, i)
  }

  /** Every served request with a callback was called exactly once, any other not at all. */
  predicate OneCallbackEach(s: Sched) {
    var done, calls := Done(s.past, s.worker), multiset(CallIds(s.past.calls));
    && (forall r :: r in done ==> calls[r.id] == if r.callback == NoCallback then 0 else 1)
    && (forall id :: id in calls ==> Known(done, id))
  }

  /** A synchronous call that returned gave back the value its callback was called with. */
  predicate ResultsAreAnswers(s: Sched) {
    forall id :: id in s.results.returned ==> Call(id, s.results.returned[id]) in s.past.calls
  }

  lemma SchedInvMeans(s: Sched)
    requires SchedInv(s)
    ensures NoRequestMissed(s) && FirstInFirstOut(s) && PrioritiesKept(s) && OneCallbackEach(s) && ResultsAreAnswers(s)
    ensures ExitsOnStop(s)
  {
    assert NoRequestMissed(s) by { MeansNoneMissed(s); }
    assert FirstInFirstOut(s) by { MeansFifo(s); }
    assert OneCallbackEach(s) by { MeansOneCallback(s); }
  }

  lemma MeansNoneMissed(s: Sched)
    requires WakeInv(s.queues, s.signals, s.worker)
    ensures NoRequestMissed(s)
  {
    if s.worker == Yield {
      forall c ensures Announced(s.queues.Of(c), s.signals) {
        assert Past(s.worker, c);
      }
    }
  }

  lemma MeansFifo(s: Sched)
    requires QueueInv(s.queues, s.past)
    ensures FirstInFirstOut(s)
  {
    forall c ensures Fifo(s.queues.Of(c), s.past, c) {
    }
  }

  lemma MeansOneCallback(s: Sched)
    requires UniqueInv(s.queues, s.past) && CallInv(s.past, s.worker)
    ensures OneCallbackEach(s)
  {
    var done, calls := Done(s.past, s.worker), multiset(CallIds(s.past.calls));
    forall r | r in done ensures calls[r.id] == if r.callback == NoCallback then 0 else 1 {
      var i :| 0 <= i < |done| && done[i] == r;
      CalledOnce(done, i);
    }
    forall id | id in calls ensures Known(done, id) {
      CalledIsKnown(done, id);
    }
  }

  lemma StartedOk()
    ensures SchedInv(STARTED)
  {
    assert forall c :: STARTED.queues.Of(c) == [];
    forall c ensures Fifo(STARTED.queues.Of(c), STARTED.past, c) {
    }
    assert CallIds([]) == [];
  }

  /** For any number of threads, any requests and any interleaving with the worker. */
  lemma {:induction false} SchedulerIsSound(run: seq<Sched>, steps: seq<Step>)
    requires |run| == |steps| + 1 && run[0] == STARTED
    requires forall i :: 0 <= i < |steps| ==> Enabled(run[i], steps[i]) && run[i + 1] == Apply(run[i], steps[i])
    ensures var s := run[|steps|];
            && SchedInv(s)
            && NoRequestMissed(s) && FirstInFirstOut(s) && PrioritiesKept(s) && OneCallbackEach(s) && ResultsAreAnswers(s)
            && (s.worker == Exited ==> s.signals.stop)
    decreases |steps|
  {
    var n := |steps|;
    hide Enabled, Apply, SchedInv, NoRequestMissed, FirstInFirstOut, PrioritiesKept, OneCallbackEach, ResultsAreAnswers;
    if n == 0 {
      StartedOk();
    } else {
      SchedulerIsSound(run[..n], steps[..n - 1]);
      SchedStepKeeps(run[n - 1], steps[n - 1]);
    }
    SchedInvMeans(run[n]);
  }

  lemma ExitedStays(s: Sched, step: Step)
    requires Enabled(s, step) && s.worker == Exited
    ensures Apply(s, step).worker == Exited && Apply(s, step).past.popped == s.past.popped
    ensures Apply(s, step).past.calls == s.past.calls
  {
  }

  /** A worker that has left its loop serves nothing and calls nobody any more, whatever is still enqueued. */
  lemma {:induction false} ExitedForGood(run: seq<Sched>, steps: seq<Step>, i: nat, j: nat)
    requires |run| == |steps| + 1 && i <= j <= |steps|
    requires forall k :: 0 <= k < |steps| ==> Enabled(run[k], steps[k]) && run[k + 1] == Apply(run[k], steps[k])
    requires run[i].worker == Exited
    ensures run[j].worker == Exited && run[j].past.popped == run[i].past.popped && run[j].past.calls == run[i].past.calls
    decreases j
  {
    hide Enabled, Apply;
    if i < j {
      ExitedForGood(run, steps, i, j - 1);
      ExitedStays(run[j - 1], steps[j - 1]);
    }
  }

  // ---------- Progress ----------

  /** The worker's own steps, with the outcomes of what it serves. */
  function Works(s: Sched, outcomes: seq<bool>): Sched
    decreases |outcomes|
  {
    if outcomes == [] then s else Works(Work(s, outcomes[0]), outcomes[1..])
  }

  /** The worker has begun with the oldest request of a queue. */
  predicate Serves(s: Sched, s': Sched, c: Kind) {
    s.queues.Of(c) != [] && s'.worker == Serving(s.queues.Of(c)[0]) && s'.queues == s.queues.With(c, s.queues.Of(c)[1..])
  }

  ghost predicate ServesSome(s: Sched, s': Sched) {
    exists c :: Serves(s, s', c)
  }

  /** The worker waits in _threadYield for the flag. */
  predicate Asleep(s: Sched) {
    s.worker == Yield && !s.signals.flag
  }

  predicate SomeQueued(queues: Queues) {
    queues.trees != [] || queues.pulls != [] || queues.pushes != []
  }

  /** How many steps at most until a queued request is in service. */
  function StepsLeft(w: Worker, queues: Queues): nat {
    match w
    case CheckTree => if queues.trees != [] then 1 else if queues.pulls != [] then 2 else 3
    case CheckPull => if queues.pulls != [] then 1 else if queues.pushes != [] then 2 else 5
    case CheckPush => if queues.pushes != [] then 1 else if queues.trees != [] then 4 else 5
    case CheckStop => if queues.trees != [] then 3 else if queues.pulls != [] then 4 else 5
    case Yield => if queues.trees != [] then 2 else if queues.pulls != [] then 3 else 4
    case Serving(_) => 5
    case Unlocking(_, _) => 4
    case Exited => 0
  }

  lemma WorkGoesOn(s: Sched, outcome: bool)
    requires !s.signals.stop && s.worker != Exited && !Asleep(s) && SomeQueued(s.queues)
    ensures var s' := Work(s, outcome);
            || ServesSome(s, s')
            || (s'.queues == s.queues && !s'.signals.stop && s'.worker != Exited
                && StepsLeft(s'.worker, s'.queues) < StepsLeft(s.worker, s.queues))
  {
    var s' := Work(s, outcome);
    if s'.queues != s.queues {
      var c := if s.worker == CheckTree then Tree else if s.worker == CheckPull then Pull else Push;
      assert Serves(s, s', c);
    }
  }

  lemma {:induction false} ServesSoon(s: Sched, outcomes: seq<bool>) returns (n: nat)
    requires !s.signals.stop && s.worker != Exited && SomeQueued(s.queues)
    requires |outcomes| >= StepsLeft(s.worker, s.queues)
    ensures n <= StepsLeft(s.worker, s.queues)
    ensures var s' := Works(s, outcomes[..n]); ServesSome(s, s') || (Asleep(s') && s'.queues == s.queues)
    decreases StepsLeft(s.worker, s.queues)
  {
    hide Work, ServesSome;
    if Asleep(s) {
      return 0;
    }
    WorkGoesOn(s, outcomes[0]);
    var s' := Work(s, outcomes[0]);
    if ServesSome(s, s') {
      n := 1;
      assert Works(s', []) == s' && outcomes[..1][1..] == [];
    } else {
      n := ServesSoon(s', outcomes[1..]);
      assert outcomes[..n + 1][1..] == outcomes[1..][..n];
      if ServesSome(s', Works(s', outcomes[1..][..n])) {
        SameQueuesServed(s, s', Works(s', outcomes[1..][..n]));
      }
      n := n + 1;
    }
  }

  lemma SameQueuesServed(s: Sched, s1: Sched, s': Sched)
    requires s1.queues == s.queues && ServesSome(s1, s')
    ensures ServesSome(s, s')
  {
    var c :| Serves(s1, s', c);
    assert Serves(s, s', c);
  }

  lemma WorkKeeps(s: Sched, outcome: bool)
    requires SchedInv(s)
    ensures SchedInv(Work(s, outcome))
  {
    hide SchedInv, Work;
    SchedStepKeeps(s, WorkStep(outcome));
  }

  lemma {:induction false} WorksKeep(s: Sched, outcomes: seq<bool>)
    requires SchedInv(s)
    ensures SchedInv(Works(s, outcomes))
    decreases |outcomes|
  {
    if outcomes != [] {
      hide SchedInv, Work;
      WorkKeeps(s, outcomes[0]);
      WorksKeep(Work(s, outcomes[0]), outcomes[1..]);
    }
  }

  /** The worker announces nothing and stops nobody. */
  lemma {:induction false} SignalsKept(s: Sched, outcomes: seq<bool>)
    ensures var now := Works(s, outcomes).signals;
            now.pending == s.signals.pending && now.stopping == s.signals.stopping && now.stop == s.signals.stop
    decreases |outcomes|
  {
    if outcomes != [] {
      assert var now := Work(s, outcomes[0]).signals;
             now.pending == s.signals.pending && now.stopping == s.signals.stopping && now.stop == s.signals.stop;
      hide Work;
      SignalsKept(Work(s, outcomes[0]), outcomes[1..]);
    }
  }

  /**
   In every reachable state in which a request is queued and nobody stopped the worker: after at most five steps of its own it
   serves the oldest request of a queue, whatever comes out of what it does meanwhile; or it waits for the flag, and then the
   thread of every queued request has yet to set it.
   */
  lemma QueuedIsServed(s: Sched, outcomes: seq<bool>) returns (n: nat)
    requires SchedInv(s) && !s.signals.stop && SomeQueued(s.queues) && |outcomes| >= 5
    ensures n <= 5
    ensures var s' := Works(s, outcomes[..n]);
            || ServesSome(s, s')
            || (Asleep(s') && s'.queues == s.queues && forall c, r :: r in s.queues.Of(c) ==> r.id in s.signals.pending)
  {
    n := ServesSoon(s, outcomes);
    WorksKeep(s, outcomes[..n]);
    SignalsKept(s, outcomes[..n]);
    SchedInvMeans(Works(s, outcomes[..n]));
    hide SchedInv, Works, ServesSome;
  }

  function StepsToStop(w: Worker): nat {
    match w
    case Serving(_) => 6
    case Unlocking(_, _) => 5
    case Yield => 5
    case CheckTree => 4
    case CheckPull => 3
    case CheckPush => 2
    case CheckStop => 1
    case Exited => 0
  }

  lemma {:induction false} StopsSoon(s: Sched, outcomes: seq<bool>) returns (n: nat)
    requires s.signals.stop && !SomeQueued(s.queues) && |outcomes| >= StepsToStop(s.worker)
    ensures n <= StepsToStop(s.worker)
    ensures var s' := Works(s, outcomes[..n]); s'.worker == Exited || Asleep(s')
    decreases StepsToStop(s.worker)
  {
    if s.worker == Exited || Asleep(s) {
      return 0;
    }
    var s' := Work(s, outcomes[0]);
    assert s'.signals.stop && s'.queues == s.queues && StepsToStop(s'.worker) < StepsToStop(s.worker);
    hide Work;
    n := StopsSoon(s', outcomes[1..]);
    assert outcomes[..n + 1][1..] == outcomes[1..][..n];
    n := n + 1;
  }

  /**
   A stopped worker that finds nothing queued leaves its loop, unless it waits for the flag and the thread that stopped it
   has yet to set it.
   */
  lemma StopEndsWorker(s: Sched, outcomes: seq<bool>) returns (n: nat)
    requires SchedInv(s) && s.signals.stop && !SomeQueued(s.queues) && |outcomes| >= 7
    ensures n <= 7
    ensures var s' := Works(s, outcomes[..n]); s'.worker == Exited || (Asleep(s') && s'.signals.stopping)
  {
    n := StopsSoon(s, outcomes);
    WorksKeep(s, outcomes[..n]);
    SignalsKept(s, outcomes[..n]);
    SchedInvMeans(Works(s, outcomes[..n]));
    hide SchedInv, Works;
  }
}
