/** No task is ever lost, whatever the order in which recovery, dispatch and reports interleave. */
module Custody {
  import opened Records
  import opened TaskStorage
  import opened WorkerRegistry
  import opened Cluster

  /** The task the dispatcher has popped and not yet disposed of. */
  function Hand(d: Dispatcher): set<TaskId> {
    if d.Holds() then {d.task.taskId} else {}
  }

  ghost predicate DispatchedAt(r: TaskRecord, pool: Pool, now: int) {
    r.state.Assigned? && r.assignedWorker in pool && r.assignedAt.Some? && 0 < r.assignedAt.value <= now
  }

  /** Somebody answers for the task: it is finished, or assigned to a registered worker at a recorded
      time, or pending, on no worker, and in the queue or in hand. */
  ghost predicate Kept(st: Store, pool: Pool, now: int, hand: set<TaskId>, id: TaskId)
    requires id in st.tasks
  {
    || st.tasks[id].Terminal()
    || DispatchedAt(st.tasks[id], pool, now)
    || (st.tasks[id].state.Pending? && st.tasks[id].assignedWorker == "" && (HasEntry(st, id) || id in hand))
  }

  ghost predicate AllKept(st: Store, pool: Pool, now: int, hand: set<TaskId>) {
    forall id :: id in st.tasks ==> Kept(st, pool, now, hand, id)
  }

  ghost predicate PoolReady(s: State) {
    && s.now > 0
    && (forall id :: id in s.pool ==> s.pool[id].workerId == id)
    && (!s.disp.Idle? ==> s.disp.worker.workerId in s.pool)
  }

  ghost predicate NoneLost(s: State) {
    KeysMatch(s.store) && PoolReady(s) && AllKept(s.store, s.pool, s.now, Hand(s.disp))
  }

  lemma KeptLonger(st: Store, pool: Pool, now: int, hand: set<TaskId>, pool': Pool, now': int)
    requires AllKept(st, pool, now, hand) && pool.Keys <= pool'.Keys && now <= now'
    ensures AllKept(st, pool', now', hand)
  {
    forall id | id in st.tasks
      ensures Kept(st, pool', now', hand, id)
    {
      assert Kept(st, pool, now, hand, id);
    }
  }

  lemma EntryStays(st: Store, st': Store, id: TaskId)
    requires HasEntry(st, id) && st.queue <= st'.queue
    ensures HasEntry(st', id)
  {
    var e :| e in st.queue && e.taskId == id;
    assert e in st'.queue;
  }

  /** A step that rewrites the record of `id` only, and loses no entry, keeps all other tasks. */
  lemma OthersKept(st: Store, st': Store, pool: Pool, now: int, hand: set<TaskId>, id: TaskId)
    requires AllKept(st, pool, now, hand) && st.queue <= st'.queue
    requires forall j :: j in st'.tasks && j != id ==> j in st.tasks && st'.tasks[j] == st.tasks[j]
    requires id in st'.tasks ==> Kept(st', pool, now, hand - {id}, id)
    ensures AllKept(st', pool, now, hand - {id})
  {
    forall j | j in st'.tasks
      ensures Kept(st', pool, now, hand - {id}, j)
    {
      if j != id {
        assert Kept(st, pool, now, hand, j);
        if HasEntry(st, j) { EntryStays(st, st', j); }
      }
    }
  }

  lemma MoreHands(st: Store, pool: Pool, now: int, hand: set<TaskId>, hand': set<TaskId>)
    requires AllKept(st, pool, now, hand) && hand <= hand'
    ensures AllKept(st, pool, now, hand')
  {
    forall id | id in st.tasks
      ensures Kept(st, pool, now, hand', id)
    {
      assert Kept(st, pool, now, hand, id);
    }
  }

  lemma AddKeeps(st: Store, pool: Pool, now: int, hand: set<TaskId>, id: TaskId, priority: int, payload: string)
    requires AllKept(st, pool, now, hand)
    ensures AllKept(AddTask(st, id, priority, payload, now), pool, now, hand)
  {
    var st' := AddTask(st, id, priority, payload, now);
    assert st'.tasks[id] in st'.queue;
    OthersKept(st, st', pool, now, hand, id);
    MoreHands(st', pool, now, hand - {id}, hand);
  }

  lemma AssignKeeps(st: Store, pool: Pool, now: int, hand: set<TaskId>, id: TaskId, worker: WorkerId)
    requires AllKept(st, pool, now, hand) && worker in pool && now > 0
    ensures AllKept(AssignTask(st, id, worker, now), pool, now, hand - {id})
  {
    OthersKept(st, AssignTask(st, id, worker, now), pool, now, hand, id);
  }

  lemma ReportKeeps(st: Store, pool: Pool, now: int, hand: set<TaskId>, r: TaskResult)
    requires AllKept(st, pool, now, hand)
    ensures AllKept(ApplyReport(st, r, now), pool, now, hand)
  {
    var st' := ApplyReport(st, r, now);
    if st' != st {
      OthersKept(st, st', pool, now, hand, r.taskId);
      MoreHands(st', pool, now, hand - {r.taskId}, hand);
    }
  }

  /** However stale the list it comes from, a requeue leaves its task kept without the dispatcher. */
  lemma RequeueKeeps(st: Store, pool: Pool, now: int, hand: set<TaskId>, id: TaskId)
    requires AllKept(st, pool, now, hand) && KeysMatch(st)
    ensures AllKept(RequeueTask(st, id), pool, now, hand - {id})
  {
    var st' := RequeueTask(st, id);
    if CanRequeue(st, id) { assert st'.tasks[id] in st'.queue; }
    OthersKept(st, st', pool, now, hand, id);
  }

  lemma RequeueKeepsToo(st: Store, pool: Pool, now: int, hand: set<TaskId>, id: TaskId)
    requires AllKept(st, pool, now, hand) && KeysMatch(st)
    ensures AllKept(RequeueTask(st, id), pool, now, hand) && KeysMatch(RequeueTask(st, id))
  {
    RequeueKeeps(st, pool, now, hand, id);
    MoreHands(RequeueTask(st, id), pool, now, hand - {id}, hand);
  }

  lemma PopKeeps(st: Store, pool: Pool, now: int, top: TaskRecord, dropped: multiset<TaskRecord>, rest: multiset<TaskRecord>)
    requires AllKept(st, pool, now, {}) && PopTakes(st, top, dropped, rest)
    ensures AllKept(st.(queue := rest), pool, now, {top.taskId})
  {
    var st' := st.(queue := rest);
    forall id | id in st.tasks
      ensures Kept(st', pool, now, {top.taskId}, id)
    {
      assert Kept(st, pool, now, {}, id);
      if st.tasks[id].state.Pending? {
        var e :| e in st.queue && e.taskId == id;
        assert e in dropped || e == top || e in rest;
      }
    }
  }

  lemma PopNothingKeeps(st: Store, pool: Pool, now: int)
    requires AllKept(st, pool, now, {}) && PopFindsNone(st)
    ensures AllKept(st.(queue := multiset{}), pool, now, {})
  {
    var st' := st.(queue := multiset{});
    forall id | id in st.tasks
      ensures Kept(st', pool, now, {}, id)
    {
      assert Kept(st, pool, now, {}, id);
      if HasEntry(st, id) {
        var e :| e in st.queue && e.taskId == id;
        assert Stale(st, e);
      }
    }
  }

  lemma DispatchKeepsPoolReady(s: State, d: DispatchStep)
    requires PoolReady(s) && DispatchEnabled(s, d)
    ensures PoolReady(DispatchApply(s, d)) && s.pool.Keys <= DispatchApply(s, d).pool.Keys
    ensures DispatchApply(s, d).now == s.now
  {
    match d {
      case Select(w) => assert IsEligible(s.pool, w);
      case _ =>
    }
  }

  lemma DispatchRequeueKeepsTasks(s: State, d: DispatchStep)
    requires NoneLost(s) && DispatchEnabled(s, d) && (d.RequeueHand? || d.Refuse? || d.RequeueListed?)
    ensures AllKept(DispatchApply(s, d).store, s.pool, s.now, Hand(DispatchApply(s, d).disp))
  {
    match d {
      case RequeueHand => RequeueKeeps(s.store, s.pool, s.now, Hand(s.disp), s.disp.task.taskId);
      case Refuse => RequeueKeeps(s.store, s.pool, s.now, Hand(s.disp), s.disp.task.taskId);
      case RequeueListed(id) => RequeueKeepsToo(s.store, s.pool, s.now, Hand(s.disp), id);
    }
  }

  lemma PopKeepsTasks(s: State, top: TaskRecord, dropped: multiset<TaskRecord>, rest: multiset<TaskRecord>)
    requires NoneLost(s) && DispatchEnabled(s, Pop(top, dropped, rest))
    ensures var s' := DispatchApply(s, Pop(top, dropped, rest));
            AllKept(s'.store, s.pool, s.now, Hand(s'.disp))
  {
    PopKeeps(s.store, s.pool, s.now, top, dropped, rest);
  }

  lemma DispatchKeepsTasks(s: State, d: DispatchStep)
    requires NoneLost(s) && DispatchEnabled(s, d)
    ensures var s' := DispatchApply(s, d);
            KeysMatch(s'.store) && AllKept(s'.store, s.pool, s.now, Hand(s'.disp))
  {
    DispatchKeepsKeys(s, d);
    match d {
      case Pop(top, dropped, rest) => PopKeepsTasks(s, top, dropped, rest);
      case PopNothing => PopNothingKeeps(s.store, s.pool, s.now);
      case Assign => AssignKeeps(s.store, s.pool, s.now, Hand(s.disp), s.disp.task.taskId, s.disp.worker.workerId);
      case RequeueHand => DispatchRequeueKeepsTasks(s, d);
      case Refuse => DispatchRequeueKeepsTasks(s, d);
      case RequeueListed(_) => DispatchRequeueKeepsTasks(s, d);
      case _ =>
    }
  }

  lemma DispatchKeepsKeys(s: State, d: DispatchStep)
    requires KeysMatch(s.store) && DispatchEnabled(s, d)
    ensures KeysMatch(DispatchApply(s, d).store)
  {
    DispatchStoreChange(s, d);
  }

  lemma DispatchLosesNone(s: State, d: DispatchStep)
    requires NoneLost(s) && DispatchEnabled(s, d)
    ensures NoneLost(DispatchApply(s, d))
  {
    var s' := DispatchApply(s, d);
    DispatchKeepsPoolReady(s, d);
    DispatchKeepsTasks(s, d);
    KeptLonger(s'.store, s.pool, s.now, Hand(s'.disp), s'.pool, s'.now);
  }

  /** The steps of the other routines touch the store by at most one operation, grow the pool and the
      clock, and leave the dispatcher's hand alone. */
  lemma OthersLoseNone(s: State, s': State)
    requires NoneLost(s) && KeysMatch(s'.store) && PoolReady(s')
    requires AllKept(s'.store, s.pool, s.now, Hand(s.disp))
    requires s.pool.Keys <= s'.pool.Keys && s.now <= s'.now && Hand(s'.disp) == Hand(s.disp)
    ensures NoneLost(s')
  {
    KeptLonger(s'.store, s.pool, s.now, Hand(s.disp), s'.pool, s'.now);
  }

  lemma HealthLosesNone(s: State, h: HealthStep)
    requires NoneLost(s) && HealthEnabled(s, h)
    ensures NoneLost(HealthApply(s, h))
  {
    match h {
      case RequeueOrphan(id) => RequeueKeepsToo(s.store, s.pool, s.now, Hand(s.disp), id);
      case RequeueLate(id) => RequeueKeepsToo(s.store, s.pool, s.now, Hand(s.disp), id);
      case _ =>
    }
    OthersLoseNone(s, HealthApply(s, h));
  }

  lemma RegistrationLosesNone(s: State, t: nat, r: RegistrationStep)
    requires NoneLost(s) && RegistrationEnabled(s, t, r)
    ensures NoneLost(RegistrationApply(s, t, r))
  {
    match r {
      case RequeueOld(id) => RequeueKeepsToo(s.store, s.pool, s.now, Hand(s.disp), id);
      case _ =>
    }
    OthersLoseNone(s, RegistrationApply(s, t, r));
  }

  lemma HandlerLosesNone(s: State, t: nat, p: HandlerStep)
    requires NoneLost(s) && HandlerEnabled(s, t, p)
    ensures NoneLost(HandlerApply(s, t, p))
  {
    if p.StoreReport? { ReportKeeps(s.store, s.pool, s.now, Hand(s.disp), s.handlers[t].msg.report); }
    OthersLoseNone(s, HandlerApply(s, t, p));
  }

  lemma StepLosesNone(s: State, step: Step)
    requires NoneLost(s) && Enabled(s, step)
    ensures NoneLost(Apply(s, step))
  {
    match step {
      case Submit(id, priority, payload) =>
        AddKeeps(s.store, s.pool, s.now, Hand(s.disp), id, priority, payload);
        OthersLoseNone(s, Apply(s, step));
      case Tick(ms) => OthersLoseNone(s, Apply(s, step));
      case Dispatch(d) => DispatchLosesNone(s, d);
      case Health(h) => HealthLosesNone(s, h);
      case Registering(t, r) => RegistrationLosesNone(s, t, r);
      case Handling(t, p) => HandlerLosesNone(s, t, p);
      case Working(w, x) => OthersLoseNone(s, WorkerApply(s, w, x));
      case BeatArrives(b) => OthersLoseNone(s, Apply(s, step));
    }
  }

  lemma {:induction false} RunLosesNone(s: State, steps: seq<Step>, s': State)
    requires NoneLost(s) && Runs(s, steps, s')
    ensures NoneLost(s')
    decreases |steps|
  {
    if steps != [] {
      StepLosesNone(s, steps[0]);
      RunLosesNone(Apply(s, steps[0]), steps[1..], s');
    }
  }

  /** No task is ever lost: in every reachable state every submitted task is finished, or assigned to
      a registered worker with a positive assignment time not in the future, or pending on no worker
      with a queue entry or in the dispatcher's hand. */
  lemma NoTaskIsLost(s: State)
    requires Reachable(s)
    ensures forall id :: id in s.store.tasks ==> Kept(s.store, s.pool, s.now, Hand(s.disp), id)
    ensures NoneLost(s)
  {
    var s0 :| Init(s0) && Reaches(s0, s);
    var steps :| Runs(s0, steps, s);
    RunLosesNone(s0, steps, s);
  }
}
