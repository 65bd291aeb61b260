/** Runs that show four properties fail without their conditions: a finished task can be taken back,
    the load estimate can exceed the capacity, a task can be queued twice, and the totals can lag
    behind the finished tasks. Each starts from any fresh cluster, for any worker with a slot. */
module Witnesses {
  import opened Records
  import opened TaskStorage
  import opened WorkerRegistry
  import opened PrimeTask
  import opened WorkerProcess
  import opened Cluster
  import opened Provenance
  import opened Urgency
  import opened Load
  import opened CompletionLedger
  import opened QueueAccounting
  import opened Progress
  import opened Completion

  /** A step of any kind. */
  lemma Next(s: State, step: Step) returns (s': State)
    requires Reachable(s) && Enabled(s, step)
    ensures s' == Apply(s, step) && Reaches(s, s') && Reachable(s')
  {
    s' := Apply(s, step);
    ReachesStep(s, step);
    ReachableExtends(s, s');
  }

  lemma ReachesVia(kind: StepKind, a: State, b: State, c: State)
    requires Reaches(a, b) && Via(kind, b, c)
    ensures Reaches(a, c)
  {
    ViaReaches(kind, b, c);
    ReachesTransitive(a, b, c);
  }

  /** Worker `w` registers with the fresh coordinator. */
  lemma FirstRegistration(s: State, w: WorkerId) returns (s': State)
    requires Reachable(s) && w in s.procs && w !in s.pool && s.regs == map[]
    ensures Reaches(s, s') && Reachable(s')
    ensures s'.pool == RegisterWorker(s.pool, w, s.procs[w].address, s.procs[w].capacity, s.now)
    ensures s' == s.(pool := s'.pool)
  {
    var s1 := Next(s, Registering(0, Arrive(w, s.procs[w].address)));
    var s2 := Next(s1, Registering(0, LookUp));
    s' := Next(s2, Registering(0, Register));
    assert s'.regs == map[];
    ReachesTransitive(s, s1, s2);
    ReachesTransitive(s, s2, s');
  }

  // ---- filling a worker

  lemma {:induction false} LongerThanAll(ids: set<TaskId>) returns (n: nat)
    ensures forall id :: id in ids ==> |id| < n
    decreases |ids|
  {
    if ids == {} {
      n := 0;
    } else {
      var id :| id in ids;
      n := LongerThanAll(ids - {id});
      if n <= |id| { n := |id| + 1; }
      assert forall j :: j in ids ==> j == id || j in ids - {id};
    }
  }

  lemma FreshId(ids: set<TaskId>) returns (id: TaskId)
    ensures id !in ids
  {
    var n := LongerThanAll(ids);
    id := seq(n, i => 'x');
    assert |id| == n;
  }

  /** The registered worker `w`, and no other, with `n` tasks on both sides' counts. */
  ghost predicate Loaded(s: State, w: WorkerId, n: int) {
    && Reachable(s) && Usable(s, w) && s.disp.Idle?
    && s.pool.Keys == {w} && s.pool[w].alive && s.pool[w].activeTasks == n
    && s.procs[w].active == n
  }

  /** The dispatcher's call has been accepted, and only the worker counts the task. */
  ghost predicate Accepting(s: State, w: WorkerId, k: nat, n: int) {
    && Reachable(s) && Usable(s, w) && HasAccepted(s, w, k)
    && s.pool.Keys == {w} && s.pool[w].alive && s.pool[w].activeTasks == n
    && s.procs[w].active == n + 1
  }

  lemma OnlyWorkerIsLeastLoaded(s: State, w: WorkerId, n: int)
    requires Loaded(s, w, n) && n < s.procs[w].capacity
    ensures LeastLoaded(s.pool, w)
  {
    LoadEstimateIsBounded(s);
    assert EstimatesBounded(s);
  }

  /** One more task is submitted, popped, and accepted by the worker. */
  lemma OneMoreAccepted(s: State, w: WorkerId, n: int, id: TaskId, priority: int, payload: string)
    returns (s': State, k: nat)
    requires Loaded(s, w, n) && n < s.procs[w].capacity && id !in s.store.tasks && payload != ""
    ensures Reaches(s, s') && Accepting(s', w, k, n) && s'.procs[w].live.Keys == s.procs[w].live.Keys + {k}
    ensures s'.store.tasks == AddTask(s.store, id, priority, payload, s.now).tasks
    ensures s'.disp.task.taskId in s'.store.tasks
    ensures s'.ledger == s.ledger && s'.procs[w].capacity == s.procs[w].capacity
  {
    var s1 := Next(s, Submit(id, priority, payload));
    OnlyWorkerIsLeastLoaded(s1, w, n);
    var s2 := CallWorker(s1, w, id);
    s', k := WorkerAccepts(s2, w);
    ReachesVia(OwnSteps, s, s1, s2);
    ReachesVia(OwnSteps, s, s2, s');
  }

  lemma FirstLoaded(s0: State, w: WorkerId) returns (s': State)
    requires Init(s0) && w in s0.procs && s0.procs[w].capacity >= 1
    ensures Reaches(s0, s') && Loaded(s', w, 0)
    ensures s'.store == s0.store && s'.ledger == s0.ledger && s'.procs == s0.procs
  {
    InitIsReachable(s0);
    s' := FirstRegistration(s0, w);
    assert s'.pool.Keys == {w};
  }

  /** The fresh cluster brought to the point where `w` has accepted the only task. */
  lemma FirstAcceptance(s0: State, w: WorkerId, id: TaskId, priority: int, payload: string) returns (s': State, k: nat)
    requires Init(s0) && w in s0.procs && s0.procs[w].capacity >= 1 && payload != ""
    ensures Reaches(s0, s') && Accepting(s', w, k, 0) && s'.procs[w].live.Keys == {k}
    ensures s'.store.tasks.Keys == {id} && s'.store.tasks[id].payload == payload && s'.disp.task.taskId == id
    ensures s'.ledger == s0.ledger
  {
    var s1 := FirstLoaded(s0, w);
    s', k := OneMoreAccepted(s1, w, 0, id, priority, payload);
    assert s'.store.tasks.Keys == {id};
    assert s1.procs[w].live.Keys == {};
    ReachesTransitive(s0, s1, s');
  }

  /** Tasks are dispatched to the worker until it has `m`. */
  lemma {:induction false} Fill(s: State, w: WorkerId, n: nat, m: nat, priority: int, payload: string) returns (s': State)
    requires Loaded(s, w, n) && n <= m <= s.procs[w].capacity && payload != ""
    ensures Reaches(s, s') && Loaded(s', w, m) && s'.procs[w].capacity == s.procs[w].capacity
    decreases m - n
  {
    if n == m {
      s' := s;
      ReachesItself(s);
    } else {
      var s1 := OneMoreDispatched(s, w, n, priority, payload);
      s' := Fill(s1, w, n + 1, m, priority, payload);
      ReachesTransitive(s, s1, s');
    }
  }

  lemma OneMoreDispatched(s: State, w: WorkerId, n: nat, priority: int, payload: string) returns (s': State)
    requires Loaded(s, w, n) && n < s.procs[w].capacity && payload != ""
    ensures Reaches(s, s') && Loaded(s', w, n + 1) && s'.procs[w].capacity == s.procs[w].capacity
  {
    var id := FreshId(s.store.tasks.Keys);
    var s1, k := OneMoreAccepted(s, w, n, id, priority, payload);
    s' := DispatcherRecords(s1);
    assert s'.pool.Keys == {w};
    ReachesVia(OwnSteps, s, s1, s');
  }

  // ---- a finished task is taken back

  lemma AnswerIsRead(s: State) returns (s': State)
    requires Reachable(s) && s.disp.Calling? && s.disp.reply.SaidYes?
    ensures Reaches(s, s') && s' == s.(disp := Accepted(s.disp.worker, s.disp.task))
  {
    s' := Next(s, Dispatch(Receive));
  }

  lemma AssignTakesBack(s: State, id: TaskId)
    requires s.disp.Accepted? && s.disp.task.taskId == id && id in s.store.tasks
    ensures Enabled(s, Dispatch(Assign)) && !Finished(Apply(s, Dispatch(Assign)).store, id)
  {
  }

  /** A finished task can be taken back: for any payload and any worker there is a run in which the
      report arrives before the dispatcher records the assignment, which then overwrites the state. */
  lemma FinishedTaskCanBeTakenBack(s0: State, w: WorkerId, id: TaskId, priority: int, payload: string)
    requires Init(s0) && w in s0.procs && s0.procs[w].capacity >= 1 && payload != ""
    ensures exists s :: Reaches(s0, s) && Finished(s.store, id)
                        && Enabled(s, Dispatch(Assign)) && !Finished(Apply(s, Dispatch(Assign)).store, id)
  {
    var s1, k := FirstAcceptance(s0, w, id, priority, payload);
    var s2 := WorkerFinishes(s1, w, k);
    var s3 := AnswerIsRead(s2);
    AssignTakesBack(s3, id);
    ReachesVia(ReportSteps, s0, s1, s2);
    ReachesTransitive(s0, s2, s3);
  }

  // ---- the estimate exceeds the capacity

  lemma SetLoad(s: State, w: WorkerId) returns (s': State)
    requires Reachable(s) && Usable(s, w)
    ensures Reaches(s, s') && Reachable(s') && Usable(s', w)
    ensures s'.pool[w].activeTasks == s.procs[w].active && s'.disp == s.disp && s'.procs == s.procs
  {
    SendingABeat(s, w);
    var s1 := Next(s, Working(w, SendBeat));
    s' := Next(s1, BeatArrives(Beat(w, s.procs[w].active)));
    ReachesTransitive(s, s1, s');
  }

  /** The load estimate can exceed the capacity by one, whatever the capacity: the worker fills up, and
      a heartbeat that already counts its last task arrives before the dispatcher counts it too. */
  lemma LoadEstimateCanOvershoot(s0: State, w: WorkerId, priority: int, payload: string)
    requires Init(s0) && w in s0.procs && s0.procs[w].capacity >= 1 && payload != ""
    ensures exists s :: Reaches(s0, s) && w in s.pool && s.pool[w].activeTasks == s0.procs[w].capacity + 1
  {
    var n := s0.procs[w].capacity - 1;
    var s1 := FirstLoaded(s0, w);
    var s2 := Fill(s1, w, 0, n, priority, payload);
    var id := FreshId(s2.store.tasks.Keys);
    var s3, k := OneMoreAccepted(s2, w, n, id, priority, payload);
    var s4 := SetLoad(s3, w);
    var s5 := DispatcherRecords(s4);
    ReachesTransitive(s0, s1, s2);
    ReachesTransitive(s0, s2, s3);
    ReachesTransitive(s0, s3, s4);
    ReachesVia(OwnSteps, s0, s4, s5);
  }

  // ---- a task is queued twice

  lemma ThreadArrives(s: State, t: nat, w: WorkerId) returns (s': State)
    requires Reachable(s) && w in s.procs && t !in s.regs
    ensures Reaches(s, s') && Reachable(s') && s' == s.(regs := s.regs[t := Arrived(w, "")])
  {
    s' := Next(s, Registering(t, Arrive(w, "")));
  }

  lemma ThreadLooksUp(s: State, t: nat) returns (s': State)
    requires Reachable(s) && t in s.regs && s.regs[t].Arrived? && s.regs[t].worker in s.pool
    ensures Reaches(s, s') && Reachable(s')
    ensures s' == s.(regs := s.regs[t := Known(s.regs[t].worker, s.regs[t].address)])
  {
    s' := Next(s, Registering(t, LookUp));
  }

  lemma ThreadLists(s: State, t: nat) returns (s': State)
    requires Reachable(s) && t in s.regs && s.regs[t].Known?
    ensures Reaches(s, s') && Reachable(s')
    ensures var x := s.regs[t];
            s' == s.(regs := s.regs[t := Returning(x.worker, x.address, TasksOfWorker(s.store, x.worker))])
  {
    s' := Next(s, Registering(t, ListOld));
  }

  lemma LastUpdateWins(m: map<nat, Registration>, t: nat, a: Registration, b: Registration, c: Registration)
    ensures m[t := a][t := b][t := c] == m[t := c]
  {
  }

  /** A registration handler for the known worker `w` lists its tasks. */
  lemma HandlerLists(s: State, w: WorkerId, t: nat) returns (s': State)
    requires Reachable(s) && w in s.procs && w in s.pool && t !in s.regs
    ensures Reaches(s, s') && Reachable(s')
    ensures s' == s.(regs := s.regs[t := Returning(w, "", TasksOfWorker(s.store, w))])
  {
    var s1 := ThreadArrives(s, t, w);
    var s2 := ThreadLooksUp(s1, t);
    s' := ThreadLists(s2, t);
    LastUpdateWins(s.regs, t, Arrived(w, ""), Known(w, ""), Returning(w, "", TasksOfWorker(s.store, w)));
    ReachesTransitive(s, s1, s2);
    ReachesTransitive(s, s2, s');
  }

  lemma RequeuedTwice(st: Store, id: TaskId)
    requires CanRequeue(st, id)
    ensures var st' := RequeueTask(RequeueTask(st, id), id);
            id in st'.tasks && st'.queue[st'.tasks[id]] >= 2
  {
  }

  lemma HandlerRequeues(s: State, t: nat, id: TaskId) returns (s': State)
    requires Reachable(s) && t in s.regs && s.regs[t].Returning? && id in s.regs[t].todo
    ensures Reaches(s, s') && Reachable(s') && s'.store == RequeueTask(s.store, id)
    ensures forall u :: u in s.regs && u != t ==> u in s'.regs && s'.regs[u] == s.regs[u]
  {
    s' := Next(s, Registering(t, RequeueOld(id)));
  }

  /** Two registrations of its worker that both list an assigned task before either requeues it put it
      into the queue twice. */
  lemma AssignedTaskIsQueuedTwice(s: State, w: WorkerId, id: TaskId) returns (s': State)
    requires Reachable(s) && w in s.procs && w in s.pool
    requires id in s.store.tasks && s.store.tasks[id].state.Assigned? && s.store.tasks[id].assignedWorker == w
    ensures Reaches(s, s') && id in s'.store.tasks && s'.store.queue[s'.store.tasks[id]] >= 2
  {
    var t := FreshThread(s.regs);
    var s1 := HandlerLists(s, w, t);
    var u := FreshThread(s1.regs);
    var s2 := HandlerLists(s1, w, u);
    assert id in TasksOfWorker(s.store, w);
    var s3 := HandlerRequeues(s2, t, id);
    s' := HandlerRequeues(s3, u, id);
    ReachesTransitive(s, s1, s2);
    ReachesTransitive(s, s2, s3);
    ReachesTransitive(s, s3, s');
    RequeuedTwice(s.store, id);
  }

  lemma TwiceIsNotUnique(q: multiset<TaskRecord>, e: TaskRecord)
    requires q[e] >= 2
    ensures !EntriesUnique(q)
  {
    assert e in q;
  }

  /** A task can be queued twice: any first task, dispatched to any worker. */
  lemma InterleavedRecoveriesEnqueueTwice(s0: State, w: WorkerId, id: TaskId, priority: int, payload: string)
    requires Init(s0) && w in s0.procs && s0.procs[w].capacity >= 1 && payload != ""
    ensures exists s :: Reaches(s0, s) && !EntriesUnique(s.store.queue)
                        && id in s.store.tasks && s.store.queue[s.store.tasks[id]] >= 2
  {
    var s1, k := FirstAcceptance(s0, w, id, priority, payload);
    var s2 := DispatcherRecords(s1);
    var s3 := AssignedTaskIsQueuedTwice(s2, w, id);
    ReachesVia(OwnSteps, s0, s1, s2);
    ReachesTransitive(s0, s2, s3);
    TwiceIsNotUnique(s3.store.queue, s3.store.tasks[id]);
  }

  // ---- the totals lag behind

  /** The execution is run and its report reaches a handler. */
  lemma ReportArrives(s: State, w: WorkerId, k: nat) returns (s': State, t: nat)
    requires Reachable(s) && w in s.procs && CanCompute(s.procs[w], k)
    ensures Via(ReportSteps, s, s') && Reachable(s') && s'.store == s.store && s'.ledger == s.ledger
    ensures t in s'.handlers && s'.handlers[t].Received?
    ensures s'.handlers[t].msg.report.taskId == s.procs[w].live[k].taskId
  {
    t := FreshThread(s.handlers);
    ComputeReports(s.procs[w], k);
    var s1 := RunExecution(s, w, k);
    s' := CallArrives(s1, w, k, t);
    ViaTransitive(ReportSteps, s, s1, s');
  }

  /** The report has been stored, but not counted. */
  lemma FirstReportStored(s: State, w: WorkerId, k: nat) returns (s': State)
    requires Reachable(s) && w in s.procs && CanCompute(s.procs[w], k)
    ensures Reaches(s, s') && Reachable(s') && Finished(s'.store, s.procs[w].live[k].taskId)
    ensures s'.store.tasks.Keys == s.store.tasks.Keys
    ensures s'.ledger.totalOk == s.ledger.totalOk && s'.ledger.totalErr == s.ledger.totalErr
  {
    var s1, t := ReportArrives(s, w, k);
    s' := HandlerStores(s1, t);
    ViaTransitive(ReportSteps, s, s1, s');
    ViaReaches(ReportSteps, s, s');
  }

  lemma OnlyTaskInState(s: State, id: TaskId)
    requires Reachable(s) && s.store.tasks.Keys == {id} && Finished(s.store, id)
    ensures InState(s.store, if Answer(s.store.tasks[id].payload).Success? then Completed else Failed) == {id}
  {
    ReachableIsSound(s);
    assert SoundRecord(s.store.tasks[id]);
  }

  /** The totals can lag behind the finished tasks: between the handler's call of the store and its call
      of the metrics the first task is finished, and nothing is counted. */
  lemma TotalsCanLagBehind(s0: State, w: WorkerId, id: TaskId, priority: int, payload: string)
    requires Init(s0) && w in s0.procs && s0.procs[w].capacity >= 1 && payload != ""
    ensures exists s :: Reaches(s0, s) &&
              if Answer(payload).Success? then s.ledger.totalOk < |InState(s.store, Completed)|
              else s.ledger.totalErr < |InState(s.store, Failed)|
  {
    var s1, k := FirstAcceptance(s0, w, id, priority, payload);
    var s2 := FirstReportStored(s1, w, k);
    ReachesTransitive(s0, s1, s2);
    RankIsKept(s1, s2, id);
    OnlyTaskInState(s2, id);
  }
}
