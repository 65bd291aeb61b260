/** Schedules for the coordinator's side, and the theorem that every task can always be finished. */
module Completion {
  import opened Records
  import opened TaskStorage
  import opened WorkerRegistry
  import opened WorkerProcess
  import opened Cluster
  import opened Provenance
  import opened Custody
  import opened Load
  import opened Timing
  import opened Terminal
  import opened Progress

  // ---- bringing the dispatcher home

  /** How far the dispatcher is from the top of its loop. */
  function DispatchRank(d: Dispatcher): nat {
    match d
    case Selected(_) => 9
    case Calling(_, _, _, _) => 8
    case Unreachable(_, _) => 7
    case Dead(_, _) => 6
    case Listing(_) => 5
    case Requeuing(_, _) => 4
    case Accepted(_, _) => 3
    case Recorded(_) => 2
    case Refused(_, _) => 1
    case Idle => 0
  }

  function DispatchWork(d: Dispatcher): nat {
    if d.Requeuing? then |d.todo| else 0
  }

  /** The workers, their addresses and the set of tasks are as before; the health check rests where it
      was. */
  ghost predicate WorkersUntouched(s: State, s': State) {
    && s'.procs == s.procs && s'.now == s.now
    && s'.store.tasks.Keys == s.store.tasks.Keys
    && s'.pool.Keys == s.pool.Keys
    && forall w :: w in s.pool ==> s'.pool[w].address == s.pool[w].address
  }

  /** The dispatcher always has a next step, and one that brings it closer to the top of its loop. */
  lemma NextDispatchStep(s: State) returns (d: DispatchStep)
    requires !s.disp.Idle?
    ensures DispatchEnabled(s, d)
    ensures s.disp.Selected? ==> d.Pop? || d.PopNothing?
    ensures s.disp.Calling? ==> d.TimeOut?
    ensures s.disp.Requeuing? ==> d.RequeueListed? || d.Resume?
  {
    match s.disp {
      case Selected(_) =>
        if PopFindsNone(s.store) {
          d := PopNothing;
        } else {
          var top, dropped, rest := PopExists(s.store);
          d := Pop(top, dropped, rest);
        }
      case Calling(_, _, _, _) => d := TimeOut;
      case Unreachable(_, _) => d := MarkAsDead;
      case Dead(_, _) => d := RequeueHand;
      case Listing(_) => d := ListTasks;
      case Requeuing(_, todo) =>
        if todo == {} {
          d := Resume;
        } else {
          var id :| id in todo;
          d := RequeueListed(id);
        }
      case Accepted(_, _) => d := Assign;
      case Recorded(_) => d := Increment;
      case Refused(_, _) => d := Refuse;
    }
  }

  lemma DispatchStepIsCloser(s: State, d: DispatchStep)
    requires DispatchEnabled(s, d) && !s.disp.Idle?
    requires s.disp.Calling? ==> d.TimeOut?
    ensures var d0, d1 := s.disp, DispatchApply(s, d).disp;
            || DispatchRank(d1) < DispatchRank(d0)
            || (DispatchRank(d1) == DispatchRank(d0) && DispatchWork(d1) < DispatchWork(d0))
  {
  }

  lemma OpKeepsTaskSet(st: Store, op: StoreOp, now: int)
    requires !op.Add?
    ensures ApplyOp(st, op, now).tasks.Keys == st.tasks.Keys
  {
  }

  lemma DispatchTouchesNoWorker(s: State, d: DispatchStep)
    requires DispatchEnabled(s, d)
    ensures WorkersUntouched(s, DispatchApply(s, d)) && DispatchApply(s, d).health == s.health
  {
    DispatchStoreChange(s, d);
    OpKeepsTaskSet(s.store, DispatchOp(s, d), s.now);
  }

  lemma WorkersUntouchedTransitive(a: State, b: State, c: State)
    requires WorkersUntouched(a, b) && WorkersUntouched(b, c)
    ensures WorkersUntouched(a, c)
  {
  }

  lemma {:induction false} FinishDispatch(s: State) returns (s': State)
    requires Reachable(s)
    ensures Via(DispatcherSteps, s, s') && Reachable(s') && s'.disp.Idle?
    ensures WorkersUntouched(s, s') && s'.health == s.health
    decreases DispatchRank(s.disp), DispatchWork(s.disp)
  {
    if s.disp.Idle? {
      s' := s;
      ViaItself(DispatcherSteps, s);
    } else {
      var d := NextDispatchStep(s);
      DispatchStepIsCloser(s, d);
      DispatchTouchesNoWorker(s, d);
      var s1 := Take(DispatcherSteps, s, Dispatch(d));
      s' := FinishDispatch(s1);
      ViaTransitive(DispatcherSteps, s, s1, s');
      WorkersUntouchedTransitive(s, s1, s');
    }
  }

  // ---- bringing the health check home

  function HealthPhase(h: HealthCheck): nat {
    if h.Sleeping? then 0 else if h.Late? then 1 else 2
  }

  function DeadLeft(h: HealthCheck): nat {
    if h.Marking? || h.Marked? || h.Orphans? then |h.dead| else 0
  }

  function HealthStage(h: HealthCheck): nat {
    if h.Marked? then 2 else if h.Orphans? then 1 else 0
  }

  function HealthWork(h: HealthCheck): nat {
    if h.Orphans? || h.Late? then |h.todo| else 0
  }

  lemma NextHealthStep(s: State) returns (h: HealthStep)
    requires !s.health.Sleeping?
    ensures HealthEnabled(s, h)
  {
    match s.health {
      case Marking(dead) =>
        if dead == {} {
          h := ListLate;
        } else {
          var w :| w in dead;
          h := Mark(w);
        }
      case Marked(_, _) => h := ListOrphans;
      case Orphans(todo, _) =>
        if todo == {} {
          h := NextDead;
        } else {
          var id :| id in todo;
          h := RequeueOrphan(id);
        }
      case Late(_, todo) =>
        if todo == {} {
          h := FinishPass;
        } else {
          var id :| id in todo;
          h := RequeueLate(id);
        }
    }
  }

  ghost predicate HealthCloser(a: HealthCheck, b: HealthCheck) {
    || HealthPhase(b) < HealthPhase(a)
    || (HealthPhase(b) == HealthPhase(a) && DeadLeft(b) < DeadLeft(a))
    || (HealthPhase(b) == HealthPhase(a) && DeadLeft(b) == DeadLeft(a) && HealthStage(b) < HealthStage(a))
    || (HealthPhase(b) == HealthPhase(a) && DeadLeft(b) == DeadLeft(a) && HealthStage(b) == HealthStage(a)
        && HealthWork(b) < HealthWork(a))
  }

  lemma HealthStepIsCloser(s: State, h: HealthStep)
    requires HealthEnabled(s, h) && !s.health.Sleeping?
    ensures HealthCloser(s.health, HealthApply(s, h).health)
  {
  }

  /** The clock reading the pass under way lists late tasks by: the present one if it has yet to. */
  function PassClock(s: State): int {
    if s.health.Late? then s.health.readAt else s.now
  }

  /** What the steps of the health check leave alone. */
  ghost predicate OnlyHealth(s: State, s': State) {
    Advances(s.store, s'.store) && WorkersUntouched(s, s') && s'.disp == s.disp
  }

  lemma OnlyHealthTransitive(a: State, b: State, c: State)
    requires OnlyHealth(a, b) && OnlyHealth(b, c)
    ensures OnlyHealth(a, c)
  {
  }

  lemma HealthStepAdvances(s: State, h: HealthStep)
    requires HealthEnabled(s, h)
    ensures OnlyHealth(s, HealthApply(s, h))
  {
    match h {
      case RequeueOrphan(id) => RequeueAdvances(s.store, id);
      case RequeueLate(id) => RequeueAdvances(s.store, id);
      case _ =>
    }
  }

  lemma HealthStepKeepsClock(s: State, h: HealthStep)
    requires HealthEnabled(s, h) && !s.health.Sleeping?
    ensures var s' := HealthApply(s, h);
            if s'.health.Sleeping? then s'.lastPass == PassClock(s) else PassClock(s') == PassClock(s)
  {
  }

  /** The pass runs to its end. */
  lemma {:induction false} FinishHealth(s: State) returns (s': State)
    requires Reachable(s)
    ensures Via(PassSteps, s, s') && Reachable(s') && s'.health.Sleeping? && OnlyHealth(s, s')
    ensures s'.lastPass == if s.health.Sleeping? then s.lastPass else PassClock(s)
    decreases HealthPhase(s.health), DeadLeft(s.health), HealthStage(s.health), HealthWork(s.health)
  {
    if s.health.Sleeping? {
      s' := s;
      ViaItself(PassSteps, s);
    } else {
      var h := NextHealthStep(s);
      HealthStepIsCloser(s, h);
      HealthStepAdvances(s, h);
      HealthStepKeepsClock(s, h);
      var s1 := Take(PassSteps, s, Health(h));
      s' := FinishHealth(s1);
      ViaTransitive(PassSteps, s, s1, s');
      OnlyHealthTransitive(s, s1, s');
    }
  }

  // ---- taking every assigned task back

  ghost predicate NoneAssigned(st: Store) {
    forall id :: id in st.tasks ==> !st.tasks[id].state.Assigned?
  }

  /** The clock moves on by more than the execution timeout, and a pass begins. */
  ghost function PassAfterWait(s: State): State
    requires s.health.Sleeping?
  {
    HealthApply(s.(now := s.now + EXECUTION_TIMEOUT + 1), FindDead)
  }

  lemma WaitAndStart(s: State) returns (s': State)
    requires Reachable(s) && s.health.Sleeping?
    ensures s' == PassAfterWait(s) && Via(OwnSteps, s, s') && Reachable(s')
    ensures s'.health.Marking? && s' == s.(now := s.now + EXECUTION_TIMEOUT + 1, health := s'.health)
  {
    var s1 := Take(OwnSteps, s, Tick(EXECUTION_TIMEOUT + 1));
    s' := Take(OwnSteps, s1, Health(FindDead));
    ViaTransitive(OwnSteps, s, s1, s');
  }

  /** After a wait longer than the timeout one uninterrupted pass leaves no task assigned. */
  lemma TakeAllBack(s: State, w: WorkerId) returns (s': State)
    requires Reachable(s) && s.health.Sleeping? && Usable(s, w)
    ensures Via(PassSteps, PassAfterWait(s), s') && s'.now == s'.lastPass == s.now + EXECUTION_TIMEOUT + 1
    ensures Via(OwnSteps, s, s') && Reachable(s') && s'.health.Sleeping? && s'.disp == s.disp
    ensures Usable(s', w) && s'.procs == s.procs && s'.store.tasks.Keys == s.store.tasks.Keys
    ensures NoneAssigned(s'.store)
  {
    var s1 := WaitAndStart(s);
    s' := FinishHealth(s1);
    ViaOwnSteps(PassSteps, s1, s');
    ViaTransitive(OwnSteps, s, s1, s');
    PassLeavesNoneAssigned(s, s');
  }

  lemma PassLeavesNoneAssigned(s: State, s': State)
    requires Reachable(s) && Reachable(s') && Advances(s.store, s'.store)
    requires s'.lastPass == s.now + EXECUTION_TIMEOUT + 1
    ensures NoneAssigned(s'.store)
  {
    NoTaskIsLost(s);
    ReachableIsRecent(s');
    forall id | id in s'.store.tasks
      ensures !s'.store.tasks[id].state.Assigned?
    {
      OldAssignmentsAreGone(s, s', id);
    }
  }

  lemma OldAssignmentsAreGone(s: State, s': State, id: TaskId)
    requires NoneLost(s) && Recent(s') && Advances(s.store, s'.store)
    requires s'.lastPass == s.now + EXECUTION_TIMEOUT + 1
    requires id in s'.store.tasks
    ensures !s'.store.tasks[id].state.Assigned?
  {
    assert Kept(s.store, s.pool, s.now, Hand(s.disp), id);
    assert !AssignedBefore(s'.store, id, s'.lastPass - EXECUTION_TIMEOUT);
  }

  // ---- one task, from the queue to its report

  /** The dispatcher and the worker are at rest and nothing is assigned. */
  ghost predicate Calm(s: State, w: WorkerId) {
    && Reachable(s) && Usable(s, w)
    && s.disp.Idle? && s.health.Sleeping?
    && s.procs[w].live == map[] && NoneAssigned(s.store)
  }

  lemma BeatIsSent(s: State, w: WorkerId) returns (s': State)
    requires Reachable(s) && w in s.procs && s.procs[w].live == map[]
    ensures Via(OwnSteps, s, s') && Reachable(s') && Beat(w, 0) in s'.net.beats
    ensures s' == s.(net := s'.net)
  {
    EmptyMeansInactive(s, w);
    SendingABeat(s, w);
    s' := Take(OwnSteps, s, Working(w, SendBeat));
  }

  lemma EmptyMeansInactive(s: State, w: WorkerId)
    requires Reachable(s) && w in s.procs && s.procs[w].live == map[]
    ensures s.procs[w].active == 0
  {
    ReachableIsSound(s);
    assert ProcInv(s.procs[w]);
  }

  lemma SendingABeat(s: State, w: WorkerId)
    requires w in s.procs
    ensures WorkerApply(s, w, SendBeat)
         == s.(net := s.net.(beats := s.net.beats + multiset{Beat(w, s.procs[w].active)}))
  {
    assert s.procs[w := s.procs[w]] == s.procs;
  }

  lemma BeatIsHeard(s: State, b: Beat) returns (s': State)
    requires Reachable(s) && b in s.net.beats
    ensures Via(OwnSteps, s, s') && Reachable(s')
    ensures s' == s.(net := s'.net, pool := RecordHeartbeat(s.pool, b.worker, b.activeTasks, s.now))
  {
    s' := Take(OwnSteps, s, BeatArrives(b));
  }

  /** A heartbeat from the empty worker revives it and clears its load. */
  lemma HeartbeatRound(s: State, w: WorkerId) returns (s': State)
    requires Calm(s, w)
    ensures Via(OwnSteps, s, s') && Calm(s', w) && s'.store == s.store
    ensures s'.pool[w].alive && s'.pool[w].activeTasks == 0
  {
    var s1 := BeatIsSent(s, w);
    s' := BeatIsHeard(s1, Beat(w, 0));
    ViaTransitive(OwnSteps, s, s1, s');
  }

  lemma EmptyWorkerIsLeastLoaded(s: State, w: WorkerId)
    requires Calm(s, w) && s.pool[w].alive && s.pool[w].activeTasks == 0
    ensures LeastLoaded(s.pool, w)
  {
    LoadEstimateIsBounded(s);
    assert EstimatesBounded(s);
  }

  /** The dispatcher has called `w` with a pending task. */
  ghost predicate CallingWorker(s: State, w: WorkerId) {
    && w in s.procs && s.disp.Calling? && s.disp.worker.workerId == w
    && AssignMsg(s.disp.call, s.procs[w].address, s.disp.task.taskId, s.disp.task.payload) in s.net.assigns
    && IsPending(s.store, s.disp.task.taskId)
  }

  lemma SelectWorker(s: State, w: WorkerId) returns (s': State)
    requires Reachable(s) && s.disp.Idle? && LeastLoaded(s.pool, w)
    ensures Via(OwnSteps, s, s') && Reachable(s')
    ensures s' == s.(disp := Selected(s.pool[w]))
  {
    s' := Take(OwnSteps, s, Dispatch(Select(w)));
  }

  lemma PopTask(s: State) returns (s': State)
    requires Reachable(s) && s.disp.Selected? && !PopFindsNone(s.store)
    ensures Via(OwnSteps, s, s') && Reachable(s')
    ensures s'.disp.Calling? && s'.disp.worker == s.disp.worker && s'.disp.reply.NoReply?
    ensures s'.store.tasks == s.store.tasks && IsPending(s'.store, s'.disp.task.taskId)
    ensures AssignMsg(s'.disp.call, s.disp.worker.address, s'.disp.task.taskId, s'.disp.task.payload) in s'.net.assigns
    ensures s'.procs == s.procs && s'.pool == s.pool && s'.health == s.health && s'.ledger == s.ledger
  {
    var top, dropped, rest := PopExists(s.store);
    ReachableIsSound(s);
    s' := Take(OwnSteps, s, Dispatch(Pop(top, dropped, rest)));
  }

  lemma SomethingToPop(s: State, id: TaskId)
    requires Reachable(s) && s.disp.Selected? && IsPending(s.store, id)
    ensures !PopFindsNone(s.store)
  {
    NoTaskIsLost(s);
    assert Kept(s.store, s.pool, s.now, Hand(s.disp), id);
    var e :| e in s.store.queue && e.taskId == id;
    assert !Stale(s.store, e);
  }

  /** The dispatcher takes a pending task, if not this one, and calls the least-loaded worker `w`. */
  lemma CallWorker(s: State, w: WorkerId, id: TaskId) returns (s': State)
    requires Reachable(s) && Usable(s, w) && s.disp.Idle? && LeastLoaded(s.pool, w) && IsPending(s.store, id)
    ensures Via(OwnSteps, s, s') && Reachable(s') && Usable(s', w) && CallingWorker(s', w)
    ensures s'.health == s.health && s'.procs == s.procs && s'.store.tasks == s.store.tasks
    ensures s'.pool == s.pool && s'.ledger == s.ledger
  {
    NoTaskIsLost(s);
    var s1 := SelectWorker(s, w);
    SomethingToPop(s1, id);
    s' := PopTask(s1);
    ViaTransitive(OwnSteps, s, s1, s');
  }

  /** The worker has accepted the task in hand as execution `k`, and the dispatcher's call says so. */
  ghost predicate HasAccepted(s: State, w: WorkerId, k: nat) {
    && w in s.procs && CanCompute(s.procs[w], k)
    && s.disp.Calling? && s.disp.reply.SaidYes? && s.disp.worker.workerId == w
    && s.procs[w].live[k].taskId == s.disp.task.taskId && s.procs[w].live[k].payload == s.disp.task.payload
  }

  lemma WorkerAccepts(s: State, w: WorkerId) returns (s': State, k: nat)
    requires Reachable(s) && Usable(s, w) && CallingWorker(s, w) && Accepts(s.procs[w])
    ensures Via(OwnSteps, s, s') && Reachable(s') && Usable(s', w) && HasAccepted(s', w, k)
    ensures s'.store == s.store && s'.pool == s.pool && s'.health == s.health && s'.ledger == s.ledger
    ensures s'.disp.task == s.disp.task
    ensures s'.procs[w].live.Keys == s.procs[w].live.Keys + {k} && s'.procs[w].active == s.procs[w].active + 1
    ensures s'.procs[w].capacity == s.procs[w].capacity
  {
    k := s.procs[w].nextExec;
    var msg := AssignMsg(s.disp.call, s.procs[w].address, s.disp.task.taskId, s.disp.task.payload);
    s' := Take(OwnSteps, s, Working(w, Handle(msg)));
    assert s'.procs[w] == Accept(s.procs[w], msg.taskId, msg.payload);
  }

  lemma EmptyWorkerAccepts(s: State, w: WorkerId)
    requires Reachable(s) && Usable(s, w) && s.procs[w].live == map[]
    ensures Accepts(s.procs[w])
  {
    EmptyMeansInactive(s, w);
  }

  /** The dispatcher reads the answer, records the assignment and counts the slot. */
  lemma DispatcherRecords(s: State) returns (s': State)
    requires Reachable(s) && s.disp.Calling? && s.disp.reply.SaidYes?
    ensures Via(OwnSteps, s, s') && Reachable(s')
    ensures s'.disp.Idle? && s'.procs == s.procs && s'.health == s.health
    ensures s'.store == AssignTask(s.store, s.disp.task.taskId, s.disp.worker.workerId, s.now)
    ensures s'.pool == IncrementLoad(s.pool, s.disp.worker.workerId)
  {
    var s1 := Take(OwnSteps, s, Dispatch(Receive));
    var s2 := Take(OwnSteps, s1, Dispatch(Assign));
    s' := Take(OwnSteps, s2, Dispatch(Increment));
    ViaTransitive(OwnSteps, s, s1, s2);
    ViaTransitive(OwnSteps, s, s2, s');
  }

  lemma ComputeReports(p: Proc, k: nat)
    requires CanCompute(p, k)
    ensures Compute(p, k).live.Keys == p.live.Keys
    ensures Compute(p, k).live[k].phase.report.taskId == p.live[k].taskId
  {
  }

  /** The worker runs its only execution and reports it. */
  lemma WorkerFinishes(s: State, w: WorkerId, k: nat) returns (s': State)
    requires Reachable(s) && Usable(s, w) && s.procs[w].live.Keys == {k} && CanCompute(s.procs[w], k)
    ensures Via(ReportSteps, s, s') && Reachable(s') && Usable(s', w) && OthersIdle(s, s', w)
    ensures s'.procs[w].live == map[]
    ensures Advances(s.store, s'.store) && Finished(s'.store, s.procs[w].live[k].taskId)
  {
    ComputeReports(s.procs[w], k);
    ExecStepsTouchOne(s.procs[w], k);
    var s1 := RunExecution(s, w, k);
    s' := ReportRound(s1, w, k);
    ReportAdvances(s1.store, s1.procs[w].live[k].phase.report, s1.now);
    assert s'.procs[w].live.Keys == {};
    ViaTransitive(ReportSteps, s, s1, s');
    OthersIdleTransitive(s, s1, s', w);
  }

  /** One round: a pending task is dispatched to `w`, run and reported. */
  lemma Round(s: State, w: WorkerId, id: TaskId) returns (s': State)
    requires Calm(s, w) && IsPending(s.store, id)
    ensures Via(OwnSteps, s, s') && Calm(s', w)
    ensures s'.store.tasks.Keys == s.store.tasks.Keys
    ensures |Unfinished(s'.store)| < |Unfinished(s.store)|
  {
    var s1 := HeartbeatRound(s, w);
    EmptyWorkerIsLeastLoaded(s1, w);
    var s2 := CallWorker(s1, w, id);
    EmptyWorkerAccepts(s2, w);
    var s3, k := WorkerAccepts(s2, w);
    var s4 := DispatcherRecords(s3);
    s' := WorkerFinishes(s4, w, k);
    ViaOwnSteps(ReportSteps, s4, s');
    var chosen := s2.disp.task.taskId;
    RoundFinishesOne(s.store, s4.store, s'.store, chosen, w, s3.now);
    ViaTransitive(OwnSteps, s, s1, s2);
    ViaTransitive(OwnSteps, s, s2, s3);
    ViaTransitive(OwnSteps, s, s3, s4);
    ViaTransitive(OwnSteps, s, s4, s');
  }

  lemma RoundFinishesOne(st: Store, mid: Store, st': Store, id: TaskId, w: WorkerId, now: int)
    requires NoneAssigned(st) && IsPending(st, id)
    requires mid.tasks == AssignTask(st, id, w, now).tasks
    requires Advances(mid, st') && Finished(st', id)
    ensures NoneAssigned(st') && st'.tasks.Keys == st.tasks.Keys
    ensures |Unfinished(st')| < |Unfinished(st)|
  {
    assert id in Unfinished(st) && id !in Unfinished(st');
    forall j | j in Unfinished(st')
      ensures j in Unfinished(st) - {id}
    {
      assert j in mid.tasks;
    }
    SubsetIsSmaller(Unfinished(st'), Unfinished(st) - {id});
  }

  lemma {:induction false} RoundsFinishAll(s: State, w: WorkerId) returns (s': State)
    requires Calm(s, w)
    ensures Via(OwnSteps, s, s') && s'.store.tasks.Keys == s.store.tasks.Keys
    ensures Unfinished(s'.store) == {}
    decreases |Unfinished(s.store)|
  {
    if Unfinished(s.store) == {} {
      s' := s;
      ViaItself(OwnSteps, s);
    } else {
      var id :| id in Unfinished(s.store);
      NoTaskIsLost(s);
      assert Kept(s.store, s.pool, s.now, Hand(s.disp), id);
      var s1 := Round(s, w, id);
      s' := RoundsFinishAll(s1, w);
      ViaTransitive(OwnSteps, s, s1, s');
    }
  }

  lemma CalmDown(s: State, w: WorkerId) returns (s': State)
    requires Reachable(s) && Usable(s, w)
    ensures Via(OwnSteps, s, s') && Calm(s', w) && s'.store.tasks.Keys == s.store.tasks.Keys
  {
    var s1 := EmptyWorker(s, w);
    var s2 := FinishDispatch(s1);
    var s3 := FinishHealth(s2);
    s' := TakeAllBack(s3, w);
    ViaOwnSteps(ReportSteps, s, s1);
    ViaOwnSteps(DispatcherSteps, s1, s2);
    ViaOwnSteps(PassSteps, s2, s3);
    ViaTransitive(OwnSteps, s, s1, s2);
    ViaTransitive(OwnSteps, s, s2, s3);
    ViaTransitive(OwnSteps, s, s3, s');
  }

  ghost predicate AllFinished(st: Store) {
    forall id :: id in st.tasks ==> st.tasks[id].Terminal()
  }

  /** No stuck state: from every reachable state with a usable worker, whatever the dispatcher, the
      health check, the handlers and the network are in the middle of, the system's own steps can
      bring every submitted task to a terminal state, without losing or adding one. No worker has to
      crash, restart, register or drain for it. */
  lemma EveryTaskCanFinish(s: State, w: WorkerId)
    requires Reachable(s) && Usable(s, w)
    ensures exists s' :: Via(OwnSteps, s, s') && s'.store.tasks.Keys == s.store.tasks.Keys && AllFinished(s'.store)
  {
    var s1 := CalmDown(s, w);
    var s2 := RoundsFinishAll(s1, w);
    ViaTransitive(OwnSteps, s, s1, s2);
    forall id | id in s2.store.tasks
      ensures s2.store.tasks[id].Terminal()
    {
      assert id !in Unfinished(s2.store);
    }
  }

  // ---- a worker that has yet to register

  lemma RequeueOneOld(s: State, t: nat, w: WorkerId, address: string, id: TaskId) returns (s': State)
    requires Reachable(s) && t in s.regs && s.regs[t].Returning? && id in s.regs[t].todo
    requires s.regs[t].worker == w && s.regs[t].address == address
    ensures Via(RegistrationSteps(t, w, address), s, s') && Reachable(s')
    ensures t in s'.regs && s'.regs[t] == Returning(w, address, s.regs[t].todo - {id})
    ensures s'.procs == s.procs && s'.store.tasks.Keys == s.store.tasks.Keys
  {
    s' := Take(RegistrationSteps(t, w, address), s, Registering(t, RequeueOld(id)));
  }

  lemma FinishOld(s: State, t: nat, w: WorkerId, address: string) returns (s': State)
    requires Reachable(s) && t in s.regs && s.regs[t] == Returning(w, address, {})
    ensures Via(RegistrationSteps(t, w, address), s, s') && Reachable(s')
    ensures s' == s.(regs := s.regs[t := Ready(w, address)])
  {
    s' := Take(RegistrationSteps(t, w, address), s, Registering(t, OldDone));
  }

  /** A handler that has listed the worker's old tasks requeues them. */
  lemma {:induction false} FinishListing(s: State, t: nat, w: WorkerId, address: string) returns (s': State)
    requires Reachable(s) && t in s.regs && s.regs[t].Returning? && s.regs[t].worker == w && s.regs[t].address == address
    ensures Via(RegistrationSteps(t, w, address), s, s') && Reachable(s')
    ensures t in s'.regs && s'.regs[t] == Ready(w, address)
    ensures s'.procs == s.procs && s'.store.tasks.Keys == s.store.tasks.Keys
    decreases |s.regs[t].todo|
  {
    if s.regs[t].todo == {} {
      s' := FinishOld(s, t, w, address);
    } else {
      var id :| id in s.regs[t].todo;
      var s1 := RequeueOneOld(s, t, w, address, id);
      s' := FinishListing(s1, t, w, address);
      ViaTransitive(RegistrationSteps(t, w, address), s, s1, s');
    }
  }

  lemma LookUpWorker(s: State, t: nat, w: WorkerId, address: string) returns (s': State)
    requires Reachable(s) && t in s.regs && s.regs[t] == Arrived(w, address)
    ensures Via(RegistrationSteps(t, w, address), s, s') && Reachable(s')
    ensures t in s'.regs && s'.regs[t] == Ready(w, address)
    ensures s'.procs == s.procs && s'.store.tasks.Keys == s.store.tasks.Keys
  {
    var kind := RegistrationSteps(t, w, address);
    s' := Take(kind, s, Registering(t, LookUp));
    if w in s.pool {
      var s1 := s';
      var s2 := Take(kind, s1, Registering(t, ListOld));
      s' := FinishListing(s2, t, w, address);
      ViaTransitive(kind, s, s1, s2);
      ViaTransitive(kind, s, s2, s');
    }
  }

  /** One registration under the process's own address makes a worker usable. */
  lemma RegisterItself(s: State, w: WorkerId, t: nat) returns (s': State)
    requires Reachable(s) && w in s.procs && !s.procs[w].draining && s.procs[w].capacity >= 1 && t !in s.regs
    ensures Via(RegistrationSteps(t, w, s.procs[w].address), s, s') && Reachable(s')
    ensures Usable(s', w) && s'.store.tasks.Keys == s.store.tasks.Keys
  {
    var address := s.procs[w].address;
    var kind := RegistrationSteps(t, w, address);
    var s1 := Take(kind, s, Registering(t, Arrive(w, address)));
    var s2 := LookUpWorker(s1, t, w, address);
    s' := Take(kind, s2, Registering(t, Register));
    ViaTransitive(kind, s, s1, s2);
    ViaTransitive(kind, s, s2, s');
  }

  /** The same for a process that is not yet registered, or was under another address: its own
      registration comes first, on any free handler thread. */
  lemma EveryTaskCanFinishOnceRegistered(s: State, w: WorkerId, t: nat)
    requires Reachable(s) && w in s.procs && !s.procs[w].draining && s.procs[w].capacity >= 1 && t !in s.regs
    ensures exists s1, s' :: Via(RegistrationSteps(t, w, s.procs[w].address), s, s1) && Via(OwnSteps, s1, s')
                             && s'.store.tasks.Keys == s.store.tasks.Keys && AllFinished(s'.store)
  {
    var s1 := RegisterItself(s, w, t);
    EveryTaskCanFinish(s1, w);
  }

  // ---- a worker that accepts is needed

  /** Nothing is being executed or reported, and no process accepts. */
  ghost predicate Silent(s: State) {
    && (forall w :: w in s.procs ==> s.procs[w].live == map[] && !Accepts(s.procs[w]))
    && s.net.reports == {}
    && (forall t :: t in s.handlers ==> !s.handlers[t].Received?)
  }

  lemma SilentWorkerStaysSilent(s: State, w: WorkerId, x: WorkerStep)
    requires Silent(s) && WorkerEnabled(s, w, x) && !x.Crash? && !x.Drain?
    ensures Silent(WorkerApply(s, w, x))
  {
    WorkerFrame(s, w, x);
  }

  lemma StepStaysSilent(s: State, step: Step)
    requires Silent(s) && Enabled(s, step) && Allowed(OwnSteps, step)
    ensures Silent(Apply(s, step))
    ensures !step.Handling? || !step.p.StoreReport?
  {
    match step {
      case Dispatch(d) => DispatchFrame(s, d);
      case Health(h) => HealthFrame(s, h);
      case Handling(t, p) => HandlerFrame(s, t, p);
      case Working(w, x) => SilentWorkerStaysSilent(s, w, x);
      case Tick(ms) =>
      case BeatArrives(b) =>
    }
  }

  lemma {:induction false} SilentRunFinishesNothing(s: State, steps: seq<Step>, s': State, id: TaskId)
    requires Silent(s) && Runs(s, steps, s') && Keeps(OwnSteps, steps)
    requires id in s.store.tasks && !Finished(s.store, id)
    ensures !Finished(s'.store, id)
    decreases |steps|
  {
    if steps != [] {
      assert Allowed(OwnSteps, steps[0]);
      StepStaysSilent(s, steps[0]);
      StepAndFinished(s, steps[0], id);
      assert forall i :: 0 <= i < |steps[1..]| ==> Allowed(OwnSteps, steps[1..][i]) by {
        assert forall i :: 0 <= i < |steps[1..]| ==> steps[1..][i] == steps[i + 1];
      }
      SilentRunFinishesNothing(Apply(s, steps[0]), steps[1..], s', id);
    }
  }

  /** The converse: once all work in progress has died down, a system in which no process accepts
      finishes no further task by its own steps. */
  lemma NothingFinishesWithoutWorkers(s: State, s': State, id: TaskId)
    requires Silent(s) && Via(OwnSteps, s, s') && id in s.store.tasks && !Finished(s.store, id)
    ensures !Finished(s'.store, id)
  {
    var steps :| Runs(s, steps, s') && Keeps(OwnSteps, steps);
    SilentRunFinishesNothing(s, steps, s', id);
  }
}
