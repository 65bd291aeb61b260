/** The two views of each routine agree: its steps in the cluster, when nothing comes between them, do
    exactly what the contract of the routine as one method says, whatever the order in which workers
    and tasks are visited. */
module Refinement {
  import opened Records
  import opened TaskStorage
  import opened WorkerRegistry
  import opened WorkerProcess
  import opened Scheduling
  import opened Cluster
  import opened Custody
  import opened Urgency
  import opened Timing

  // ---- the health check

  ghost function DeadAt(s: State): set<WorkerId> {
    DeadWorkers(s.pool, HEARTBEAT_TIMEOUT, s.now)
  }

  /** Everything a pass started in `s` will requeue. */
  ghost function PassTasks(s: State): set<TaskId> {
    TasksOfAny(s.store, DeadAt(s)) + TimedOutTasks(s.store, EXECUTION_TIMEOUT, s.now)
  }

  /** The pass started in `s0` has marked `dead` and requeued `done`. */
  ghost predicate SoFar(s0: State, s: State, dead: set<WorkerId>, done: set<TaskId>) {
    && s.pool == AllMarkedDead(s0.pool, dead)
    && RequeuedExactly(s0.store, done, s.store)
    && s == s0.(store := s.store, pool := s.pool, health := s.health, lastPass := s.lastPass)
  }

  ghost predicate PassUnderWay(s0: State, s: State) {
    var all := DeadAt(s0);
    match s.health
    case Sleeping => s.lastPass == s0.now && SoFar(s0, s, all, PassTasks(s0))
    case Marking(dead) => dead <= all && SoFar(s0, s, all - dead, TasksOfAny(s0.store, all - dead))
    case Marked(w, dead) =>
      w in all && w !in dead && dead <= all && SoFar(s0, s, all - dead, TasksOfAny(s0.store, all - dead - {w}))
    case Orphans(todo, dead) =>
      && dead <= all && todo <= TasksOfAny(s0.store, all - dead)
      && SoFar(s0, s, all - dead, TasksOfAny(s0.store, all - dead) - todo)
    case Late(readAt, todo) =>
      readAt == s0.now && todo <= PassTasks(s0) && SoFar(s0, s, all, PassTasks(s0) - todo)
  }

  lemma PassStarts(s0: State)
    requires s0.health.Sleeping?
    ensures PassUnderWay(s0, HealthApply(s0, FindDead))
  {
    RequeueNone(s0.store);
    var all := DeadAt(s0);
    assert all - all == {};
    assert TasksOfAny(s0.store, {}) == {} && AllMarkedDead(s0.pool, {}) == s0.pool;
  }

  lemma MarkContinues(s0: State, s: State, w: WorkerId)
    requires PassUnderWay(s0, s) && HealthEnabled(s, Mark(w))
    ensures PassUnderWay(s0, HealthApply(s, Mark(w)))
  {
    var all, dead := DeadAt(s0), s.health.dead;
    OneMoreDead(s0.store, s0.pool, all - dead, w);
    assert (all - dead) + {w} == all - (dead - {w});
    assert all - (dead - {w}) - {w} == all - dead;
  }

  lemma ListContinues(s0: State, s: State)
    requires PassUnderWay(s0, s) && HealthEnabled(s, ListOrphans)
    ensures PassUnderWay(s0, HealthApply(s, ListOrphans))
  {
    var all, dead, w := DeadAt(s0), s.health.dead, s.health.worker;
    var before := all - dead - {w};
    NewlyListed(s0.store, TasksOfAny(s0.store, before), s.store, w);
    OneMoreDead(s0.store, s0.pool, before, w);
    assert before + {w} == all - dead;
    var todo := TasksOfWorker(s.store, w);
    assert TasksOfAny(s0.store, all - dead) - todo == TasksOfAny(s0.store, before);
  }

  /** Requeueing one of the listed tasks moves it from the list to the done. */
  lemma RequeueContinues(st: Store, all: set<TaskId>, todo: set<TaskId>, mid: Store, id: TaskId)
    requires KeysMatch(st) && todo <= all && id in todo && RequeuedExactly(st, all - todo, mid)
    ensures RequeuedExactly(st, all - (todo - {id}), RequeueTask(mid, id))
  {
    RequeueOneMore(st, all - todo, mid, id);
    assert (all - todo) + {id} == all - (todo - {id});
  }

  lemma LateContinues(s0: State, s: State)
    requires PassUnderWay(s0, s) && HealthEnabled(s, ListLate)
    ensures PassUnderWay(s0, HealthApply(s, ListLate))
  {
    var all := DeadAt(s0);
    assert all - {} == all;
    var done := TasksOfAny(s0.store, all);
    NewlyTimedOut(s0.store, done, s.store, EXECUTION_TIMEOUT, s0.now);
    var todo := TimedOutTasks(s.store, EXECUTION_TIMEOUT, s.now);
    assert PassTasks(s0) - todo == done;
  }

  lemma PassContinues(s0: State, s: State, h: HealthStep)
    requires KeysMatch(s0.store) && PassUnderWay(s0, s) && HealthEnabled(s, h) && !h.FindDead?
    ensures PassUnderWay(s0, HealthApply(s, h))
  {
    match h {
      case Mark(w) => MarkContinues(s0, s, w);
      case ListOrphans => ListContinues(s0, s);
      case RequeueOrphan(id) =>
        RequeueContinues(s0.store, TasksOfAny(s0.store, DeadAt(s0) - s.health.dead), s.health.todo, s.store, id);
      case NextDead =>
        assert TasksOfAny(s0.store, DeadAt(s0) - s.health.dead) - {} == TasksOfAny(s0.store, DeadAt(s0) - s.health.dead);
      case ListLate => LateContinues(s0, s);
      case RequeueLate(id) => RequeueContinues(s0.store, PassTasks(s0), s.health.todo, s.store, id);
      case FinishPass => assert PassTasks(s0) - {} == PassTasks(s0);
    }
  }

  /** The steps of one pass after its start, and nothing else. */
  ghost predicate OnlyThisPass(steps: seq<Step>) {
    forall i :: 0 <= i < |steps| ==> steps[i].Health? && !steps[i].h.FindDead?
  }

  lemma {:induction false} PassRuns(s0: State, s: State, steps: seq<Step>, s': State)
    requires KeysMatch(s0.store) && PassUnderWay(s0, s) && OnlyThisPass(steps) && Runs(s, steps, s')
    ensures PassUnderWay(s0, s')
    decreases |steps|
  {
    if steps != [] {
      assert steps[0].Health?;
      PassContinues(s0, s, steps[0].h);
      PassRuns(s0, Apply(s, steps[0]), steps[1..], s');
    }
  }

  /** An uninterrupted pass that ends has met the contract of `HealthPass` with both clock readings
      equal: the dead are marked, exactly their tasks and the late ones are requeued, once each. */
  lemma HealthPassIsRefined(s0: State, steps: seq<Step>, s: State)
    requires KeysMatch(s0.store) && s0.health.Sleeping?
    requires OnlyThisPass(steps) && Runs(HealthApply(s0, FindDead), steps, s) && s.health.Sleeping?
    ensures RequeuedExactly(s0.store,
              TasksOfAny(s0.store, DeadAt(s0)) + TimedOutTasks(s0.store, EXECUTION_TIMEOUT, s0.now), s.store)
    ensures s.pool == AllMarkedDead(s0.pool, DeadAt(s0))
    ensures s.lastPass == s0.now && s.disp == s0.disp && s.procs == s0.procs && s.net == s0.net
  {
    PassStarts(s0);
    PassRuns(s0, HealthApply(s0, FindDead), steps, s);
  }

  // ---- the dispatcher after a failed call

  /** What the unreachable path started in `s0` requeues: the task in hand and the worker's own. */
  function UnreachableTasks(s0: State): set<TaskId>
    requires s0.disp.Unreachable?
  {
    {s0.disp.task.taskId} + TasksOfWorker(s0.store, s0.disp.worker.workerId)
  }

  ghost predicate Recovered(s0: State, s: State, done: set<TaskId>)
    requires s0.disp.Unreachable?
  {
    && RequeuedExactly(s0.store, done, s.store)
    && s == s0.(store := s.store, disp := s.disp, pool := MarkDead(s0.pool, s0.disp.worker.workerId))
  }

  ghost predicate UnreachableUnderWay(s0: State, s: State)
    requires s0.disp.Unreachable?
  {
    match s.disp
    case Unreachable(w, task) => s == s0
    case Dead(w, task) => w == s0.disp.worker && task == s0.disp.task && Recovered(s0, s, {})
    case Listing(w) => w == s0.disp.worker && Recovered(s0, s, {s0.disp.task.taskId})
    case Requeuing(w, todo) => todo <= UnreachableTasks(s0) && Recovered(s0, s, UnreachableTasks(s0) - todo)
    case Idle => Recovered(s0, s, UnreachableTasks(s0))
    case _ => false
  }

  lemma UnreachableContinues(s0: State, s: State, d: DispatchStep)
    requires s0.disp.Unreachable? && KeysMatch(s0.store)
    requires UnreachableUnderWay(s0, s) && DispatchEnabled(s, d) && !d.Select?
    ensures UnreachableUnderWay(s0, DispatchApply(s, d))
  {
    var hand := s0.disp.task.taskId;
    match d {
      case MarkAsDead => RequeueNone(s0.store);
      case RequeueHand =>
        RequeueOneMore(s0.store, {}, s.store, hand);
        assert {} + {hand} == {hand};
      case ListTasks =>
        NewlyListed(s0.store, {hand}, s.store, s0.disp.worker.workerId);
        assert UnreachableTasks(s0) - TasksOfWorker(s.store, s0.disp.worker.workerId) == {hand};
      case RequeueListed(id) => RequeueContinues(s0.store, UnreachableTasks(s0), s.disp.todo, s.store, id);
      case Resume => assert UnreachableTasks(s0) - {} == UnreachableTasks(s0);
      case _ =>
    }
  }

  ghost predicate OnlyThisRecovery(steps: seq<Step>) {
    forall i :: 0 <= i < |steps| ==> steps[i].Dispatch? && !steps[i].d.Select?
  }

  lemma {:induction false} UnreachableRuns(s0: State, s: State, steps: seq<Step>, s': State)
    requires s0.disp.Unreachable? && KeysMatch(s0.store)
    requires UnreachableUnderWay(s0, s) && OnlyThisRecovery(steps) && Runs(s, steps, s')
    ensures UnreachableUnderWay(s0, s')
    decreases |steps|
  {
    if steps != [] {
      assert steps[0].Dispatch?;
      UnreachableContinues(s0, s, steps[0].d);
      UnreachableRuns(s0, Apply(s, steps[0]), steps[1..], s');
    }
  }

  /** After a failed call the dispatcher's steps, uninterrupted until it is back at the top of its
      loop, meet the contract of `RecoverUnreachable`. */
  lemma RecoverUnreachableIsRefined(s0: State, steps: seq<Step>, s: State)
    requires s0.disp.Unreachable? && KeysMatch(s0.store)
    requires OnlyThisRecovery(steps) && Runs(s0, steps, s) && s.disp.Idle?
    ensures RequeuedExactly(s0.store,
              {s0.disp.task.taskId} + TasksOfWorker(s0.store, s0.disp.worker.workerId), s.store)
    ensures s == s0.(store := s.store, disp := Idle, pool := MarkDead(s0.pool, s0.disp.worker.workerId))
  {
    UnreachableRuns(s0, s0, steps, s);
  }

  // ---- a registration handler

  /** What registering `w` requeues: its old tasks, if it was known. */
  function OldTasks(s0: State, w: WorkerId): set<TaskId> {
    if w in s0.pool then TasksOfWorker(s0.store, w) else {}
  }

  /** Where the handler stands, and what it has done to the store by then. */
  ghost predicate RegistrationAt(s0: State, x: Registration, st: Store, w: WorkerId, address: string) {
    && x.worker == w && x.address == address
    && match x
       case Arrived(_, _) => st == s0.store
       case Known(_, _) => st == s0.store && w in s0.pool
       case Returning(_, _, todo) => todo <= OldTasks(s0, w) && RequeuedExactly(s0.store, OldTasks(s0, w) - todo, st)
       case Ready(_, _) => RequeuedExactly(s0.store, OldTasks(s0, w), st)
  }

  ghost predicate RegistrationUnderWay(s0: State, s: State, t: nat, w: WorkerId, address: string) {
    if t in s.regs then
      && s == s0.(store := s.store, regs := s0.regs[t := s.regs[t]])
      && RegistrationAt(s0, s.regs[t], s.store, w, address)
    else
      && RequeuedExactly(s0.store, OldTasks(s0, w), s.store)
      && w in s0.procs
      && s == s0.(store := s.store, regs := s0.regs - {t},
                  pool := RegisterWorker(s0.pool, w, address, s0.procs[w].capacity, s0.now))
  }

  lemma RegistrationMovesOn(s0: State, s: State, t: nat, w: WorkerId, address: string, r: RegistrationStep)
    requires KeysMatch(s0.store) && s.pool == s0.pool
    requires RegistrationEnabled(s, t, r) && !r.Arrive? && !r.Register?
    requires RegistrationAt(s0, s.regs[t], s.store, w, address)
    ensures var s' := RegistrationApply(s, t, r);
            t in s'.regs && RegistrationAt(s0, s'.regs[t], s'.store, w, address)
  {
    var mine := OldTasks(s0, w);
    match r {
      case LookUp => RequeueNone(s0.store);
      case ListOld =>
        RequeueNone(s0.store);
        assert mine - mine == {};
      case RequeueOld(id) => RequeueContinues(s0.store, mine, s.regs[t].todo, s.store, id);
      case OldDone => assert mine - {} == mine;
    }
  }

  lemma OnlyOwnRegistrationMoves(s: State, t: nat, r: RegistrationStep)
    requires RegistrationEnabled(s, t, r) && !r.Register?
    ensures var s' := RegistrationApply(s, t, r);
            t in s'.regs && s' == s.(store := s'.store, regs := s.regs[t := s'.regs[t]])
  {
  }

  lemma RegistrationContinues(s0: State, s: State, t: nat, w: WorkerId, address: string, r: RegistrationStep)
    requires KeysMatch(s0.store) && w in s0.procs
    requires RegistrationUnderWay(s0, s, t, w, address) && RegistrationEnabled(s, t, r) && !r.Arrive?
    ensures RegistrationUnderWay(s0, RegistrationApply(s, t, r), t, w, address)
  {
    if r.Register? {
      assert s0.regs[t := s.regs[t]] - {t} == s0.regs - {t};
    } else {
      RegistrationMovesOn(s0, s, t, w, address, r);
      OnlyOwnRegistrationMoves(s, t, r);
      var x' := RegistrationApply(s, t, r).regs[t];
      assert s0.regs[t := s.regs[t]][t := x'] == s0.regs[t := x'];
    }
  }

  ghost predicate OnlyThisThread(steps: seq<Step>, t: nat) {
    forall i :: 0 <= i < |steps| ==> steps[i].Registering? && steps[i].thread == t && !steps[i].r.Arrive?
  }

  lemma {:induction false} RegistrationRuns(s0: State, s: State, t: nat, w: WorkerId, address: string, steps: seq<Step>, s': State)
    requires KeysMatch(s0.store) && w in s0.procs
    requires RegistrationUnderWay(s0, s, t, w, address) && OnlyThisThread(steps, t) && Runs(s, steps, s')
    ensures RegistrationUnderWay(s0, s', t, w, address)
    decreases |steps|
  {
    if steps != [] {
      assert steps[0].Registering?;
      RegistrationContinues(s0, s, t, w, address, steps[0].r);
      RegistrationRuns(s0, Apply(s, steps[0]), t, w, address, steps[1..], s');
    }
  }

  /** A registration handler's steps, uninterrupted until it answers, meet the contract of
      `RegisterWorker`. */
  lemma RegisterWorkerIsRefined(s0: State, t: nat, w: WorkerId, address: string, steps: seq<Step>, s: State)
    requires KeysMatch(s0.store) && w in s0.procs && t in s0.regs && s0.regs[t] == Arrived(w, address)
    requires OnlyThisThread(steps, t) && Runs(s0, steps, s) && t !in s.regs
    ensures RequeuedExactly(s0.store, if w in s0.pool then TasksOfWorker(s0.store, w) else {}, s.store)
    ensures s.pool == RegisterWorker(s0.pool, w, address, s0.procs[w].capacity, s0.now)
    ensures s == s0.(store := s.store, pool := s.pool, regs := s0.regs - {t})
  {
    assert s0.regs[t := s0.regs[t]] == s0.regs;
    RegistrationRuns(s0, s0, t, w, address, steps, s);
  }

  // ---- a report handler

  ghost predicate ReportUnderWay(s0: State, s: State, t: nat, msg: ReportMsg) {
    var counts, st := ReportCounts(s0.store, msg.report), ApplyReport(s0.store, msg.report, s0.now);
    if t in s.handlers then
      && s == s0.(store := s.store, ledger := s.ledger, handlers := s0.handlers[t := s.handlers[t]])
      && s.handlers[t].msg == msg
      && match s.handlers[t]
         case Received(_) => s.store == s0.store && s.ledger == s0.ledger
         case Stored(_) => counts && s.store == st && s.ledger == NoteStored(s0.ledger, msg.report)
         case Counted(_, ok) =>
           && ok == counts && s.store == st
           && s.ledger == if ok then NoteCounted(NoteStored(s0.ledger, msg.report), msg.report) else s0.ledger
    else
      && s.store == st
      && s.pool == DecrementLoad(s0.pool, msg.key.worker)
      && s.ledger.acknowledged == s0.ledger.acknowledged + (if counts then 1 else 0)
      && s.ledger.totalOk == s0.ledger.totalOk + (if counts && msg.report.state.Completed? then 1 else 0)
      && s.ledger.totalErr == s0.ledger.totalErr + (if counts && msg.report.state.Failed? then 1 else 0)
  }

  lemma UncountedReportChangesNothing(st: Store, r: TaskResult, now: int)
    requires !ReportCounts(st, r)
    ensures ApplyReport(st, r, now) == st
  {
  }

  lemma ReportContinues(s0: State, s: State, t: nat, msg: ReportMsg, p: HandlerStep)
    requires ReportUnderWay(s0, s, t, msg) && HandlerEnabled(s, t, p) && !p.Deliver?
    ensures ReportUnderWay(s0, HandlerApply(s, t, p), t, msg)
  {
    var s' := HandlerApply(s, t, p);
    if !ReportCounts(s0.store, msg.report) { UncountedReportChangesNothing(s0.store, msg.report, s0.now); }
    if !p.Release? { assert s'.handlers == s0.handlers[t := s'.handlers[t]]; }
  }

  ghost predicate OnlyThisHandler(steps: seq<Step>, t: nat) {
    forall i :: 0 <= i < |steps| ==> steps[i].Handling? && steps[i].thread == t && !steps[i].p.Deliver?
  }

  lemma {:induction false} ReportRuns(s0: State, s: State, t: nat, msg: ReportMsg, steps: seq<Step>, s': State)
    requires ReportUnderWay(s0, s, t, msg) && OnlyThisHandler(steps, t) && Runs(s, steps, s')
    ensures ReportUnderWay(s0, s', t, msg)
    decreases |steps|
  {
    if steps != [] {
      assert steps[0].Handling?;
      ReportContinues(s0, s, t, msg, steps[0].p);
      ReportRuns(s0, Apply(s, steps[0]), t, msg, steps[1..], s');
    }
  }

  /** A report handler's steps, uninterrupted until it answers, meet the contract of `ReportResult`:
      the report is stored, counted and acknowledged exactly if it names a known task and a terminal
      state, and the worker's load drops in any case. */
  lemma ReportResultIsRefined(s0: State, t: nat, msg: ReportMsg, steps: seq<Step>, s: State)
    requires t in s0.handlers && s0.handlers[t] == Received(msg)
    requires OnlyThisHandler(steps, t) && Runs(s0, steps, s) && t !in s.handlers
    ensures var counts := ReportCounts(s0.store, msg.report);
            && s.store == ApplyReport(s0.store, msg.report, s0.now)
            && s.pool == DecrementLoad(s0.pool, msg.key.worker)
            && s.ledger.acknowledged == s0.ledger.acknowledged + (if counts then 1 else 0)
            && s.ledger.totalOk == s0.ledger.totalOk + (if counts && msg.report.state.Completed? then 1 else 0)
            && s.ledger.totalErr == s0.ledger.totalErr + (if counts && msg.report.state.Failed? then 1 else 0)
  {
    assert s0.handlers[t := s0.handlers[t]] == s0.handlers;
    ReportRuns(s0, s0, t, msg, steps, s);
  }

  // ---- one iteration of the dispatch loop

  /** The iteration that selected `w` in `s0` holds `id`, popped from the store of `s0`. */
  ghost predicate HoldsBest(s0: State, s: State, w: WorkerId, id: TaskId) {
    && LeastLoaded(s0.pool, w) && s.disp.Holds() && s.disp.worker == s0.pool[w] && s.disp.task.taskId == id
    && PoppedBest(s0.store, s.store, id) && s.pool == s0.pool
  }

  /** The call to the worker is open. */
  ghost predicate Offering(s0: State, s: State, w: WorkerId) {
    && LeastLoaded(s0.pool, w) && s.pool == s0.pool && s.now == s0.now
    && match s.disp
       case Selected(info) => info == s0.pool[w] && s.store == s0.store
       case Calling(_, task, _, _) => HoldsBest(s0, s, w, task.taskId)
       case Accepted(_, task) => HoldsBest(s0, s, w, task.taskId)
       case Refused(_, task) => HoldsBest(s0, s, w, task.taskId)
       case _ => false
  }

  /** The task in hand has been assigned, and the slot is not yet counted. */
  ghost predicate Recording(s0: State, s: State, w: WorkerId) {
    && LeastLoaded(s0.pool, w) && s.pool == s0.pool && s.now == s0.now
    && s.disp.Recorded? && s.disp.worker == s0.pool[w]
    && exists held, id :: PoppedBest(s0.store, held, id) && s.store == AssignTask(held, id, w, s0.now)
  }

  /** A call failed in state `s1`, and its follow-up is under way. */
  ghost predicate Recovering(s0: State, s: State, w: WorkerId, s1: State) {
    && LeastLoaded(s0.pool, w) && s1.disp.Unreachable? && HoldsBest(s0, s1, w, s1.disp.task.taskId)
    && KeysMatch(s1.store) && s1.now == s0.now
    && !s.disp.Idle? && UnreachableUnderWay(s1, s.(procs := s1.procs, net := s1.net))
  }

  /** The outcome of the call so far, `known` before the step: a received yes or no, or a time-out. */
  ghost function AnswerAfter(s: State, step: Step, known: Option<AssignResult>): Option<AssignResult> {
    if step == Dispatch(Receive) && s.disp.Calling? then
      Some(if s.disp.reply.SaidYes? then AssignResult.Success else AssignResult.Rejected)
    else if step == Dispatch(TimeOut) then Some(AssignResult.Unreachable)
    else known
  }

  /** The outcome of the call in a run from `s`. */
  ghost function AnswerOf(s: State, steps: seq<Step>, known: Option<AssignResult>): Option<AssignResult>
    decreases |steps|
  {
    if steps == [] || !Enabled(s, steps[0]) then known
    else AnswerOf(Apply(s, steps[0]), steps[1..], AnswerAfter(s, steps[0], known))
  }

  /** The iteration is over: without a call, because the queue held nothing pending, or the best task
      has been offered to `w` with the outcome `answer`. */
  ghost predicate IterationDone(s0: State, s: State, w: WorkerId, answer: Option<AssignResult>) {
    match answer
    case None => PopFindsNone(s0.store) && s.store == s0.store.(queue := multiset{}) && s.pool == s0.pool
    case Some(result) => OfferedTo(s0.store, s0.pool, s.store, s.pool, w, result, s0.now)
  }

  /** What the dispatcher's state says of the call. */
  function AnswerIn(d: Dispatcher): Option<AssignResult> {
    match d
    case Accepted(_, _) => Some(AssignResult.Success)
    case Refused(_, _) => Some(AssignResult.Rejected)
    case _ => None
  }

  ghost predicate IterationUnderWay(s0: State, s: State, w: WorkerId, answer: Option<AssignResult>) {
    if s.disp.Idle? then IterationDone(s0, s, w, answer)
    else
      || (Offering(s0, s, w) && answer == AnswerIn(s.disp))
      || (Recording(s0, s, w) && answer == Some(AssignResult.Success))
      || (answer == Some(AssignResult.Unreachable) && exists s1 :: Recovering(s0, s, w, s1))
  }

  /** What the iteration starts from: a well-formed store and pool. */
  ghost predicate ReadyToDispatch(s: State) {
    StoreReady(s.store) && PoolKeysMatch(s.pool)
  }

  lemma PopHoldsBest(s0: State, s: State, w: WorkerId, top: TaskRecord, dropped: multiset<TaskRecord>, rest: multiset<TaskRecord>)
    requires ReadyToDispatch(s0) && Offering(s0, s, w) && DispatchEnabled(s, Pop(top, dropped, rest))
    ensures Offering(s0, DispatchApply(s, Pop(top, dropped, rest)), w)
  {
    PopIsMostUrgentPending(s0.store, top, dropped, rest);
    assert PopTakes(s0.store, top, dropped, rest) && top.taskId == s0.store.tasks[top.taskId].taskId;
  }

  lemma AssignRecords(s0: State, s: State, w: WorkerId)
    requires ReadyToDispatch(s0) && Offering(s0, s, w) && s.disp.Accepted?
    ensures Recording(s0, DispatchApply(s, Assign), w)
  {
    var id := s.disp.task.taskId;
    assert PoppedBest(s0.store, s.store, id);
    assert DispatchApply(s, Assign).store == AssignTask(s.store, id, w, s0.now);
  }

  lemma OfferMade(s0: State, held: Store, id: TaskId, w: WorkerId, st': Store, pool': Pool, result: AssignResult)
    requires LeastLoaded(s0.pool, w) && PoppedBest(s0.store, held, id)
    requires FollowedUp(held, s0.pool, st', pool', id, w, result, s0.now)
    ensures OfferedTo(s0.store, s0.pool, st', pool', w, result, s0.now)
  {
  }

  lemma IncrementFinishes(s0: State, s: State, w: WorkerId)
    requires ReadyToDispatch(s0) && Recording(s0, s, w)
    ensures IterationDone(s0, DispatchApply(s, Increment), w, Some(AssignResult.Success))
  {
    var held, id :| PoppedBest(s0.store, held, id) && s.store == AssignTask(held, id, w, s0.now);
    var s' := DispatchApply(s, Increment);
    OfferMade(s0, held, id, w, s'.store, s'.pool, AssignResult.Success);
  }

  lemma RefuseFinishes(s0: State, s: State, w: WorkerId)
    requires ReadyToDispatch(s0) && Offering(s0, s, w) && s.disp.Refused?
    ensures IterationDone(s0, DispatchApply(s, Refuse), w, Some(AssignResult.Rejected))
  {
    var id := s.disp.task.taskId;
    var s' := DispatchApply(s, Refuse);
    Scheduling.RequeueHand(s.store, id);
    OfferMade(s0, s.store, id, w, s'.store, s'.pool, Rejected);
  }

  lemma TimeOutStartsRecovery(s0: State, s: State, w: WorkerId)
    requires ReadyToDispatch(s0) && Offering(s0, s, w) && s.disp.Calling?
    ensures var s' := DispatchApply(s, TimeOut); Recovering(s0, s', w, s')
  {
  }

  /** The follow-up of a failed call, when other processes may move but nothing else does. */
  lemma RecoveryContinues(s0: State, s: State, w: WorkerId, s1: State, d: DispatchStep)
    requires Recovering(s0, s, w, s1) && DispatchEnabled(s, d)
    ensures var s' := DispatchApply(s, d);
            if s'.disp.Idle? then Recovered(s1, s'.(procs := s1.procs, net := s1.net), UnreachableTasks(s1))
            else Recovering(s0, s', w, s1)
  {
    var t := s.(procs := s1.procs, net := s1.net);
    assert !d.Select? && DispatchEnabled(t, d);
    UnreachableContinues(s1, t, d);
    DispatchIgnoresProcs(s, d, s1);
  }

  lemma DispatchIgnoresProcs(s: State, d: DispatchStep, s1: State)
    requires DispatchEnabled(s, d) && DispatchEnabled(s.(procs := s1.procs, net := s1.net), d) && !d.Pop?
    ensures DispatchApply(s.(procs := s1.procs, net := s1.net), d)
         == DispatchApply(s, d).(procs := s1.procs, net := s1.net)
  {
  }

  lemma RecoveryFinishes(s0: State, s': State, w: WorkerId, s1: State)
    requires ReadyToDispatch(s0) && s1.disp.Unreachable? && HoldsBest(s0, s1, w, s1.disp.task.taskId)
    requires LeastLoaded(s0.pool, w)
    requires Recovered(s1, s'.(procs := s1.procs, net := s1.net), UnreachableTasks(s1))
    ensures IterationDone(s0, s', w, Some(AssignResult.Unreachable))
  {
    OfferMade(s0, s1.store, s1.disp.task.taskId, w, s'.store, s'.pool, AssignResult.Unreachable);
  }

  lemma PopNothingFinishes(s0: State, s: State, w: WorkerId)
    requires Offering(s0, s, w) && DispatchEnabled(s, PopNothing)
    ensures IterationDone(s0, DispatchApply(s, PopNothing), w, None)
  {
  }

  lemma ReceiveAnswers(s0: State, s: State, w: WorkerId)
    requires Offering(s0, s, w) && DispatchEnabled(s, Receive)
    ensures var s' := DispatchApply(s, Receive);
            Offering(s0, s', w) && AnswerIn(s'.disp) == AnswerAfter(s, Dispatch(Receive), None)
  {
  }

  /** Only these two steps give an answer. */
  lemma OthersGiveNoAnswer(s: State, d: DispatchStep, known: Option<AssignResult>)
    requires DispatchEnabled(s, d)
    ensures !d.Receive? && !d.TimeOut? ==> AnswerAfter(s, Dispatch(d), known) == known
    ensures d.TimeOut? ==> AnswerAfter(s, Dispatch(d), known) == Some(AssignResult.Unreachable)
    ensures d.Receive? ==> AnswerAfter(s, Dispatch(d), known) == AnswerAfter(s, Dispatch(d), None)
  {
  }

  lemma CallingContinues(s0: State, s: State, w: WorkerId, d: DispatchStep)
    requires ReadyToDispatch(s0) && Offering(s0, s, w) && DispatchEnabled(s, d) && (s.disp.Selected? || s.disp.Calling?)
    ensures IterationUnderWay(s0, DispatchApply(s, d), w, AnswerAfter(s, Dispatch(d), None))
  {
    OthersGiveNoAnswer(s, d, None);
    match d {
      case Pop(top, dropped, rest) => PopHoldsBest(s0, s, w, top, dropped, rest);
      case PopNothing => PopNothingFinishes(s0, s, w);
      case Receive => ReceiveAnswers(s0, s, w);
      case TimeOut => TimeOutStartsRecovery(s0, s, w);
    }
  }

  lemma AnsweredContinues(s0: State, s: State, w: WorkerId, d: DispatchStep)
    requires ReadyToDispatch(s0) && Offering(s0, s, w) && DispatchEnabled(s, d) && (s.disp.Accepted? || s.disp.Refused?)
    ensures IterationUnderWay(s0, DispatchApply(s, d), w, AnswerAfter(s, Dispatch(d), AnswerIn(s.disp)))
  {
    OthersGiveNoAnswer(s, d, AnswerIn(s.disp));
    match d {
      case Assign => AssignRecords(s0, s, w);
      case Refuse => RefuseFinishes(s0, s, w);
    }
  }

  lemma RecoveringContinues(s0: State, s: State, w: WorkerId, s1: State, d: DispatchStep)
    requires ReadyToDispatch(s0) && Recovering(s0, s, w, s1) && DispatchEnabled(s, d)
    ensures IterationUnderWay(s0, DispatchApply(s, d), w, Some(AssignResult.Unreachable))
  {
    RecoveryContinues(s0, s, w, s1, d);
    if DispatchApply(s, d).disp.Idle? { RecoveryFinishes(s0, DispatchApply(s, d), w, s1); }
  }

  lemma NoAnswerWhileRecovering(s0: State, s: State, w: WorkerId, s1: State, d: DispatchStep)
    requires Recovering(s0, s, w, s1) && DispatchEnabled(s, d)
    ensures !d.Receive? && !d.TimeOut?
  {
  }

  lemma IterationContinues(s0: State, s: State, w: WorkerId, answer: Option<AssignResult>, d: DispatchStep)
    requires ReadyToDispatch(s0) && IterationUnderWay(s0, s, w, answer) && !s.disp.Idle? && DispatchEnabled(s, d)
    ensures IterationUnderWay(s0, DispatchApply(s, d), w, AnswerAfter(s, Dispatch(d), answer))
  {
    if Offering(s0, s, w) && answer == AnswerIn(s.disp) {
      if s.disp.Selected? || s.disp.Calling? {
        CallingContinues(s0, s, w, d);
      } else {
        AnsweredContinues(s0, s, w, d);
      }
    } else {
      OthersGiveNoAnswer(s, d, answer);
      if Recording(s0, s, w) && answer == Some(AssignResult.Success) {
        IncrementFinishes(s0, s, w);
      } else {
        var s1 :| Recovering(s0, s, w, s1);
        NoAnswerWhileRecovering(s0, s, w, s1, d);
        RecoveringContinues(s0, s, w, s1, d);
      }
    }
  }

  /** A worker's step changes nothing of the iteration but the reply to an open call. */
  lemma WorkersLeaveIteration(s0: State, s: State, w: WorkerId, answer: Option<AssignResult>, v: WorkerId, x: WorkerStep)
    requires IterationUnderWay(s0, s, w, answer) && WorkerEnabled(s, v, x)
    ensures IterationUnderWay(s0, WorkerApply(s, v, x), w, answer)
  {
    WorkerFrame(s, v, x);
    var s' := WorkerApply(s, v, x);
    if exists s1 :: Recovering(s0, s, w, s1) {
      var s1 :| Recovering(s0, s, w, s1);
      assert s'.(procs := s1.procs, net := s1.net) == s.(procs := s1.procs, net := s1.net);
      assert Recovering(s0, s', w, s1);
    }
  }

  /** The dispatcher's steps after the selection, while the workers run on and nothing else happens. */
  ghost predicate OnlyThisIteration(steps: seq<Step>) {
    forall i :: 0 <= i < |steps| ==> steps[i].Working? || (steps[i].Dispatch? && !steps[i].d.Select?)
  }

  lemma IdleOnlySelects(s: State, d: DispatchStep)
    requires DispatchEnabled(s, d) && !d.Select?
    ensures !s.disp.Idle?
  {
  }

  lemma IterationSteps(s0: State, s: State, w: WorkerId, answer: Option<AssignResult>, step: Step)
    requires ReadyToDispatch(s0) && IterationUnderWay(s0, s, w, answer) && Enabled(s, step)
    requires step.Working? || (step.Dispatch? && !step.d.Select?)
    ensures IterationUnderWay(s0, Apply(s, step), w, AnswerAfter(s, step, answer))
  {
    if step.Working? {
      WorkersLeaveIteration(s0, s, w, answer, step.worker, step.w);
      assert Apply(s, step) == WorkerApply(s, step.worker, step.w);
      assert AnswerAfter(s, step, answer) == answer;
    } else {
      IdleOnlySelects(s, step.d);
      IterationContinues(s0, s, w, answer, step.d);
      assert Apply(s, step) == DispatchApply(s, step.d);
    }
  }

  lemma RestOfIteration(steps: seq<Step>)
    requires OnlyThisIteration(steps) && steps != []
    ensures OnlyThisIteration(steps[1..])
    ensures steps[0].Working? || (steps[0].Dispatch? && !steps[0].d.Select?)
  {
    assert forall i :: 0 <= i < |steps[1..]| ==> steps[1..][i] == steps[i + 1];
  }

  lemma {:induction false} IterationRuns(s0: State, s: State, w: WorkerId, answer: Option<AssignResult>, steps: seq<Step>, s': State)
    requires ReadyToDispatch(s0) && IterationUnderWay(s0, s, w, answer) && OnlyThisIteration(steps) && Runs(s, steps, s')
    ensures IterationUnderWay(s0, s', w, AnswerOf(s, steps, answer))
    decreases |steps|
  {
    if steps != [] {
      RestOfIteration(steps);
      IterationSteps(s0, s, w, answer, steps[0]);
      IterationRuns(s0, Apply(s, steps[0]), w, AnswerAfter(s, steps[0], answer), steps[1..], s');
    }
  }

  lemma SelectionStarts(s0: State, w: WorkerId)
    requires DispatchEnabled(s0, Select(w))
    ensures IterationUnderWay(s0, DispatchApply(s0, Select(w)), w, None)
  {
    assert Offering(s0, DispatchApply(s0, Select(w)), w);
  }

  /** An iteration of the dispatch loop, from the selection of any least-loaded worker until the
      dispatcher is back at the top, meets the contract of `DispatchOne`, while the workers run on and the
      calls of the coordinator are not interrupted. The outcome is the one of the call: a success if the
      dispatcher received a yes, a rejection if it received a no, unreachable if the call timed out; and
      there was no call exactly if nothing was pending. */
  lemma DispatchOneIsRefined(s0: State, w: WorkerId, steps: seq<Step>, s: State)
    requires Reachable(s0) && DispatchEnabled(s0, Select(w))
    requires OnlyThisIteration(steps) && Runs(DispatchApply(s0, Select(w)), steps, s) && s.disp.Idle?
    ensures var answer := AnswerOf(DispatchApply(s0, Select(w)), steps, None);
            && (answer.None? <==> forall id :: !IsPending(s0.store, id))
            && match answer
               case None => s.store == s0.store.(queue := multiset{}) && s.pool == s0.pool
               case Some(result) => OfferedTo(s0.store, s0.pool, s.store, s.pool, w, result, s0.now)
  {
    QueueCoversPending(s0);
    ExaminedTimesAreSet(s0);
    NoTaskIsLost(s0);
    SelectionStarts(s0, w);
    IterationRuns(s0, DispatchApply(s0, Select(w)), w, None, steps, s);
    PopFindsNoneWhenNoPending(s0.store);
    if AnswerOf(DispatchApply(s0, Select(w)), steps, None).Some? { OfferedMeansPending(s0, s, w, steps); }
  }

  lemma OfferedMeansPending(s0: State, s: State, w: WorkerId, steps: seq<Step>)
    requires DispatchEnabled(s0, Select(w))
    requires var answer := AnswerOf(DispatchApply(s0, Select(w)), steps, None);
             answer.Some? && IterationDone(s0, s, w, answer)
    ensures exists id :: IsPending(s0.store, id)
  {
    var answer := AnswerOf(DispatchApply(s0, Select(w)), steps, None);
    var held, id :| PoppedBest(s0.store, held, id) && FollowedUp(held, s0.pool, s.store, s.pool, id, w, answer.value, s0.now);
  }

  // ---- one execution

  /** The end of a call of execution `k` of worker `w`: did it return? */
  function CallMade(step: Step, w: WorkerId, k: nat): seq<bool> {
    if step == Working(w, CallReturns(k)) then [true]
    else if step == Working(w, CallTimesOut(k)) then [false]
    else []
  }

  /** All its calls in a run, in order. */
  function CallsMade(steps: seq<Step>, w: WorkerId, k: nat): seq<bool> {
    if steps == [] then [] else CallMade(steps[0], w, k) + CallsMade(steps[1..], w, k)
  }

  /** The calls of an execution that ended with `x`. */
  function CallsOf(x: Ending): seq<bool> {
    seq(x.failed, i => false) + if x.delivered then [true] else []
  }

  /** Of process `p0` only execution `k` has moved on, and its calls so far were `made`. */
  ghost predicate ExecutionUnderWay(p0: Proc, p: Proc, k: nat, made: seq<bool>)
    requires k in p0.live
  {
    if k in p.live then
      && p == p0.(live := p0.live[k := p.live[k]])
      && p.live[k].taskId == p0.live[k].taskId && p.live[k].payload == p0.live[k].payload
      && match p.live[k].phase
         case Computing => made == []
         case Reporting(report, failed, _) =>
           && report == ReportFor(p0.live[k].taskId, p0.live[k].payload)
           && failed < MAX_ATTEMPTS && made == seq(failed, i => false)
    else exists x :: p == End(p0, k, x) && EndedProperly(x) && made == CallsOf(x)
  }

  lemma ExecutionContinues(p0: Proc, p: Proc, k: nat, made: seq<bool>, x: WorkerStep)
    requires k in p0.live && ExecutionUnderWay(p0, p, k, made) && ProcEnabled(p, x)
    requires x == Run(k) || x == Call(k)
    ensures ExecutionUnderWay(p0, NextProc(p, x), k, made)
  {
    var e' := NextProc(p, x).live[k];
    assert p0.live[k := p.live[k]][k := e'] == p0.live[k := e'];
  }

  lemma CallEnds(p0: Proc, p: Proc, k: nat, made: seq<bool>, returned: bool)
    requires k in p0.live && ExecutionUnderWay(p0, p, k, made) && InCall(p, k)
    ensures ExecutionUnderWay(p0, if returned then CallSucceeds(p, k) else CallFails(p, k), k, made + [returned])
  {
    var failed := p.live[k].phase.failed;
    assert p0.live[k := p.live[k]] - {k} == p0.live - {k};
    if returned {
      var x := Ending(failed, true);
      assert CallSucceeds(p, k) == End(p0, k, x) && made + [true] == CallsOf(x);
    } else if failed + 1 == MAX_ATTEMPTS {
      var x := Ending(failed + 1, false);
      assert CallFails(p, k) == End(p0, k, x) && made + [false] == CallsOf(x);
    } else {
      var e' := CallFails(p, k).live[k];
      assert p0.live[k := p.live[k]][k := e'] == p0.live[k := e'];
      assert made + [false] == seq(failed + 1, i => false);
    }
  }

  /** The process of `w` does nothing but run execution `k`; everything else may go on. */
  ghost predicate OnlyThisExecution(steps: seq<Step>, w: WorkerId, k: nat) {
    forall i :: 0 <= i < |steps| && steps[i].Working? && steps[i].worker == w ==> OfExecution(steps[i].w, k)
  }

  predicate OfExecution(x: WorkerStep, k: nat) {
    x == Run(k) || x == Call(k) || x == CallReturns(k) || x == CallTimesOut(k)
  }

  lemma ExecutionMoves(p0: Proc, p: Proc, w: WorkerId, k: nat, made: seq<bool>, x: WorkerStep)
    requires k in p0.live && ExecutionUnderWay(p0, p, k, made) && ProcEnabled(p, x) && OfExecution(x, k)
    ensures ExecutionUnderWay(p0, NextProc(p, x), k, made + CallMade(Working(w, x), w, k))
  {
    assert made + [] == made;
    match x {
      case Run(_) => ExecutionContinues(p0, p, k, made, x);
      case Call(_) => ExecutionContinues(p0, p, k, made, x);
      case CallReturns(_) => CallEnds(p0, p, k, made, true);
      case CallTimesOut(_) => CallEnds(p0, p, k, made, false);
    }
  }

  lemma OthersLeaveExecution(s: State, step: Step, w: WorkerId)
    requires Enabled(s, step) && w in s.procs && !(step.Working? && step.worker == w)
    ensures w in Apply(s, step).procs && Apply(s, step).procs[w] == s.procs[w]
  {
    OnlyWorkersMoveProcs(s, step);
    if step.Working? { WorkerFrame(s, step.worker, step.w); }
  }

  lemma StepOfExecution(s: State, step: Step, w: WorkerId, k: nat, p0: Proc, made: seq<bool>)
    requires Enabled(s, step) && w in s.procs && k in p0.live && ExecutionUnderWay(p0, s.procs[w], k, made)
    requires step.Working? && step.worker == w ==> OfExecution(step.w, k)
    ensures w in Apply(s, step).procs
    ensures ExecutionUnderWay(p0, Apply(s, step).procs[w], k, made + CallMade(step, w, k))
  {
    if step.Working? && step.worker == w {
      WorkerFrame(s, w, step.w);
      ExecutionMoves(p0, s.procs[w], w, k, made, step.w);
    } else {
      OthersLeaveExecution(s, step, w);
      assert made + [] == made;
    }
  }

  lemma {:induction false} ExecutionRuns(p0: Proc, made: seq<bool>, s: State, w: WorkerId, k: nat, steps: seq<Step>, s': State)
    requires k in p0.live && w in s.procs && ExecutionUnderWay(p0, s.procs[w], k, made)
    requires OnlyThisExecution(steps, w, k) && Runs(s, steps, s')
    ensures w in s'.procs && ExecutionUnderWay(p0, s'.procs[w], k, made + CallsMade(steps, w, k))
    decreases |steps|
  {
    if steps == [] {
      assert made + CallsMade(steps, w, k) == made;
    } else {
      RestOfExecution(steps, w, k);
      StepOfExecution(s, steps[0], w, k, p0, made);
      ExecutionRuns(p0, made + CallMade(steps[0], w, k), Apply(s, steps[0]), w, k, steps[1..], s');
      CallsMadeFirst(made, steps, w, k);
    }
  }

  lemma CallsMadeFirst(made: seq<bool>, steps: seq<Step>, w: WorkerId, k: nat)
    requires steps != []
    ensures made + CallMade(steps[0], w, k) + CallsMade(steps[1..], w, k) == made + CallsMade(steps, w, k)
  {
    var first, rest := CallMade(steps[0], w, k), CallsMade(steps[1..], w, k);
    assert made + first + rest == made + (first + rest);
  }

  lemma RestOfExecution(steps: seq<Step>, w: WorkerId, k: nat)
    requires OnlyThisExecution(steps, w, k) && steps != []
    ensures OnlyThisExecution(steps[1..], w, k)
    ensures steps[0].Working? && steps[0].worker == w ==> OfExecution(steps[0].w, k)
  {
    assert forall i :: 0 <= i < |steps[1..]| ==> steps[1..][i] == steps[i + 1];
  }

  /** Call number i, counted from 1, returned. */
  function Reply(made: seq<bool>): nat -> bool {
    (i: nat) => 1 <= i <= |made| && made[i - 1]
  }

  lemma OutcomeOfCalls(x: Ending)
    requires EndedProperly(x)
    ensures RetryOutcome(Reply(CallsOf(x)), x)
  {
  }

  /** An execution that starts in `s0` and has ended in `s` meets the contract of `ExecuteTask`: one slot
      is back, and it ended with the outcome of the retry loop on exactly the calls it made, the first
      that returned or five that did not. The rest of the cluster may do anything meanwhile. */
  lemma ExecuteTaskIsRefined(s0: State, w: WorkerId, k: nat, steps: seq<Step>, s: State) returns (x: Ending)
    requires w in s0.procs && CanCompute(s0.procs[w], k)
    requires OnlyThisExecution(steps, w, k) && Runs(s0, steps, s) && w in s.procs && k !in s.procs[w].live
    ensures s.procs[w] == End(s0.procs[w], k, x) && CallsMade(steps, w, k) == CallsOf(x)
    ensures RetryOutcome(Reply(CallsMade(steps, w, k)), x)
  {
    var p0, made := s0.procs[w], CallsMade(steps, w, k);
    ExecutionStarts(p0, k);
    ExecutionRuns(p0, [], s0, w, k, steps, s);
    assert [] + made == made;
    x :| s.procs[w] == End(p0, k, x) && EndedProperly(x) && made == CallsOf(x);
    OutcomeOfCalls(x);
  }

  lemma ExecutionStarts(p: Proc, k: nat)
    requires CanCompute(p, k)
    ensures ExecutionUnderWay(p, p, k, [])
  {
    assert p.live[k := p.live[k]] == p.live;
  }
}
