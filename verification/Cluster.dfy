/** The whole cluster as a transition system. Every call of a mutex-protected TaskStore, WorkerPool or
    MetricsCollector method is one step; the routines that make several calls keep a program counter
    between them, so the dispatcher, the health check, any number of registration and report handlers,
    the worker processes and the network interleave freely. */
module Cluster {
  import opened Records
  import opened TaskStorage
  import opened WorkerRegistry
  import opened WorkerProcess

  /** An AssignTask request on its way. It is routed by address: whichever process listens there when
      it arrives handles it. */
  datatype AssignMsg = AssignMsg(call: nat, address: string, taskId: TaskId, payload: string)

  /** One attempt to report one execution. */
  datatype ReportKey = ReportKey(worker: WorkerId, exec: nat, attempt: nat)

  datatype ReportMsg = ReportMsg(key: ReportKey, report: TaskResult)

  datatype Beat = Beat(worker: WorkerId, activeTasks: int)

  /** Requests in flight, and the report attempts whose handler has answered. */
  datatype Network = Network(
    assigns: set<AssignMsg>,
    reports: set<ReportMsg>,
    beats: multiset<Beat>,
    answered: set<ReportKey>)

  datatype Reply = NoReply | SaidYes | SaidNo

  /** The dispatch loop between two of its calls. From `Calling` to `Accepted`, `Unreachable`, `Dead`
      or `Refused` it holds a popped task in hand. */
  datatype Dispatcher =
    | Idle
    | Selected(worker: WorkerInfo)
    | Calling(worker: WorkerInfo, task: TaskRecord, call: nat, reply: Reply)
    | Accepted(worker: WorkerInfo, task: TaskRecord)
    | Recorded(worker: WorkerInfo)
    | Unreachable(worker: WorkerInfo, task: TaskRecord)
    | Dead(worker: WorkerInfo, task: TaskRecord)
    | Listing(worker: WorkerInfo)
    | Requeuing(worker: WorkerInfo, todo: set<TaskId>)
    | Refused(worker: WorkerInfo, task: TaskRecord)
  {
    predicate Holds() { Calling? || Accepted? || Unreachable? || Dead? || Refused? }

    /** `select_worker` has returned and `increment_load` has not yet run. */
    predicate Committed() { Selected? || Calling? || Accepted? || Recorded? }
  }

  datatype HealthCheck =
    | Sleeping
    | Marking(dead: set<WorkerId>)
    | Marked(worker: WorkerId, dead: set<WorkerId>)
    | Orphans(todo: set<TaskId>, dead: set<WorkerId>)
    | Late(readAt: int, todo: set<TaskId>)

  datatype Registration =
    | Arrived(worker: WorkerId, address: string)
    | Known(worker: WorkerId, address: string)
    | Returning(worker: WorkerId, address: string, todo: set<TaskId>)
    | Ready(worker: WorkerId, address: string)

  datatype Handler =
    | Received(msg: ReportMsg)
    | Stored(msg: ReportMsg)
    | Counted(msg: ReportMsg, ok: bool)

  /** The metrics totals, with a record of what they should add up to: the reports that changed the
      store, the answers that said so, and the tasks that were ever completed or failed. */
  datatype Ledger = Ledger(
    totalOk: nat,
    totalErr: nat,
    storedOk: nat,
    storedErr: nat,
    acknowledged: nat,
    everCompleted: set<TaskId>,
    everFailed: set<TaskId>)

  datatype State = State(
    store: Store,
    pool: Pool,
    ledger: Ledger,
    now: int,
    disp: Dispatcher,
    nextCall: nat,
    health: HealthCheck,
    lastPass: int,
    regs: map<nat, Registration>,
    handlers: map<nat, Handler>,
    procs: map<WorkerId, Proc>,
    net: Network)

  datatype DispatchStep =
    | Select(worker: WorkerId)
    | Pop(top: TaskRecord, dropped: multiset<TaskRecord>, rest: multiset<TaskRecord>)
    | PopNothing
    | Receive
    | TimeOut
    | Assign
    | Increment
    | MarkAsDead
    | RequeueHand
    | ListTasks
    | RequeueListed(id: TaskId)
    | Resume
    | Refuse

  datatype HealthStep =
    | FindDead
    | Mark(worker: WorkerId)
    | ListOrphans
    | RequeueOrphan(id: TaskId)
    | NextDead
    | ListLate
    | RequeueLate(id: TaskId)
    | FinishPass

  datatype RegistrationStep =
    | Arrive(worker: WorkerId, address: string)
    | LookUp
    | ListOld
    | RequeueOld(id: TaskId)
    | OldDone
    | Register

  datatype HandlerStep = Deliver(msg: ReportMsg) | StoreReport | Count | Release

  datatype WorkerStep =
    | Handle(msg: AssignMsg)
    | Run(exec: nat)
    | Call(exec: nat)
    | CallReturns(exec: nat)
    | CallTimesOut(exec: nat)
    | Drain
    | Crash(address: string)
    | SendBeat

  datatype Step =
    | Submit(id: TaskId, priority: int, payload: string)
    | Tick(ms: nat)
    | Dispatch(d: DispatchStep)
    | Health(h: HealthStep)
    | Registering(thread: nat, r: RegistrationStep)
    | Handling(thread: nat, p: HandlerStep)
    | Working(worker: WorkerId, w: WorkerStep)
    | BeatArrives(beat: Beat)

  // ---- the dispatcher

  ghost predicate DispatchEnabled(s: State, d: DispatchStep) {
    match d
    case Select(w) => s.disp.Idle? && LeastLoaded(s.pool, w)
    case Pop(top, dropped, rest) => s.disp.Selected? && PopTakes(s.store, top, dropped, rest)
    case PopNothing => s.disp.Selected? && PopFindsNone(s.store)
    case Receive => s.disp.Calling? && !s.disp.reply.NoReply?
    case TimeOut => s.disp.Calling?
    case Assign => s.disp.Accepted?
    case Increment => s.disp.Recorded?
    case MarkAsDead => s.disp.Unreachable?
    case RequeueHand => s.disp.Dead?
    case ListTasks => s.disp.Listing?
    case RequeueListed(id) => s.disp.Requeuing? && id in s.disp.todo
    case Resume => s.disp.Requeuing? && s.disp.todo == {}
    case Refuse => s.disp.Refused?
  }

  /** The call may time out whether or not the worker has accepted. */
  ghost function DispatchApply(s: State, d: DispatchStep): State
    requires DispatchEnabled(s, d)
  {
    match d
    case Select(w) => s.(disp := Selected(s.pool[w]))
    case Pop(top, dropped, rest) =>
      var task := s.store.tasks[top.taskId];
      s.(store := s.store.(queue := rest),
         disp := Calling(s.disp.worker, task, s.nextCall, NoReply),
         nextCall := s.nextCall + 1,
         net := s.net.(assigns := s.net.assigns + {AssignMsg(s.nextCall, s.disp.worker.address, task.taskId, task.payload)}))
    case PopNothing => s.(store := s.store.(queue := multiset{}), disp := Idle)
    case Receive => s.(disp := if s.disp.reply.SaidYes? then Accepted(s.disp.worker, s.disp.task) else Refused(s.disp.worker, s.disp.task))
    case TimeOut => s.(disp := Unreachable(s.disp.worker, s.disp.task))
    case Assign => s.(store := AssignTask(s.store, s.disp.task.taskId, s.disp.worker.workerId, s.now), disp := Recorded(s.disp.worker))
    case Increment => s.(pool := IncrementLoad(s.pool, s.disp.worker.workerId), disp := Idle)
    case MarkAsDead => s.(pool := MarkDead(s.pool, s.disp.worker.workerId), disp := Dead(s.disp.worker, s.disp.task))
    case RequeueHand => s.(store := RequeueTask(s.store, s.disp.task.taskId), disp := Listing(s.disp.worker))
    case ListTasks => s.(disp := Requeuing(s.disp.worker, TasksOfWorker(s.store, s.disp.worker.workerId)))
    case RequeueListed(id) => s.(store := RequeueTask(s.store, id), disp := Requeuing(s.disp.worker, s.disp.todo - {id}))
    case Resume => s.(disp := Idle)
    case Refuse => s.(store := RequeueTask(s.store, s.disp.task.taskId), disp := Idle)
  }

  // ---- the health check

  ghost predicate HealthEnabled(s: State, h: HealthStep) {
    match h
    case FindDead => s.health.Sleeping?
    case Mark(w) => s.health.Marking? && w in s.health.dead
    case ListOrphans => s.health.Marked?
    case RequeueOrphan(id) => s.health.Orphans? && id in s.health.todo
    case NextDead => s.health.Orphans? && s.health.todo == {}
    case ListLate => s.health.Marking? && s.health.dead == {}
    case RequeueLate(id) => s.health.Late? && id in s.health.todo
    case FinishPass => s.health.Late? && s.health.todo == {}
  }

  ghost function HealthApply(s: State, h: HealthStep): State
    requires HealthEnabled(s, h)
  {
    match h
    case FindDead => s.(health := Marking(DeadWorkers(s.pool, HEARTBEAT_TIMEOUT, s.now)))
    case Mark(w) => s.(pool := MarkDead(s.pool, w), health := Marked(w, s.health.dead - {w}))
    case ListOrphans => s.(health := Orphans(TasksOfWorker(s.store, s.health.worker), s.health.dead))
    case RequeueOrphan(id) => s.(store := RequeueTask(s.store, id), health := Orphans(s.health.todo - {id}, s.health.dead))
    case NextDead => s.(health := Marking(s.health.dead))
    case ListLate => s.(health := Late(s.now, TimedOutTasks(s.store, EXECUTION_TIMEOUT, s.now)))
    case RequeueLate(id) => s.(store := RequeueTask(s.store, id), health := Late(s.health.readAt, s.health.todo - {id}))
    case FinishPass => s.(health := Sleeping, lastPass := s.health.readAt)
  }

  // ---- the RegisterWorker handlers

  ghost predicate RegistrationEnabled(s: State, t: nat, r: RegistrationStep) {
    match r
    case Arrive(w, address) => t !in s.regs && w in s.procs
    case LookUp => t in s.regs && s.regs[t].Arrived?
    case ListOld => t in s.regs && s.regs[t].Known?
    case RequeueOld(id) => t in s.regs && s.regs[t].Returning? && id in s.regs[t].todo
    case OldDone => t in s.regs && s.regs[t].Returning? && s.regs[t].todo == {}
    case Register => t in s.regs && s.regs[t].Ready?
  }

  ghost function RegistrationApply(s: State, t: nat, r: RegistrationStep): State
    requires RegistrationEnabled(s, t, r)
  {
    match r
    case Arrive(w, address) => s.(regs := s.regs[t := Arrived(w, address)])
    case LookUp =>
      var x := s.regs[t];
      s.(regs := s.regs[t := if x.worker in s.pool then Known(x.worker, x.address) else Ready(x.worker, x.address)])
    case ListOld =>
      var x := s.regs[t];
      s.(regs := s.regs[t := Returning(x.worker, x.address, TasksOfWorker(s.store, x.worker))])
    case RequeueOld(id) =>
      var x := s.regs[t];
      s.(store := RequeueTask(s.store, id), regs := s.regs[t := Returning(x.worker, x.address, x.todo - {id})])
    case OldDone => s.(regs := s.regs[t := Ready(s.regs[t].worker, s.regs[t].address)])
    case Register =>
      var x := s.regs[t];
      var capacity := if x.worker in s.procs then s.procs[x.worker].capacity else 0;
      s.(pool := RegisterWorker(s.pool, x.worker, x.address, capacity, s.now), regs := s.regs - {t})
  }

  // ---- the ReportResult handlers

  ghost predicate HandlerEnabled(s: State, t: nat, p: HandlerStep) {
    match p
    case Deliver(msg) => t !in s.handlers && msg in s.net.reports
    case StoreReport => t in s.handlers && s.handlers[t].Received?
    case Count => t in s.handlers && s.handlers[t].Stored?
    case Release => t in s.handlers && s.handlers[t].Counted?
  }

  function NoteStored(l: Ledger, r: TaskResult): Ledger {
    if r.state.Completed? then l.(storedOk := l.storedOk + 1, everCompleted := l.everCompleted + {r.taskId})
    else l.(storedErr := l.storedErr + 1, everFailed := l.everFailed + {r.taskId})
  }

  function NoteCounted(l: Ledger, r: TaskResult): Ledger {
    if r.state.Completed? then l.(totalOk := l.totalOk + 1) else l.(totalErr := l.totalErr + 1)
  }

  predicate ReportCounts(st: Store, r: TaskResult) {
    r.taskId in st.tasks && (r.state.Completed? || r.state.Failed?)
  }

  ghost function HandlerApply(s: State, t: nat, p: HandlerStep): State
    requires HandlerEnabled(s, t, p)
  {
    match p
    case Deliver(msg) => s.(net := s.net.(reports := s.net.reports - {msg}), handlers := s.handlers[t := Received(msg)])
    case StoreReport =>
      var msg := s.handlers[t].msg;
      if ReportCounts(s.store, msg.report) then
        s.(store := ApplyReport(s.store, msg.report, s.now), ledger := NoteStored(s.ledger, msg.report),
           handlers := s.handlers[t := Stored(msg)])
      else s.(handlers := s.handlers[t := Counted(msg, false)])
    case Count =>
      var msg := s.handlers[t].msg;
      s.(ledger := NoteCounted(s.ledger, msg.report), handlers := s.handlers[t := Counted(msg, true)])
    case Release =>
      var x := s.handlers[t];
      s.(pool := DecrementLoad(s.pool, x.msg.key.worker),
         ledger := if x.ok then s.ledger.(acknowledged := s.ledger.acknowledged + 1) else s.ledger,
         net := s.net.(answered := s.net.answered + {x.msg.key}),
         handlers := s.handlers - {t})
  }

  // ---- the worker processes

  ghost predicate ProcEnabled(p: Proc, x: WorkerStep) {
    match x
    case Run(k) => CanCompute(p, k)
    case Call(k) => CanCall(p, k)
    case CallReturns(k) => InCall(p, k)
    case CallTimesOut(k) => InCall(p, k)
    case _ => true
  }

  /** A crash loses every execution and the counters. */
  ghost function NextProc(p: Proc, x: WorkerStep): Proc
    requires ProcEnabled(p, x)
  {
    match x
    case Handle(msg) => if Accepts(p) then Accept(p, msg.taskId, msg.payload) else p
    case Run(k) => Compute(p, k)
    case Call(k) => StartCall(p, k)
    case CallReturns(k) => CallSucceeds(p, k)
    case CallTimesOut(k) => CallFails(p, k)
    case Drain => p.(draining := true)
    case Crash(address) => Restart(p, address)
    case SendBeat => p
  }

  /** The report an execution sends with its next call. */
  function NextReport(w: WorkerId, p: Proc, k: nat): ReportMsg
    requires CanCall(p, k)
  {
    ReportMsg(ReportKey(w, k, p.live[k].phase.failed), p.live[k].phase.report)
  }

  ghost function NextNet(net: Network, w: WorkerId, p: Proc, x: WorkerStep): Network
    requires ProcEnabled(p, x)
  {
    match x
    case Handle(msg) => net.(assigns := net.assigns - {msg})
    case Call(k) => net.(reports := net.reports + {NextReport(w, p, k)})
    case SendBeat => net.(beats := net.beats + multiset{Beat(w, p.active)})
    case _ => net
  }

  /** The accept handler's answer reaches the dispatcher only while that call is still open. */
  function NextDisp(d: Dispatcher, p: Proc, x: WorkerStep): Dispatcher {
    if x.Handle? && d.Calling? && d.call == x.msg.call then d.(reply := if Accepts(p) then SaidYes else SaidNo) else d
  }

  ghost predicate WorkerEnabled(s: State, w: WorkerId, x: WorkerStep) {
    && w in s.procs && ProcEnabled(s.procs[w], x)
    && (x.Handle? ==> x.msg in s.net.assigns && x.msg.address == s.procs[w].address)
    && (x.CallReturns? ==> ReportKey(w, x.exec, s.procs[w].live[x.exec].phase.failed) in s.net.answered)
  }

  ghost function WorkerApply(s: State, w: WorkerId, x: WorkerStep): State
    requires WorkerEnabled(s, w, x)
  {
    var p := s.procs[w];
    s.(procs := s.procs[w := NextProc(p, x)], disp := NextDisp(s.disp, p, x), net := NextNet(s.net, w, p, x))
  }

  // ---- all together

  ghost predicate Enabled(s: State, step: Step) {
    match step
    case Submit(id, priority, payload) => payload != "" && id !in s.store.tasks
    case Tick(ms) => true
    case Dispatch(d) => DispatchEnabled(s, d)
    case Health(h) => HealthEnabled(s, h)
    case Registering(t, r) => RegistrationEnabled(s, t, r)
    case Handling(t, p) => HandlerEnabled(s, t, p)
    case Working(w, x) => WorkerEnabled(s, w, x)
    case BeatArrives(b) => b in s.net.beats
  }

  ghost function Apply(s: State, step: Step): State
    requires Enabled(s, step)
  {
    match step
    case Submit(id, priority, payload) => s.(store := AddTask(s.store, id, priority, payload, s.now))
    case Tick(ms) => s.(now := s.now + ms)
    case Dispatch(d) => DispatchApply(s, d)
    case Health(h) => HealthApply(s, h)
    case Registering(t, r) => RegistrationApply(s, t, r)
    case Handling(t, p) => HandlerApply(s, t, p)
    case Working(w, x) => WorkerApply(s, w, x)
    case BeatArrives(b) =>
      s.(pool := RecordHeartbeat(s.pool, b.worker, b.activeTasks, s.now), net := s.net.(beats := s.net.beats - multiset{b}))
  }

  // ---- what each routine leaves alone

  lemma DispatchFrame(s: State, d: DispatchStep)
    requires DispatchEnabled(s, d)
    ensures var s' := DispatchApply(s, d);
            && s'.now == s.now && s'.procs == s.procs && s'.ledger == s.ledger
            && s'.health == s.health && s'.lastPass == s.lastPass && s'.regs == s.regs && s'.handlers == s.handlers
            && s'.net == s.net.(assigns := s'.net.assigns)
  {
  }

  lemma HealthFrame(s: State, h: HealthStep)
    requires HealthEnabled(s, h)
    ensures var s' := HealthApply(s, h);
            s' == s.(store := s'.store, pool := s'.pool, health := s'.health, lastPass := s'.lastPass)
  {
  }

  lemma RegistrationFrame(s: State, t: nat, r: RegistrationStep)
    requires RegistrationEnabled(s, t, r)
    ensures var s' := RegistrationApply(s, t, r);
            s' == s.(store := s'.store, pool := s'.pool, regs := s'.regs)
  {
  }

  lemma HandlerFrame(s: State, t: nat, p: HandlerStep)
    requires HandlerEnabled(s, t, p)
    ensures var s' := HandlerApply(s, t, p);
            && s' == s.(store := s'.store, pool := s'.pool, ledger := s'.ledger, handlers := s'.handlers, net := s'.net)
            && s'.net.assigns == s.net.assigns && s'.net.beats == s.net.beats
            && s.net.answered <= s'.net.answered && s'.net.reports <= s.net.reports
  {
  }

  lemma WorkerFrame(s: State, w: WorkerId, x: WorkerStep)
    requires WorkerEnabled(s, w, x)
    ensures var s' := WorkerApply(s, w, x);
            && s' == s.(procs := s'.procs, disp := s'.disp, net := s'.net)
            && s'.net.answered == s.net.answered
            && s'.procs == s.procs[w := NextProc(s.procs[w], x)]
            && s'.disp == NextDisp(s.disp, s.procs[w], x)
  {
  }

  /** The health check's state changes only in its own steps, and the clock never goes back. */
  lemma OnlyHealthMovesHealth(s: State, step: Step)
    requires Enabled(s, step)
    ensures s.now <= Apply(s, step).now
    ensures !step.Health? ==> Apply(s, step).health == s.health && Apply(s, step).lastPass == s.lastPass
  {
    match step {
      case Dispatch(d) => DispatchFrame(s, d);
      case Health(h) => HealthFrame(s, h);
      case Registering(t, r) => RegistrationFrame(s, t, r);
      case Handling(t, p) => HandlerFrame(s, t, p);
      case Working(w, x) => WorkerFrame(s, w, x);
      case Submit(id, priority, payload) =>
      case Tick(ms) =>
      case BeatArrives(b) =>
    }
  }

  /** The ledger and the handlers change only in the handlers' steps. */
  lemma OnlyHandlersMoveLedger(s: State, step: Step)
    requires Enabled(s, step) && !step.Handling?
    ensures Apply(s, step).ledger == s.ledger && Apply(s, step).handlers == s.handlers
  {
    match step {
      case Dispatch(d) => DispatchFrame(s, d);
      case Health(h) => HealthFrame(s, h);
      case Registering(t, r) => RegistrationFrame(s, t, r);
      case Working(w, x) => WorkerFrame(s, w, x);
      case Submit(id, priority, payload) =>
      case Tick(ms) =>
      case BeatArrives(b) =>
    }
  }

  /** The dispatcher changes in its own steps, and in no other but that the reply may come in. */
  lemma OnlyDispatchMovesDispatcher(s: State, step: Step)
    requires Enabled(s, step) && !step.Dispatch?
    ensures var d, d' := s.disp, Apply(s, step).disp;
            d' == d || (d.Calling? && d'.Calling? && d' == d.(reply := d'.reply))
  {
    match step {
      case Health(h) => HealthFrame(s, h);
      case Registering(t, r) => RegistrationFrame(s, t, r);
      case Handling(t, p) => HandlerFrame(s, t, p);
      case Working(w, x) => WorkerFrame(s, w, x);
      case Submit(id, priority, payload) =>
      case Tick(ms) =>
      case BeatArrives(b) =>
    }
  }

  /** The processes change only in their own steps; answers are never taken back. */
  lemma OnlyWorkersMoveProcs(s: State, step: Step)
    requires Enabled(s, step)
    ensures s.net.answered <= Apply(s, step).net.answered
    ensures !step.Working? ==> Apply(s, step).procs == s.procs
  {
    match step {
      case Dispatch(d) => DispatchFrame(s, d);
      case Health(h) => HealthFrame(s, h);
      case Registering(t, r) => RegistrationFrame(s, t, r);
      case Handling(t, p) => HandlerFrame(s, t, p);
      case Working(w, x) => WorkerFrame(s, w, x);
      case Submit(id, priority, payload) =>
      case Tick(ms) =>
      case BeatArrives(b) =>
    }
  }

  /** The store call a step makes, if any. */
  datatype StoreOp =
    | Keep
    | Add(id: TaskId, priority: int, payload: string)
    | Drained(rest: multiset<TaskRecord>)
    | Assigning(id: TaskId, worker: WorkerId)
    | Finishing(report: TaskResult)
    | Requeueing(id: TaskId)

  function ApplyOp(st: Store, op: StoreOp, now: int): Store {
    match op
    case Keep => st
    case Add(id, priority, payload) => AddTask(st, id, priority, payload, now)
    case Drained(rest) => st.(queue := rest)
    case Assigning(id, worker) => AssignTask(st, id, worker, now)
    case Finishing(r) => ApplyReport(st, r, now)
    case Requeueing(id) => RequeueTask(st, id)
  }

  ghost function DispatchOp(s: State, d: DispatchStep): StoreOp
    requires DispatchEnabled(s, d)
  {
    match d
    case Pop(top, dropped, rest) => Drained(rest)
    case PopNothing => Drained(multiset{})
    case Assign => Assigning(s.disp.task.taskId, s.disp.worker.workerId)
    case RequeueHand => Requeueing(s.disp.task.taskId)
    case RequeueListed(id) => Requeueing(id)
    case Refuse => Requeueing(s.disp.task.taskId)
    case _ => Keep
  }

  ghost function OpOf(s: State, step: Step): StoreOp
    requires Enabled(s, step)
  {
    match step
    case Submit(id, priority, payload) => Add(id, priority, payload)
    case Dispatch(d) => DispatchOp(s, d)
    case Health(h) =>
      (match h
       case RequeueOrphan(id) => Requeueing(id)
       case RequeueLate(id) => Requeueing(id)
       case _ => Keep)
    case Registering(t, r) => if r.RequeueOld? then Requeueing(r.id) else Keep
    case Handling(t, p) => if p.StoreReport? then Finishing(s.handlers[t].msg.report) else Keep
    case _ => Keep
  }

  lemma DispatchStoreChange(s: State, d: DispatchStep)
    requires DispatchEnabled(s, d)
    ensures DispatchApply(s, d).store == ApplyOp(s.store, DispatchOp(s, d), s.now)
  {
    if d.Pop? || d.PopNothing? || d.Assign? {
    } else if d.RequeueHand? || d.RequeueListed? || d.Refuse? {
    } else {
      assert DispatchOp(s, d) == Keep;
    }
  }

  lemma HandlerStoreChange(s: State, t: nat, p: HandlerStep)
    requires HandlerEnabled(s, t, p)
    ensures HandlerApply(s, t, p).store
         == if p.StoreReport? then ApplyReport(s.store, s.handlers[t].msg.report, s.now) else s.store
  {
  }

  lemma HealthStoreChange(s: State, h: HealthStep)
    requires HealthEnabled(s, h)
    ensures HealthApply(s, h).store == ApplyOp(s.store, OpOf(s, Health(h)), s.now)
  {
  }

  lemma RegistrationStoreChange(s: State, t: nat, r: RegistrationStep)
    requires RegistrationEnabled(s, t, r)
    ensures RegistrationApply(s, t, r).store == if r.RequeueOld? then RequeueTask(s.store, r.id) else s.store
  {
  }

  /** Every step changes the store by exactly one of its operations. */
  lemma StoreChange(s: State, step: Step)
    requires Enabled(s, step)
    ensures Apply(s, step).store == ApplyOp(s.store, OpOf(s, step), s.now)
  {
    match step {
      case Dispatch(d) => DispatchStoreChange(s, d);
      case Health(h) => HealthStoreChange(s, h);
      case Registering(t, r) => RegistrationStoreChange(s, t, r);
      case Handling(t, p) => HandlerStoreChange(s, t, p);
      case Working(w, x) => WorkerFrame(s, w, x);
      case Submit(id, priority, payload) =>
      case Tick(ms) =>
      case BeatArrives(b) =>
    }
  }

  /** A fresh coordinator; the clock is positive and worker processes may be of any number and size. */
  ghost predicate Init(s: State) {
    && s.store == Store(map[], multiset{})
    && s.pool == map[]
    && s.ledger == Ledger(0, 0, 0, 0, 0, {}, {})
    && s.now > 0 && s.lastPass == s.now
    && s.disp == Idle && s.health == Sleeping
    && s.regs == map[] && s.handlers == map[]
    && s.net == Network({}, {}, multiset{}, {})
    && forall w :: w in s.procs ==> s.procs[w] == Proc(s.procs[w].address, s.procs[w].capacity, 0, 0, 0, false, map[], map[], 0)
  }

  /** `steps` can be taken from `s` one after the other and lead to `s'`. */
  ghost predicate Runs(s: State, steps: seq<Step>, s': State)
    decreases |steps|
  {
    if steps == [] then s' == s
    else Enabled(s, steps[0]) && Runs(Apply(s, steps[0]), steps[1..], s')
  }

  ghost predicate Reaches(s: State, s': State) {
    exists steps :: Runs(s, steps, s')
  }

  ghost predicate Reachable(s: State) {
    exists s0 :: Init(s0) && Reaches(s0, s)
  }

  lemma RunsFirst(a: State, steps: seq<Step>, c: State)
    requires steps != [] && Enabled(a, steps[0]) && Runs(Apply(a, steps[0]), steps[1..], c)
    ensures Runs(a, steps, c)
  {
  }

  lemma {:induction false} RunsConcat(a: State, xs: seq<Step>, b: State, ys: seq<Step>, c: State)
    requires Runs(a, xs, b) && Runs(b, ys, c)
    ensures Runs(a, xs + ys, c)
    decreases |xs|
  {
    var zs := xs + ys;
    if xs == [] {
      assert zs == ys;
    } else {
      RunsConcat(Apply(a, xs[0]), xs[1..], b, ys, c);
      assert zs[1..] == xs[1..] + ys;
      RunsFirst(a, zs, c);
    }
  }

  lemma ReachesTransitive(a: State, b: State, c: State)
    requires Reaches(a, b) && Reaches(b, c)
    ensures Reaches(a, c)
  {
    var xs :| Runs(a, xs, b);
    var ys :| Runs(b, ys, c);
    RunsConcat(a, xs, b, ys, c);
  }

  lemma ReachesStep(s: State, step: Step)
    requires Enabled(s, step)
    ensures Reaches(s, Apply(s, step))
  {
    assert [step][1..] == [];
    assert Runs(Apply(s, step), [], Apply(s, step));
    assert Runs(s, [step], Apply(s, step));
  }

  lemma ReachesItself(s: State)
    ensures Reaches(s, s)
  {
    assert Runs(s, [], s);
  }

  lemma ReachableExtends(s: State, s': State)
    requires Reachable(s) && Reaches(s, s')
    ensures Reachable(s')
  {
    var s0 :| Init(s0) && Reaches(s0, s);
    ReachesTransitive(s0, s, s');
  }

  // ---- schedules that keep to some kinds of steps

  /** Which steps a schedule may use. `OwnSteps` leaves out whatever comes from outside a running
      system: submissions, registrations, and processes that crash or are told to drain. The others
      are the steps of one routine: the dispatcher's; a health pass's after its start; what executes
      and reports tasks; and one registration handler's for one worker and address. */
  datatype StepKind =
    | OwnSteps
    | DispatcherSteps
    | PassSteps
    | ReportSteps
    | RegistrationSteps(thread: nat, worker: WorkerId, address: string)

  predicate Allowed(kind: StepKind, step: Step) {
    match kind
    case OwnSteps => !step.Submit? && !step.Registering? && (step.Working? ==> !step.w.Crash? && !step.w.Drain?)
    case DispatcherSteps => step.Dispatch?
    case PassSteps => step.Health? && !step.h.FindDead?
    case ReportSteps =>
      step.Handling? || (step.Working? && (step.w.Run? || step.w.Call? || step.w.CallReturns? || step.w.CallTimesOut?))
    case RegistrationSteps(t, w, address) =>
      step.Registering? && step.thread == t && (step.r.Arrive? ==> step.r == Arrive(w, address))
  }

  ghost predicate Keeps(kind: StepKind, steps: seq<Step>) {
    forall i :: 0 <= i < |steps| ==> Allowed(kind, steps[i])
  }

  /** Steps of this kind alone lead from `s` to `s'`. */
  ghost predicate Via(kind: StepKind, s: State, s': State) {
    exists steps :: Runs(s, steps, s') && Keeps(kind, steps)
  }

  lemma ViaTransitive(kind: StepKind, a: State, b: State, c: State)
    requires Via(kind, a, b) && Via(kind, b, c)
    ensures Via(kind, a, c)
  {
    var xs :| Runs(a, xs, b) && Keeps(kind, xs);
    var ys :| Runs(b, ys, c) && Keeps(kind, ys);
    RunsConcat(a, xs, b, ys, c);
    assert Keeps(kind, xs + ys);
  }

  lemma ViaStep(kind: StepKind, s: State, step: Step)
    requires Enabled(s, step) && Allowed(kind, step)
    ensures Via(kind, s, Apply(s, step))
  {
    assert [step][1..] == [];
    assert Runs(Apply(s, step), [], Apply(s, step));
    assert Runs(s, [step], Apply(s, step)) && Keeps(kind, [step]);
  }

  lemma ViaItself(kind: StepKind, s: State)
    ensures Via(kind, s, s)
  {
    assert Runs(s, [], s) && Keeps(kind, []);
  }

  lemma ViaReaches(kind: StepKind, s: State, s': State)
    requires Via(kind, s, s')
    ensures Reaches(s, s')
  {
  }

  /** The steps of the dispatcher, of a pass and of the reports are the system's own. */
  lemma ViaOwnSteps(kind: StepKind, s: State, s': State)
    requires Via(kind, s, s') && !kind.RegistrationSteps?
    ensures Via(OwnSteps, s, s')
  {
    var steps :| Runs(s, steps, s') && Keeps(kind, steps);
    assert forall step :: Allowed(kind, step) ==> Allowed(OwnSteps, step);
    assert Keeps(OwnSteps, steps);
  }

  // ---- runs with all their intermediate states

  ghost predicate Trace(states: seq<State>, steps: seq<Step>) {
    && |states| == |steps| + 1
    && forall i :: 0 <= i < |steps| ==> MovesAt(states, steps, i)
  }

  ghost predicate MovesAt(states: seq<State>, steps: seq<Step>, i: int)
    requires |states| == |steps| + 1 && 0 <= i < |steps|
  {
    Moves(states[i], steps[i], states[i + 1])
  }

  ghost predicate Moves(s: State, step: Step, s': State) {
    Enabled(s, step) && s' == Apply(s, step)
  }

  lemma {:induction false} TraceIsReachable(states: seq<State>, steps: seq<Step>, i: nat)
    requires Trace(states, steps) && i < |states| && Reachable(states[0])
    ensures Reachable(states[i])
    decreases i
  {
    if i > 0 {
      TraceIsReachable(states, steps, i - 1);
      assert MovesAt(states, steps, i - 1);
      ReachesStep(states[i - 1], steps[i - 1]);
      ReachableExtends(states[i - 1], states[i]);
    }
  }

  lemma InitIsReachable(s: State)
    requires Init(s)
    ensures Reachable(s)
  {
    ReachesItself(s);
  }
}
