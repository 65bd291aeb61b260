/** Where the fields of a task record come from: in any run each is what the last call that writes it
    wrote, with the arguments and the clock of that call. */
module TaskHistory {
  import opened Records
  import opened TaskStorage
  import opened Cluster
  import opened Provenance
  import opened Custody
  import opened QueueAccounting

  /** What a step does to one task. */
  datatype TaskEvent =
    | Nothing
    | Submitted(priority: int, payload: string, at: int)
    | Dispatched(worker: WorkerId, at: int)
    | TakenBack
    | Succeeded(result: string, at: int)
    | Errored(error: string, at: int)

  ghost function EventOf(s: State, step: Step, id: TaskId): TaskEvent
    requires Enabled(s, step)
  {
    match OpOf(s, step)
    case Add(j, priority, payload) => if j == id then Submitted(priority, payload, s.now) else Nothing
    case Assigning(j, worker) => if j == id && id in s.store.tasks then Dispatched(worker, s.now) else Nothing
    case Requeueing(j) => if j == id && id in s.store.tasks && !Finished(s.store, id) then TakenBack else Nothing
    case Finishing(r) =>
      if r.taskId != id || id !in s.store.tasks then Nothing
      else if r.state.Completed? then Succeeded(r.result, s.now)
      else if r.state.Failed? then Errored(r.error, s.now)
      else Nothing
    case _ => Nothing
  }

  datatype Field = Birth | Phase | Holder | AssignTime | ResultText | ErrorText | FinishTime

  /** Which events write which field. A submission writes them all. */
  predicate Writes(e: TaskEvent, f: Field) {
    e.Submitted? ||
    match f
    case Birth => false
    case Phase => !e.Nothing?
    case Holder => e.Dispatched? || e.TakenBack?
    case AssignTime => e.Dispatched?
    case ResultText => e.Succeeded?
    case ErrorText => e.Errored?
    case FinishTime => e.Succeeded? || e.Errored?
  }

  /** The field of the record is what the event wrote. */
  predicate WrittenBy(r: TaskRecord, f: Field, e: TaskEvent, id: TaskId)
    requires Writes(e, f)
  {
    match f
    case Birth => r.taskId == id && r.priority == e.priority && r.payload == e.payload && r.createdAt == e.at
    case Phase =>
      (match e
       case Submitted(_, _, _) => r.state.Pending?
       case Dispatched(_, _) => r.state.Assigned?
       case TakenBack => r.state.Pending?
       case Succeeded(_, _) => r.state.Completed?
       case Errored(_, _) => r.state.Failed?)
    case Holder => r.assignedWorker == if e.Dispatched? then e.worker else ""
    case AssignTime => r.assignedAt == if e.Dispatched? then Some(e.at) else None
    case ResultText => r.result == if e.Succeeded? then e.result else ""
    case ErrorText => r.error == if e.Errored? then e.error else ""
    case FinishTime => r.completedAt == if e.Submitted? then 0 else e.at
  }

  predicate SameField(r: TaskRecord, r': TaskRecord, f: Field) {
    match f
    case Birth => SameSubmission(r, r')
    case Phase => r.state == r'.state
    case Holder => r.assignedWorker == r'.assignedWorker
    case AssignTime => r.assignedAt == r'.assignedAt
    case ResultText => r.result == r'.result
    case ErrorText => r.error == r'.error
    case FinishTime => r.completedAt == r'.completedAt
  }

  /** The store `st'` agrees with the event on the field of `id`. */
  predicate Agrees(st: Store, st': Store, e: TaskEvent, id: TaskId, f: Field) {
    if Writes(e, f) then id in st'.tasks && WrittenBy(st'.tasks[id], f, e, id)
    else (id in st'.tasks <==> id in st.tasks) && (id in st'.tasks ==> SameField(st.tasks[id], st'.tasks[id], f))
  }

  lemma UntouchedAgrees(st: Store, st': Store, id: TaskId, f: Field)
    requires (id in st'.tasks <==> id in st.tasks) && (id in st'.tasks ==> st'.tasks[id] == st.tasks[id])
    ensures Agrees(st, st', Nothing, id, f)
  {
  }

  lemma AddAgrees(st: Store, id: TaskId, priority: int, payload: string, now: int, f: Field)
    ensures Agrees(st, AddTask(st, id, priority, payload, now), Submitted(priority, payload, now), id, f)
  {
  }

  lemma AssignAgrees(st: Store, id: TaskId, worker: WorkerId, now: int, f: Field)
    requires id in st.tasks
    ensures Agrees(st, AssignTask(st, id, worker, now), Dispatched(worker, now), id, f)
  {
  }

  lemma RequeueAgrees(st: Store, id: TaskId, f: Field)
    requires id in st.tasks && !Finished(st, id)
    ensures Agrees(st, RequeueTask(st, id), TakenBack, id, f)
  {
  }

  lemma ReportAgrees(st: Store, r: TaskResult, now: int, f: Field)
    requires r.taskId in st.tasks
    ensures r.state.Completed? ==> Agrees(st, ApplyReport(st, r, now), Succeeded(r.result, now), r.taskId, f)
    ensures r.state.Failed? ==> Agrees(st, ApplyReport(st, r, now), Errored(r.error, now), r.taskId, f)
  {
  }

  /** The operation does not write the record of `id`. */
  ghost predicate Spares(st: Store, op: StoreOp, id: TaskId) {
    match op
    case Add(j, _, _) => j != id
    case Assigning(j, _) => j != id || id !in st.tasks
    case Requeueing(j) => j != id || !CanRequeue(st, id)
    case Finishing(r) => r.taskId != id || !ReportCounts(st, r)
    case _ => true
  }

  lemma SparedIsSame(st: Store, op: StoreOp, now: int, id: TaskId)
    requires Spares(st, op, id)
    ensures var st' := ApplyOp(st, op, now);
            (id in st'.tasks <==> id in st.tasks) && (id in st'.tasks ==> st'.tasks[id] == st.tasks[id])
  {
  }

  lemma NothingSpares(s: State, step: Step, id: TaskId)
    requires Enabled(s, step) && EventOf(s, step, id).Nothing?
    ensures Spares(s.store, OpOf(s, step), id)
  {
  }

  lemma OpAgrees(s: State, step: Step, id: TaskId, f: Field)
    requires Enabled(s, step)
    ensures Agrees(s.store, ApplyOp(s.store, OpOf(s, step), s.now), EventOf(s, step, id), id, f)
  {
    if EventOf(s, step, id).Nothing? {
      NothingSpares(s, step, id);
      SparedIsSame(s.store, OpOf(s, step), s.now, id);
      UntouchedAgrees(s.store, ApplyOp(s.store, OpOf(s, step), s.now), id, f);
    } else {
      match OpOf(s, step) {
        case Add(_, priority, payload) => AddAgrees(s.store, id, priority, payload, s.now, f);
        case Assigning(_, worker) => AssignAgrees(s.store, id, worker, s.now, f);
        case Requeueing(_) => RequeueAgrees(s.store, id, f);
        case Finishing(r) => ReportAgrees(s.store, r, s.now, f);
      }
    }
  }

  /** In one step: a field that its event writes is what the event says, every other is as before. */
  lemma StepWrites(s: State, step: Step, id: TaskId, f: Field)
    requires Enabled(s, step)
    ensures Agrees(s.store, Apply(s, step).store, EventOf(s, step, id), id, f)
  {
    StoreChange(s, step);
    OpAgrees(s, step, id, f);
  }

  lemma SameFieldKeeps(r: TaskRecord, r': TaskRecord, f: Field, e: TaskEvent, id: TaskId)
    requires Writes(e, f) && WrittenBy(r, f, e, id) && SameField(r, r', f)
    ensures WrittenBy(r', f, e, id)
  {
  }

  // ---- over runs

  ghost function EventAt(states: seq<State>, steps: seq<Step>, k: int, id: TaskId): TaskEvent
    requires Trace(states, steps) && 0 <= k < |steps|
  {
    assert MovesAt(states, steps, k);
    EventOf(states[k], steps[k], id)
  }

  /** Step k is the last one before point i that writes the field. */
  ghost predicate LastWrite(states: seq<State>, steps: seq<Step>, k: int, i: int, id: TaskId, f: Field)
    requires Trace(states, steps) && 0 <= k < i <= |steps|
  {
    && Writes(EventAt(states, steps, k, id), f)
    && forall m :: k < m < i ==> !Writes(EventAt(states, steps, m, id), f)
  }

  lemma StepWritesAt(states: seq<State>, steps: seq<Step>, i: nat, id: TaskId, f: Field)
    requires Trace(states, steps) && i < |steps|
    ensures Agrees(states[i].store, states[i + 1].store, EventAt(states, steps, i, id), id, f)
  {
    assert MovesAt(states, steps, i);
    StepWrites(states[i], steps[i], id, f);
  }

  lemma LastWriteOneLonger(states: seq<State>, steps: seq<Step>, k: nat, i: nat, id: TaskId, f: Field)
    requires Trace(states, steps) && k < i < |steps| && LastWrite(states, steps, k, i, id, f)
    requires !Writes(EventAt(states, steps, i, id), f)
    ensures LastWrite(states, steps, k, i + 1, id, f)
  {
  }

  /** Every field of every record, in any run, is what the last step that writes it wrote. */
  lemma {:induction false} FieldsAreAsLastWritten(states: seq<State>, steps: seq<Step>, i: nat, id: TaskId, f: Field) returns (k: nat)
    requires Trace(states, steps) && Init(states[0]) && i < |states| && id in states[i].store.tasks
    ensures k < i && LastWrite(states, steps, k, i, id, f)
    ensures WrittenBy(states[i].store.tasks[id], f, EventAt(states, steps, k, id), id)
    decreases i
  {
    assert i > 0;
    StepWritesAt(states, steps, i - 1, id, f);
    if Writes(EventAt(states, steps, i - 1, id), f) {
      k := i - 1;
    } else {
      k := FieldsAreAsLastWritten(states, steps, i - 1, id, f);
      LastWriteOneLonger(states, steps, k, i - 1, id, f);
      SameFieldKeeps(states[i - 1].store.tasks[id], states[i].store.tasks[id], f, EventAt(states, steps, k, id), id);
    }
  }

  lemma LastWriteIsUnique(states: seq<State>, steps: seq<Step>, j: nat, k: nat, i: nat, id: TaskId, f: Field)
    requires Trace(states, steps) && j < i <= |steps| && k < i
    requires LastWrite(states, steps, j, i, id, f) && LastWrite(states, steps, k, i, id, f)
    ensures j == k
  {
  }

  // ---- what follows for users of the system

  /** A task holds the priority and payload it was submitted with, and the time it was submitted at. */
  lemma SubmissionIsKept(states: seq<State>, steps: seq<Step>, i: nat, id: TaskId) returns (k: nat)
    requires Trace(states, steps) && Init(states[0]) && i < |states| && id in states[i].store.tasks
    ensures k < i && steps[k].Submit? && steps[k].id == id
    ensures var r := states[i].store.tasks[id];
            r.priority == steps[k].priority && r.payload == steps[k].payload && r.createdAt == states[k].now
  {
    k := FieldsAreAsLastWritten(states, steps, i, id, Birth);
    assert MovesAt(states, steps, k);
    OnlySubmitAdds(states[k], steps[k], id);
  }

  lemma OnlySubmitAdds(s: State, step: Step, id: TaskId)
    requires Enabled(s, step) && EventOf(s, step, id).Submitted?
    ensures step.Submit? && EventOf(s, step, id) == Submitted(step.priority, step.payload, s.now) && step.id == id
  {
  }

  /** The finished task was finished by the last terminal report for it, with its text, and its latency is
      the time from the submission to the handling of that report. */
  lemma OutcomeIsTheLastReport(states: seq<State>, steps: seq<Step>, i: nat, id: TaskId) returns (j: nat, k: nat)
    requires Trace(states, steps) && Init(states[0]) && i < |states| && Finished(states[i].store, id)
    ensures j < i && k < i && steps[j].Submit? && steps[j].id == id && steps[k].Handling? && steps[k].p.StoreReport?
    ensures steps[k].thread in states[k].handlers
    ensures var r, report := states[i].store.tasks[id], states[k].handlers[steps[k].thread].msg.report;
            && report.taskId == id && r.state == report.state
            && (r.state.Completed? ==> r.result == report.result)
            && (r.state.Failed? ==> r.error == report.error)
            && r.completedAt - r.createdAt == states[k].now - states[j].now
  {
    j := SubmissionIsKept(states, steps, i, id);
    k := FieldsAreAsLastWritten(states, steps, i, id, Phase);
    var e := EventAt(states, steps, k, id);
    assert MovesAt(states, steps, k);
    OnlyReportsFinish(states[k], steps[k], id);
    var t := FieldsAreAsLastWritten(states, steps, i, id, FinishTime);
    LaterWritesNarrow(states, steps, t, k, i, id, FinishTime);
    if e.Succeeded? {
      var x := FieldsAreAsLastWritten(states, steps, i, id, ResultText);
      LaterWritesNarrow(states, steps, x, k, i, id, ResultText);
    } else {
      var x := FieldsAreAsLastWritten(states, steps, i, id, ErrorText);
      LaterWritesNarrow(states, steps, x, k, i, id, ErrorText);
    }
  }

  /** What writes a field also writes the phase; so the last write of the phase, if it writes the field,
      is the last write of the field. */
  lemma LaterWritesNarrow(states: seq<State>, steps: seq<Step>, x: nat, k: nat, i: nat, id: TaskId, f: Field)
    requires Trace(states, steps) && x < i <= |steps| && k < i
    requires LastWrite(states, steps, x, i, id, f) && LastWrite(states, steps, k, i, id, Phase)
    requires Writes(EventAt(states, steps, k, id), f)
    ensures x == k
  {
    assert forall e :: Writes(e, f) ==> Writes(e, Phase);
  }

  lemma OnlyReportsFinish(s: State, step: Step, id: TaskId)
    requires Enabled(s, step) && (EventOf(s, step, id).Succeeded? || EventOf(s, step, id).Errored?)
    ensures step.Handling? && step.p.StoreReport? && step.thread in s.handlers
    ensures var report, e := s.handlers[step.thread].msg.report, EventOf(s, step, id);
            report.taskId == id && e == if report.state.Completed? then Succeeded(report.result, s.now) else Errored(report.error, s.now)
  {
  }

  /** Step k gave the task to the worker, and it has been neither taken back, finished nor dispatched again
      before point i. */
  ghost predicate WithWorkerSince(states: seq<State>, steps: seq<Step>, k: int, i: int, id: TaskId, w: WorkerId)
    requires Trace(states, steps) && 0 <= k < i <= |steps|
  {
    && steps[k] == Dispatch(Assign) && states[k].disp.Accepted?
    && states[k].disp.task.taskId == id && states[k].disp.worker.workerId == w
    && forall m :: k < m < i ==> EventAt(states, steps, m, id).Nothing?
  }

  ghost predicate WithWorker(states: seq<State>, steps: seq<Step>, i: int, id: TaskId, w: WorkerId)
    requires Trace(states, steps) && 0 <= i <= |steps|
  {
    exists k :: 0 <= k < i && WithWorkerSince(states, steps, k, i, id, w)
  }

  lemma OnlyAssignDispatches(s: State, step: Step, id: TaskId)
    requires Enabled(s, step)
    ensures EventOf(s, step, id).Dispatched? ==>
              && step == Dispatch(Assign) && s.disp.Accepted? && s.disp.task.taskId == id
              && EventOf(s, step, id) == Dispatched(s.disp.worker.workerId, s.now)
    ensures step == Dispatch(Assign) && s.disp.task.taskId == id && id in s.store.tasks ==> EventOf(s, step, id).Dispatched?
  {
  }

  /** An assigned task was given to its recorded worker at its recorded time, by a dispatch after which
      nothing has happened to it. */
  lemma AssignmentIsTheLastDispatch(states: seq<State>, steps: seq<Step>, i: nat, id: TaskId) returns (k: nat)
    requires Trace(states, steps) && Init(states[0]) && i < |states|
    requires id in states[i].store.tasks && states[i].store.tasks[id].state.Assigned?
    ensures k < i && WithWorkerSince(states, steps, k, i, id, states[i].store.tasks[id].assignedWorker)
    ensures states[i].store.tasks[id].assignedAt == Some(states[k].now)
  {
    k := FieldsAreAsLastWritten(states, steps, i, id, Phase);
    var x := FieldsAreAsLastWritten(states, steps, i, id, Holder);
    var y := FieldsAreAsLastWritten(states, steps, i, id, AssignTime);
    LaterWritesNarrow(states, steps, x, k, i, id, Holder);
    LaterWritesNarrow(states, steps, y, k, i, id, AssignTime);
    assert MovesAt(states, steps, k);
    OnlyAssignDispatches(states[k], steps[k], id);
  }

  lemma SinceIsLastWrite(states: seq<State>, steps: seq<Step>, k: nat, i: nat, id: TaskId, w: WorkerId)
    requires Trace(states, steps) && Init(states[0]) && k < i < |states| && WithWorkerSince(states, steps, k, i, id, w)
    ensures id in states[k].store.tasks && EventAt(states, steps, k, id) == Dispatched(w, states[k].now)
    ensures LastWrite(states, steps, k, i, id, Phase)
  {
    DispatchedIsKnown(states, steps, k, id);
    assert MovesAt(states, steps, k);
    OnlyAssignDispatches(states[k], steps[k], id);
  }

  /** The other direction: after such a dispatch the task is assigned to that worker since then. */
  lemma DispatchIsRecorded(states: seq<State>, steps: seq<Step>, k: nat, i: nat, id: TaskId, w: WorkerId)
    requires Trace(states, steps) && Init(states[0]) && k < i < |states| && WithWorkerSince(states, steps, k, i, id, w)
    ensures id in states[i].store.tasks
    ensures var r := states[i].store.tasks[id];
            r.state.Assigned? && r.assignedWorker == w && r.assignedAt == Some(states[k].now)
  {
    SinceIsLastWrite(states, steps, k, i, id, w);
    StaysKnown(states, steps, k, i, id);
    var p := FieldsAreAsLastWritten(states, steps, i, id, Phase);
    LastWriteIsUnique(states, steps, p, k, i, id, Phase);
    var j := AssignmentIsTheLastDispatch(states, steps, i, id);
    SinceIsLastWrite(states, steps, j, i, id, states[i].store.tasks[id].assignedWorker);
    LastWriteIsUnique(states, steps, j, k, i, id, Phase);
  }

  lemma DispatchedIsKnown(states: seq<State>, steps: seq<Step>, k: nat, id: TaskId)
    requires Trace(states, steps) && Init(states[0]) && k < |steps|
    requires states[k].disp.Accepted? && states[k].disp.task.taskId == id
    ensures id in states[k].store.tasks
  {
    InitIsReachable(states[0]);
    TraceStaysSound(states, steps, k);
    assert InStore(states[k].store, states[k].disp.task);
  }

  lemma {:induction false} StaysKnown(states: seq<State>, steps: seq<Step>, k: nat, i: nat, id: TaskId)
    requires Trace(states, steps) && Init(states[0]) && k <= i < |states| && id in states[k].store.tasks
    ensures id in states[i].store.tasks
    decreases i - k
  {
    if k < i {
      StepWritesAt(states, steps, k, id, Birth);
      StaysKnown(states, steps, k + 1, i, id);
    }
  }

  /** The health check takes a task for late, when it lists the late ones at step i, exactly if it was
      given to a worker more than 3000 ms ago and nothing has happened to it since. */
  lemma ListedLateExactlyWhen(states: seq<State>, steps: seq<Step>, i: nat, id: TaskId)
    requires Trace(states, steps) && Init(states[0]) && i < |steps| && steps[i] == Health(ListLate)
    ensures states[i + 1].health.Late?
    ensures id in states[i + 1].health.todo <==>
              exists k: nat, w :: k < i && WithWorkerSince(states, steps, k, i, id, w) && states[i].now - states[k].now > 3000
  {
    assert MovesAt(states, steps, i);
    InitIsReachable(states[0]);
    TraceIsReachable(states, steps, i);
    NoTaskIsLost(states[i]);
    if k: nat, w :| k < i && WithWorkerSince(states, steps, k, i, id, w) && states[i].now - states[k].now > 3000 {
      DispatchIsRecorded(states, steps, k, i, id, w);
      LateWhenOld(states[i], id);
    }
    if id in states[i + 1].health.todo {
      LateWhenOld(states[i], id);
      var k := AssignmentIsTheLastDispatch(states, steps, i, id);
    }
  }

  /** The list the pass works through was taken at one step of it, and has only shrunk since. */
  lemma {:induction false} LateListComesFrom(states: seq<State>, steps: seq<Step>, i: nat) returns (j: nat)
    requires Trace(states, steps) && Init(states[0]) && i < |states| && states[i].health.Late?
    ensures j < i && steps[j] == Health(ListLate) && states[j + 1].health.Late?
    ensures states[i].health.todo <= states[j + 1].health.todo
    decreases i
  {
    assert i > 0;
    assert MovesAt(states, steps, i - 1);
    if steps[i - 1] == Health(ListLate) {
      j := i - 1;
    } else {
      LateComesFromLate(states[i - 1], steps[i - 1]);
      j := LateListComesFrom(states, steps, i - 1);
    }
  }

  lemma LateComesFromLate(s: State, step: Step)
    requires Enabled(s, step) && Apply(s, step).health.Late? && step != Health(ListLate)
    ensures s.health.Late? && Apply(s, step).health.todo <= s.health.todo
  {
    if step.Health? { HealthFrame(s, step.h); } else { OnlyHealthMovesHealth(s, step); }
  }

  /** A task the health check takes back for its age had, when the list was taken, been with a worker for
      more than 3000 ms. Whether it is still the same dispatch that is cut short, the list does not know. */
  lemma TakenBackOnlyWhenLate(states: seq<State>, steps: seq<Step>, i: nat, id: TaskId) returns (k: nat, j: nat, w: WorkerId)
    requires Trace(states, steps) && Init(states[0]) && i < |steps| && steps[i] == Health(RequeueLate(id))
    ensures k < j < i && steps[j] == Health(ListLate)
    ensures WithWorkerSince(states, steps, k, j, id, w) && states[j].now - states[k].now > 3000
  {
    assert MovesAt(states, steps, i);
    j := LateListComesFrom(states, steps, i);
    ListedLateExactlyWhen(states, steps, j, id);
    k, w :| k < j && WithWorkerSince(states, steps, k, j, id, w) && states[j].now - states[k].now > 3000;
  }

  lemma LateWhenOld(s: State, id: TaskId)
    requires NoneLost(s) && id in s.store.tasks
    ensures id in TimedOutTasks(s.store, EXECUTION_TIMEOUT, s.now)
       <==> s.store.tasks[id].state.Assigned? && s.store.tasks[id].assignedAt.Some?
            && s.now - s.store.tasks[id].assignedAt.value > 3000
  {
    assert Kept(s.store, s.pool, s.now, Hand(s.disp), id);
  }

  /** The tasks of one worker, as any of the three recovery paths lists them. */
  lemma WorkersTasksExactly(states: seq<State>, steps: seq<Step>, i: nat, id: TaskId, w: WorkerId)
    requires Trace(states, steps) && Init(states[0]) && i < |states|
    ensures id in TasksOfWorker(states[i].store, w) <==> WithWorker(states, steps, i, id, w)
  {
    InitIsReachable(states[0]);
    TraceIsReachable(states, steps, i);
    NoTaskIsLost(states[i]);
    if WithWorker(states, steps, i, id, w) {
      var k :| 0 <= k < i && WithWorkerSince(states, steps, k, i, id, w);
      DispatchIsRecorded(states, steps, k, i, id, w);
    }
    if id in TasksOfWorker(states[i].store, w) {
      assert Kept(states[i].store, states[i].pool, states[i].now, Hand(states[i].disp), id);
      var k := AssignmentIsTheLastDispatch(states, steps, i, id);
    }
  }

  /** The listing of a worker's tasks that a step makes, if any: by the dispatcher after a failed call, by
      the health check for a dead worker, or by a registration handler. */
  datatype Listing = NoListing | ListingFor(routine: Routine, worker: WorkerId)

  ghost function ListingOf(s: State, step: Step): Listing
    requires Enabled(s, step)
  {
    match step
    case Dispatch(d) => if d.ListTasks? then ListingFor(TheDispatcher, s.disp.worker.workerId) else NoListing
    case Health(h) => if h.ListOrphans? then ListingFor(TheHealthCheck, s.health.worker) else NoListing
    case Registering(t, r) => if r.ListOld? then ListingFor(TheRegistration(t), s.regs[t].worker) else NoListing
    case _ => NoListing
  }

  lemma ListingIsTasksOfWorker(s: State, step: Step)
    requires Enabled(s, step) && ListingOf(s, step).ListingFor?
    ensures Todo(Apply(s, step), ListingOf(s, step).routine) == TasksOfWorker(s.store, ListingOf(s, step).worker)
  {
    match step {
      case Dispatch(d) => DispatchTodoAfter(s, d);
      case Health(h) => HealthTodoAfter(s, h);
      case Registering(t, r) => RegistrationTodoAfter(s, t, r);
    }
  }

  /** Whichever path lists a worker's tasks at step i, the list is exactly the tasks that worker has been
      given and that nothing has happened to since. */
  lemma RecoveryListsExactly(states: seq<State>, steps: seq<Step>, i: nat, id: TaskId)
    requires Trace(states, steps) && Init(states[0]) && i < |steps|
    requires Enabled(states[i], steps[i]) && ListingOf(states[i], steps[i]).ListingFor?
    ensures var l := ListingOf(states[i], steps[i]);
            id in Todo(states[i + 1], l.routine) <==> WithWorker(states, steps, i, id, l.worker)
  {
    assert MovesAt(states, steps, i);
    ListingIsTasksOfWorker(states[i], steps[i]);
    WorkersTasksExactly(states, steps, i, id, ListingOf(states[i], steps[i]).worker);
  }
}
