/** How many entries the queue has: exactly when a task can be queued twice, and what the length is as
    long as no two recovery routines have the same task on their lists. */
module QueueAccounting {
  import opened Records
  import opened TaskStorage
  import opened Cluster
  import opened Provenance
  import opened Custody

  // ---- exactly when an entry is duplicated

  /** One entry at most for each task. */
  ghost predicate EntriesUnique(q: multiset<TaskRecord>) {
    && (forall e :: e in q ==> q[e] == 1)
    && (forall e, f :: e in q && f in q && e.taskId == f.taskId ==> e == f)
  }

  /** The step requeues an unfinished task that is still in the queue. */
  ghost predicate RequeuesQueued(s: State, step: Step)
    requires Enabled(s, step)
  {
    var op := OpOf(s, step);
    op.Requeueing? && CanRequeue(s.store, op.id) && HasEntry(s.store, op.id)
  }

  lemma NoEntryInQueue(st: Store, id: TaskId, e: TaskRecord)
    requires !HasEntry(st, id) && e.taskId == id
    ensures e !in st.queue && st.queue[e] == 0
  {
  }

  lemma PushStaysUnique(st: Store, e: TaskRecord)
    requires EntriesUnique(st.queue) && !HasEntry(st, e.taskId)
    ensures EntriesUnique(st.queue + multiset{e})
  {
    NoEntryInQueue(st, e.taskId, e);
  }

  /** A push makes an entry for its own task only. */
  lemma PushAddsOneId(st: Store, st': Store, e: TaskRecord)
    requires st'.queue == st.queue + multiset{e}
    ensures forall j :: HasEntry(st', j) ==> j == e.taskId || HasEntry(st, j)
  {
    forall j | HasEntry(st', j)
      ensures j == e.taskId || HasEntry(st, j)
    {
      var f :| f in st'.queue && f.taskId == j;
      assert f == e || f in st.queue;
    }
  }

  lemma FewerStayUnique(q: multiset<TaskRecord>, rest: multiset<TaskRecord>)
    requires EntriesUnique(q) && rest <= q
    ensures EntriesUnique(rest)
  {
    forall e | e in rest
      ensures e in q && rest[e] == 1
    {
      assert 0 < rest[e] <= q[e];
    }
  }

  lemma SecondEntryBreaks(st: Store, id: TaskId)
    requires KeysMatch(st) && CanRequeue(st, id) && HasEntry(st, id)
    ensures !EntriesUnique(RequeueTask(st, id).queue)
  {
    var e :| e in st.queue && e.taskId == id;
    var q, r := RequeueTask(st, id).queue, Requeued(st.tasks[id]);
    assert q == st.queue + multiset{r};
    assert e in q && r in q && e.taskId == r.taskId;
    if e == r { assert q[e] >= 2; }
  }

  lemma OpKeepsUnique(st: Store, op: StoreOp, now: int)
    requires EntriesMatch(st) && EntriesUnique(st.queue)
    requires op.Add? ==> op.id !in st.tasks
    requires op.Drained? ==> op.rest <= st.queue
    ensures EntriesUnique(ApplyOp(st, op, now).queue)
       <==> !(op.Requeueing? && CanRequeue(st, op.id) && HasEntry(st, op.id))
  {
    match op {
      case Add(id, priority, payload) => PushStaysUnique(st, NewRecord(id, priority, payload, now));
      case Drained(rest) => FewerStayUnique(st.queue, rest);
      case Requeueing(id) =>
        if CanRequeue(st, id) {
          if HasEntry(st, id) { SecondEntryBreaks(st, id); } else { PushStaysUnique(st, Requeued(st.tasks[id])); }
        }
      case Finishing(r) => assert ApplyReport(st, r, now).queue == st.queue;
      case _ =>
    }
  }

  lemma DrainedIsFewer(s: State, step: Step)
    requires Enabled(s, step) && OpOf(s, step).Drained?
    ensures OpOf(s, step).rest <= s.store.queue
  {
  }

  /** In one step: a queue without duplicates gets one exactly if the step requeues an unfinished task
      that has an entry already. */
  lemma UniqueIsLostExactlyWhen(s: State, step: Step)
    requires EntriesMatch(s.store) && EntriesUnique(s.store.queue) && Enabled(s, step)
    ensures !EntriesUnique(Apply(s, step).store.queue) <==> RequeuesQueued(s, step)
  {
    StoreChange(s, step);
    if OpOf(s, step).Drained? { DrainedIsFewer(s, step); }
    OpKeepsUnique(s.store, OpOf(s, step), s.now);
  }

  // ---- what puts and keeps a task in the queue, over a run

  ghost predicate Pushes(s: State, step: Step, id: TaskId)
    requires Enabled(s, step)
  {
    var op := OpOf(s, step);
    (op.Add? && op.id == id) || (op.Requeueing? && op.id == id && CanRequeue(s.store, id))
  }

  /** The step pops, and leaves no entry of the task. */
  ghost predicate PopsAway(step: Step, id: TaskId) {
    && step.Dispatch?
    && (step.d.PopNothing? || (step.d.Pop? && forall e :: e in step.d.rest ==> e.taskId != id))
  }

  lemma OpAndEntry(st: Store, op: StoreOp, now: int, id: TaskId)
    requires KeysMatch(st)
    requires op.Drained? ==> op.rest <= st.queue
    ensures HasEntry(ApplyOp(st, op, now), id) <==>
              match op
              case Add(j, _, _) => j == id || HasEntry(st, id)
              case Requeueing(j) => (j == id && CanRequeue(st, id)) || HasEntry(st, id)
              case Drained(rest) => exists e :: e in rest && e.taskId == id
              case _ => HasEntry(st, id)
  {
    var st' := ApplyOp(st, op, now);
    if op.Add? {
      PushAndEntry(st, st', NewRecord(op.id, op.priority, op.payload, now), id);
    } else if op.Requeueing? {
      if CanRequeue(st, op.id) { PushAndEntry(st, st', Requeued(st.tasks[op.id]), id); }
    } else if !op.Drained? {
      assert st'.queue == st.queue;
    }
  }

  lemma PushAndEntry(st: Store, st': Store, r: TaskRecord, id: TaskId)
    requires st'.queue == st.queue + multiset{r}
    ensures HasEntry(st', id) <==> r.taskId == id || HasEntry(st, id)
  {
    PushAddsOneId(st, st', r);
    assert r in st'.queue;
    if HasEntry(st, id) {
      var e :| e in st.queue && e.taskId == id;
      assert e in st'.queue;
    }
  }

  lemma PopAndEntry(s: State, step: Step, id: TaskId)
    requires Enabled(s, step) && OpOf(s, step).Drained?
    ensures (exists e :: e in OpOf(s, step).rest && e.taskId == id) <==> !PopsAway(step, id)
    ensures !PopsAway(step, id) ==> HasEntry(s.store, id)
  {
    DrainedIsFewer(s, step);
  }

  lemma OnlyPopsPopAway(s: State, step: Step, id: TaskId)
    requires Enabled(s, step) && !OpOf(s, step).Drained?
    ensures !PopsAway(step, id)
  {
  }

  /** After a step a task is queued exactly if the step pushes it, or it was and the step does not pop
      it away. */
  lemma EntryAfter(s: State, step: Step, id: TaskId)
    requires Enabled(s, step) && KeysMatch(s.store)
    ensures HasEntry(Apply(s, step).store, id) <==> Pushes(s, step, id) || (HasEntry(s.store, id) && !PopsAway(step, id))
  {
    StoreChange(s, step);
    if OpOf(s, step).Drained? {
      DrainedIsFewer(s, step);
      PopAndEntry(s, step, id);
    } else {
      OnlyPopsPopAway(s, step, id);
    }
    OpAndEntry(s.store, OpOf(s, step), s.now, id);
  }

  ghost predicate PushesAt(states: seq<State>, steps: seq<Step>, k: int, id: TaskId)
    requires |states| == |steps| + 1 && 0 <= k < |steps|
  {
    Enabled(states[k], steps[k]) && Pushes(states[k], steps[k], id)
  }

  /** Step k pushed the task, and no pop between it and step i took its entry away. */
  ghost predicate QueuedSince(states: seq<State>, steps: seq<Step>, k: int, i: int, id: TaskId)
    requires |states| == |steps| + 1 && 0 <= k < i <= |steps|
  {
    PushesAt(states, steps, k, id) && forall m :: k < m < i ==> !PopsAway(steps[m], id)
  }

  ghost predicate StillQueued(states: seq<State>, steps: seq<Step>, i: int, id: TaskId)
    requires |states| == |steps| + 1 && 0 <= i <= |steps|
  {
    exists k :: 0 <= k < i && QueuedSince(states, steps, k, i, id)
  }

  lemma EntryAfterAt(states: seq<State>, steps: seq<Step>, i: nat, id: TaskId)
    requires Trace(states, steps) && Init(states[0]) && i < |steps|
    ensures HasEntry(states[i + 1].store, id)
       <==> PushesAt(states, steps, i, id) || (HasEntry(states[i].store, id) && !PopsAway(steps[i], id))
  {
    InitIsReachable(states[0]);
    TraceStaysSound(states, steps, i);
    assert MovesAt(states, steps, i);
    EntryAfter(states[i], steps[i], id);
  }

  lemma StillQueuedOneLonger(states: seq<State>, steps: seq<Step>, i: nat, id: TaskId)
    requires |states| == |steps| + 1 && i < |steps|
    ensures StillQueued(states, steps, i + 1, id)
       <==> PushesAt(states, steps, i, id) || (StillQueued(states, steps, i, id) && !PopsAway(steps[i], id))
  {
    if PushesAt(states, steps, i, id) {
      assert QueuedSince(states, steps, i, i + 1, id);
    } else if StillQueued(states, steps, i, id) && !PopsAway(steps[i], id) {
      var k :| 0 <= k < i && QueuedSince(states, steps, k, i, id);
      assert QueuedSince(states, steps, k, i + 1, id);
    } else if StillQueued(states, steps, i + 1, id) {
      var k :| 0 <= k < i + 1 && QueuedSince(states, steps, k, i + 1, id);
      assert k < i && QueuedSince(states, steps, k, i, id);
    }
  }

  /** A task is in the queue exactly if some step has pushed it and no pop since has taken it away. */
  lemma {:induction false} QueuedExactlyWhen(states: seq<State>, steps: seq<Step>, i: nat, id: TaskId)
    requires Trace(states, steps) && Init(states[0]) && i < |states|
    ensures HasEntry(states[i].store, id) <==> StillQueued(states, steps, i, id)
    decreases i
  {
    if i > 0 {
      QueuedExactlyWhen(states, steps, i - 1, id);
      EntryAfterAt(states, steps, i - 1, id);
      StillQueuedOneLonger(states, steps, i - 1, id);
    }
  }

  /** Step i requeues an unfinished task that an earlier step pushed and no pop has taken since. */
  ghost predicate RequeuedAgain(states: seq<State>, steps: seq<Step>, i: int)
    requires |states| == |steps| + 1 && 0 <= i < |steps|
  {
    && Enabled(states[i], steps[i]) && OpOf(states[i], steps[i]).Requeueing?
    && var id := OpOf(states[i], steps[i]).id;
       CanRequeue(states[i].store, id) && StillQueued(states, steps, i, id)
  }

  lemma {:induction false} UniqueUntil(states: seq<State>, steps: seq<Step>, i: nat)
    requires Trace(states, steps) && Init(states[0]) && i < |states|
    requires forall m :: 0 <= m < |steps| ==> !RequeuedAgain(states, steps, m)
    ensures EntriesUnique(states[i].store.queue)
    decreases i
  {
    if i > 0 {
      UniqueUntil(states, steps, i - 1);
      UniqueLostAt(states, steps, i - 1);
    }
  }

  /** In a run: step i makes the first duplicate exactly if it requeues an unfinished task that another
      push has put into the queue and no pop has taken since. */
  lemma UniqueLostAt(states: seq<State>, steps: seq<Step>, i: nat)
    requires Trace(states, steps) && Init(states[0]) && i < |steps| && EntriesUnique(states[i].store.queue)
    ensures !EntriesUnique(states[i + 1].store.queue) <==> RequeuedAgain(states, steps, i)
  {
    InitIsReachable(states[0]);
    TraceStaysSound(states, steps, i);
    assert MovesAt(states, steps, i);
    UniqueIsLostExactlyWhen(states[i], steps[i]);
    if OpOf(states[i], steps[i]).Requeueing? { QueuedExactlyWhen(states, steps, i, OpOf(states[i], steps[i]).id); }
  }

  /** Over a run: no task is ever queued twice if and only if no step requeues one that an earlier step
      pushed and no pop has taken since. */
  lemma QueueStaysUniqueExactlyWhen(states: seq<State>, steps: seq<Step>)
    requires Trace(states, steps) && Init(states[0])
    ensures (forall i :: 0 <= i < |states| ==> EntriesUnique(states[i].store.queue))
       <==> (forall i :: 0 <= i < |steps| ==> !RequeuedAgain(states, steps, i))
  {
    if forall i :: 0 <= i < |steps| ==> !RequeuedAgain(states, steps, i) {
      forall i | 0 <= i < |states|
        ensures EntriesUnique(states[i].store.queue)
      {
        UniqueUntil(states, steps, i);
      }
    } else {
      var i :| 0 <= i < |steps| && RequeuedAgain(states, steps, i);
      if EntriesUnique(states[i].store.queue) { UniqueLostAt(states, steps, i); }
    }
  }

  // ---- the ids the routines have listed and not yet requeued

  datatype Routine = TheDispatcher | TheHealthCheck | TheRegistration(thread: nat)

  function Todo(s: State, r: Routine): set<TaskId> {
    match r
    case TheDispatcher => if s.disp.Requeuing? then s.disp.todo else {}
    case TheHealthCheck => if s.health.Orphans? || s.health.Late? then s.health.todo else {}
    case TheRegistration(t) => if t in s.regs && s.regs[t].Returning? then s.regs[t].todo else {}
  }

  /** No task is on the lists of two routines. This holds in particular while at most one routine has a
      list, as it is when each recovers without interruption; apart from that anything may interleave. */
  ghost predicate ListsApart(s: State) {
    forall q, r :: q != r ==> Todo(s, q) !! Todo(s, r)
  }

  // ---- the invariant

  ghost predicate IsAssigned(st: Store, id: TaskId) {
    id in st.tasks && st.tasks[id].state.Assigned?
  }

  /** Assigned tasks and the one in hand have no entry, and these two are different things. */
  ghost predicate HandsOff(st: Store, hand: set<TaskId>) {
    && (forall id :: IsAssigned(st, id) ==> !HasEntry(st, id))
    && (forall id :: id in hand ==> id in st.tasks && !HasEntry(st, id) && !IsAssigned(st, id))
    && (forall id :: id in st.tasks ==> !st.tasks[id].state.Running?)
  }

  ghost predicate QueueTidy(st: Store, hand: set<TaskId>) {
    EntriesMatch(st) && EntriesUnique(st.queue) && HandsOff(st, hand)
  }

  /** Listed tasks are assigned or finished since, and never in hand. */
  ghost predicate ListTidy(st: Store, hand: set<TaskId>, ids: set<TaskId>) {
    forall id :: id in ids ==> (IsAssigned(st, id) || Finished(st, id)) && id !in hand
  }

  ghost predicate Tidy(s: State) {
    QueueTidy(s.store, Hand(s.disp)) && forall r :: ListTidy(s.store, Hand(s.disp), Todo(s, r))
  }

  lemma AddKeepsMatch(st: Store, id: TaskId, priority: int, payload: string, now: int)
    requires EntriesMatch(st) && id !in st.tasks
    ensures EntriesMatch(AddTask(st, id, priority, payload, now)) && !HasEntry(st, id)
  {
  }

  lemma HandsOffAfterAdd(st: Store, hand: set<TaskId>, id: TaskId, priority: int, payload: string, now: int)
    requires HandsOff(st, hand) && id !in st.tasks
    requires forall j :: HasEntry(AddTask(st, id, priority, payload, now), j) ==> j == id || HasEntry(st, j)
    ensures HandsOff(AddTask(st, id, priority, payload, now), hand)
  {
  }

  lemma AddStaysTidy(st: Store, hand: set<TaskId>, id: TaskId, priority: int, payload: string, now: int)
    requires QueueTidy(st, hand) && id !in st.tasks
    ensures QueueTidy(AddTask(st, id, priority, payload, now), hand)
  {
    var st' := AddTask(st, id, priority, payload, now);
    AddKeepsMatch(st, id, priority, payload, now);
    PushStaysUnique(st, st'.tasks[id]);
    PushAddsOneId(st, st', st'.tasks[id]);
    HandsOffAfterAdd(st, hand, id, priority, payload, now);
  }

  lemma RequeueKeepsMatch(st: Store, id: TaskId)
    requires EntriesMatch(st)
    ensures EntriesMatch(RequeueTask(st, id))
  {
  }

  lemma RequeueKeepsUnique(st: Store, id: TaskId)
    requires EntriesUnique(st.queue) && KeysMatch(st) && !HasEntry(st, id)
    ensures EntriesUnique(RequeueTask(st, id).queue)
    ensures forall j :: HasEntry(RequeueTask(st, id), j) ==> j == id || HasEntry(st, j)
  {
    if CanRequeue(st, id) {
      var st' := RequeueTask(st, id);
      PushStaysUnique(st, st'.tasks[id]);
      PushAddsOneId(st, st', st'.tasks[id]);
    }
  }

  /** A requeue of a task without an entry, whether it was assigned or in hand. */
  lemma RequeueStaysTidy(st: Store, hand: set<TaskId>, id: TaskId)
    requires QueueTidy(st, hand) && (id in hand || !HasEntry(st, id))
    ensures QueueTidy(RequeueTask(st, id), hand - {id})
  {
    RequeueKeepsMatch(st, id);
    RequeueKeepsUnique(st, id);
    HandsOffAfterRequeue(st, hand, id);
  }

  lemma HandsOffAfterRequeue(st: Store, hand: set<TaskId>, id: TaskId)
    requires HandsOff(st, hand) && (forall j :: HasEntry(RequeueTask(st, id), j) ==> j == id || HasEntry(st, j))
    ensures HandsOff(RequeueTask(st, id), hand - {id})
  {
  }

  lemma FewerStayTidy(st: Store, rest: multiset<TaskRecord>)
    requires QueueTidy(st, {}) && rest <= st.queue
    ensures QueueTidy(st.(queue := rest), {})
  {
    var st' := st.(queue := rest);
    FewerStayUnique(st.queue, rest);
    forall e | e in rest
      ensures e in st.queue
    {
      assert 0 < rest[e] <= st.queue[e];
    }
    forall id | HasEntry(st', id)
      ensures HasEntry(st, id)
    {
      var e :| e in rest && e.taskId == id;
      assert e in st.queue;
    }
  }

  lemma PopStaysTidy(st: Store, top: TaskRecord, dropped: multiset<TaskRecord>, rest: multiset<TaskRecord>)
    requires QueueTidy(st, {}) && PopTakes(st, top, dropped, rest)
    ensures QueueTidy(st.(queue := rest), {top.taskId})
  {
    var st' := st.(queue := rest);
    FewerStayTidy(st, rest);
    assert top in st.queue && st.queue[top] == 1;
    forall e | e in rest
      ensures e.taskId != top.taskId
    {
      assert e in st.queue && e != top;
    }
  }

  lemma AssignStaysTidy(st: Store, id: TaskId, worker: WorkerId, now: int)
    requires QueueTidy(st, {id})
    ensures QueueTidy(AssignTask(st, id, worker, now), {})
  {
    var st' := AssignTask(st, id, worker, now);
    assert forall j :: HasEntry(st', j) <==> HasEntry(st, j);
  }

  lemma FinishedKeepsMatch(st: Store, id: TaskId, r: TaskRecord)
    requires EntriesMatch(st) && id in st.tasks && SameSubmission(st.tasks[id], r)
    ensures EntriesMatch(st.(tasks := st.tasks[id := r]))
  {
  }

  lemma FinishedKeepsHandsOff(st: Store, hand: set<TaskId>, id: TaskId, r: TaskRecord)
    requires HandsOff(st, hand) && id in st.tasks && r.Terminal()
    ensures HandsOff(st.(tasks := st.tasks[id := r]), hand)
  {
    var st' := st.(tasks := st.tasks[id := r]);
    assert forall j :: HasEntry(st', j) <==> HasEntry(st, j);
    assert forall j :: IsAssigned(st', j) ==> IsAssigned(st, j);
  }

  lemma FinishedStaysTidy(st: Store, hand: set<TaskId>, id: TaskId, r: TaskRecord)
    requires QueueTidy(st, hand) && id in st.tasks && SameSubmission(st.tasks[id], r) && r.Terminal()
    ensures QueueTidy(st.(tasks := st.tasks[id := r]), hand)
  {
    FinishedKeepsMatch(st, id, r);
    FinishedKeepsHandsOff(st, hand, id, r);
  }

  lemma ReportStaysTidy(st: Store, hand: set<TaskId>, r: TaskResult, now: int)
    requires QueueTidy(st, hand)
    ensures QueueTidy(ApplyReport(st, r, now), hand)
  {
    if ApplyReport(st, r, now) != st {
      FinishedStaysTidy(st, hand, r.taskId, ApplyReport(st, r, now).tasks[r.taskId]);
    }
  }

  // ---- what a step does to the lists and to the hand

  lemma DispatchTodoAfter(s: State, d: DispatchStep)
    requires DispatchEnabled(s, d)
    ensures var s' := DispatchApply(s, d);
            && (forall r :: r != TheDispatcher ==> Todo(s', r) == Todo(s, r))
            && Todo(s', TheDispatcher) ==
                 match d
                 case ListTasks => TasksOfWorker(s.store, s.disp.worker.workerId)
                 case RequeueListed(id) => s.disp.todo - {id}
                 case _ => {}
  {
  }

  lemma HealthTodoAfter(s: State, h: HealthStep)
    requires HealthEnabled(s, h)
    ensures var s' := HealthApply(s, h);
            && (forall r :: r != TheHealthCheck ==> Todo(s', r) == Todo(s, r))
            && Todo(s', TheHealthCheck) ==
                 match h
                 case ListOrphans => TasksOfWorker(s.store, s.health.worker)
                 case ListLate => TimedOutTasks(s.store, EXECUTION_TIMEOUT, s.now)
                 case RequeueOrphan(id) => s.health.todo - {id}
                 case RequeueLate(id) => s.health.todo - {id}
                 case _ => {}
  {
  }

  lemma RegistrationTodoAfter(s: State, t: nat, x: RegistrationStep)
    requires RegistrationEnabled(s, t, x)
    ensures var s' := RegistrationApply(s, t, x);
            && (forall r :: r != TheRegistration(t) ==> Todo(s', r) == Todo(s, r))
            && Todo(s', TheRegistration(t)) ==
                 match x
                 case ListOld => TasksOfWorker(s.store, s.regs[t].worker)
                 case RequeueOld(id) => s.regs[t].todo - {id}
                 case _ => {}
  {
  }

  lemma OthersTodoAfter(s: State, step: Step, r: Routine)
    requires Enabled(s, step) && !step.Dispatch? && !step.Health? && !step.Registering?
    ensures Todo(Apply(s, step), r) == Todo(s, r)
  {
    match step {
      case Handling(t, p) => HandlerFrame(s, t, p);
      case Working(w, x) => WorkerFrame(s, w, x);
      case _ =>
    }
  }

  /** A list is taken while the store rests, of tasks in flight; otherwise lists only shrink. */
  ghost predicate ShrinksOrLists(s: State, step: Step, r: Routine)
    requires Enabled(s, step)
  {
    || Todo(Apply(s, step), r) <= Todo(s, r)
    || (OpOf(s, step).Keep? && Hand(Apply(s, step).disp) == Hand(s.disp)
        && forall id :: id in Todo(Apply(s, step), r) ==> id in s.store.tasks && s.store.tasks[id].InFlight())
  }

  lemma TodoAfter(s: State, step: Step, r: Routine)
    requires Enabled(s, step)
    ensures ShrinksOrLists(s, step, r)
  {
    match step {
      case Dispatch(d) => DispatchTodoAfter(s, d);
      case Health(h) => HealthTodoAfter(s, h);
      case Registering(t, x) => RegistrationTodoAfter(s, t, x);
      case _ => OthersTodoAfter(s, step, r);
    }
  }

  /** What the dispatcher holds after a step, by the store operation the step makes. */
  lemma DispatchHandAfter(s: State, d: DispatchStep)
    requires DispatchEnabled(s, d) && !d.RequeueListed?
    ensures var hand, hand' := Hand(s.disp), Hand(DispatchApply(s, d).disp);
            match DispatchOp(s, d)
            case Drained(rest) => hand == {} && (d.PopNothing? ==> hand' == {})
                                  && (d.Pop? ==> d.top.taskId in s.store.tasks && hand' == {s.store.tasks[d.top.taskId].taskId})
            case Assigning(id, w) => hand == {id} && hand' == {}
            case Requeueing(id) => hand == {id} && hand' == {}
            case Keep => hand' == hand
            case _ => false
  {
  }

  /** Whose list a requeued task was on, unless it was in the dispatcher's hand. */
  lemma RequeuedFrom(s: State, step: Step) returns (r: Routine)
    requires Enabled(s, step) && OpOf(s, step).Requeueing?
    ensures var id := OpOf(s, step).id;
            || (Hand(s.disp) == {id} && Hand(Apply(s, step).disp) == {})
            || (Hand(Apply(s, step).disp) == Hand(s.disp) && id in Todo(s, r) && id !in Todo(Apply(s, step), r))
  {
    match step {
      case Dispatch(d) =>
        r := TheDispatcher;
        DispatchTodoAfter(s, d);
        if !d.RequeueListed? { DispatchHandAfter(s, d); }
      case Health(h) =>
        r := TheHealthCheck;
        HealthTodoAfter(s, h);
      case Registering(t, x) =>
        r := TheRegistration(t);
        RegistrationTodoAfter(s, t, x);
    }
  }

  lemma OthersHand(s: State, step: Step)
    requires Enabled(s, step) && !step.Dispatch?
    ensures Hand(Apply(s, step).disp) == Hand(s.disp)
    ensures !OpOf(s, step).Drained? && !OpOf(s, step).Assigning?
  {
    OnlyDispatchMovesDispatcher(s, step);
  }

  /** The hand after a step that requeues nothing. */
  lemma HandAfter(s: State, step: Step)
    requires Enabled(s, step) && !OpOf(s, step).Requeueing?
    ensures var hand, hand' := Hand(s.disp), Hand(Apply(s, step).disp);
            match OpOf(s, step)
            case Drained(rest) =>
              && hand == {}
              && (hand' == {} || (step.Dispatch? && step.d.Pop? && step.d.top.taskId in s.store.tasks
                                  && hand' == {s.store.tasks[step.d.top.taskId].taskId}))
            case Assigning(id, w) => hand == {id} && hand' == {}
            case _ => hand' == hand
  {
    if step.Dispatch? { DispatchHandAfter(s, step.d); } else { OthersHand(s, step); }
  }

  // ---- every step keeps the lists tidy

  lemma OpKeepsListTidy(st: Store, op: StoreOp, now: int, hand: set<TaskId>, ids: set<TaskId>)
    requires ListTidy(st, hand, ids)
    requires op.Requeueing? ==> op.id !in ids
    requires op.Add? ==> op.id !in st.tasks
    ensures ListTidy(ApplyOp(st, op, now), hand, ids)
  {
  }

  /** The hand can only grow by a pending task, and no listed task is pending. */
  lemma ListTidyWithHand(st: Store, hand: set<TaskId>, ids: set<TaskId>, hand': set<TaskId>)
    requires ListTidy(st, hand, ids)
    requires hand' <= hand || forall id :: id in hand' ==> IsPending(st, id)
    ensures ListTidy(st, hand', ids)
  {
  }

  lemma ListedTogether(st: Store, hand: set<TaskId>, ids: set<TaskId>)
    requires QueueTidy(st, hand)
    requires forall id :: id in ids ==> id in st.tasks && st.tasks[id].InFlight()
    ensures ListTidy(st, hand, ids)
  {
  }

  lemma FewerListed(st: Store, hand: set<TaskId>, ids: set<TaskId>, fewer: set<TaskId>)
    requires ListTidy(st, hand, ids) && fewer <= ids
    ensures ListTidy(st, hand, fewer)
  {
  }

  /** The tasks a requeue of `id` may find on another list: none. */
  lemma RequeuedIsOnNoList(s: State, step: Step, r: Routine)
    requires Tidy(s) && ListsApart(s) && Enabled(s, step) && OpOf(s, step).Requeueing?
    ensures OpOf(s, step).id !in Todo(Apply(s, step), r)
  {
    TodoAfter(s, step, r);
    var q := RequeuedFrom(s, step);
    var id := OpOf(s, step).id;
    assert ListTidy(s.store, Hand(s.disp), Todo(s, r));
    if id !in Hand(s.disp) && q != r { assert Todo(s, q) !! Todo(s, r); }
  }

  /** The hand after any step is the old one or less, or a task just popped. */
  lemma HandGrowsByPop(s: State, step: Step)
    requires Tidy(s) && Enabled(s, step)
    ensures var hand' := Hand(Apply(s, step).disp);
            hand' <= Hand(s.disp) || forall id :: id in hand' ==> IsPending(s.store, id)
  {
    if OpOf(s, step).Requeueing? {
      var r := RequeuedFrom(s, step);
    } else {
      HandAfter(s, step);
    }
  }

  lemma AddIsFresh(s: State, step: Step)
    requires Enabled(s, step) && OpOf(s, step).Add?
    ensures OpOf(s, step).id !in s.store.tasks
  {
  }

  lemma StepKeepsListTidy(s: State, step: Step, r: Routine)
    requires Tidy(s) && ListsApart(s) && Enabled(s, step)
    ensures ListTidy(Apply(s, step).store, Hand(Apply(s, step).disp), Todo(Apply(s, step), r))
  {
    var s', op := Apply(s, step), OpOf(s, step);
    var ids := Todo(s', r);
    TodoAfter(s, step, r);
    assert ListTidy(s.store, Hand(s.disp), Todo(s, r));
    if ids <= Todo(s, r) {
      FewerListed(s.store, Hand(s.disp), Todo(s, r), ids);
    } else {
      ListedTogether(s.store, Hand(s.disp), ids);
    }
    HandGrowsByPop(s, step);
    ListTidyWithHand(s.store, Hand(s.disp), ids, Hand(s'.disp));
    if op.Requeueing? { RequeuedIsOnNoList(s, step, r); }
    if op.Add? { AddIsFresh(s, step); }
    StoreChange(s, step);
    OpKeepsListTidy(s.store, op, s.now, Hand(s'.disp), ids);
  }

  // ---- every step keeps the queue tidy

  /** A requeue of a listed task: it is assigned, so it has no entry, or finished, so it is refused. */
  lemma RequeueListedStaysTidy(st: Store, hand: set<TaskId>, ids: set<TaskId>, id: TaskId)
    requires QueueTidy(st, hand) && ListTidy(st, hand, ids) && id in ids
    ensures QueueTidy(RequeueTask(st, id), hand)
  {
    if CanRequeue(st, id) {
      RequeueStaysTidy(st, hand, id);
      assert hand - {id} == hand;
    }
  }

  lemma RequeueHandStaysTidy(st: Store, id: TaskId)
    requires QueueTidy(st, {id})
    ensures QueueTidy(RequeueTask(st, id), {})
  {
    RequeueStaysTidy(st, {id}, id);
    assert {id} - {id} == {};
  }

  lemma RequeueStepStaysTidy(s: State, step: Step)
    requires Tidy(s) && Enabled(s, step) && OpOf(s, step).Requeueing?
    ensures QueueTidy(RequeueTask(s.store, OpOf(s, step).id), Hand(Apply(s, step).disp))
  {
    var id := OpOf(s, step).id;
    var r := RequeuedFrom(s, step);
    if Hand(s.disp) == {id} && Hand(Apply(s, step).disp) == {} {
      RequeueHandStaysTidy(s.store, id);
    } else {
      RequeueListedStaysTidy(s.store, Hand(s.disp), Todo(s, r), id);
    }
  }

  lemma DrainStaysTidy(s: State, d: DispatchStep)
    requires QueueTidy(s.store, Hand(s.disp)) && DispatchEnabled(s, d) && DispatchOp(s, d).Drained?
    ensures QueueTidy(s.store.(queue := DispatchOp(s, d).rest), Hand(DispatchApply(s, d).disp))
  {
    DispatchHandAfter(s, d);
    if d.Pop? { PopStaysTidy(s.store, d.top, d.dropped, d.rest); } else { FewerStayTidy(s.store, multiset{}); }
  }

  lemma OtherOpStaysTidy(s: State, step: Step)
    requires Tidy(s) && Enabled(s, step) && !OpOf(s, step).Requeueing? && !OpOf(s, step).Drained?
    ensures QueueTidy(ApplyOp(s.store, OpOf(s, step), s.now), Hand(Apply(s, step).disp))
  {
    HandAfter(s, step);
    match OpOf(s, step) {
      case Add(id, priority, payload) =>
        AddIsFresh(s, step);
        AddStaysTidy(s.store, Hand(s.disp), id, priority, payload, s.now);
      case Assigning(id, w) => AssignStaysTidy(s.store, id, w, s.now);
      case Finishing(r) => ReportStaysTidy(s.store, Hand(s.disp), r, s.now);
      case Keep =>
    }
  }

  lemma StepKeepsQueueTidy(s: State, step: Step)
    requires Tidy(s) && Enabled(s, step)
    ensures QueueTidy(Apply(s, step).store, Hand(Apply(s, step).disp))
  {
    StoreChange(s, step);
    if OpOf(s, step).Requeueing? {
      RequeueStepStaysTidy(s, step);
    } else if OpOf(s, step).Drained? {
      DrainStaysTidy(s, step.d);
    } else {
      OtherOpStaysTidy(s, step);
    }
  }

  /** Whatever the step, as long as no task is on two lists before it. */
  lemma StepStaysTidy(s: State, step: Step)
    requires Tidy(s) && ListsApart(s) && Enabled(s, step)
    ensures Tidy(Apply(s, step))
  {
    StepKeepsQueueTidy(s, step);
    forall r
      ensures ListTidy(Apply(s, step).store, Hand(Apply(s, step).disp), Todo(Apply(s, step), r))
    {
      StepKeepsListTidy(s, step, r);
    }
  }

  lemma InitIsTidy(s: State)
    requires Init(s)
    ensures Tidy(s)
  {
    forall r
      ensures Todo(s, r) == {}
    {
    }
  }

  lemma {:induction false} TraceStaysTidy(states: seq<State>, steps: seq<Step>, i: nat)
    requires Trace(states, steps) && Init(states[0]) && i < |states|
    requires forall m :: 0 <= m < i ==> ListsApart(states[m])
    ensures Tidy(states[i])
    decreases i
  {
    if i == 0 {
      InitIsTidy(states[0]);
    } else {
      TraceStaysTidy(states, steps, i - 1);
      assert MovesAt(states, steps, i - 1);
      StepStaysTidy(states[i - 1], steps[i - 1]);
    }
  }

  // ---- counting the queue

  ghost function EntryIds(q: multiset<TaskRecord>): set<TaskId> {
    set e | e in q :: e.taskId
  }

  lemma WithoutOneEntry(q: multiset<TaskRecord>, e: TaskRecord)
    requires EntriesUnique(q) && e in q
    ensures var rest := q - multiset{e};
            && EntriesUnique(rest) && |q| == |rest| + 1
            && EntryIds(q) == EntryIds(rest) + {e.taskId} && e.taskId !in EntryIds(rest)
  {
    var rest := q - multiset{e};
    assert q == rest + multiset{e};
    assert q[e] == 1 && rest[e] == 0;
    assert forall f :: f in rest ==> f in q && rest[f] == q[f];
    assert forall f :: f in q <==> f == e || f in rest;
  }

  lemma {:induction false} UniqueEntriesCount(q: multiset<TaskRecord>)
    requires EntriesUnique(q)
    ensures |q| == |EntryIds(q)|
    decreases |q|
  {
    if |q| == 0 {
      assert EntryIds(q) == {};
    } else {
      var e :| e in q;
      WithoutOneEntry(q, e);
      UniqueEntriesCount(q - multiset{e});
    }
  }

  /** The pending tasks the dispatcher does not hold. */
  function WaitingTasks(s: State): set<TaskId> {
    set id | id in s.store.tasks && s.store.tasks[id].state.Pending? && id !in Hand(s.disp)
  }

  /** The finished tasks whose report came before their requeued entry was reached. */
  ghost function OvertakenTasks(s: State): set<TaskId> {
    set id | id in s.store.tasks && s.store.tasks[id].Terminal() && HasEntry(s.store, id)
  }

  lemma EntryIsWaitingOrOvertaken(s: State, id: TaskId)
    requires QueueTidy(s.store, Hand(s.disp)) && HasEntry(s.store, id)
    ensures id in WaitingTasks(s) || id in OvertakenTasks(s)
  {
    var e :| e in s.store.queue && e.taskId == id;
    assert id in s.store.tasks && !IsAssigned(s.store, id) && id !in Hand(s.disp);
  }

  lemma WaitingHasEntry(s: State, id: TaskId)
    requires NoneLost(s) && id in WaitingTasks(s)
    ensures HasEntry(s.store, id)
  {
    assert Kept(s.store, s.pool, s.now, Hand(s.disp), id);
  }

  lemma EntriesAreWaitingOrOvertaken(s: State)
    requires QueueTidy(s.store, Hand(s.disp)) && NoneLost(s)
    ensures EntryIds(s.store.queue) == WaitingTasks(s) + OvertakenTasks(s)
  {
    var ids := EntryIds(s.store.queue);
    forall id
      ensures id in ids <==> HasEntry(s.store, id)
    {
    }
    forall id | id in ids
      ensures id in WaitingTasks(s) + OvertakenTasks(s)
    {
      EntryIsWaitingOrOvertaken(s, id);
    }
    forall id | id in WaitingTasks(s)
      ensures id in ids
    {
      WaitingHasEntry(s, id);
    }
  }

  /** Queue accounting: in a run in which no task was ever on two lists, every task has at most one
      entry, assigned tasks and the task in hand have none, and the queue's length is the number of
      waiting tasks plus that of the finished ones a late report left behind. */
  lemma QueueLengthIsAccountedFor(states: seq<State>, steps: seq<Step>, i: nat)
    requires Trace(states, steps) && Init(states[0]) && i < |states|
    requires forall m :: 0 <= m < i ==> ListsApart(states[m])
    ensures var s := states[i];
            && EntriesUnique(s.store.queue)
            && (forall id :: IsAssigned(s.store, id) || id in Hand(s.disp) ==> !HasEntry(s.store, id))
            && |s.store.queue| == |WaitingTasks(s)| + |OvertakenTasks(s)|
  {
    TraceStaysTidy(states, steps, i);
    InitIsReachable(states[0]);
    TraceIsReachable(states, steps, i);
    LengthOfTidyQueue(states[i]);
  }

  lemma LengthOfTidyQueue(s: State)
    requires Tidy(s) && Reachable(s)
    ensures |s.store.queue| == |WaitingTasks(s)| + |OvertakenTasks(s)|
  {
    NoTaskIsLost(s);
    UniqueEntriesCount(s.store.queue);
    EntriesAreWaitingOrOvertaken(s);
    assert WaitingTasks(s) !! OvertakenTasks(s);
  }

  /** So a duplicate needs a race: at some earlier point of the run the same task was on the lists of two
      routines. */
  lemma DuplicatesNeedSharedTask(states: seq<State>, steps: seq<Step>, i: nat)
    returns (m: nat, q: Routine, r: Routine, id: TaskId)
    requires Trace(states, steps) && Init(states[0]) && i < |states| && !EntriesUnique(states[i].store.queue)
    ensures m < i && q != r && id in Todo(states[m], q) && id in Todo(states[m], r)
  {
    if forall k :: 0 <= k < i ==> ListsApart(states[k]) {
      TraceStaysTidy(states, steps, i);
      assert false;
    }
    m :| 0 <= m < i && !ListsApart(states[m]);
    q, r :| q != r && !(Todo(states[m], q) !! Todo(states[m], r));
    id :| id in Todo(states[m], q) && id in Todo(states[m], r);
  }
}
