/** The task map with its lazily cleaned pending queue: first as values, then as the class the
    coordinator's threads share. Every class method runs under one mutex, so each is one step. */
module TaskStorage {
  import opened Records
  import opened PendingHeap

  /** The abstract state: the task map and the queue entries, each a snapshot of a record. */
  datatype Store = Store(tasks: map<TaskId, TaskRecord>, queue: multiset<TaskRecord>)

  function NewRecord(id: TaskId, priority: int, payload: string, now: int): TaskRecord {
    TaskRecord(id, priority, payload, Pending, "", "", "", now, None, 0)
  }

  function AddTask(st: Store, id: TaskId, priority: int, payload: string, now: int): Store {
    var r := NewRecord(id, priority, payload, now);
    Store(st.tasks[id := r], st.queue + multiset{r})
  }

  function AssignTask(st: Store, id: TaskId, worker: WorkerId, now: int): Store {
    if id !in st.tasks then st else
      st.(tasks := st.tasks[id := st.tasks[id].(state := Assigned, assignedWorker := worker, assignedAt := Some(now))])
  }

  function CompleteTask(st: Store, id: TaskId, result: string, now: int): Store {
    if id !in st.tasks then st else
      st.(tasks := st.tasks[id := st.tasks[id].(state := Completed, result := result, completedAt := now)])
  }

  function FailTask(st: Store, id: TaskId, error: string, now: int): Store {
    if id !in st.tasks then st else
      st.(tasks := st.tasks[id := st.tasks[id].(state := Failed, error := error, completedAt := now)])
  }

  /** What a report does to the store. */
  function ApplyReport(st: Store, r: TaskResult, now: int): Store {
    match r.state
    case Completed => CompleteTask(st, r.taskId, r.result, now)
    case Failed => FailTask(st, r.taskId, r.error, now)
    case _ => st
  }

  function Requeued(r: TaskRecord): TaskRecord {
    r.(state := Pending, assignedWorker := "")
  }

  predicate CanRequeue(st: Store, id: TaskId) {
    id in st.tasks && !st.tasks[id].Terminal()
  }

  function RequeueTask(st: Store, id: TaskId): Store {
    if !CanRequeue(st, id) then st else
      var r := Requeued(st.tasks[id]);
      Store(st.tasks[id := r], st.queue + multiset{r})
  }

  function TasksOfWorker(st: Store, worker: WorkerId): set<TaskId> {
    set id | id in st.tasks && st.tasks[id].assignedWorker == worker && st.tasks[id].InFlight()
  }

  function TimedOutTasks(st: Store, timeout: int, now: int): set<TaskId> {
    set id | id in st.tasks && st.tasks[id].InFlight()
             && st.tasks[id].assignedAt.Some? && 0 < st.tasks[id].assignedAt.value < now - timeout
  }

  /** A task is late exactly if it is in flight and was assigned, at a positive time, longer ago than the
      timeout. */
  lemma LateExactlyWhen(st: Store, id: TaskId, timeout: int, now: int)
    requires id in st.tasks && st.tasks[id].assignedAt.Some?
    ensures id in TimedOutTasks(st, timeout, now)
       <==> && (st.tasks[id].state.Assigned? || st.tasks[id].state.Running?)
            && st.tasks[id].assignedAt.value > 0 && now - st.tasks[id].assignedAt.value > timeout
  {
  }

  /** The timeout test reads the assignment time of every task in flight, so it must have been set. */
  ghost predicate TimesSet(st: Store) {
    forall id :: id in st.tasks && st.tasks[id].InFlight() ==> st.tasks[id].assignedAt.Some?
  }

  /** A queue entry `pop_pending` throws away: its task is gone or no longer pending. */
  predicate Stale(st: Store, e: TaskRecord) {
    !(e.taskId in st.tasks && st.tasks[e.taskId].state.Pending?)
  }

  /** `pop_pending` found `top` after throwing away `dropped`, and left `rest`. */
  ghost predicate PopTakes(st: Store, top: TaskRecord, dropped: multiset<TaskRecord>, rest: multiset<TaskRecord>) {
    && st.queue == dropped + multiset{top} + rest
    && !Stale(st, top)
    && (forall e :: e in dropped ==> Stale(st, e) && !LessUrgent(e, top))
    && (forall e :: e in rest ==> !LessUrgent(top, e))
  }

  /** `pop_pending` emptied the queue without finding a pending task. */
  ghost predicate PopFindsNone(st: Store) {
    forall e :: e in st.queue ==> Stale(st, e)
  }

  ghost predicate KeysMatch(st: Store) {
    forall id :: id in st.tasks ==> st.tasks[id].taskId == id
  }

  /** Every entry is a snapshot of a record with the same identity and rank. */
  ghost predicate EntriesMatch(st: Store) {
    && KeysMatch(st)
    && (forall e :: e in st.queue ==> e.taskId in st.tasks && SameSubmission(e, st.tasks[e.taskId]))
  }

  ghost predicate HasEntry(st: Store, id: TaskId) {
    exists e :: e in st.queue && e.taskId == id
  }

  /** Every pending task has an entry. */
  ghost predicate Covered(st: Store) {
    forall id :: id in st.tasks && st.tasks[id].state.Pending? ==> HasEntry(st, id)
  }

  /** The task is known and has reached a terminal state. */
  ghost predicate Finished(st: Store, id: TaskId) {
    id in st.tasks && st.tasks[id].Terminal()
  }

  ghost predicate IsPending(st: Store, id: TaskId) {
    id in st.tasks && st.tasks[id].state.Pending?
  }

  /** Lazy deletion computes the maximum: with every pending task covered by an entry of its own
      rank, `pop_pending` returns a pending task that no pending task is more urgent than, and comes
      back empty exactly when no task is pending. */
  lemma PopIsMostUrgentPending(st: Store, top: TaskRecord, dropped: multiset<TaskRecord>, rest: multiset<TaskRecord>)
    requires EntriesMatch(st) && Covered(st) && PopTakes(st, top, dropped, rest)
    ensures IsPending(st, top.taskId)
    ensures forall id :: IsPending(st, id) ==> !LessUrgent(st.tasks[top.taskId], st.tasks[id])
    ensures forall id :: IsPending(st, id) ==> ComesFirst(st.tasks[top.taskId], st.tasks[id])
    ensures !PopFindsNone(st)
  {
    assert top in st.queue;
    forall id | IsPending(st, id)
      ensures !LessUrgent(st.tasks[top.taskId], st.tasks[id])
    {
      assert HasEntry(st, id);
      var e :| e in st.queue && e.taskId == id;
      assert e in dropped || e == top || e in rest;
    }
  }

  lemma PopFindsNoneWhenNoPending(st: Store)
    requires EntriesMatch(st) && Covered(st)
    ensures PopFindsNone(st) <==> forall id :: id in st.tasks ==> !st.tasks[id].state.Pending?
  {
    if PopFindsNone(st) {
      forall id | id in st.tasks
        ensures !st.tasks[id].state.Pending?
      {
        if HasEntry(st, id) {
          var e :| e in st.queue && e.taskId == id;
          assert Stale(st, e);
        }
      }
    }
  }

  /** Some entry is a most urgent one. */
  lemma {:induction false} MostUrgentExists(q: multiset<TaskRecord>) returns (m: TaskRecord)
    requires |q| > 0
    ensures m in q && forall e :: e in q ==> !LessUrgent(m, e)
    decreases |q|
  {
    var x :| x in q;
    var rest := q - multiset{x};
    assert q == rest + multiset{x};
    if |rest| == 0 {
      m := x;
    } else {
      var y := MostUrgentExists(rest);
      m := if LessUrgent(x, y) then y else x;
    }
  }

  /** The loop of `pop_pending` always has a way to end: in a take, or with an empty queue. */
  lemma {:induction false} PopExists(st: Store) returns (top: TaskRecord, dropped: multiset<TaskRecord>, rest: multiset<TaskRecord>)
    requires !PopFindsNone(st)
    ensures PopTakes(st, top, dropped, rest)
    decreases |st.queue|
  {
    var m := MostUrgentExists(st.queue);
    var others := st.queue - multiset{m};
    assert st.queue == multiset{m} + others;
    if !Stale(st, m) {
      top, dropped, rest := m, multiset{}, others;
    } else {
      top, dropped, rest := PopExists(st.(queue := others));
      dropped := dropped + multiset{m};
    }
  }

  /** Requeueing exactly the tasks `ids` that have not finished: what a recovery routine does when
      nothing interferes. Each of those is pending with one more entry, all else is as before. */
  ghost predicate RequeuedExactly(st: Store, ids: set<TaskId>, st': Store) {
    && st'.tasks.Keys == st.tasks.Keys
    && (forall id :: id in st.tasks ==>
          st'.tasks[id] == if id in ids && CanRequeue(st, id) then Requeued(st.tasks[id]) else st.tasks[id])
    && (forall e :: st'.queue[e] == st.queue[e] + if NewEntry(st, ids, e) then 1 else 0)
  }

  ghost predicate NewEntry(st: Store, ids: set<TaskId>, e: TaskRecord) {
    exists id :: id in ids && CanRequeue(st, id) && e == Requeued(st.tasks[id])
  }

  lemma RequeueNone(st: Store)
    ensures RequeuedExactly(st, {}, st)
  {
  }

  /** One id more makes one new entry more, and it is not among the others. */
  lemma NewEntryOneMore(st: Store, ids: set<TaskId>, id: TaskId, e: TaskRecord)
    requires KeysMatch(st) && id !in ids
    ensures NewEntry(st, ids + {id}, e) <==> NewEntry(st, ids, e) || (CanRequeue(st, id) && e == Requeued(st.tasks[id]))
    ensures CanRequeue(st, id) ==> !NewEntry(st, ids, Requeued(st.tasks[id]))
  {
    if NewEntry(st, ids, e) {
      var j :| j in ids && CanRequeue(st, j) && e == Requeued(st.tasks[j]);
      assert j in ids + {id};
    }
    if NewEntry(st, ids + {id}, e) {
      var j :| j in ids + {id} && CanRequeue(st, j) && e == Requeued(st.tasks[j]);
      assert j == id || j in ids;
    }
    if CanRequeue(st, id) { assert id in ids + {id}; }
  }

  lemma RequeueOneMoreEntry(st: Store, ids: set<TaskId>, mid: Store, id: TaskId, e: TaskRecord)
    requires KeysMatch(st) && RequeuedExactly(st, ids, mid) && id !in ids
    ensures RequeueTask(mid, id).queue[e] == st.queue[e] + if NewEntry(st, ids + {id}, e) then 1 else 0
  {
    NewEntryOneMore(st, ids, id, e);
    assert mid.queue[e] == st.queue[e] + if NewEntry(st, ids, e) then 1 else 0;
  }

  lemma RequeueOneMore(st: Store, ids: set<TaskId>, mid: Store, id: TaskId)
    requires KeysMatch(st) && RequeuedExactly(st, ids, mid) && id !in ids
    ensures RequeuedExactly(st, ids + {id}, RequeueTask(mid, id))
  {
    forall e
      ensures RequeueTask(mid, id).queue[e] == st.queue[e] + if NewEntry(st, ids + {id}, e) then 1 else 0
    {
      RequeueOneMoreEntry(st, ids, mid, id, e);
    }
  }

  /** A report repeated with another outcome leaves what the last one of its kind says: the calls that
      write a record do not look at what it was. */
  lemma LastReportWins(st: Store, a: TaskResult, b: TaskResult, now: int, later: int)
    requires a.taskId == b.taskId && a.state == b.state
    ensures ApplyReport(ApplyReport(st, a, now), b, later) == ApplyReport(st, b, later)
  {
  }

  /** Taking an assigned task back restores its record but for the assignment time, and adds one entry;
      a finished task, once assigned again, keeps its old result and completion time. */
  lemma RequeueUndoesAssign(st: Store, id: TaskId, worker: WorkerId, now: int)
    requires id in st.tasks
    ensures var st' := RequeueTask(AssignTask(st, id, worker, now), id);
            && st'.tasks == st.tasks[id := Requeued(st.tasks[id]).(assignedAt := Some(now))]
            && st'.queue == st.queue + multiset{st'.tasks[id]}
  {
    assert CanRequeue(AssignTask(st, id, worker, now), id);
  }

  class TaskStore {
    var tasks: map<TaskId, TaskRecord>
    const pendingQueue: PriorityQueue

    ghost predicate Valid()
      reads this, pendingQueue
    {
      pendingQueue.Valid()
    }

    ghost function View(): Store
      reads this, pendingQueue
    {
      Store(tasks, multiset(pendingQueue.data))
    }

    constructor ()
      ensures Valid() && fresh(pendingQueue)
      ensures View() == Store(map[], multiset{})
    {
      tasks := map[];
      pendingQueue := new PriorityQueue();
    }

    /** `add_task`, given the generated id and the clock reading. */
    method Add(id: TaskId, priority: int, payload: string, now: int)
      requires Valid()
      modifies this, pendingQueue
      ensures Valid()
      ensures View() == AddTask(old(View()), id, priority, payload, now)
    {
      var record := NewRecord(id, priority, payload, now);
      pendingQueue.Push(record);
      tasks := tasks[id := record];
    }

    /** `pop_pending`: drains stale entries from the top until one names a pending task, and returns
        that task's current record, not the snapshot. */
    method PopPending() returns (r: Option<TaskRecord>)
      requires Valid()
      modifies this, pendingQueue
      ensures Valid() && tasks == old(tasks)
      ensures r.None? ==> View().queue == multiset{} && PopFindsNone(old(View()))
      ensures r.Some? ==> exists top, dropped ::
                            && PopTakes(old(View()), top, dropped, View().queue)
                            && r.value == tasks[top.taskId]
    {
      ghost var was := View();
      ghost var dropped := multiset{};
      while pendingQueue.data != []
        invariant Valid() && tasks == was.tasks
        invariant was.queue == dropped + multiset(pendingQueue.data)
        invariant forall e :: e in dropped ==> Stale(was, e)
        invariant forall e, f :: e in dropped && f in multiset(pendingQueue.data) ==> !LessUrgent(e, f)
        decreases |pendingQueue.data|
      {
        ghost var before := multiset(pendingQueue.data);
        label L:
        var top := pendingQueue.Pop();
        assert |before| == 1 + |multiset(pendingQueue.data)|;
        assert top in before;
        if top.taskId in tasks && tasks[top.taskId].state.Pending? {
          assert was.queue == dropped + multiset{top} + View().queue;
          assert forall e :: e in View().queue ==> e in before;
          assert PopTakes(was, top, dropped, View().queue);
          return Some(tasks[top.taskId]);
        }
        dropped := dropped + multiset{top};
        assert forall e :: e in multiset(pendingQueue.data) ==> e in before;
      }
      return None;
    }

    /** `assign_task`: sets the state whatever it was. */
    method Assign(id: TaskId, worker: WorkerId, now: int) returns (ok: bool)
      requires Valid()
      modifies this
      ensures Valid()
      ensures View() == AssignTask(old(View()), id, worker, now) && ok == (id in old(tasks))
    {
      ok := id in tasks;
      if ok {
        tasks := tasks[id := tasks[id].(state := Assigned, assignedWorker := worker, assignedAt := Some(now))];
      }
    }

    /** `complete_task`: overwrites an earlier result, as a repeated report does. */
    method Complete(id: TaskId, result: string, now: int) returns (ok: bool)
      requires Valid()
      modifies this
      ensures Valid()
      ensures View() == CompleteTask(old(View()), id, result, now) && ok == (id in old(tasks))
    {
      ok := id in tasks;
      if ok {
        tasks := tasks[id := tasks[id].(state := Completed, result := result, completedAt := now)];
      }
    }

    /** `fail_task`. */
    method Fail(id: TaskId, error: string, now: int) returns (ok: bool)
      requires Valid()
      modifies this
      ensures Valid()
      ensures View() == FailTask(old(View()), id, error, now) && ok == (id in old(tasks))
    {
      ok := id in tasks;
      if ok {
        tasks := tasks[id := tasks[id].(state := Failed, error := error, completedAt := now)];
      }
    }

    /** `requeue_task`: refuses finished tasks. */
    method Requeue(id: TaskId) returns (ok: bool)
      requires Valid()
      modifies this, pendingQueue
      ensures Valid()
      ensures View() == RequeueTask(old(View()), id) && ok == CanRequeue(old(View()), id)
    {
      if id !in tasks { return false; }
      if tasks[id].state.Completed? || tasks[id].state.Failed? { return false; }
      tasks := tasks[id := tasks[id].(state := Pending, assignedWorker := "")];
      pendingQueue.Push(tasks[id]);
      ok := true;
    }

    /** `get_timed_out_tasks`: lists each id once, in the order the map yields them. */
    method GetTimedOutTasks(timeout: int, now: int) returns (ids: seq<TaskId>)
      requires Valid() && TimesSet(View())
      ensures ListsExactly(ids, TimedOutTasks(View(), timeout, now))
    {
      ids := [];
      var cutoff := now - timeout;
      var rest := tasks.Keys;
      while rest != {}
        invariant rest <= tasks.Keys
        invariant ListsExactly(ids, TimedOutTasks(View(), timeout, now) - rest)
        decreases rest
      {
        var id :| id in rest;
        rest := rest - {id};
        var record := tasks[id];
        if record.InFlight() && record.assignedAt.value > 0 && record.assignedAt.value < cutoff {
          ids := ids + [id];
        }
      }
    }

    /** `get_tasks_for_worker`. */
    method GetTasksForWorker(worker: WorkerId) returns (ids: seq<TaskId>)
      requires Valid()
      ensures ListsExactly(ids, TasksOfWorker(View(), worker))
    {
      ids := [];
      var rest := tasks.Keys;
      while rest != {}
        invariant rest <= tasks.Keys
        invariant ListsExactly(ids, TasksOfWorker(View(), worker) - rest)
        decreases rest
      {
        var id :| id in rest;
        rest := rest - {id};
        if tasks[id].assignedWorker == worker && tasks[id].InFlight() {
          ids := ids + [id];
        }
      }
    }

    /** `pending_count` counts entries, stale ones included. */
    method PendingCount() returns (n: nat)
      requires Valid()
      ensures n == |View().queue|
    {
      n := |pendingQueue.data|;
    }
  }
}
