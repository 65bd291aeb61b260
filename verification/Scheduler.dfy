/** The coordinator's routines that make several store and pool calls, run without interference: the
    dispatch pass, the health pass and the service handlers. How they interleave is the subject of
    the cluster modules. */
module Scheduling {
  import opened Records
  import opened TaskStorage
  import opened WorkerRegistry

  datatype AssignResult = Success | Rejected | Unreachable

  /** Why a dispatch pass ended. */
  datatype PassEnd = NoWorker | NoTask | Refused | ShutDown

  /** Popping left the store `held` with `id`, a most urgent pending task, in hand. */
  ghost predicate PoppedBest(st: Store, held: Store, id: TaskId) {
    && IsPending(st, id) && (forall j :: IsPending(st, j) ==> !LessUrgent(st.tasks[id], st.tasks[j]))
    && held.tasks == st.tasks
    && exists top, dropped :: PopTakes(st, top, dropped, held.queue) && top.taskId == id
  }

  /** How one RPC is followed up: the task in hand is assigned, or it goes back into the queue, after a
      failure together with all other tasks of the worker. */
  ghost predicate FollowedUp(held: Store, pool: Pool, st': Store, pool': Pool,
                             id: TaskId, w: WorkerId, result: AssignResult, now: int) {
    match result
    case Success => st' == AssignTask(held, id, w, now) && pool' == IncrementLoad(pool, w)
    case Unreachable => RequeuedExactly(held, {id} + TasksOfWorker(held, w), st') && pool' == MarkDead(pool, w)
    case Rejected => RequeuedExactly(held, {id}, st') && pool' == pool
  }

  /** A most urgent pending task was offered to `w`, a least-loaded eligible worker. */
  ghost predicate OfferedTo(st: Store, pool: Pool, st': Store, pool': Pool, w: WorkerId, result: AssignResult, now: int) {
    && LeastLoaded(pool, w)
    && exists held, id :: PoppedBest(st, held, id) && FollowedUp(held, pool, st', pool', id, w, result, now)
  }

  ghost predicate OfferedBest(st: Store, pool: Pool, st': Store, pool': Pool, result: AssignResult, now: int) {
    exists w :: OfferedTo(st, pool, st', pool', w, result, now)
  }

  /** Every call uses up free slots of the pool, unless the worker refused. */
  lemma OfferUsesSpare(st: Store, pool: Pool, st': Store, pool': Pool, result: AssignResult, now: int)
    requires OfferedBest(st, pool, st', pool', result, now)
    ensures TotalSpare(pool) > 0
    ensures if result.Rejected? then pool' == pool else TotalSpare(pool') < TotalSpare(pool)
  {
    var w :| OfferedTo(st, pool, st', pool', w, result, now);
    DispatchUsesSpare(pool, w);
  }

  /** The store and the pool between two calls of a pass. */
  datatype Moment = Moment(store: Store, pool: Pool)

  ghost predicate OfferedBetween(m: Moment, m': Moment, result: AssignResult, now: int) {
    OfferedBest(m.store, m.pool, m'.store, m'.pool, result, now)
  }

  /** The course of a pass: call number i, at the time given for it, offered a best task to a best worker
      with the outcome given for it. */
  ghost predicate PassOf(course: seq<Moment>, outcome: nat -> AssignResult, clock: nat -> int) {
    && course != []
    && forall i: nat :: i + 1 < |course| ==> OfferedBetween(course[i], course[i + 1], ResultOf(outcome, i), clock(i))
  }

  lemma OneMomentMore(course: seq<Moment>, outcome: nat -> AssignResult, clock: nat -> int, next: Moment)
    requires PassOf(course, outcome, clock)
    requires OfferedBetween(course[|course| - 1], next, ResultOf(outcome, |course| - 1), clock(|course| - 1))
    ensures PassOf(course + [next], outcome, clock)
  {
    var longer := course + [next];
    forall i: nat | i + 1 < |longer|
      ensures OfferedBetween(longer[i], longer[i + 1], ResultOf(outcome, i), clock(i))
    {
      if i + 1 < |course| { assert OfferedBetween(course[i], course[i + 1], ResultOf(outcome, i), clock(i)); }
    }
  }

  /** After `calls` calls from `first` to `now`: the coordinator was running at each, some was a success
      exactly if `dispatchedAny`, and `course` is what they did. */
  ghost predicate CallsMade(outcome: nat -> AssignResult, running: nat -> bool, clock: nat -> int, calls: nat,
                            dispatchedAny: bool, course: seq<Moment>, first: Moment, now: Moment) {
    && (forall i :: 0 <= i < calls ==> running(i))
    && (dispatchedAny <==> AnySuccess(outcome, calls))
    && OnlyDispatched(first.store, now.store)
    && PassOf(course, outcome, clock) && |course| == calls + 1 && course[0] == first && course[calls] == now
  }

  ghost predicate PassUnderWay(outcome: nat -> AssignResult, running: nat -> bool, clock: nat -> int, calls: nat,
                               dispatchedAny: bool, course: seq<Moment>, first: Moment, now: Moment) {
    && CallsMade(outcome, running, clock, calls, dispatchedAny, course, first, now)
    && TotalSpare(now.pool) + calls <= TotalSpare(first.pool)
    && !LastRefused(outcome, calls)
  }

  /** How the pass leaves things after its last call: as they were, but for the stale entries thrown away
      when no task was pending. */
  ghost predicate EndsAs(last: Moment, end: PassEnd, st: Store, pool: Pool) {
    pool == last.pool && st == if end.NoTask? then last.store.(queue := multiset{}) else last.store
  }

  /** What a pass from `first` to `now` achieves. It made no more calls than there were free slots, for every
      one of them uses some up: a success one, an unreachable worker all of its own. It ended because no
      worker is eligible, no task is pending, the last call was refused (none before was), or the
      coordinator is shutting down. */
  ghost predicate PassDone(outcome: nat -> AssignResult, running: nat -> bool, clock: nat -> int, calls: nat, dispatchedAny: bool,
                           course: seq<Moment>, end: PassEnd, first: Moment, now: Moment) {
    && course != [] && CallsMade(outcome, running, clock, calls, dispatchedAny, course, first, course[|course| - 1])
    && EndsAs(course[|course| - 1], end, now.store, now.pool) && OnlyDispatched(first.store, now.store)
    && calls <= TotalSpare(first.pool)
    && (end.Refused? <==> LastRefused(outcome, calls))
    && match end
       case NoWorker => running(calls) && forall id :: !IsEligible(now.pool, id)
       case NoTask => running(calls) && forall id :: !IsPending(now.store, id)
       case Refused => true
       case ShutDown => !running(calls)
  }

  lemma NoLongerRunning(outcome: nat -> AssignResult, running: nat -> bool, clock: nat -> int, calls: nat, dispatchedAny: bool,
                        course: seq<Moment>, first: Moment, now: Moment)
    requires PassUnderWay(outcome, running, clock, calls, dispatchedAny, course, first, now) && !running(calls)
    ensures PassDone(outcome, running, clock, calls, dispatchedAny, course, ShutDown, first, now)
  {
  }

  lemma TurnStops(outcome: nat -> AssignResult, running: nat -> bool, clock: nat -> int, calls: nat, dispatchedAny: bool,
                  course: seq<Moment>, end: PassEnd, first: Moment, mid: Moment, now: Moment)
    requires PassUnderWay(outcome, running, clock, calls, dispatchedAny, course, first, mid) && running(calls)
    requires EndsAs(mid, end, now.store, now.pool) && OnlyDispatched(mid.store, now.store)
    requires match end
             case NoWorker => forall id :: !IsEligible(now.pool, id)
             case NoTask => forall id :: !IsPending(now.store, id)
             case _ => false
    ensures PassDone(outcome, running, clock, calls, dispatchedAny, course, end, first, now)
  {
    OnlyDispatchedTransitive(first.store, mid.store, now.store);
  }

  lemma OneMoreTurn(outcome: nat -> AssignResult, running: nat -> bool, clock: nat -> int, calls: nat, dispatchedAny: bool,
                    course: seq<Moment>, first: Moment, mid: Moment, now: Moment)
    requires PassUnderWay(outcome, running, clock, calls, dispatchedAny, course, first, mid) && running(calls)
    requires OnlyDispatched(mid.store, now.store)
    requires OfferedBetween(mid, now, ResultOf(outcome, calls), clock(calls))
    ensures ResultOf(outcome, calls).Rejected? ==>
              PassDone(outcome, running, clock, calls + 1, dispatchedAny, course + [now], Refused, first, now)
    ensures !ResultOf(outcome, calls).Rejected? ==>
              && TotalSpare(now.pool) < TotalSpare(mid.pool)
              && PassUnderWay(outcome, running, clock, calls + 1, dispatchedAny || ResultOf(outcome, calls).Success?, course + [now], first, now)
  {
    var result := ResultOf(outcome, calls);
    OfferUsesSpare(mid.store, mid.pool, now.store, now.pool, result, clock(calls));
    CallsMadeOneMore(outcome, running, clock, calls, dispatchedAny, course, first, mid, now);
    OneMoreCall(outcome, calls);
  }

  lemma CallsMadeOneMore(outcome: nat -> AssignResult, running: nat -> bool, clock: nat -> int, calls: nat, dispatchedAny: bool,
                         course: seq<Moment>, first: Moment, mid: Moment, now: Moment)
    requires CallsMade(outcome, running, clock, calls, dispatchedAny, course, first, mid) && running(calls)
    requires OnlyDispatched(mid.store, now.store)
    requires OfferedBetween(mid, now, ResultOf(outcome, calls), clock(calls))
    ensures CallsMade(outcome, running, clock, calls + 1, dispatchedAny || ResultOf(outcome, calls).Success?, course + [now], first, now)
  {
    OneMomentMore(course, outcome, clock, now);
    OneMoreCall(outcome, calls);
    OnlyDispatchedTransitive(first.store, mid.store, now.store);
  }

  /** What one iteration of the pass did. */
  datatype Turn = Stopped(end: PassEnd) | Called(result: AssignResult)

  ghost predicate PoolKeysMatch(pool: Pool) {
    forall id :: id in pool ==> pool[id].workerId == id
  }

  function ResultOf(outcome: nat -> AssignResult, call: nat): AssignResult { outcome(call) }

  ghost predicate AnySuccess(outcome: nat -> AssignResult, calls: nat) {
    exists i: nat :: i < calls && ResultOf(outcome, i).Success?
  }

  ghost predicate LastRefused(outcome: nat -> AssignResult, calls: nat) {
    calls > 0 && ResultOf(outcome, calls - 1).Rejected?
  }

  lemma OneMoreCall(outcome: nat -> AssignResult, calls: nat)
    ensures LastRefused(outcome, calls + 1) <==> ResultOf(outcome, calls).Rejected?
    ensures AnySuccess(outcome, calls + 1) <==> AnySuccess(outcome, calls) || ResultOf(outcome, calls).Success?
  {
    if AnySuccess(outcome, calls) {
      var i: nat :| i < calls && ResultOf(outcome, i).Success?;
      assert i < calls + 1;
    }
  }

  lemma PoolStaysWellFormed(pool: Pool, id: WorkerId)
    requires PoolKeysMatch(pool) && Capacities32(pool)
    ensures PoolKeysMatch(IncrementLoad(pool, id)) && Capacities32(IncrementLoad(pool, id))
    ensures PoolKeysMatch(MarkDead(pool, id)) && Capacities32(MarkDead(pool, id))
  {
  }

  /** What a pass that only dispatches and requeues may do to the tasks: none appears or vanishes,
      finished ones stay as they are, unfinished ones stay unfinished and keep their identity. */
  ghost predicate OnlyDispatched(st: Store, st': Store) {
    && st'.tasks.Keys == st.tasks.Keys
    && (forall id :: id in st.tasks ==>
          && SameSubmission(st.tasks[id], st'.tasks[id])
          && (st.tasks[id].Terminal() ==> st'.tasks[id] == st.tasks[id])
          && (st'.tasks[id].Terminal() ==> st.tasks[id].Terminal()))
  }

  /** The store between two routines: entries match records, nothing pending is uncovered, and every
      task in flight has its assignment time. */
  ghost predicate StoreReady(st: Store) {
    EntriesMatch(st) && Covered(st) && TimesSet(st)
  }

  /** Every pending task outside `except` has an entry. */
  ghost predicate CoveredBut(st: Store, except: set<TaskId>) {
    forall id :: IsPending(st, id) && id !in except ==> HasEntry(st, id)
  }

  /** As `StoreReady`, but task `hand` has been popped and is held by the dispatcher. */
  ghost predicate StoreReadyBut(st: Store, hand: TaskId) {
    EntriesMatch(st) && TimesSet(st) && IsPending(st, hand) && CoveredBut(st, {hand})
  }

  lemma PopKeepsReady(st: Store, top: TaskRecord, dropped: multiset<TaskRecord>, rest: multiset<TaskRecord>)
    requires StoreReady(st) && PopTakes(st, top, dropped, rest)
    ensures StoreReadyBut(st.(queue := rest), top.taskId)
  {
    var st' := st.(queue := rest);
    assert top in st.queue;
    forall e | e in rest
      ensures e in st.queue
    {
    }
    forall id | IsPending(st', id) && id != top.taskId
      ensures HasEntry(st', id)
    {
      assert HasEntry(st, id);
      var e :| e in st.queue && e.taskId == id;
      assert e in dropped || e == top || e in rest;
    }
  }

  lemma AssignKeepsReady(st: Store, hand: TaskId, worker: WorkerId, now: int)
    requires StoreReadyBut(st, hand)
    ensures StoreReady(AssignTask(st, hand, worker, now))
    ensures OnlyDispatched(st, AssignTask(st, hand, worker, now))
  {
    var st' := AssignTask(st, hand, worker, now);
    forall id | IsPending(st', id)
      ensures HasEntry(st', id)
    {
      assert IsPending(st, id) && id != hand && HasEntry(st, id);
      var e :| e in st.queue && e.taskId == id;
      assert e in st'.queue;
    }
  }

  lemma RequeuedKeepsEntries(st: Store, ids: set<TaskId>, st': Store)
    requires EntriesMatch(st) && RequeuedExactly(st, ids, st')
    ensures EntriesMatch(st')
  {
    forall e | e in st'.queue
      ensures e.taskId in st'.tasks && SameSubmission(e, st'.tasks[e.taskId])
    {
      if NewEntry(st, ids, e) {
        var id :| id in ids && CanRequeue(st, id) && e == Requeued(st.tasks[id]);
        assert st'.tasks[id] == e;
      } else {
        assert e in st.queue;
      }
    }
  }

  lemma EntrySurvives(st: Store, ids: set<TaskId>, st': Store, id: TaskId)
    requires RequeuedExactly(st, ids, st') && HasEntry(st, id)
    ensures HasEntry(st', id)
  {
    var e :| e in st.queue && e.taskId == id;
    assert st'.queue[e] > 0;
  }

  lemma RequeuedHasEntry(st: Store, ids: set<TaskId>, st': Store, id: TaskId)
    requires KeysMatch(st) && RequeuedExactly(st, ids, st') && id in ids && CanRequeue(st, id)
    ensures HasEntry(st', id)
  {
    var e := Requeued(st.tasks[id]);
    assert NewEntry(st, ids, e);
    assert st'.queue[e] > 0;
  }

  /** Requeueing covers again whatever lacked an entry among the requeued. */
  lemma RequeuedCovers(st: Store, ids: set<TaskId>, st': Store, except: set<TaskId>)
    requires KeysMatch(st) && CoveredBut(st, except) && except <= ids && RequeuedExactly(st, ids, st')
    ensures Covered(st')
  {
    forall id | IsPending(st', id)
      ensures HasEntry(st', id)
    {
      if id in ids && CanRequeue(st, id) {
        RequeuedHasEntry(st, ids, st', id);
      } else {
        assert IsPending(st, id);
        EntrySurvives(st, ids, st', id);
      }
    }
  }

  lemma RequeuedOnlyDispatches(st: Store, ids: set<TaskId>, st': Store)
    requires TimesSet(st) && RequeuedExactly(st, ids, st')
    ensures TimesSet(st') && OnlyDispatched(st, st')
  {
  }

  lemma RequeuedKeepsReady(st: Store, ids: set<TaskId>, st': Store, except: set<TaskId>)
    requires EntriesMatch(st) && TimesSet(st) && CoveredBut(st, except)
    requires except <= ids && RequeuedExactly(st, ids, st')
    ensures StoreReady(st') && OnlyDispatched(st, st')
  {
    RequeuedKeepsEntries(st, ids, st');
    RequeuedCovers(st, ids, st', except);
    RequeuedOnlyDispatches(st, ids, st');
  }

  /** A store with no fewer entries stays covered if whatever has become pending has an entry. */
  lemma StaysCovered(st: Store, st': Store)
    requires Covered(st) && st.queue <= st'.queue
    requires forall id :: IsPending(st', id) ==> IsPending(st, id) || HasEntry(st', id)
    ensures Covered(st')
  {
    forall id | IsPending(st', id)
      ensures HasEntry(st', id)
    {
      if IsPending(st, id) {
        assert HasEntry(st, id);
        var e :| e in st.queue && e.taskId == id;
        assert e in st'.queue;
      }
    }
  }

  lemma AddKeepsEntries(st: Store, id: TaskId, priority: int, payload: string, now: int)
    requires EntriesMatch(st) && TimesSet(st) && id !in st.tasks
    ensures EntriesMatch(AddTask(st, id, priority, payload, now)) && TimesSet(AddTask(st, id, priority, payload, now))
  {
  }

  lemma AddKeepsReady(st: Store, id: TaskId, priority: int, payload: string, now: int)
    requires StoreReady(st) && id !in st.tasks
    ensures StoreReady(AddTask(st, id, priority, payload, now))
  {
    var st' := AddTask(st, id, priority, payload, now);
    AddKeepsEntries(st, id, priority, payload, now);
    assert st'.tasks[id] in st'.queue && st'.tasks[id].taskId == id;
    assert HasEntry(st', id);
    assert forall j :: IsPending(st', j) && j != id ==> IsPending(st, j);
    StaysCovered(st, st');
  }

  lemma FinishedKeepsEntries(st: Store, id: TaskId, r: TaskRecord)
    requires EntriesMatch(st) && TimesSet(st) && id in st.tasks && SameSubmission(st.tasks[id], r) && r.Terminal()
    ensures EntriesMatch(st.(tasks := st.tasks[id := r])) && TimesSet(st.(tasks := st.tasks[id := r]))
  {
  }

  lemma ReportKeepsEntries(st: Store, r: TaskResult, now: int)
    requires EntriesMatch(st) && TimesSet(st)
    ensures EntriesMatch(ApplyReport(st, r, now)) && TimesSet(ApplyReport(st, r, now))
    ensures ApplyReport(st, r, now).queue == st.queue
  {
    if r.taskId in st.tasks {
      match r.state {
        case Completed =>
          FinishedKeepsEntries(st, r.taskId, st.tasks[r.taskId].(state := Completed, result := r.result, completedAt := now));
        case Failed =>
          FinishedKeepsEntries(st, r.taskId, st.tasks[r.taskId].(state := Failed, error := r.error, completedAt := now));
        case _ =>
      }
    }
  }

  lemma ReportKeepsReady(st: Store, r: TaskResult, now: int)
    requires StoreReady(st)
    ensures StoreReady(ApplyReport(st, r, now))
  {
    ReportKeepsEntries(st, r, now);
    assert forall j :: IsPending(ApplyReport(st, r, now), j) ==> IsPending(st, j);
    StaysCovered(st, ApplyReport(st, r, now));
  }

  lemma RequeueHand(st: Store, hand: TaskId)
    requires KeysMatch(st)
    ensures RequeuedExactly(st, {hand}, RequeueTask(st, hand))
  {
    RequeueNone(st);
    RequeueOneMore(st, {}, st, hand);
    assert {} + {hand} == {hand};
  }

  lemma OnlyDispatchedTransitive(a: Store, b: Store, c: Store)
    requires OnlyDispatched(a, b) && OnlyDispatched(b, c)
    ensures OnlyDispatched(a, c)
  {
  }

  /** After an uninterrupted recovery that covers worker `w`, no task is in flight on it any more, and
      each task that was is pending with exactly one more entry of its new record; every task outside
      `ids`, and every finished one, is untouched and gained no entry. */
  lemma RecoveryFreesWorker(st: Store, ids: set<TaskId>, st': Store, w: WorkerId)
    requires KeysMatch(st) && RequeuedExactly(st, ids, st') && TasksOfWorker(st, w) <= ids
    ensures forall id :: id in st'.tasks && st'.tasks[id].assignedWorker == w ==>
              !st'.tasks[id].state.Assigned? && !st'.tasks[id].state.Running?
    ensures forall id :: id in st.tasks && st.tasks[id].assignedWorker == w
                         && (st.tasks[id].state.Assigned? || st.tasks[id].state.Running?) ==>
              && IsPending(st', id)
              && st'.queue[st'.tasks[id]] == st.queue[st'.tasks[id]] + 1
    ensures forall id :: id in st.tasks && (id !in ids || st.tasks[id].Terminal()) ==>
              && st'.tasks[id] == st.tasks[id]
              && forall e: TaskRecord :: e.taskId == id ==> st'.queue[e] == st.queue[e]
  {
    forall id | id in TasksOfWorker(st, w)
      ensures IsPending(st', id) && st'.queue[st'.tasks[id]] == st.queue[st'.tasks[id]] + 1
    {
      assert id in ids && CanRequeue(st, id);
      assert NewEntry(st, ids, st'.tasks[id]);
    }
    forall id | id in st'.tasks && st'.tasks[id].InFlight()
      ensures id !in TasksOfWorker(st, w) && st'.tasks[id] == st.tasks[id]
    {
    }
    forall id, e: TaskRecord | id in st.tasks && (id !in ids || st.tasks[id].Terminal()) && e.taskId == id
      ensures st'.queue[e] == st.queue[e]
    {
      assert !NewEntry(st, ids, e);
    }
  }

  lemma FollowUpKeepsReady(held: Store, pool: Pool, st': Store, pool': Pool,
                           id: TaskId, w: WorkerId, result: AssignResult, now: int)
    requires StoreReadyBut(held, id) && FollowedUp(held, pool, st', pool', id, w, result, now)
    ensures StoreReady(st') && OnlyDispatched(held, st')
  {
    match result {
      case Success => AssignKeepsReady(held, id, w, now);
      case Unreachable => RequeuedKeepsReady(held, {id} + TasksOfWorker(held, w), st', {id});
      case Rejected => RequeuedKeepsReady(held, {id}, st', {id});
    }
  }

  class Scheduler {
    const tasks: TaskStore
    const workers: WorkerPool

    ghost predicate Valid()
      reads this, tasks, tasks.pendingQueue, workers
    {
      && tasks.Valid() && StoreReady(tasks.View())
      && PoolKeysMatch(workers.workers) && Capacities32(workers.workers)
    }

    constructor (tasks: TaskStore, workers: WorkerPool)
      ensures this.tasks == tasks && this.workers == workers
    {
      this.tasks := tasks;
      this.workers := workers;
    }

    /** The loop every recovery path shares: requeue what `get_tasks_for_worker` lists. `st` is the
        store from which `done` has been requeued already. */
    method RequeueTasksOf(worker: WorkerId, ghost st: Store, ghost done: set<TaskId>)
      requires tasks.Valid() && KeysMatch(st) && RequeuedExactly(st, done, tasks.View())
      modifies tasks, tasks.pendingQueue
      ensures tasks.Valid()
      ensures RequeuedExactly(st, done + TasksOfWorker(st, worker), tasks.View())
    {
      var orphaned := tasks.GetTasksForWorker(worker);
      ghost var listed := TasksOfWorker(tasks.View(), worker);
      NewlyListed(st, done, tasks.View(), worker);
      RequeueListed(orphaned, st, done, listed);
      assert done + listed == done + TasksOfWorker(st, worker);
    }

    method RequeueListed(ids: seq<TaskId>, ghost st: Store, ghost done: set<TaskId>, ghost listed: set<TaskId>)
      requires tasks.Valid() && KeysMatch(st) && RequeuedExactly(st, done, tasks.View())
      requires ListsExactly(ids, listed) && listed !! done
      modifies tasks, tasks.pendingQueue
      ensures tasks.Valid()
      ensures RequeuedExactly(st, done + listed, tasks.View())
    {
      var i := 0;
      ghost var now := done;
      assert done + (set id | id in ids[..0]) == done;
      while i < |ids|
        invariant 0 <= i <= |ids|
        invariant tasks.Valid()
        invariant now == done + set id | id in ids[..i]
        invariant RequeuedExactly(st, now, tasks.View())
      {
        assert ids[i] in listed && ids[i] !in now;
        RequeueOneMore(st, now, tasks.View(), ids[i]);
        var _ := tasks.Requeue(ids[i]);
        now := now + {ids[i]};
        assert ids[..i + 1] == ids[..i] + [ids[i]];
        i := i + 1;
      }
      assert ids[..i] == ids;
      assert now == done + listed;
    }

    /** One `dispatch_pending` pass. The RPCs, the shutdown flag, the random tie-break and the clock
        are given by the call number. `course` is the store and the pool before the first call and after
        each; what the pass achieves is `PassDone`. */
    method DispatchPending(outcome: nat -> AssignResult, running: nat -> bool, pick: nat -> nat, clock: nat -> int)
      returns (dispatchedAny: bool, end: PassEnd, calls: nat, ghost course: seq<Moment>)
      requires Valid()
      modifies tasks, tasks.pendingQueue, workers
      ensures Valid()
      ensures PassDone(outcome, running, clock, calls, dispatchedAny, course, end,
                       Moment(old(tasks.View()), old(workers.workers)), Moment(tasks.View(), workers.workers))
    {
      dispatchedAny := false;
      calls := 0;
      ghost var first := Moment(tasks.View(), workers.workers);
      course := [first];
      while running(calls)
        invariant Valid()
        invariant PassUnderWay(outcome, running, clock, calls, dispatchedAny, course, first, Moment(tasks.View(), workers.workers))
        decreases TotalSpare(workers.workers)
      {
        var turn;
        turn, course := TakeTurn(outcome, running, calls, dispatchedAny, pick(calls), clock, course, first);
        if turn.Stopped? {
          return dispatchedAny, turn.end, calls, course;
        }
        calls := calls + 1;
        if turn.result.Success? { dispatchedAny := true; }
        if turn.result.Rejected? {
          return dispatchedAny, Refused, calls, course;
        }
      }
      NoLongerRunning(outcome, running, clock, calls, dispatchedAny, course, first, Moment(tasks.View(), workers.workers));
      end := ShutDown;
    }

    /** One iteration as part of the pass. */
    method TakeTurn(outcome: nat -> AssignResult, ghost running: nat -> bool, call: nat, ghost dispatchedAny: bool, pick: nat,
                    clock: nat -> int, ghost course: seq<Moment>, ghost first: Moment)
      returns (turn: Turn, ghost course': seq<Moment>)
      requires Valid() && running(call)
      requires PassUnderWay(outcome, running, clock, call, dispatchedAny, course, first, Moment(tasks.View(), workers.workers))
      modifies tasks, tasks.pendingQueue, workers
      ensures Valid()
      ensures turn.Stopped? ==>
                PassDone(outcome, running, clock, call, dispatchedAny, course', turn.end, first, Moment(tasks.View(), workers.workers))
      ensures turn.Called? && turn.result.Rejected? ==>
                PassDone(outcome, running, clock, call + 1, dispatchedAny, course', Refused, first, Moment(tasks.View(), workers.workers))
      ensures turn.Called? && !turn.result.Rejected? ==>
                && TotalSpare(workers.workers) < old(TotalSpare(workers.workers))
                && PassUnderWay(outcome, running, clock, call + 1, dispatchedAny || turn.result.Success?, course', first,
                                Moment(tasks.View(), workers.workers))
    {
      ghost var mid := Moment(tasks.View(), workers.workers);
      turn := DispatchOne(ResultOf(outcome, call), pick, clock(call));
      ghost var now := Moment(tasks.View(), workers.workers);
      course' := course;
      if turn.Stopped? {
        TurnStops(outcome, running, clock, call, dispatchedAny, course, turn.end, first, mid, now);
      } else {
        course' := course + [now];
        OneMoreTurn(outcome, running, clock, call, dispatchedAny, course, first, mid, now);
      }
    }

    /** One iteration: select a worker, pop a task, call the worker with `result` as the outcome. */
    method DispatchOne(result: AssignResult, pick: nat, now: int) returns (turn: Turn)
      requires Valid()
      modifies tasks, tasks.pendingQueue, workers
      ensures Valid() && OnlyDispatched(old(tasks.View()), tasks.View())
      ensures turn.Stopped? ==>
                && EndsAs(Moment(old(tasks.View()), old(workers.workers)), turn.end, tasks.View(), workers.workers)
                && match turn.end
                   case NoWorker => forall id :: !IsEligible(workers.workers, id)
                   case NoTask => forall id :: !IsPending(tasks.View(), id)
                   case _ => false
      ensures turn.Called? ==>
                && turn.result == result
                && OfferedBest(old(tasks.View()), old(workers.workers), tasks.View(), workers.workers, result, now)
    {
      var w := workers.Select(pick);
      if w.None? { return Stopped(NoWorker); }
      ghost var was := tasks.View();
      var popped := tasks.PopPending();
      if popped.None? {
        NothingPending(was, tasks.View());
        return Stopped(NoTask);
      }
      var hand, worker := popped.value.taskId, w.value.workerId;
      TaskInHand(was, tasks.View(), popped.value);
      ghost var pool, held := workers.workers, tasks.View();
      PoolStaysWellFormed(pool, worker);
      FollowUp(worker, hand, result, now);
      FollowUpKeepsReady(held, pool, tasks.View(), workers.workers, hand, worker, result, now);
      OnlyDispatchedTransitive(was, held, tasks.View());
      assert OfferedTo(was, pool, tasks.View(), workers.workers, worker, result, now);
      return Called(result);
    }

    /** The three ways one RPC of the pass is followed up. */
    method FollowUp(worker: WorkerId, hand: TaskId, result: AssignResult, now: int)
      requires tasks.Valid() && KeysMatch(tasks.View())
      modifies tasks, tasks.pendingQueue, workers
      ensures tasks.Valid()
      ensures FollowedUp(old(tasks.View()), old(workers.workers), tasks.View(), workers.workers, hand, worker, result, now)
    {
      match result {
        case Success => AcceptHand(worker, hand, now);
        case Unreachable => RecoverUnreachable(worker, hand);
        case Rejected => RefuseHand(hand);
      }
    }

    method AcceptHand(worker: WorkerId, hand: TaskId, now: int)
      requires tasks.Valid()
      modifies tasks, workers
      ensures tasks.Valid()
      ensures workers.workers == IncrementLoad(old(workers.workers), worker)
      ensures tasks.View() == AssignTask(old(tasks.View()), hand, worker, now)
    {
      var _ := tasks.Assign(hand, worker, now);
      workers.Increment(worker);
    }

    method RefuseHand(hand: TaskId)
      requires tasks.Valid() && KeysMatch(tasks.View())
      modifies tasks, tasks.pendingQueue
      ensures tasks.Valid()
      ensures RequeuedExactly(old(tasks.View()), {hand}, tasks.View())
    {
      ghost var held := tasks.View();
      RequeueHand(held, hand);
      var _ := tasks.Requeue(hand);
    }

    /** What `dispatch_pending` does when the RPC fails: the worker is dead at once, and the task in
        hand and everything in flight on the worker are requeued. */
    method RecoverUnreachable(worker: WorkerId, hand: TaskId)
      requires tasks.Valid() && KeysMatch(tasks.View())
      modifies tasks, tasks.pendingQueue, workers
      ensures tasks.Valid()
      ensures workers.workers == MarkDead(old(workers.workers), worker)
      ensures RequeuedExactly(old(tasks.View()), {hand} + TasksOfWorker(old(tasks.View()), worker), tasks.View())
    {
      ghost var st := tasks.View();
      workers.MarkAsDead(worker);
      RequeueHand(st, hand);
      var _ := tasks.Requeue(hand);
      RequeueTasksOf(worker, st, {hand});
    }

    /** The first half of the health pass: every worker that missed its heartbeats is marked dead and
        loses its tasks. */
    method RecoverDeadWorkers(dead: seq<WorkerId>, ghost deadSet: set<WorkerId>)
      requires tasks.Valid() && KeysMatch(tasks.View()) && ListsExactly(dead, deadSet)
      modifies tasks, tasks.pendingQueue, workers
      ensures tasks.Valid()
      ensures RequeuedExactly(old(tasks.View()), TasksOfAny(old(tasks.View()), deadSet), tasks.View())
      ensures workers.workers == AllMarkedDead(old(workers.workers), deadSet)
    {
      ghost var st, pool := tasks.View(), workers.workers;
      ghost var marked: set<WorkerId> := {};
      var i := 0;
      RequeueNone(st);
      assert TasksOfAny(st, {}) == {} && AllMarkedDead(pool, {}) == pool;
      while i < |dead|
        invariant 0 <= i <= |dead|
        invariant tasks.Valid()
        invariant marked == set id | id in dead[..i]
        invariant RequeuedExactly(st, TasksOfAny(st, marked), tasks.View())
        invariant workers.workers == AllMarkedDead(pool, marked)
      {
        assert dead[..i + 1] == dead[..i] + [dead[i]];
        workers.MarkAsDead(dead[i]);
        RequeueTasksOf(dead[i], st, TasksOfAny(st, marked));
        OneMoreDead(st, pool, marked, dead[i]);
        marked := marked + {dead[i]};
        i := i + 1;
      }
      assert dead[..i] == dead;
      assert marked == deadSet;
    }

    /** One pass of the health check: it reads the clock twice, for the missed heartbeats and for the
        execution timeout. */
    method HealthPass(heartbeatClock: int, timeoutClock: int)
      requires Valid()
      modifies tasks, tasks.pendingQueue, workers
      ensures Valid()
      ensures var st, dead := old(tasks.View()), DeadWorkers(old(workers.workers), HEARTBEAT_TIMEOUT, heartbeatClock);
              && RequeuedExactly(st, TasksOfAny(st, dead) + TimedOutTasks(st, EXECUTION_TIMEOUT, timeoutClock), tasks.View())
              && workers.workers == AllMarkedDead(old(workers.workers), dead)
    {
      ghost var st := tasks.View();
      var dead := workers.FindDead(HEARTBEAT_TIMEOUT, heartbeatClock);
      ghost var deadSet := DeadWorkers(workers.workers, HEARTBEAT_TIMEOUT, heartbeatClock);
      RecoverDeadWorkers(dead, deadSet);
      ghost var done := TasksOfAny(st, deadSet);
      RequeuedKeepsReady(st, done, tasks.View(), {});
      RecoverTimedOut(timeoutClock, st, done);
      RequeuedKeepsReady(st, done + TimedOutTasks(st, EXECUTION_TIMEOUT, timeoutClock), tasks.View(), {});
    }

    /** The second half of the pass. `st` is the store from which `done` has been requeued already. */
    method RecoverTimedOut(now: int, ghost st: Store, ghost done: set<TaskId>)
      requires tasks.Valid() && KeysMatch(st) && RequeuedExactly(st, done, tasks.View()) && TimesSet(tasks.View())
      modifies tasks, tasks.pendingQueue
      ensures tasks.Valid()
      ensures RequeuedExactly(st, done + TimedOutTasks(st, EXECUTION_TIMEOUT, now), tasks.View())
    {
      var timedOut := tasks.GetTimedOutTasks(EXECUTION_TIMEOUT, now);
      ghost var late := TimedOutTasks(st, EXECUTION_TIMEOUT, now);
      NewlyTimedOut(st, done, tasks.View(), EXECUTION_TIMEOUT, now);
      RequeueListed(timedOut, st, done, late - done);
      assert done + (late - done) == done + late;
    }
  }

  lemma OneMoreDead(st: Store, pool: Pool, marked: set<WorkerId>, w: WorkerId)
    ensures TasksOfAny(st, marked + {w}) == TasksOfAny(st, marked) + TasksOfWorker(st, w)
    ensures MarkDead(AllMarkedDead(pool, marked), w) == AllMarkedDead(pool, marked + {w})
  {
  }

  function TasksOfAny(st: Store, workers: set<WorkerId>): set<TaskId> {
    set id | id in st.tasks && st.tasks[id].assignedWorker in workers && st.tasks[id].InFlight()
  }

  function AllMarkedDead(pool: Pool, dead: set<WorkerId>): Pool {
    map id | id in pool :: if id in dead then pool[id].(alive := false) else pool[id]
  }

  /** In a partly recovered store the listing yields exactly the worker's tasks not yet requeued. */
  lemma NewlyListed(st: Store, done: set<TaskId>, mid: Store, worker: WorkerId)
    requires RequeuedExactly(st, done, mid)
    ensures TasksOfWorker(mid, worker) == TasksOfWorker(st, worker) - done
  {
  }

  lemma NewlyTimedOut(st: Store, done: set<TaskId>, mid: Store, timeout: int, now: int)
    requires RequeuedExactly(st, done, mid)
    ensures TimedOutTasks(mid, timeout, now) == TimedOutTasks(st, timeout, now) - done
  {
  }

  lemma NothingPending(was: Store, st: Store)
    requires st.tasks == was.tasks && st.queue == multiset{}
    requires StoreReady(was) && PopFindsNone(was)
    ensures StoreReady(st) && OnlyDispatched(was, st) && forall id :: !IsPending(st, id)
  {
    PopFindsNoneWhenNoPending(was);
  }

  lemma TaskInHand(was: Store, st: Store, task: TaskRecord)
    requires StoreReady(was) && st.tasks == was.tasks
    requires exists top, dropped :: PopTakes(was, top, dropped, st.queue) && task == was.tasks[top.taskId]
    ensures StoreReadyBut(st, task.taskId) && OnlyDispatched(was, st)
    ensures PoppedBest(was, st, task.taskId)
  {
    var top, dropped :| PopTakes(was, top, dropped, st.queue) && task == was.tasks[top.taskId];
    PopKeepsReady(was, top, dropped, st.queue);
    PopIsMostUrgentPending(was, top, dropped, st.queue);
    assert st == was.(queue := st.queue);
  }
}
