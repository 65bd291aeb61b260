/** How long a task can stay assigned to one dispatch before the health check takes it back. */
module Timing {
  import opened Records
  import opened TaskStorage
  import opened Cluster
  import opened Custody

  ghost predicate AssignedBefore(st: Store, id: TaskId, time: int) {
    id in st.tasks && st.tasks[id].state.Assigned? && (st.tasks[id].assignedAt.Some? ==> st.tasks[id].assignedAt.value < time)
  }

  ghost predicate NoneAssignedBefore(st: Store, time: int) {
    forall id :: id in st.tasks ==> !AssignedBefore(st, id, time)
  }

  /** No task is assigned since before the cutoff of the last finished pass; and during a pass the
      ones from before its own cutoff are still on its list. */
  ghost predicate Recent(s: State) {
    && s.lastPass <= s.now
    && NoneAssignedBefore(s.store, s.lastPass - EXECUTION_TIMEOUT)
    && (s.health.Late? ==>
          && s.lastPass <= s.health.readAt <= s.now
          && ListedIfBefore(s.store, s.health.readAt - EXECUTION_TIMEOUT, s.health.todo))
  }

  ghost predicate ListedIfBefore(st: Store, time: int, todo: set<TaskId>) {
    forall id :: id in st.tasks && AssignedBefore(st, id, time) ==> id in todo
  }

  /** A step after which a task counts as assigned since before `time` (not later than the clock)
      found it so already. */
  ghost predicate NoOlder(st: Store, st': Store, now: int) {
    forall id, time :: time <= now && AssignedBefore(st', id, time) ==> AssignedBefore(st, id, time)
  }

  lemma OpMakesNoneOlder(st: Store, op: StoreOp, now: int)
    ensures NoOlder(st, ApplyOp(st, op, now), now)
  {
  }

  lemma StepMakesNoneOlder(s: State, step: Step)
    requires Enabled(s, step)
    ensures NoOlder(s.store, Apply(s, step).store, s.now)
  {
    StoreChange(s, step);
    OpMakesNoneOlder(s.store, OpOf(s, step), s.now);
  }

  lemma ListIsComplete(s: State)
    requires NoneLost(s)
    ensures ListedIfBefore(s.store, s.now - EXECUTION_TIMEOUT, TimedOutTasks(s.store, EXECUTION_TIMEOUT, s.now))
  {
    forall id | id in s.store.tasks && AssignedBefore(s.store, id, s.now - EXECUTION_TIMEOUT)
      ensures id in TimedOutTasks(s.store, EXECUTION_TIMEOUT, s.now)
    {
      assert Kept(s.store, s.pool, s.now, Hand(s.disp), id);
    }
  }

  /** A store without older assignments keeps the bounds of its predecessor. */
  lemma BoundsCarryOver(st: Store, st': Store, now: int, time: int, todo: set<TaskId>)
    requires NoOlder(st, st', now) && time <= now
    ensures NoneAssignedBefore(st, time) ==> NoneAssignedBefore(st', time)
    ensures ListedIfBefore(st, time, todo) ==> ListedIfBefore(st', time, todo)
  {
    forall id | id in st'.tasks && AssignedBefore(st', id, time)
      ensures id in st.tasks && AssignedBefore(st, id, time)
    {
    }
  }

  lemma RequeueStrikesOut(st: Store, id: TaskId, time: int, todo: set<TaskId>)
    requires ListedIfBefore(st, time, todo)
    ensures ListedIfBefore(RequeueTask(st, id), time, todo - {id})
  {
    var st' := RequeueTask(st, id);
    forall j | j in st'.tasks && AssignedBefore(st', j, time)
      ensures j in todo - {id}
    {
      assert j != id && AssignedBefore(st, j, time);
    }
  }

  lemma HealthKeepsRecent(s: State, h: HealthStep)
    requires NoneLost(s) && Recent(s) && HealthEnabled(s, h)
    ensures Recent(HealthApply(s, h))
  {
    StepMakesNoneOlder(s, Health(h));
    var s' := HealthApply(s, h);
    BoundsCarryOver(s.store, s'.store, s.now, s.lastPass - EXECUTION_TIMEOUT, {});
    match h {
      case ListLate => ListIsComplete(s);
      case RequeueLate(id) => RequeueStrikesOut(s.store, id, s.health.readAt - EXECUTION_TIMEOUT, s.health.todo);
      case _ =>
    }
  }

  lemma StepKeepsRecent(s: State, step: Step)
    requires NoneLost(s) && Recent(s) && Enabled(s, step)
    ensures Recent(Apply(s, step))
  {
    if step.Health? {
      HealthKeepsRecent(s, step.h);
    } else {
      StepMakesNoneOlder(s, step);
      var s' := Apply(s, step);
      OnlyHealthMovesHealth(s, step);
      BoundsCarryOver(s.store, s'.store, s.now, s.lastPass - EXECUTION_TIMEOUT, {});
      if s.health.Late? {
        BoundsCarryOver(s.store, s'.store, s.now, s.health.readAt - EXECUTION_TIMEOUT, s.health.todo);
      }
    }
  }

  lemma {:induction false} RunKeepsRecent(s: State, steps: seq<Step>, s': State)
    requires NoneLost(s) && Recent(s) && Runs(s, steps, s')
    ensures Recent(s')
    decreases |steps|
  {
    if steps != [] {
      StepKeepsRecent(s, steps[0]);
      StepLosesNone(s, steps[0]);
      RunKeepsRecent(Apply(s, steps[0]), steps[1..], s');
    }
  }

  lemma ReachableIsRecent(s: State)
    requires Reachable(s)
    ensures Recent(s) && NoneLost(s)
  {
    NoTaskIsLost(s);
    var s0 :| Init(s0) && Reaches(s0, s);
    var steps :| Runs(s0, steps, s);
    RunKeepsRecent(s0, steps, s);
  }

  /** Bounded recovery: a task assigned in a reachable state was dispatched no more than the execution
      timeout before the clock reading of the last finished pass. So if the pass after the one that
      read T finishes by T + period, no task stays assigned to one dispatch longer than
      3000 + period milliseconds. */
  lemma RecoveryIsBounded(s: State, id: TaskId, period: int)
    requires Reachable(s) && id in s.store.tasks && s.store.tasks[id].InFlight()
    requires s.now <= s.lastPass + period
    ensures s.store.tasks[id].assignedAt.Some? && s.store.tasks[id].assignedAt.value > 0
    ensures s.store.tasks[id].assignedAt.value >= s.lastPass - EXECUTION_TIMEOUT
    ensures s.now - s.store.tasks[id].assignedAt.value <= EXECUTION_TIMEOUT + period
  {
    ReachableIsRecent(s);
    assert Kept(s.store, s.pool, s.now, Hand(s.disp), id);
    assert !AssignedBefore(s.store, id, s.lastPass - EXECUTION_TIMEOUT);
  }

  /** The timeout test never reads an assignment time that was not set. */
  lemma ExaminedTimesAreSet(s: State)
    requires Reachable(s)
    ensures TimesSet(s.store)
  {
    NoTaskIsLost(s);
    forall id | id in s.store.tasks && s.store.tasks[id].InFlight()
      ensures s.store.tasks[id].assignedAt.Some?
    {
      assert Kept(s.store, s.pool, s.now, Hand(s.disp), id);
    }
  }

  /** A task is assigned and completed no earlier than it was created, and nothing in the future. */
  ghost predicate InOrder(r: TaskRecord, now: int) {
    && 0 < r.createdAt <= now
    && (r.assignedAt.Some? ==> r.createdAt <= r.assignedAt.value <= now)
    && (r.completedAt != 0 ==> r.createdAt <= r.completedAt <= now)
    && (r.Terminal() ==> r.completedAt != 0)
  }

  ghost predicate Chronological(st: Store, now: int) {
    forall id :: id in st.tasks ==> InOrder(st.tasks[id], now)
  }

  lemma OpStaysChronological(st: Store, op: StoreOp, now: int)
    requires Chronological(st, now) && now > 0
    ensures Chronological(ApplyOp(st, op, now), now)
  {
  }

  lemma {:induction false} RunStaysChronological(s: State, steps: seq<Step>, s': State)
    requires Chronological(s.store, s.now) && s.now > 0 && Runs(s, steps, s')
    ensures Chronological(s'.store, s'.now) && s'.now > 0
    decreases |steps|
  {
    if steps != [] {
      var s1 := Apply(s, steps[0]);
      StoreChange(s, steps[0]);
      OpStaysChronological(s.store, OpOf(s, steps[0]), s.now);
      OnlyHealthMovesHealth(s, steps[0]);
      RunStaysChronological(s1, steps[1..], s');
    }
  }

  /** The latency a status query reports, completion minus creation, is never negative, and it is
      reported for every finished task. */
  lemma LatencyIsMeaningful(s: State, id: TaskId)
    requires Reachable(s) && id in s.store.tasks
    ensures var r := s.store.tasks[id];
            && (r.Terminal() ==> r.completedAt > 0)
            && (r.completedAt > 0 ==> 0 <= r.completedAt - r.createdAt <= s.now - r.createdAt)
  {
    var s0 :| Init(s0) && Reaches(s0, s);
    var steps :| Runs(s0, steps, s);
    RunStaysChronological(s0, steps, s);
    assert InOrder(s.store.tasks[id], s.now);
  }
}
