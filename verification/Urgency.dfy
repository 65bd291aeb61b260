/** Dispatch order over whole runs: requeued tasks keep their rank and the queue yields the best. */
module Urgency {
  import opened Records
  import opened TaskStorage
  import opened Cluster
  import opened Provenance
  import opened Custody

  /** Between `select_worker` and `pop_pending` the dispatcher holds nothing, so every pending task is
      in the queue, under its original rank. */
  lemma QueueCoversPending(s: State)
    requires Reachable(s) && !s.disp.Holds()
    ensures EntriesMatch(s.store) && Covered(s.store)
  {
    ReachableIsSound(s);
    NoTaskIsLost(s);
    forall id | IsPending(s.store, id)
      ensures HasEntry(s.store, id)
    {
      assert Kept(s.store, s.pool, s.now, Hand(s.disp), id);
    }
  }

  /** In every reachable state in which the dispatcher pops: some pop is possible; whichever task it
      yields is pending and no pending task is more urgent; and it finds none exactly when no task is
      pending. */
  lemma DispatcherPopsMostUrgent(s: State)
    requires Reachable(s) && s.disp.Selected?
    ensures forall top, dropped, rest :: DispatchEnabled(s, Pop(top, dropped, rest)) ==>
              && IsPending(s.store, top.taskId)
              && DispatchApply(s, Pop(top, dropped, rest)).disp.task == s.store.tasks[top.taskId]
              && forall id :: IsPending(s.store, id) ==>
                   && s.store.tasks[id].priority <= s.store.tasks[top.taskId].priority
                   && (s.store.tasks[id].priority == s.store.tasks[top.taskId].priority ==>
                         s.store.tasks[top.taskId].createdAt <= s.store.tasks[id].createdAt)
    ensures DispatchEnabled(s, PopNothing) <==> forall id :: !IsPending(s.store, id)
    ensures !DispatchEnabled(s, PopNothing) ==>
              exists top, dropped, rest :: DispatchEnabled(s, Pop(top, dropped, rest))
  {
    QueueCoversPending(s);
    PopFindsNoneWhenNoPending(s.store);
    forall top, dropped, rest | DispatchEnabled(s, Pop(top, dropped, rest))
      ensures IsPending(s.store, top.taskId)
      ensures forall id :: IsPending(s.store, id) ==> ComesFirst(s.store.tasks[top.taskId], s.store.tasks[id])
    {
      PopIsMostUrgentPending(s.store, top, dropped, rest);
    }
    if !PopFindsNone(s.store) {
      var top, dropped, rest := PopExists(s.store);
      assert DispatchEnabled(s, Pop(top, dropped, rest));
    }
  }

  /** A task keeps the rank it was submitted with for as long as the coordinator runs. */
  lemma RankIsKept(s: State, s': State, id: TaskId)
    requires Reachable(s) && Reaches(s, s') && id in s.store.tasks
    ensures id in s'.store.tasks && SameSubmission(s.store.tasks[id], s'.store.tasks[id])
  {
    ReachableIsSound(s);
    var steps :| Runs(s, steps, s');
    RunKeepsSound(s, steps, s');
  }
}
