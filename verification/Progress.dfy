/** No state is a dead end, part one: every execution a worker has can be reported and ended, by the
    steps of executions and report handlers alone. */
module Progress {
  import opened Records
  import opened TaskStorage
  import opened WorkerRegistry
  import opened WorkerProcess
  import opened Cluster
  import opened Provenance

  /** Registered, listening where the coordinator calls it, not draining, with at least one slot. */
  ghost predicate Usable(s: State, w: WorkerId) {
    && w in s.procs && w in s.pool
    && !s.procs[w].draining && s.procs[w].capacity >= 1
    && s.pool[w].address == s.procs[w].address
  }

  /** No task comes or goes, finished ones stay finished, and whatever is assigned was so before. */
  ghost predicate Advances(st: Store, st': Store) {
    && st'.tasks.Keys == st.tasks.Keys
    && forall id :: id in st.tasks ==>
         && (st.tasks[id].Terminal() ==> st'.tasks[id].Terminal())
         && (st'.tasks[id].state.Assigned? ==> st.tasks[id].state.Assigned? && st'.tasks[id].assignedAt == st.tasks[id].assignedAt)
  }

  function Unfinished(st: Store): set<TaskId> {
    set id | id in st.tasks && !st.tasks[id].Terminal()
  }

  lemma AdvancesTransitive(a: Store, b: Store, c: Store)
    requires Advances(a, b) && Advances(b, c)
    ensures Advances(a, c)
  {
  }

  lemma RequeueAdvances(st: Store, id: TaskId)
    ensures Advances(st, RequeueTask(st, id))
  {
  }

  lemma ReportAdvances(st: Store, r: TaskResult, now: int)
    ensures Advances(st, ApplyReport(st, r, now))
  {
  }

  lemma Take(kind: StepKind, s: State, step: Step) returns (s': State)
    requires Reachable(s) && Enabled(s, step) && Allowed(kind, step)
    ensures s' == Apply(s, step) && Via(kind, s, s') && Reachable(s')
  {
    s' := Apply(s, step);
    ViaStep(kind, s, step);
    ViaReaches(kind, s, s');
    ReachableExtends(s, s');
  }

  lemma FreshThread<T>(m: map<nat, T>) returns (t: nat)
    ensures t !in m
  {
    t := FreshAbove(m.Keys);
  }

  lemma {:induction false} FreshAbove(ks: set<nat>) returns (t: nat)
    ensures forall k :: k in ks ==> k < t
    decreases |ks|
  {
    if ks == {} {
      t := 0;
    } else {
      var k :| k in ks;
      var u := FreshAbove(ks - {k});
      t := if k < u then u else k + 1;
      assert forall j :: j in ks ==> j == k || j in ks - {k};
    }
  }

  // ---- one report, from the call to its answer

  /** Everything but the store, the pool, the ledger, the network and worker `w` is as before. */
  ghost predicate OthersIdle(s: State, s': State, w: WorkerId) {
    && s'.disp == s.disp && s'.health == s.health && s'.regs == s.regs && s'.handlers == s.handlers
    && s'.now == s.now && s'.lastPass == s.lastPass
    && s'.procs.Keys == s.procs.Keys && forall v :: v in s.procs && v != w ==> s'.procs[v] == s.procs[v]
  }

  lemma OthersIdleTransitive(a: State, b: State, c: State, w: WorkerId)
    requires OthersIdle(a, b, w) && OthersIdle(b, c, w)
    ensures OthersIdle(a, c, w)
  {
  }

  lemma CallIsSent(s: State, w: WorkerId, k: nat) returns (s': State)
    requires Reachable(s) && w in s.procs && CanCall(s.procs[w], k)
    ensures Via(ReportSteps, s, s') && Reachable(s')
    ensures NextReport(w, s.procs[w], k) in s'.net.reports
    ensures s' == s.(procs := s.procs[w := StartCall(s.procs[w], k)], net := s'.net)
  {
    s' := Take(ReportSteps, s, Working(w, Call(k)));
  }

  lemma RequestIsDelivered(s: State, msg: ReportMsg, t: nat) returns (s': State)
    requires Reachable(s) && msg in s.net.reports && t !in s.handlers
    ensures Via(ReportSteps, s, s') && Reachable(s')
    ensures s' == s.(net := s'.net, handlers := s.handlers[t := Received(msg)])
  {
    s' := Take(ReportSteps, s, Handling(t, Deliver(msg)));
  }

  /** The worker calls and the request reaches a handler thread. */
  lemma CallArrives(s: State, w: WorkerId, k: nat, t: nat) returns (s': State)
    requires Reachable(s) && w in s.procs && CanCall(s.procs[w], k) && t !in s.handlers
    ensures Via(ReportSteps, s, s') && Reachable(s')
    ensures s'.handlers == s.handlers[t := Received(NextReport(w, s.procs[w], k))]
    ensures s'.procs == s.procs[w := StartCall(s.procs[w], k)]
    ensures s'.store == s.store && s'.pool == s.pool && s'.ledger == s.ledger
    ensures OthersIdle(s.(handlers := s'.handlers), s', w)
  {
    var s1 := CallIsSent(s, w, k);
    s' := RequestIsDelivered(s1, NextReport(w, s.procs[w], k), t);
    ViaTransitive(ReportSteps, s, s1, s');
  }

  lemma HandlerStores(s: State, t: nat) returns (s': State)
    requires Reachable(s) && t in s.handlers && s.handlers[t].Received?
    ensures Via(ReportSteps, s, s') && Reachable(s')
    ensures s'.store == ApplyReport(s.store, s.handlers[t].msg.report, s.now)
    ensures Finished(s'.store, s.handlers[t].msg.report.taskId)
    ensures s'.handlers == s.handlers[t := Stored(s.handlers[t].msg)]
    ensures s'.pool == s.pool && s'.procs == s.procs && OthersIdle(s.(handlers := s'.handlers), s', "")
    ensures s'.ledger.totalOk == s.ledger.totalOk && s'.ledger.totalErr == s.ledger.totalErr
  {
    ReachableIsSound(s);
    var msg := s.handlers[t].msg;
    assert SoundReport(s.store, msg.report);
    ReportForIsTerminal(msg.report.taskId, s.store.tasks[msg.report.taskId].payload);
    s' := Take(ReportSteps, s, Handling(t, StoreReport));
  }

  lemma HandlerReleases(s: State, t: nat) returns (s': State)
    requires Reachable(s) && t in s.handlers && s.handlers[t].Stored?
    ensures Via(ReportSteps, s, s') && Reachable(s')
    ensures s'.store == s.store && s'.pool == DecrementLoad(s.pool, s.handlers[t].msg.key.worker)
    ensures s.handlers[t].msg.key in s'.net.answered
    ensures s'.handlers == s.handlers - {t} && s'.procs == s.procs
    ensures OthersIdle(s.(handlers := s'.handlers), s', "")
  {
    var msg := s.handlers[t].msg;
    var s1 := Take(ReportSteps, s, Handling(t, Count));
    assert s1.handlers == s.handlers[t := Counted(msg, true)];
    s' := Take(ReportSteps, s1, Handling(t, Release));
    assert s'.handlers == s.handlers - {t};
    ViaTransitive(ReportSteps, s, s1, s');
  }

  /** The handler stores the report, counts it, releases the slot and answers. */
  lemma HandlerFinishes(s: State, t: nat) returns (s': State)
    requires Reachable(s) && t in s.handlers && s.handlers[t].Received?
    ensures Via(ReportSteps, s, s') && Reachable(s')
    ensures s'.store == ApplyReport(s.store, s.handlers[t].msg.report, s.now)
    ensures Finished(s'.store, s.handlers[t].msg.report.taskId)
    ensures s'.pool == DecrementLoad(s.pool, s.handlers[t].msg.key.worker)
    ensures s.handlers[t].msg.key in s'.net.answered
    ensures s'.handlers == s.handlers - {t} && s'.procs == s.procs
    ensures OthersIdle(s.(handlers := s'.handlers), s', "")
  {
    var s1 := HandlerStores(s, t);
    s' := HandlerReleases(s1, t);
    assert s.handlers[t := Stored(s.handlers[t].msg)] - {t} == s.handlers - {t};
    ViaTransitive(ReportSteps, s, s1, s');
  }

  lemma ReportForIsTerminal(id: TaskId, payload: string)
    ensures ReportFor(id, payload).state.Completed? || ReportFor(id, payload).state.Failed?
  {
  }

  /** The usable worker `w` after execution `k` has gone. */
  ghost predicate ExecGone(p: Proc, p': Proc, k: nat) {
    && p'.live == p.live - {k}
    && p'.draining == p.draining && p'.capacity == p.capacity && p'.address == p.address
  }

  lemma AnswerComesBack(s: State, w: WorkerId, k: nat) returns (s': State)
    requires Reachable(s) && w in s.procs && InCall(s.procs[w], k)
    requires ReportKey(w, k, s.procs[w].live[k].phase.failed) in s.net.answered
    ensures Via(ReportSteps, s, s') && Reachable(s')
    ensures s' == s.(procs := s.procs[w := CallSucceeds(s.procs[w], k)])
  {
    s' := Take(ReportSteps, s, Working(w, CallReturns(k)));
  }

  lemma CallAndReturn(p: Proc, k: nat)
    requires CanCall(p, k)
    ensures InCall(StartCall(p, k), k) && StartCall(p, k).live[k].phase.failed == p.live[k].phase.failed
    ensures ExecGone(p, CallSucceeds(StartCall(p, k), k), k)
  {
    assert StartCall(p, k).live - {k} == p.live - {k};
  }

  /** The handler of a call in progress finishes, and the call returns. */
  lemma ReportAnswered(s: State, w: WorkerId, k: nat, t: nat) returns (s': State)
    requires Reachable(s) && w in s.procs && InCall(s.procs[w], k) && t in s.handlers && s.handlers[t].Received?
    requires s.handlers[t].msg.key == ReportKey(w, k, s.procs[w].live[k].phase.failed)
    ensures Via(ReportSteps, s, s') && Reachable(s')
    ensures s'.procs == s.procs[w := CallSucceeds(s.procs[w], k)]
    ensures s'.store == ApplyReport(s.store, s.handlers[t].msg.report, s.now)
    ensures Finished(s'.store, s.handlers[t].msg.report.taskId)
    ensures s'.pool == DecrementLoad(s.pool, w)
    ensures s'.handlers == s.handlers - {t} && OthersIdle(s.(handlers := s'.handlers), s', w)
  {
    var s1 := HandlerFinishes(s, t);
    s' := AnswerComesBack(s1, w, k);
    ViaTransitive(ReportSteps, s, s1, s');
  }

  /** An execution that is ready to call reports, and its task is finished. */
  lemma ReportRound(s: State, w: WorkerId, k: nat) returns (s': State)
    requires Reachable(s) && w in s.procs && CanCall(s.procs[w], k)
    ensures Via(ReportSteps, s, s') && Reachable(s') && OthersIdle(s, s', w)
    ensures ExecGone(s.procs[w], s'.procs[w], k)
    ensures s'.store == ApplyReport(s.store, s.procs[w].live[k].phase.report, s.now)
    ensures s'.pool == DecrementLoad(s.pool, w)
    ensures Finished(s'.store, s.procs[w].live[k].phase.report.taskId)
  {
    var t := FreshThread(s.handlers);
    CallAndReturn(s.procs[w], k);
    var s1 := CallArrives(s, w, k, t);
    s' := ReportAnswered(s1, w, k, t);
    assert s1.handlers - {t} == s.handlers;
    ViaTransitive(ReportSteps, s, s1, s');
  }

  // ---- emptying the worker

  /** Only execution `k` of the process has changed. */
  ghost predicate OnlyExec(p: Proc, p': Proc, k: nat) {
    && p'.live - {k} == p.live - {k}
    && p'.draining == p.draining && p'.capacity == p.capacity && p'.address == p.address
  }

  lemma ExecStepsTouchOne(p: Proc, k: nat)
    ensures CanCompute(p, k) ==> OnlyExec(p, Compute(p, k), k) && CanCall(Compute(p, k), k)
    ensures InCall(p, k) ==> OnlyExec(p, CallFails(p, k), k) && (CanCall(CallFails(p, k), k) || k !in CallFails(p, k).live)
  {
    if CanCompute(p, k) { assert Compute(p, k).live - {k} == p.live - {k}; }
    if InCall(p, k) { assert CallFails(p, k).live - {k} == p.live - {k}; }
  }

  lemma RunExecution(s: State, w: WorkerId, k: nat) returns (s': State)
    requires Reachable(s) && w in s.procs && CanCompute(s.procs[w], k)
    ensures Via(ReportSteps, s, s') && Reachable(s') && OthersIdle(s, s', w)
    ensures s'.store == s.store && s'.pool == s.pool && s'.ledger == s.ledger && s'.handlers == s.handlers
    ensures s'.procs[w] == Compute(s.procs[w], k) && CanCall(s'.procs[w], k)
  {
    s' := Take(ReportSteps, s, Working(w, Run(k)));
  }

  lemma AbandonCall(s: State, w: WorkerId, k: nat) returns (s': State)
    requires Reachable(s) && w in s.procs && InCall(s.procs[w], k)
    ensures Via(ReportSteps, s, s') && Reachable(s') && OthersIdle(s, s', w)
    ensures s'.store == s.store && s'.pool == s.pool
    ensures s'.procs[w] == CallFails(s.procs[w], k)
  {
    s' := Take(ReportSteps, s, Working(w, CallTimesOut(k)));
  }

  /** One step that takes an execution out of a computation or an open call. */
  lemma ReadyToCall(s: State, w: WorkerId, k: nat) returns (s': State)
    requires Reachable(s) && w in s.procs && k in s.procs[w].live
    ensures Via(ReportSteps, s, s') && Reachable(s') && OthersIdle(s, s', w)
    ensures s'.store == s.store && s'.pool == s.pool
    ensures CanCall(s'.procs[w], k) || k !in s'.procs[w].live
    ensures OnlyExec(s.procs[w], s'.procs[w], k)
  {
    var p := s.procs[w];
    ExecStepsTouchOne(p, k);
    if CanCompute(p, k) {
      s' := RunExecution(s, w, k);
    } else if InCall(p, k) {
      s' := AbandonCall(s, w, k);
    } else {
      s' := s;
      ViaItself(ReportSteps, s);
    }
  }

  lemma CallToTheEnd(s: State, w: WorkerId, k: nat) returns (s': State)
    requires Reachable(s) && w in s.procs && CanCall(s.procs[w], k)
    ensures Via(ReportSteps, s, s') && Reachable(s') && OthersIdle(s, s', w)
    ensures ExecGone(s.procs[w], s'.procs[w], k) && Advances(s.store, s'.store)
    ensures w in s.pool ==> w in s'.pool && s'.pool[w].address == s.pool[w].address
  {
    s' := ReportRound(s, w, k);
    ReportAdvances(s.store, s.procs[w].live[k].phase.report, s.now);
  }

  lemma EndExecution(s: State, w: WorkerId, k: nat) returns (s': State)
    requires Reachable(s) && w in s.procs && k in s.procs[w].live
    ensures Via(ReportSteps, s, s') && Reachable(s') && OthersIdle(s, s', w)
    ensures ExecGone(s.procs[w], s'.procs[w], k) && Advances(s.store, s'.store)
    ensures w in s.pool ==> w in s'.pool && s'.pool[w].address == s.pool[w].address
  {
    var s1 := ReadyToCall(s, w, k);
    if CanCall(s1.procs[w], k) {
      s' := CallToTheEnd(s1, w, k);
      ViaTransitive(ReportSteps, s, s1, s');
      OthersIdleTransitive(s, s1, s', w);
    } else {
      s' := s1;
      assert s1.procs[w].live == s1.procs[w].live - {k};
    }
  }

  /** Computing, calling and being answered is enough to end every execution of the worker. */
  lemma {:induction false} EmptyWorker(s: State, w: WorkerId) returns (s': State)
    requires Reachable(s) && Usable(s, w)
    ensures Via(ReportSteps, s, s') && Reachable(s') && Usable(s', w) && OthersIdle(s, s', w)
    ensures s'.procs[w].live == map[] && Advances(s.store, s'.store)
    decreases |s.procs[w].live|
  {
    if s.procs[w].live == map[] {
      s' := s;
      ViaItself(ReportSteps, s);
    } else {
      var k :| k in s.procs[w].live;
      var s1 := EndExecution(s, w, k);
      assert s1.procs[w].live.Keys == s.procs[w].live.Keys - {k};
      assert |s1.procs[w].live.Keys| < |s.procs[w].live.Keys|;
      s' := EmptyWorker(s1, w);
      ViaTransitive(ReportSteps, s, s1, s');
      OthersIdleTransitive(s, s1, s', w);
      AdvancesTransitive(s.store, s1.store, s'.store);
    }
  }
}
