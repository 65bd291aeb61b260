/** Exactly how a finished task can become unfinished again. */
module Terminal {
  import opened Records
  import opened TaskStorage
  import opened Cluster
  import opened Provenance
  import opened Custody

  /** The step handles a report for the task. */
  ghost predicate StoresReportFor(s: State, step: Step, id: TaskId) {
    && step.Handling? && step.p.StoreReport?
    && step.thread in s.handlers && s.handlers[step.thread].msg.report.taskId == id
  }

  lemma OpsAndFinished(st: Store, op: StoreOp, now: int, id: TaskId)
    requires id in st.tasks
    requires op.Add? ==> op.id !in st.tasks
    ensures id in ApplyOp(st, op, now).tasks
    ensures Finished(st, id) ==> (!Finished(ApplyOp(st, op, now), id) <==> op.Assigning? && op.id == id)
    ensures !Finished(st, id) ==>
              (Finished(ApplyOp(st, op, now), id) <==> op.Finishing? && op.report.taskId == id && ReportCounts(st, op.report))
  {
  }

  lemma AssigningIsAssign(s: State, step: Step, id: TaskId)
    requires Enabled(s, step)
    ensures OpOf(s, step).Assigning? && OpOf(s, step).id == id <==> step == Dispatch(Assign) && Hand(s.disp) == {id}
  {
    if step == Dispatch(Assign) { assert s.disp.task.taskId in Hand(s.disp); }
  }

  /** In one step: a finished task becomes unfinished exactly by `assign_task` on it as the task in
      hand, and an unfinished one finished exactly by the handling of a terminal report for it. */
  lemma StepAndFinished(s: State, step: Step, id: TaskId)
    requires Enabled(s, step) && id in s.store.tasks
    ensures id in Apply(s, step).store.tasks
    ensures Finished(s.store, id) ==>
              (!Finished(Apply(s, step).store, id) <==> step == Dispatch(Assign) && Hand(s.disp) == {id})
    ensures !Finished(s.store, id) ==>
              (Finished(Apply(s, step).store, id) <==>
                 StoresReportFor(s, step, id) && ReportCounts(s.store, s.handlers[step.thread].msg.report))
  {
    StoreChange(s, step);
    OpsAndFinished(s.store, OpOf(s, step), s.now, id);
    AssigningIsAssign(s, step, id);
  }

  lemma DispatchAndHand(s: State, d: DispatchStep)
    requires DispatchEnabled(s, d)
    ensures !d.Pop? ==> Hand(DispatchApply(s, d).disp) <= Hand(s.disp)
    ensures d.Pop? ==> IsPending(DispatchApply(s, d).store, d.top.taskId)
                       && Hand(DispatchApply(s, d).disp) == {s.store.tasks[d.top.taskId].taskId}
  {
  }

  lemma OthersAndHand(s: State, step: Step)
    requires Enabled(s, step) && !step.Dispatch?
    ensures Hand(Apply(s, step).disp) == Hand(s.disp)
  {
    OnlyDispatchMovesDispatcher(s, step);
  }

  /** Only a pop puts a task into an empty hand, and what it puts there is pending. */
  lemma HandFilledByPop(s: State, step: Step, id: TaskId)
    requires Enabled(s, step) && KeysMatch(s.store)
    requires Hand(Apply(s, step).disp) == {id} && Hand(s.disp) != {id}
    ensures step.Dispatch? && step.d.Pop?
    ensures IsPending(Apply(s, step).store, id)
  {
    if step.Dispatch? {
      DispatchAndHand(s, step.d);
      assert id in Hand(Apply(s, step).disp);
      assert |Hand(s.disp)| <= 1;
    } else {
      OthersAndHand(s, step);
    }
  }

  /** In `(from, to]` the dispatcher holds `id`. */
  ghost predicate HeldThrough(states: seq<State>, from: nat, to: nat, id: TaskId)
    requires to < |states|
  {
    forall m :: from < m <= to ==> Hand(states[m].disp) == {id}
  }

  lemma HeldOrJustPopped(states: seq<State>, steps: seq<Step>, i: nat, id: TaskId)
    requires Trace(states, steps) && i < |steps| && Reachable(states[0])
    requires Hand(states[i + 1].disp) == {id}
    ensures Hand(states[i].disp) == {id}
            || (steps[i].Dispatch? && steps[i].d.Pop? && IsPending(states[i + 1].store, id))
  {
    TraceStaysSound(states, steps, i);
    assert MovesAt(states, steps, i);
    if Hand(states[i].disp) != {id} { HandFilledByPop(states[i], steps[i], id); }
  }

  lemma HeldOneLonger(states: seq<State>, j: nat, i: nat, id: TaskId)
    requires i + 1 < |states| && HeldThrough(states, j, i, id) && Hand(states[i + 1].disp) == {id}
    ensures HeldThrough(states, j, i + 1, id)
  {
  }

  /** A task in hand was popped, pending, at some earlier step and has been in hand ever since. */
  lemma {:induction false} HeldSincePop(states: seq<State>, steps: seq<Step>, i: nat, id: TaskId) returns (j: nat)
    requires Trace(states, steps) && i < |states| && Reachable(states[0]) && Hand(states[0].disp) == {}
    requires Hand(states[i].disp) == {id}
    ensures j < i && steps[j].Dispatch? && steps[j].d.Pop?
    ensures IsPending(states[j + 1].store, id) && HeldThrough(states, j, i, id)
    decreases i
  {
    assert i > 0;
    HeldOrJustPopped(states, steps, i - 1, id);
    if Hand(states[i - 1].disp) == {id} {
      j := HeldSincePop(states, steps, i - 1, id);
      HeldOneLonger(states, j, i - 1, id);
    } else {
      j := i - 1;
    }
  }

  /** A task unfinished at `a` and finished at `b` was finished by a report in between. */
  lemma {:induction false} FinishedByReport(states: seq<State>, steps: seq<Step>, a: nat, b: nat, id: TaskId) returns (k: nat)
    requires Trace(states, steps) && a <= b < |states| && Reachable(states[0])
    requires id in states[a].store.tasks && !Finished(states[a].store, id) && Finished(states[b].store, id)
    ensures a <= k < b && StoresReportFor(states[k], steps[k], id)
    decreases b - a
  {
    assert a < b;
    assert MovesAt(states, steps, a);
    StepAndFinished(states[a], steps[a], id);
    if Finished(states[a + 1].store, id) {
      k := a;
    } else {
      k := FinishedByReport(states, steps, a + 1, b, id);
    }
  }

  /** Leaving a terminal state: in any run from the start, if a task is finished before step i and not
      after it, that step is the dispatcher's `assign_task` for the task in its hand, which it popped
      at some step j while the task was pending, and a report for the task was handled at some step k
      in between. No recovery path can do it. */
  lemma LeavingATerminalState(states: seq<State>, steps: seq<Step>, i: nat, id: TaskId) returns (j: nat, k: nat)
    requires Trace(states, steps) && Init(states[0]) && i < |steps|
    requires Finished(states[i].store, id) && !Finished(states[i + 1].store, id)
    ensures steps[i] == Dispatch(Assign)
    ensures j < k < i && steps[j].Dispatch? && steps[j].d.Pop? && HeldThrough(states, j, i, id)
    ensures StoresReportFor(states[k], steps[k], id)
  {
    InitIsReachable(states[0]);
    assert MovesAt(states, steps, i);
    StepAndFinished(states[i], steps[i], id);
    j := HeldSincePop(states, steps, i, id);
    k := FinishedByReport(states, steps, j + 1, i, id);
  }

  // ---- the converse

  /** Before step i the dispatcher has held `id` since the pop at j, and a report for it came at k. */
  ghost predicate ReportedInHand(states: seq<State>, steps: seq<Step>, j: nat, k: nat, i: nat, id: TaskId)
    requires |states| == |steps| + 1 && j < k < i <= |steps|
  {
    && steps[j].Dispatch? && steps[j].d.Pop? && HeldThrough(states, j, i, id)
    && StoresReportFor(states[k], steps[k], id)
  }

  /** Step i takes `id` back: it is the dispatcher's `assign_task` for the task in its hand, and a
      report for that task has been handled since it was popped. */
  ghost predicate TakesBack(states: seq<State>, steps: seq<Step>, i: int, id: TaskId)
    requires |states| == |steps| + 1 && 0 <= i < |steps|
  {
    && steps[i] == Dispatch(Assign)
    && exists j: nat, k: nat :: j < k < i && ReportedInHand(states, steps, j, k, i, id)
  }

  lemma ReportInHandFinishes(s: State, step: Step, id: TaskId)
    requires Sound(s) && Enabled(s, step) && StoresReportFor(s, step, id)
    ensures Finished(Apply(s, step).store, id)
  {
    var report := s.handlers[step.thread].msg.report;
    assert SoundReport(s.store, report);
    if !Finished(s.store, id) { StepAndFinished(s, step, id); }
  }

  lemma AssignEmptiesHand(s: State)
    requires DispatchEnabled(s, Assign)
    ensures Hand(DispatchApply(s, Assign).disp) == {}
  {
  }

  lemma StaysFinishedInHand(s: State, step: Step, id: TaskId)
    requires Enabled(s, step) && Finished(s.store, id) && Hand(Apply(s, step).disp) == {id}
    ensures Finished(Apply(s, step).store, id)
  {
    StepAndFinished(s, step, id);
    if step == Dispatch(Assign) { AssignEmptiesHand(s); }
  }

  lemma FinishedAfterReport(states: seq<State>, steps: seq<Step>, k: nat, id: TaskId)
    requires Trace(states, steps) && Reachable(states[0]) && k < |steps| && StoresReportFor(states[k], steps[k], id)
    ensures Finished(states[k + 1].store, id)
  {
    TraceStaysSound(states, steps, k);
    assert MovesAt(states, steps, k);
    ReportInHandFinishes(states[k], steps[k], id);
  }

  lemma FinishedOneLonger(states: seq<State>, steps: seq<Step>, m: nat, id: TaskId)
    requires Trace(states, steps) && m < |steps| && Finished(states[m].store, id) && Hand(states[m + 1].disp) == {id}
    ensures Finished(states[m + 1].store, id)
  {
    assert MovesAt(states, steps, m);
    StaysFinishedInHand(states[m], steps[m], id);
  }

  /** A report for the task in hand leaves it finished for as long as it stays in hand. */
  lemma {:induction false} FinishedWhileHeld(states: seq<State>, steps: seq<Step>, k: nat, m: nat, id: TaskId)
    requires Trace(states, steps) && Reachable(states[0]) && k < m <= |steps|
    requires HeldThrough(states, k, m, id) && StoresReportFor(states[k], steps[k], id)
    ensures Finished(states[m].store, id)
    decreases m
  {
    if m == k + 1 {
      FinishedAfterReport(states, steps, k, id);
    } else {
      FinishedWhileHeld(states, steps, k, m - 1, id);
      FinishedOneLonger(states, steps, m - 1, id);
    }
  }

  lemma TakenBack(states: seq<State>, steps: seq<Step>, i: nat, id: TaskId)
    requires Trace(states, steps) && Reachable(states[0]) && i < |steps| && TakesBack(states, steps, i, id)
    ensures Finished(states[i].store, id) && !Finished(states[i + 1].store, id)
  {
    var j: nat, k: nat :| j < k < i && ReportedInHand(states, steps, j, k, i, id);
    FinishedWhileHeld(states, steps, k, i, id);
    assert MovesAt(states, steps, i);
    StepAndFinished(states[i], steps[i], id);
  }

  /** Exactly when a terminal state is left: step i makes a finished task unfinished if and only if it
      assigns the task in hand, and a report for it was handled after it was popped. */
  lemma TerminalIsLeftExactlyWhen(states: seq<State>, steps: seq<Step>, i: nat, id: TaskId)
    requires Trace(states, steps) && Init(states[0]) && i < |steps|
    ensures Finished(states[i].store, id) && !Finished(states[i + 1].store, id) <==> TakesBack(states, steps, i, id)
  {
    InitIsReachable(states[0]);
    if TakesBack(states, steps, i, id) {
      TakenBack(states, steps, i, id);
    } else if Finished(states[i].store, id) && !Finished(states[i + 1].store, id) {
      var j, k := LeavingATerminalState(states, steps, i, id);
      assert ReportedInHand(states, steps, j, k, i, id);
    }
  }

  ghost predicate NeverTakenBack(states: seq<State>, steps: seq<Step>, id: TaskId)
    requires |states| == |steps| + 1
  {
    forall i :: 0 <= i < |steps| ==> !TakesBack(states, steps, i, id)
  }

  /** Once finished, the task stays so to the end of the run. */
  ghost predicate StaysFinished(states: seq<State>, id: TaskId) {
    forall a, b :: 0 <= a <= b < |states| && Finished(states[a].store, id) ==> Finished(states[b].store, id)
  }

  lemma {:induction false} StaysFinishedFrom(states: seq<State>, steps: seq<Step>, a: nat, b: nat, id: TaskId)
    requires Trace(states, steps) && Init(states[0]) && a <= b < |states|
    requires NeverTakenBack(states, steps, id) && Finished(states[a].store, id)
    ensures Finished(states[b].store, id)
    decreases b - a
  {
    if a < b {
      TerminalIsLeftExactlyWhen(states, steps, a, id);
      StaysFinishedFrom(states, steps, a + 1, b, id);
    }
  }

  /** Terminal states are absorbing in a run exactly if no step of it takes the task back. */
  lemma TerminalIsAbsorbingExactlyWhen(states: seq<State>, steps: seq<Step>, id: TaskId)
    requires Trace(states, steps) && Init(states[0])
    ensures StaysFinished(states, id) <==> NeverTakenBack(states, steps, id)
  {
    if NeverTakenBack(states, steps, id) {
      forall a, b | 0 <= a <= b < |states| && Finished(states[a].store, id)
        ensures Finished(states[b].store, id)
      {
        StaysFinishedFrom(states, steps, a, b, id);
      }
    } else {
      var i: int :| 0 <= i < |steps| && TakesBack(states, steps, i, id);
      TerminalIsLeftExactlyWhen(states, steps, i, id);
      assert !Finished(states[i + 1].store, id) && Finished(states[i].store, id);
    }
  }

  /** No report for `id` is handled while the dispatcher has that task in hand. */
  ghost predicate NoReportWhileHeld(states: seq<State>, steps: seq<Step>, id: TaskId)
    requires Trace(states, steps)
  {
    forall k :: 0 <= k < |steps| && StoresReportFor(states[k], steps[k], id) ==> Hand(states[k].disp) != {id}
  }

  lemma StaysFinishedOnce(states: seq<State>, steps: seq<Step>, a: nat, id: TaskId)
    requires Trace(states, steps) && Init(states[0]) && a < |steps| && Finished(states[a].store, id)
    ensures Finished(states[a + 1].store, id) || !NoReportWhileHeld(states, steps, id)
  {
    if !Finished(states[a + 1].store, id) {
      var j, k := LeavingATerminalState(states, steps, a, id);
      assert Hand(states[k].disp) == {id};
    }
  }

  /** So in a run without such a report a finished task stays finished. */
  lemma {:induction false} TerminalIsAbsorbing(states: seq<State>, steps: seq<Step>, a: nat, b: nat, id: TaskId)
    requires Trace(states, steps) && Init(states[0]) && a <= b < |states|
    requires NoReportWhileHeld(states, steps, id) && Finished(states[a].store, id)
    ensures Finished(states[b].store, id)
    decreases b - a
  {
    if a < b {
      StaysFinishedOnce(states, steps, a, id);
      TerminalIsAbsorbing(states, steps, a + 1, b, id);
    }
  }
}
