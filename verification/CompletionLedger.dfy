/** What the completion totals count, over whole runs: late, repeated and overtaken reports included. */
module CompletionLedger {
  import opened Records
  import opened TaskStorage
  import opened Cluster
  import opened Provenance

  /** Handlers that have changed the store but not yet counted the completion, by outcome. */
  function Uncounted(handlers: map<nat, Handler>, completed: bool): set<nat> {
    set t | t in handlers && handlers[t].Stored? && handlers[t].msg.report.state.Completed? == completed
  }

  /** Handlers that have counted a completion but not yet answered. */
  function Unanswered(handlers: map<nat, Handler>): set<nat> {
    set t | t in handlers && handlers[t].Counted? && handlers[t].ok
  }

  function InState(st: Store, state: TaskState): set<TaskId> {
    set id | id in st.tasks && st.tasks[id].state == state
  }

  ghost predicate TotalsMatch(l: Ledger, handlers: map<nat, Handler>) {
    && l.totalOk + |Uncounted(handlers, true)| == l.storedOk
    && l.totalErr + |Uncounted(handlers, false)| == l.storedErr
    && l.acknowledged + |Unanswered(handlers)| == l.totalOk + l.totalErr
  }

  ghost predicate HistoryCovers(st: Store, l: Ledger) {
    && |l.everCompleted| <= l.storedOk && |l.everFailed| <= l.storedErr
    && InState(st, Completed) <= l.everCompleted
    && InState(st, Failed) <= l.everFailed
  }

  ghost predicate Balanced(s: State) {
    TotalsMatch(s.ledger, s.handlers) && HistoryCovers(s.store, s.ledger)
  }

  /** A handler that moves from one stage to another changes each of the three sets by at most itself. */
  lemma StageSets(handlers: map<nat, Handler>, t: nat, h: Handler)
    ensures forall c :: Uncounted(handlers[t := h], c)
                     == (Uncounted(handlers, c) - {t}) + if h.Stored? && h.msg.report.state.Completed? == c then {t} else {}
    ensures Unanswered(handlers[t := h]) == (Unanswered(handlers) - {t}) + if h.Counted? && h.ok then {t} else {}
  {
  }

  lemma StageEnds(handlers: map<nat, Handler>, t: nat)
    ensures forall c :: Uncounted(handlers - {t}, c) == Uncounted(handlers, c) - {t}
    ensures Unanswered(handlers - {t}) == Unanswered(handlers) - {t}
  {
  }

  /** A handler that enters one of the sets, or leaves it, changes its size by one. */
  lemma Joins(a: set<nat>, t: nat)
    ensures t !in a ==> |a + {t}| == |a| + 1 && a - {t} == a
    ensures t in a ==> |a - {t}| == |a| - 1
    ensures a - {t} + {} == a - {t}
  {
  }

  lemma DeliverKeepsTotals(l: Ledger, handlers: map<nat, Handler>, t: nat, msg: ReportMsg)
    requires TotalsMatch(l, handlers) && t !in handlers
    ensures TotalsMatch(l, handlers[t := Received(msg)])
  {
    StageSets(handlers, t, Received(msg));
    Joins(Uncounted(handlers, true), t);
    Joins(Uncounted(handlers, false), t);
    Joins(Unanswered(handlers), t);
  }

  lemma StoreKeepsTotals(l: Ledger, handlers: map<nat, Handler>, t: nat)
    requires TotalsMatch(l, handlers) && t in handlers && handlers[t].Received?
    ensures TotalsMatch(NoteStored(l, handlers[t].msg.report), handlers[t := Stored(handlers[t].msg)])
    ensures TotalsMatch(l, handlers[t := Counted(handlers[t].msg, false)])
  {
    StageSets(handlers, t, Stored(handlers[t].msg));
    StageSets(handlers, t, Counted(handlers[t].msg, false));
    Joins(Uncounted(handlers, true), t);
    Joins(Uncounted(handlers, false), t);
    Joins(Unanswered(handlers), t);
  }

  lemma CountKeepsTotals(l: Ledger, handlers: map<nat, Handler>, t: nat)
    requires TotalsMatch(l, handlers) && t in handlers && handlers[t].Stored?
    ensures TotalsMatch(NoteCounted(l, handlers[t].msg.report), handlers[t := Counted(handlers[t].msg, true)])
  {
    StageSets(handlers, t, Counted(handlers[t].msg, true));
    Joins(Uncounted(handlers, true), t);
    Joins(Uncounted(handlers, false), t);
    Joins(Unanswered(handlers), t);
  }

  lemma ReleaseKeepsTotals(l: Ledger, handlers: map<nat, Handler>, t: nat)
    requires TotalsMatch(l, handlers) && t in handlers && handlers[t].Counted?
    ensures TotalsMatch(if handlers[t].ok then l.(acknowledged := l.acknowledged + 1) else l, handlers - {t})
  {
    StageEnds(handlers, t);
    Joins(Uncounted(handlers, true), t);
    Joins(Uncounted(handlers, false), t);
    Joins(Unanswered(handlers), t);
  }

  lemma HandlerKeepsTotals(s: State, t: nat, p: HandlerStep)
    requires TotalsMatch(s.ledger, s.handlers) && HandlerEnabled(s, t, p)
    ensures TotalsMatch(HandlerApply(s, t, p).ledger, HandlerApply(s, t, p).handlers)
  {
    match p {
      case Deliver(msg) => DeliverKeepsTotals(s.ledger, s.handlers, t, msg);
      case StoreReport => StoreKeepsTotals(s.ledger, s.handlers, t);
      case Count => CountKeepsTotals(s.ledger, s.handlers, t);
      case Release => ReleaseKeepsTotals(s.ledger, s.handlers, t);
    }
  }

  lemma NoteKeepsCover(st: Store, l: Ledger, r: TaskResult, now: int)
    requires HistoryCovers(st, l) && ReportCounts(st, r)
    ensures HistoryCovers(ApplyReport(st, r, now), NoteStored(l, r))
  {
    var st' := ApplyReport(st, r, now);
    assert forall id :: id in st.tasks && id != r.taskId ==> st'.tasks[id] == st.tasks[id];
  }

  lemma HandlerKeepsCover(s: State, t: nat, p: HandlerStep)
    requires HistoryCovers(s.store, s.ledger) && HandlerEnabled(s, t, p)
    ensures HistoryCovers(HandlerApply(s, t, p).store, HandlerApply(s, t, p).ledger)
  {
    if p.StoreReport? && ReportCounts(s.store, s.handlers[t].msg.report) {
      NoteKeepsCover(s.store, s.ledger, s.handlers[t].msg.report, s.now);
    }
  }

  lemma OpFinishesNone(st: Store, op: StoreOp, now: int)
    requires !op.Finishing?
    ensures InState(ApplyOp(st, op, now), Completed) <= InState(st, Completed)
    ensures InState(ApplyOp(st, op, now), Failed) <= InState(st, Failed)
  {
  }

  lemma StepKeepsBalance(s: State, step: Step)
    requires Balanced(s) && Enabled(s, step)
    ensures Balanced(Apply(s, step))
  {
    if step.Handling? {
      HandlerKeepsTotals(s, step.thread, step.p);
      HandlerKeepsCover(s, step.thread, step.p);
    } else {
      OnlyHandlersMoveLedger(s, step);
      StoreChange(s, step);
      OpFinishesNone(s.store, OpOf(s, step), s.now);
    }
  }

  lemma {:induction false} RunKeepsBalance(s: State, steps: seq<Step>, s': State)
    requires Balanced(s) && Runs(s, steps, s')
    ensures Balanced(s')
    decreases |steps|
  {
    if steps != [] {
      StepKeepsBalance(s, steps[0]);
      RunKeepsBalance(Apply(s, steps[0]), steps[1..], s');
    }
  }

  lemma ReachableIsBalanced(s: State)
    requires Reachable(s)
    ensures Balanced(s)
  {
    var s0 :| Init(s0) && Reaches(s0, s);
    var steps :| Runs(s0, steps, s);
    assert Balanced(s0);
    RunKeepsBalance(s0, steps, s);
  }

  /** In every reachable state: every completion counted has been answered for, or its handler is
      about to; and the totals, together with the handlers about to count, are at least the numbers
      of tasks completed and failed, although a completed task can be completed again or taken back. */
  lemma CompletionsAreAccountedFor(s: State)
    requires Reachable(s)
    ensures s.ledger.totalOk + s.ledger.totalErr == s.ledger.acknowledged + |Unanswered(s.handlers)|
    ensures s.ledger.totalOk + |Uncounted(s.handlers, true)| >= |InState(s.store, Completed)|
    ensures s.ledger.totalErr + |Uncounted(s.handlers, false)| >= |InState(s.store, Failed)|
  {
    ReachableIsBalanced(s);
    SubsetIsSmaller(InState(s.store, Completed), s.ledger.everCompleted);
    SubsetIsSmaller(InState(s.store, Failed), s.ledger.everFailed);
  }

  /** While no handler is between storing a completion and counting it, the total bounds the completed
      tasks, and likewise for failures; while none is between counting and answering, the totals are
      exactly the acknowledged reports. Other reports may be in progress. */
  lemma TotalsBetweenReports(s: State)
    requires Reachable(s)
    ensures Unanswered(s.handlers) == {} <==> s.ledger.totalOk + s.ledger.totalErr == s.ledger.acknowledged
    ensures Uncounted(s.handlers, true) == {} ==> s.ledger.totalOk >= |InState(s.store, Completed)|
    ensures Uncounted(s.handlers, false) == {} ==> s.ledger.totalErr >= |InState(s.store, Failed)|
  {
    CompletionsAreAccountedFor(s);
  }

  // ---- exactly when a total lags behind

  /** The tasks with this outcome. */
  function Done(st: Store, completed: bool): set<TaskId> {
    InState(st, if completed then Completed else Failed)
  }

  function TotalOf(l: Ledger, completed: bool): nat { if completed then l.totalOk else l.totalErr }

  function StoredOf(l: Ledger, completed: bool): nat { if completed then l.storedOk else l.storedErr }

  /** The step stores a report with this outcome. */
  ghost predicate StoresOutcome(s: State, step: Step, completed: bool) {
    && step.Handling? && step.p.StoreReport? && step.thread in s.handlers
    && ReportCounts(s.store, s.handlers[step.thread].msg.report)
    && s.handlers[step.thread].msg.report.state.Completed? == completed
  }

  /** It does so for a task that already has the outcome. */
  ghost predicate StoresAgain(s: State, step: Step, completed: bool) {
    StoresOutcome(s, step, completed) && s.handlers[step.thread].msg.report.taskId in Done(s.store, completed)
  }

  /** The dispatcher assigns a task that has the outcome, and so takes it back. */
  ghost predicate AssignsDone(s: State, step: Step, completed: bool) {
    step == Dispatch(Assign) && s.disp.Accepted? && s.disp.task.taskId in Done(s.store, completed)
  }

  ghost predicate FinishesAnew(s: State, step: Step, completed: bool) {
    StoresOutcome(s, step, completed) && s.handlers[step.thread].msg.report.taskId !in Done(s.store, completed)
  }

  lemma ReportChangesDone(st: Store, r: TaskResult, now: int, completed: bool)
    requires ReportCounts(st, r)
    ensures Done(ApplyReport(st, r, now), completed)
         == if r.state.Completed? == completed then Done(st, completed) + {r.taskId} else Done(st, completed) - {r.taskId}
  {
  }

  lemma OpChangesDone(st: Store, op: StoreOp, now: int, completed: bool)
    requires !op.Finishing? && (op.Add? ==> op.id !in st.tasks)
    ensures Done(ApplyOp(st, op, now), completed)
         == if op.Assigning? then Done(st, completed) - {op.id} else Done(st, completed)
  {
  }

  /** A sound report agrees with the outcome its task has, if it has one. */
  lemma ReportsAgree(s: State, t: nat, completed: bool)
    requires Sound(s) && t in s.handlers && s.handlers[t].msg.report.taskId in Done(s.store, completed)
    ensures s.handlers[t].msg.report.state.Completed? == completed
  {
    var r := s.handlers[t].msg.report;
    assert SoundReport(s.store, r) && SoundRecord(s.store.tasks[r.taskId]);
  }

  lemma StoringChangesDone(s: State, step: Step, completed: bool)
    requires Sound(s) && Enabled(s, step) && step.Handling? && step.p.StoreReport?
    ensures Done(Apply(s, step).store, completed)
         == if StoresOutcome(s, step, completed) then Done(s.store, completed) + {s.handlers[step.thread].msg.report.taskId}
            else Done(s.store, completed)
  {
    var r := s.handlers[step.thread].msg.report;
    HandlerStoreChange(s, step.thread, step.p);
    if ReportCounts(s.store, r) {
      ReportChangesDone(s.store, r, s.now, completed);
      if r.taskId in Done(s.store, completed) { ReportsAgree(s, step.thread, completed); }
    } else {
      UncountedChangesNothing(s.store, r, s.now);
    }
  }

  lemma UncountedChangesNothing(st: Store, r: TaskResult, now: int)
    requires !ReportCounts(st, r)
    ensures ApplyReport(st, r, now) == st
  {
  }

  lemma AssignStepIsOp(s: State, step: Step)
    requires Enabled(s, step)
    ensures OpOf(s, step).Assigning? <==> step == Dispatch(Assign)
    ensures step == Dispatch(Assign) ==> s.disp.Accepted? && OpOf(s, step).id == s.disp.task.taskId
    ensures OpOf(s, step).Finishing? <==> step.Handling? && step.p.StoreReport?
    ensures OpOf(s, step).Add? ==> OpOf(s, step).id !in s.store.tasks
  {
  }

  lemma WithOrWithout(done: set<TaskId>, id: TaskId)
    ensures |done + {id}| == |done| + if id in done then 0 else 1
    ensures |done - {id}| == |done| - if id in done then 1 else 0
  {
    assert if id in done then done + {id} == done else done - {id} == done;
  }

  lemma StoringChangesCount(s: State, step: Step, completed: bool)
    requires Sound(s) && Enabled(s, step) && step.Handling? && step.p.StoreReport?
    ensures |Done(Apply(s, step).store, completed)|
         == |Done(s.store, completed)| + if FinishesAnew(s, step, completed) then 1 else 0
  {
    StoringChangesDone(s, step, completed);
    WithOrWithout(Done(s.store, completed), s.handlers[step.thread].msg.report.taskId);
  }

  lemma OthersChangeCount(s: State, step: Step, completed: bool)
    requires Enabled(s, step) && !(step.Handling? && step.p.StoreReport?)
    ensures |Done(Apply(s, step).store, completed)|
         == |Done(s.store, completed)| - if AssignsDone(s, step, completed) then 1 else 0
  {
    AssignStepIsOp(s, step);
    StoreChange(s, step);
    OpChangesDone(s.store, OpOf(s, step), s.now, completed);
    if step == Dispatch(Assign) { WithOrWithout(Done(s.store, completed), s.disp.task.taskId); }
  }

  /** Every step that changes who is done either finishes one task or takes one back. */
  lemma StepChangesDone(s: State, step: Step, completed: bool)
    requires Sound(s) && Enabled(s, step)
    ensures |Done(Apply(s, step).store, completed)|
         == |Done(s.store, completed)| + (if FinishesAnew(s, step, completed) then 1 else 0)
                                       - (if AssignsDone(s, step, completed) then 1 else 0)
  {
    if step.Handling? && step.p.StoreReport? {
      StoringChangesCount(s, step, completed);
    } else {
      OthersChangeCount(s, step, completed);
    }
  }

  lemma HandlerChangesStored(s: State, t: nat, p: HandlerStep, completed: bool)
    requires HandlerEnabled(s, t, p)
    ensures StoredOf(HandlerApply(s, t, p).ledger, completed)
         == StoredOf(s.ledger, completed) + if StoresOutcome(s, Handling(t, p), completed) then 1 else 0
    ensures StoresOutcome(s, Handling(t, p), completed) ==>
              TotalOf(HandlerApply(s, t, p).ledger, completed) == TotalOf(s.ledger, completed)
    ensures TotalOf(s.ledger, completed) <= TotalOf(HandlerApply(s, t, p).ledger, completed)
  {
  }

  lemma StepChangesStored(s: State, step: Step, completed: bool)
    requires Enabled(s, step)
    ensures StoredOf(Apply(s, step).ledger, completed)
         == StoredOf(s.ledger, completed) + if StoresOutcome(s, step, completed) then 1 else 0
    ensures StoresOutcome(s, step, completed) ==> TotalOf(Apply(s, step).ledger, completed) == TotalOf(s.ledger, completed)
    ensures TotalOf(s.ledger, completed) <= TotalOf(Apply(s, step).ledger, completed)
  {
    if step.Handling? { HandlerChangesStored(s, step.thread, step.p, completed); } else { OnlyHandlersMoveLedger(s, step); }
  }

  ghost predicate Lags(s: State, completed: bool) {
    TotalOf(s.ledger, completed) < |Done(s.store, completed)|
  }

  /** In one step: a total that bounds its finished tasks falls below their number exactly if the step
      stores a report that finishes a task anew, while the total and the number are equal. */
  lemma FallsBehindExactlyWhen(s: State, step: Step, completed: bool)
    requires Sound(s) && Enabled(s, step) && !Lags(s, completed)
    ensures Lags(Apply(s, step), completed)
       <==> FinishesAnew(s, step, completed) && TotalOf(s.ledger, completed) == |Done(s.store, completed)|
  {
    StepChangesDone(s, step, completed);
    StepChangesStored(s, step, completed);
  }

  /** Step i of the run finishes a task anew while the total has nothing to spare. */
  ghost predicate FallsBehindAt(states: seq<State>, steps: seq<Step>, i: int, completed: bool)
    requires |states| == |steps| + 1 && 0 <= i < |steps|
  {
    && FinishesAnew(states[i], steps[i], completed)
    && TotalOf(states[i].ledger, completed) == |Done(states[i].store, completed)|
  }

  lemma FallsBehindInRun(states: seq<State>, steps: seq<Step>, i: nat, completed: bool)
    requires Trace(states, steps) && Init(states[0]) && i < |steps| && !Lags(states[i], completed)
    ensures Lags(states[i + 1], completed) <==> FallsBehindAt(states, steps, i, completed)
  {
    InitIsReachable(states[0]);
    TraceStaysSound(states, steps, i);
    assert MovesAt(states, steps, i);
    FallsBehindExactlyWhen(states[i], steps[i], completed);
  }

  lemma {:induction false} NeverBehindUntil(states: seq<State>, steps: seq<Step>, i: nat, completed: bool)
    requires Trace(states, steps) && Init(states[0]) && i < |states|
    requires forall m :: 0 <= m < |steps| ==> !FallsBehindAt(states, steps, m, completed)
    ensures !Lags(states[i], completed)
    decreases i
  {
    if i > 0 {
      NeverBehindUntil(states, steps, i - 1, completed);
      FallsBehindInRun(states, steps, i - 1, completed);
    }
  }

  /** Over a run: a total bounds its finished tasks throughout if and only if no report finishes a task
      anew while the total has nothing to spare. */
  lemma TotalNeverLagsExactlyWhen(states: seq<State>, steps: seq<Step>, completed: bool)
    requires Trace(states, steps) && Init(states[0])
    ensures (forall i :: 0 <= i < |states| ==> !Lags(states[i], completed))
       <==> (forall i :: 0 <= i < |steps| ==> !FallsBehindAt(states, steps, i, completed))
  {
    if forall i :: 0 <= i < |steps| ==> !FallsBehindAt(states, steps, i, completed) {
      forall i | 0 <= i < |states|
        ensures !Lags(states[i], completed)
      {
        NeverBehindUntil(states, steps, i, completed);
      }
    } else {
      var i :| 0 <= i < |steps| && FallsBehindAt(states, steps, i, completed);
      FallsBehindInRun(states, steps, i, completed);
    }
  }

  // ---- what the total has to spare: the repeated reports of the run

  function One(b: bool): nat { if b then 1 else 0 }

  /** In the first n steps of the run: the reports stored for a task that already had the outcome, and
      the assignments that took such a task back, so that its outcome has to be stored again. */
  ghost function RepeatCount(states: seq<State>, steps: seq<Step>, n: nat, completed: bool): nat
    requires |states| == |steps| + 1 && n <= |steps|
  {
    if n == 0 then 0
    else
      RepeatCount(states, steps, n - 1, completed)
      + One(StoresAgain(states[n - 1], steps[n - 1], completed))
      + One(AssignsDone(states[n - 1], steps[n - 1], completed))
  }

  lemma StepKeepsRepeats(s: State, step: Step, completed: bool)
    requires Sound(s) && Enabled(s, step)
    ensures StoredOf(Apply(s, step).ledger, completed) - StoredOf(s.ledger, completed)
         == |Done(Apply(s, step).store, completed)| - |Done(s.store, completed)|
            + One(StoresAgain(s, step, completed)) + One(AssignsDone(s, step, completed))
  {
    StepChangesDone(s, step, completed);
    StepChangesStored(s, step, completed);
  }

  lemma RepeatsInRun(states: seq<State>, steps: seq<Step>, n: nat, completed: bool)
    requires Trace(states, steps) && Init(states[0]) && n < |steps|
    ensures StoredOf(states[n + 1].ledger, completed) - StoredOf(states[n].ledger, completed)
         == |Done(states[n + 1].store, completed)| - |Done(states[n].store, completed)|
            + One(StoresAgain(states[n], steps[n], completed)) + One(AssignsDone(states[n], steps[n], completed))
  {
    InitIsReachable(states[0]);
    TraceStaysSound(states, steps, n);
    assert MovesAt(states, steps, n);
    StepKeepsRepeats(states[n], steps[n], completed);
  }

  /** Every report stored either finished a task that is still finished, or was one of the repeats. */
  lemma {:induction false} StoredReportsAreRepeatsOrDone(states: seq<State>, steps: seq<Step>, n: nat, completed: bool)
    requires Trace(states, steps) && Init(states[0]) && n < |states|
    ensures StoredOf(states[n].ledger, completed)
         == |Done(states[n].store, completed)| + RepeatCount(states, steps, n, completed)
    decreases n
  {
    if n == 0 {
      assert Done(states[0].store, completed) == {};
    } else {
      StoredReportsAreRepeatsOrDone(states, steps, n - 1, completed);
      RepeatsInRun(states, steps, n - 1, completed);
    }
  }

  /** The account of a total after n steps: with the handlers about to count it is the number of finished
      tasks plus the repeats of the run. So it lags behind exactly while more handlers are between
      storing and counting than there have been repeats. */
  lemma TotalsLagExactlyWhen(states: seq<State>, steps: seq<Step>, n: nat, completed: bool)
    requires Trace(states, steps) && Init(states[0]) && n < |states|
    ensures TotalOf(states[n].ledger, completed) + |Uncounted(states[n].handlers, completed)|
         == |Done(states[n].store, completed)| + RepeatCount(states, steps, n, completed)
    ensures Lags(states[n], completed)
       <==> |Uncounted(states[n].handlers, completed)| > RepeatCount(states, steps, n, completed)
  {
    StoredReportsAreRepeatsOrDone(states, steps, n, completed);
    InitIsReachable(states[0]);
    TraceIsReachable(states, steps, n);
    ReachableIsBalanced(states[n]);
  }
}
