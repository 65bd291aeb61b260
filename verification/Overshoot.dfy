/** Exactly when the coordinator's load estimate exceeds a worker's capacity. */
module Overshoot {
  import opened Records
  import opened Cluster
  import opened Custody
  import opened Load

  ghost predicate WithinSlots(s: State, w: WorkerId) {
    w in s.pool ==> s.pool[w].activeTasks <= SlotsOf(s, w)
  }

  ghost predicate Full(s: State, w: WorkerId) {
    w in s.pool && s.pool[w].activeTasks == SlotsOf(s, w)
  }

  ghost predicate Increments(s: State, step: Step, w: WorkerId) {
    step == Dispatch(Increment) && s.disp.Recorded? && s.disp.worker.workerId == w
  }

  /** The steps that write worker `w`'s count. */
  ghost predicate WritesLoad(s: State, step: Step, w: WorkerId) {
    match step
    case Dispatch(d) => Increments(s, step, w)
    case Registering(t, r) => r.Register? && t in s.regs && s.regs[t].worker == w
    case Handling(t, p) => p.Release? && t in s.handlers && s.handlers[t].msg.key.worker == w
    case BeatArrives(b) => b.worker == w
    case _ => false
  }

  lemma SlotsStay(s: State, step: Step, w: WorkerId)
    requires Enabled(s, step)
    ensures SlotsOf(Apply(s, step), w) == SlotsOf(s, w)
  {
    OnlyWorkersMoveProcs(s, step);
    if step.Working? { WorkerKeepsSlots(s, step.worker, step.w); }
  }

  lemma OthersKeepLoad(s: State, step: Step, w: WorkerId)
    requires Enabled(s, step) && !WritesLoad(s, step, w) && w in s.pool
    ensures w in Apply(s, step).pool && Apply(s, step).pool[w].activeTasks == s.pool[w].activeTasks
  {
    match step {
      case Handling(t, p) => HandlerKeepsPool(s, t, p);
      case Working(v, x) => WorkerFrame(s, v, x);
      case _ =>
    }
  }

  lemma OthersAddNoWorker(s: State, step: Step, w: WorkerId)
    requires Enabled(s, step) && !WritesLoad(s, step, w) && w !in s.pool
    ensures w !in Apply(s, step).pool
  {
    match step {
      case Handling(t, p) => HandlerKeepsPool(s, t, p);
      case Working(v, x) => WorkerFrame(s, v, x);
      case _ =>
    }
  }

  /** What each step that writes the count writes. */
  lemma LoadAfterWrite(s: State, step: Step, w: WorkerId)
    requires LoadBounded(s) && Enabled(s, step) && WritesLoad(s, step, w)
    ensures var s' := Apply(s, step);
            w in s'.pool ==>
              match step
              case Dispatch(d) => w in s.pool && s'.pool[w].activeTasks == s.pool[w].activeTasks + 1
              case Registering(t, r) => s'.pool[w].activeTasks == 0
              case Handling(t, p) =>
                w in s.pool && s'.pool[w].activeTasks == if s.pool[w].activeTasks > 0 then s.pool[w].activeTasks - 1 else 0
              case BeatArrives(b) => s'.pool[w].activeTasks == b.activeTasks <= SlotsOf(s, w)
              case _ => true
  {
    match step {
      case Handling(t, p) => HandlerKeepsPool(s, t, p);
      case _ =>
    }
  }

  lemma IncrementedIsKnown(s: State, step: Step, w: WorkerId)
    requires LoadBounded(s) && Enabled(s, step) && Increments(s, step, w)
    ensures w in s.pool && w in Apply(s, step).pool
    ensures Apply(s, step).pool[w].activeTasks == s.pool[w].activeTasks + 1
  {
  }

  /** In one step: an estimate within the worker's slots exceeds them afterwards exactly if the step is
      the dispatcher's `increment_load` for that worker and the estimate was already full. */
  lemma ExceedsExactlyWhen(s: State, step: Step, w: WorkerId)
    requires LoadBounded(s) && Enabled(s, step) && WithinSlots(s, w)
    ensures !WithinSlots(Apply(s, step), w) <==> Increments(s, step, w) && Full(s, w)
  {
    SlotsStay(s, step, w);
    if Increments(s, step, w) {
      IncrementedIsKnown(s, step, w);
    } else if WritesLoad(s, step, w) {
      LoadAfterWrite(s, step, w);
    } else if w in s.pool {
      OthersKeepLoad(s, step, w);
    } else {
      OthersAddNoWorker(s, step, w);
    }
  }

  // ---- over whole runs

  ghost predicate CommittedTo(s: State, w: WorkerId) {
    s.disp.Committed() && s.disp.worker.workerId == w
  }

  /** Between `select_worker` and `increment_load` for `w`, at step k, a heartbeat arrived that reports
      `w` full, because it counts the task being dispatched already or because it is an old one; nothing
      wrote the estimate between that heartbeat and the increment at step i. */
  ghost predicate FilledByHeartbeat(states: seq<State>, steps: seq<Step>, k: int, i: int, w: WorkerId)
    requires |states| == |steps| + 1 && 0 <= k < i < |steps|
  {
    && steps[k] == BeatArrives(Beat(w, SlotsOf(states[k], w)))
    && (forall m :: k <= m <= i ==> CommittedTo(states[m], w))
    && (forall m :: k < m < i ==> !WritesLoad(states[m], steps[m], w))
    && Increments(states[i], steps[i], w)
  }

  ghost predicate IncrementsFull(states: seq<State>, steps: seq<Step>, i: int, w: WorkerId)
    requires |states| == |steps| + 1 && 0 <= i < |steps|
  {
    exists k :: 0 <= k < i && FilledByHeartbeat(states, steps, k, i, w)
  }

  /** A committed worker has at least one slot. */
  ghost predicate CommitmentHasSlot(s: State) {
    s.disp.Committed() ==> SlotsOf(s, s.disp.worker.workerId) >= 1
  }

  /** The dispatcher commits only by selecting a worker with a free slot. */
  lemma CommitsBySelecting(s: State, step: Step, w: WorkerId)
    requires LoadBounded(s) && PoolReady(s) && Enabled(s, step)
    requires CommittedTo(Apply(s, step), w) && !CommittedTo(s, w)
    ensures step == Dispatch(Select(w)) && !Full(Apply(s, step), w) && SlotsOf(Apply(s, step), w) >= 1
  {
    if step.Dispatch? {
      DispatchFrame(s, step.d);
    } else {
      OnlyDispatchMovesDispatcher(s, step);
    }
  }

  lemma StepKeepsCommitmentSlot(s: State, step: Step)
    requires LoadBounded(s) && PoolReady(s) && Enabled(s, step) && CommitmentHasSlot(s)
    ensures CommitmentHasSlot(Apply(s, step))
  {
    var s' := Apply(s, step);
    if s'.disp.Committed() {
      var w := s'.disp.worker.workerId;
      SlotsStay(s, step, w);
      if !CommittedTo(s, w) { CommitsBySelecting(s, step, w); }
    }
  }

  lemma ReachableIsBounded(s: State)
    requires Reachable(s)
    ensures LoadBounded(s) && PoolReady(s)
  {
    LoadEstimateIsBounded(s);
    NoTaskIsLost(s);
  }

  lemma {:induction false} TraceKeepsCommitmentSlot(states: seq<State>, steps: seq<Step>, i: nat)
    requires Trace(states, steps) && Init(states[0]) && i < |states|
    ensures CommitmentHasSlot(states[i])
    decreases i
  {
    if i > 0 {
      TraceKeepsCommitmentSlot(states, steps, i - 1);
      InitIsReachable(states[0]);
      TraceIsReachable(states, steps, i - 1);
      ReachableIsBounded(states[i - 1]);
      assert MovesAt(states, steps, i - 1);
      StepKeepsCommitmentSlot(states[i - 1], steps[i - 1]);
    }
  }

  /** An estimate that becomes full while the dispatcher is committed does so by a heartbeat. */
  lemma FilledByBeat(s: State, step: Step, w: WorkerId)
    requires LoadBounded(s) && CommitmentHasSlot(s) && Enabled(s, step) && WritesLoad(s, step, w)
    requires CommittedTo(s, w) && CommittedTo(Apply(s, step), w) && Full(Apply(s, step), w)
    ensures step == BeatArrives(Beat(w, SlotsOf(s, w)))
  {
    SlotsStay(s, step, w);
    LoadAfterWrite(s, step, w);
  }

  lemma FullStays(s: State, step: Step, w: WorkerId)
    requires Enabled(s, step) && !WritesLoad(s, step, w) && w in s.pool
    ensures Full(Apply(s, step), w) <==> Full(s, w)
  {
    SlotsStay(s, step, w);
    OthersKeepLoad(s, step, w);
  }

  /** The worker filled by a heartbeat at k is still full, and committed to ever since. */
  ghost predicate FullSince(states: seq<State>, steps: seq<Step>, k: int, i: int, w: WorkerId)
    requires |states| == |steps| + 1 && 0 <= k < i <= |steps|
  {
    && steps[k] == BeatArrives(Beat(w, SlotsOf(states[k], w)))
    && (forall m :: k <= m <= i ==> CommittedTo(states[m], w))
    && (forall m :: k < m < i ==> !WritesLoad(states[m], steps[m], w))
  }

  lemma {:induction false} FullWhileCommitted(states: seq<State>, steps: seq<Step>, i: nat, w: WorkerId) returns (k: nat)
    requires Trace(states, steps) && Init(states[0]) && i < |states|
    requires CommittedTo(states[i], w) && Full(states[i], w)
    ensures k < i && FullSince(states, steps, k, i, w)
    decreases i
  {
    assert i > 0;
    InitIsReachable(states[0]);
    TraceIsReachable(states, steps, i - 1);
    ReachableIsBounded(states[i - 1]);
    TraceKeepsCommitmentSlot(states, steps, i - 1);
    k := FullForAReason(states, steps, i, w);
  }

  lemma {:induction false} FullForAReason(states: seq<State>, steps: seq<Step>, i: nat, w: WorkerId) returns (k: nat)
    requires Trace(states, steps) && Init(states[0]) && 0 < i < |states|
    requires LoadBounded(states[i - 1]) && PoolReady(states[i - 1]) && CommitmentHasSlot(states[i - 1])
    requires CommittedTo(states[i], w) && Full(states[i], w)
    ensures k < i && FullSince(states, steps, k, i, w)
    decreases i, 0
  {
    var s, step := states[i - 1], steps[i - 1];
    assert MovesAt(states, steps, i - 1);
    if !CommittedTo(s, w) { CommitsBySelecting(s, step, w); }
    if WritesLoad(s, step, w) {
      FilledByBeat(s, step, w);
      k := i - 1;
    } else {
      FullStays(s, step, w);
      k := FullWhileCommitted(states, steps, i - 1, w);
      assert !WritesLoad(states[i - 1], steps[i - 1], w);
    }
  }

  lemma BeatFills(s: State, w: WorkerId)
    requires Enabled(s, BeatArrives(Beat(w, SlotsOf(s, w)))) && w in s.pool
    ensures Full(Apply(s, BeatArrives(Beat(w, SlotsOf(s, w)))), w)
  {
  }

  /** The other direction: from such a heartbeat on the estimate is full. */
  lemma {:induction false} StaysFull(states: seq<State>, steps: seq<Step>, k: nat, i: nat, w: WorkerId)
    requires Trace(states, steps) && Init(states[0]) && k < i <= |steps| && FullSince(states, steps, k, i, w)
    ensures Full(states[i], w)
    decreases i
  {
    InitIsReachable(states[0]);
    TraceIsReachable(states, steps, i - 1);
    LoadEstimateIsBounded(states[i - 1]);
    assert MovesAt(states, steps, i - 1);
    assert CommittedTo(states[i - 1], w);
    if i == k + 1 {
      BeatFills(states[k], w);
    } else {
      assert FullSince(states, steps, k, i - 1, w);
      StaysFull(states, steps, k, i - 1, w);
      FullStays(states[i - 1], steps[i - 1], w);
    }
  }

  /** In a run: step i takes the estimate beyond the slots exactly if it is the increment for a worker
      that a heartbeat since its selection has reported full. */
  lemma OvershootsExactlyWhen(states: seq<State>, steps: seq<Step>, i: nat, w: WorkerId)
    requires Trace(states, steps) && Init(states[0]) && i < |steps|
    ensures WithinSlots(states[i], w) && !WithinSlots(states[i + 1], w) <==> IncrementsFull(states, steps, i, w)
  {
    InitIsReachable(states[0]);
    TraceIsReachable(states, steps, i);
    ReachableIsBounded(states[i]);
    assert MovesAt(states, steps, i);
    if IncrementsFull(states, steps, i, w) {
      var k :| 0 <= k < i && FilledByHeartbeat(states, steps, k, i, w);
      assert FullSince(states, steps, k, i, w);
      StaysFull(states, steps, k, i, w);
      ExceedsExactlyWhen(states[i], steps[i], w);
    } else if WithinSlots(states[i], w) && !WithinSlots(states[i + 1], w) {
      ExceedsExactlyWhen(states[i], steps[i], w);
      var k := FullWhileCommitted(states, steps, i, w);
      assert FilledByHeartbeat(states, steps, k, i, w);
    }
  }

  lemma {:induction false} WithinSlotsUntil(states: seq<State>, steps: seq<Step>, i: nat, w: WorkerId)
    requires Trace(states, steps) && Init(states[0]) && i < |states|
    requires forall m :: 0 <= m < |steps| ==> !IncrementsFull(states, steps, m, w)
    ensures WithinSlots(states[i], w)
    decreases i
  {
    if i > 0 {
      WithinSlotsUntil(states, steps, i - 1, w);
      OvershootsExactlyWhen(states, steps, i - 1, w);
    }
  }

  /** So the estimate of a worker stays within its capacity throughout a run if and only if no increment
      of the run finds it filled by such a heartbeat; in particular if no heartbeat of the selected worker
      arrives before the increment. */
  lemma EstimateStaysWithinSlots(states: seq<State>, steps: seq<Step>, w: WorkerId)
    requires Trace(states, steps) && Init(states[0])
    ensures (forall i :: 0 <= i < |states| ==> WithinSlots(states[i], w))
       <==> (forall i :: 0 <= i < |steps| ==> !IncrementsFull(states, steps, i, w))
  {
    if forall i :: 0 <= i < |steps| ==> !IncrementsFull(states, steps, i, w) {
      forall i | 0 <= i < |states|
        ensures WithinSlots(states[i], w)
      {
        WithinSlotsUntil(states, steps, i, w);
      }
    } else {
      var i :| 0 <= i < |steps| && IncrementsFull(states, steps, i, w);
      OvershootsExactlyWhen(states, steps, i, w);
    }
  }
}
