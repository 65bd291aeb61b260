/** The coordinator's load estimate, the worker's conservation law, and what a drain guarantees. */
module Load {
  import opened Records
  import opened WorkerRegistry
  import opened WorkerProcess
  import opened Cluster
  import opened Provenance
  import opened Custody

  /** The slots of worker `w`; its capacity never changes. */
  function SlotsOf(s: State, w: WorkerId): nat {
    if w in s.procs then Slots(s.procs[w].capacity) else 0
  }

  /** A heartbeat on its way reports a count the accept handler allowed. */
  ghost predicate BeatsBounded(s: State) {
    forall b :: b in s.net.beats ==> b.worker in s.procs && 0 <= b.activeTasks <= SlotsOf(s, b.worker)
  }

  /** The estimate overshoots by at most one task. */
  ghost predicate EstimatesBounded(s: State) {
    forall w :: w in s.pool ==>
      && w in s.procs && s.pool[w].capacity == s.procs[w].capacity
      && 0 <= s.pool[w].activeTasks <= SlotsOf(s, w) + 1
  }

  /** Between `select_worker` and `increment_load` the selected worker is not over its capacity, even
      if a heartbeat already counts the task being dispatched. */
  ghost predicate CommitmentBounded(s: State) {
    s.disp.Committed() ==>
      var w := s.disp.worker.workerId;
      w in s.pool && s.pool[w].activeTasks <= SlotsOf(s, w)
  }

  ghost predicate RegistrationsKnown(s: State) {
    forall t :: t in s.regs ==> s.regs[t].worker in s.procs
  }

  ghost predicate LoadBounded(s: State) {
    BeatsBounded(s) && EstimatesBounded(s) && CommitmentBounded(s) && RegistrationsKnown(s)
  }

  lemma DispatchKeepsEstimates(s: State, d: DispatchStep)
    requires EstimatesBounded(s) && CommitmentBounded(s) && DispatchEnabled(s, d)
    ensures EstimatesBounded(DispatchApply(s, d))
  {
    var s' := DispatchApply(s, d);
    assert s'.procs == s.procs;
    if !d.Increment? && !d.MarkAsDead? { assert s'.pool == s.pool; }
  }

  lemma DispatchKeepsCommitment(s: State, d: DispatchStep)
    requires PoolReady(s) && EstimatesBounded(s) && CommitmentBounded(s) && DispatchEnabled(s, d)
    ensures CommitmentBounded(DispatchApply(s, d))
  {
    var s' := DispatchApply(s, d);
    assert s'.procs == s.procs;
    if d.Select? {
      SelectedHasRoom(s, d.worker);
    } else if s'.disp.Committed() {
      assert s.disp.Committed() && s'.disp.worker == s.disp.worker && s'.pool == s.pool;
    }
  }

  lemma SelectedHasRoom(s: State, w: WorkerId)
    requires EstimatesBounded(s) && IsEligible(s.pool, w)
    ensures s.pool[w].activeTasks <= SlotsOf(s, w)
  {
  }

  lemma DispatchKeepsLoad(s: State, d: DispatchStep)
    requires PoolReady(s) && LoadBounded(s) && DispatchEnabled(s, d)
    ensures LoadBounded(DispatchApply(s, d))
  {
    DispatchKeepsEstimates(s, d);
    DispatchKeepsCommitment(s, d);
    DispatchFrame(s, d);
  }

  lemma HealthKeepsLoad(s: State, h: HealthStep)
    requires LoadBounded(s) && HealthEnabled(s, h)
    ensures LoadBounded(HealthApply(s, h))
  {
  }

  lemma RegistrationKeepsLoad(s: State, t: nat, r: RegistrationStep)
    requires LoadBounded(s) && RegistrationEnabled(s, t, r)
    ensures LoadBounded(RegistrationApply(s, t, r))
  {
  }

  lemma HandlerKeepsLoad(s: State, t: nat, p: HandlerStep)
    requires LoadBounded(s) && HandlerEnabled(s, t, p)
    ensures LoadBounded(HandlerApply(s, t, p))
  {
    HandlerFrame(s, t, p);
    HandlerKeepsPool(s, t, p);
  }

  lemma HandlerKeepsPool(s: State, t: nat, p: HandlerStep)
    requires HandlerEnabled(s, t, p)
    ensures HandlerApply(s, t, p).pool
         == if p.Release? then DecrementLoad(s.pool, s.handlers[t].msg.key.worker) else s.pool
  {
  }

  lemma NextProcKeepsCapacity(p: Proc, x: WorkerStep)
    requires ProcEnabled(p, x)
    ensures NextProc(p, x).capacity == p.capacity
  {
  }

  lemma WorkerKeepsSlots(s: State, w: WorkerId, x: WorkerStep)
    requires WorkerEnabled(s, w, x)
    ensures WorkerApply(s, w, x).procs.Keys == s.procs.Keys
    ensures forall v :: v in s.procs ==> WorkerApply(s, w, x).procs[v].capacity == s.procs[v].capacity
    ensures forall v :: SlotsOf(WorkerApply(s, w, x), v) == SlotsOf(s, v)
  {
    NextProcKeepsCapacity(s.procs[w], x);
  }

  lemma WorkerKeepsBeats(s: State, w: WorkerId, x: WorkerStep)
    requires ProcsInv(s) && BeatsBounded(s) && WorkerEnabled(s, w, x)
    ensures BeatsBounded(WorkerApply(s, w, x))
  {
    WorkerKeepsSlots(s, w, x);
    var p, beats' := s.procs[w], WorkerApply(s, w, x).net.beats;
    assert ProcInv(p);
    assert beats' == if x.SendBeat? then s.net.beats + multiset{Beat(w, p.active)} else s.net.beats;
  }

  lemma WorkerKeepsLoad(s: State, w: WorkerId, x: WorkerStep)
    requires ProcsInv(s) && LoadBounded(s) && WorkerEnabled(s, w, x)
    ensures LoadBounded(WorkerApply(s, w, x))
  {
    var s' := WorkerApply(s, w, x);
    WorkerKeepsSlots(s, w, x);
    WorkerKeepsBeats(s, w, x);
    assert s'.pool == s.pool && s'.regs == s.regs;
    assert s'.disp.Committed() ==> s.disp.Committed() && s'.disp.worker == s.disp.worker;
  }

  lemma BeatKeepsLoad(s: State, b: Beat)
    requires LoadBounded(s) && b in s.net.beats
    ensures LoadBounded(Apply(s, BeatArrives(b)))
  {
  }

  lemma QuietKeepsLoad(s: State, s': State)
    requires LoadBounded(s) && s'.pool == s.pool && s'.procs == s.procs && s'.net == s.net
    requires s'.disp == s.disp && s'.regs == s.regs
    ensures LoadBounded(s')
  {
  }

  lemma StepKeepsLoad(s: State, step: Step)
    requires ProcsInv(s) && PoolReady(s) && LoadBounded(s) && Enabled(s, step)
    ensures LoadBounded(Apply(s, step))
  {
    match step {
      case Submit(id, priority, payload) => QuietKeepsLoad(s, Apply(s, step));
      case Tick(ms) => QuietKeepsLoad(s, Apply(s, step));
      case Dispatch(d) => DispatchKeepsLoad(s, d);
      case Health(h) => HealthKeepsLoad(s, h);
      case Registering(t, r) => RegistrationKeepsLoad(s, t, r);
      case Handling(t, p) => HandlerKeepsLoad(s, t, p);
      case Working(w, x) => WorkerKeepsLoad(s, w, x);
      case BeatArrives(b) => BeatKeepsLoad(s, b);
    }
  }

  lemma {:induction false} RunKeepsLoad(s: State, steps: seq<Step>, s': State)
    requires Sound(s) && NoneLost(s) && LoadBounded(s) && Runs(s, steps, s')
    ensures LoadBounded(s')
    decreases |steps|
  {
    if steps != [] {
      StepKeepsLoad(s, steps[0]);
      StepKeepsSound(s, steps[0]);
      StepLosesNone(s, steps[0]);
      RunKeepsLoad(Apply(s, steps[0]), steps[1..], s');
    }
  }

  lemma InitIsLoadBounded(s: State)
    requires Init(s)
    ensures LoadBounded(s)
  {
  }

  /** In every reachable state the coordinator's count for a worker lies between 0 and one more than
      its slots, and while a dispatch to it is under way it does not exceed the slots. */
  lemma LoadEstimateIsBounded(s: State)
    requires Reachable(s)
    ensures LoadBounded(s)
    ensures forall w :: w in s.pool ==> 0 <= s.pool[w].activeTasks <= Slots(s.pool[w].capacity) + 1
    ensures s.disp.Committed() ==>
              var w := s.disp.worker.workerId;
              w in s.pool && s.pool[w].activeTasks <= Slots(s.pool[w].capacity)
  {
    var s0 :| Init(s0) && Reaches(s0, s);
    var steps :| Runs(s0, steps, s);
    InitIsSound(s0);
    InitIsLoadBounded(s0);
    RunKeepsLoad(s0, steps, s);
  }

  /** On the worker's side nothing is accepted twice or forgotten: accepted tasks are active or
      completed, the active ones are the live executions and fit the slots, and once the drain loop
      sees no active task every accepted one ended, after a successful report or exactly five failed
      ones. */
  lemma WorkersConserveTasks(s: State, w: WorkerId)
    requires Reachable(s) && w in s.procs
    ensures var p := s.procs[w];
            && p.accepted == p.active + p.completed
            && 0 <= p.active == |p.live| <= Slots(p.capacity)
            && p.completed == |p.ended|
            && (p.active == 0 ==> p.accepted == |p.ended| && forall k :: k in p.ended ==>
                  if p.ended[k].delivered then p.ended[k].failed < 5 else p.ended[k].failed == 5)
  {
    ReachableIsSound(s);
    assert ProcInv(s.procs[w]);
  }

  lemma DrainingProcAcceptsNothing(p: Proc, x: WorkerStep)
    requires ProcEnabled(p, x) && p.draining && !x.Crash?
    ensures NextProc(p, x).accepted == p.accepted && NextProc(p, x).draining
  {
  }

  /** While a process drains it accepts nothing and stays draining; only a crash ends that. */
  lemma DrainingAcceptsNothing(s: State, step: Step, w: WorkerId)
    requires Enabled(s, step) && w in s.procs && s.procs[w].draining
    ensures w in Apply(s, step).procs
    ensures var p, p' := s.procs[w], Apply(s, step).procs[w];
            (step.Working? && step.worker == w && step.w.Crash?) || (p'.accepted == p.accepted && p'.draining)
  {
    OnlyWorkersMoveProcs(s, step);
    if step.Working? {
      WorkerFrame(s, step.worker, step.w);
      if step.worker == w && !step.w.Crash? { DrainingProcAcceptsNothing(s.procs[w], step.w); }
    }
  }

  /** In a run: after worker `w` was told to drain, and as long as its process does not crash, it accepts
      nothing; and once it has no active task, every task it ever accepted has ended, delivered or after
      exactly five failed reports. */
  lemma {:induction false} DrainEndsEverything(states: seq<State>, steps: seq<Step>, k: nat, i: nat, w: WorkerId)
    requires Trace(states, steps) && Init(states[0]) && k < i < |states| && steps[k] == Working(w, Drain)
    requires forall m :: k < m < i ==> !Crashes(steps[m], w)
    ensures w in states[k].procs && w in states[i].procs
    ensures var p, q := states[k].procs[w], states[i].procs[w];
            && q.draining && q.accepted == p.accepted
            && (q.active == 0 ==> q.accepted == |q.ended| && forall n :: n in q.ended ==>
                  if q.ended[n].delivered then q.ended[n].failed < 5 else q.ended[n].failed == 5)
    decreases i
  {
    assert MovesAt(states, steps, i - 1);
    if i == k + 1 {
      DrainStarts(states[k], w);
    } else {
      DrainEndsEverything(states, steps, k, i - 1, w);
      assert !Crashes(steps[i - 1], w);
      DrainingAcceptsNothing(states[i - 1], steps[i - 1], w);
    }
    InitIsReachable(states[0]);
    TraceIsReachable(states, steps, i);
    WorkersConserveTasks(states[i], w);
  }

  predicate Crashes(step: Step, w: WorkerId) { step.Working? && step.worker == w && step.w.Crash? }

  lemma DrainStarts(s: State, w: WorkerId)
    requires Enabled(s, Working(w, Drain))
    ensures var s' := Apply(s, Working(w, Drain));
            w in s'.procs && s'.procs[w].draining && s'.procs[w].accepted == s.procs[w].accepted
  {
    WorkerFrame(s, w, Drain);
  }
}
