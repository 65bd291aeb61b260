/** Every result traces back to the submitted payload: at-least-once execution, duplicated reports and
    re-assignment notwithstanding. */
module Provenance {
  import opened Records
  import opened PrimeTask
  import opened TaskStorage
  import opened WorkerProcess
  import opened Cluster

  /** A record holds a result only if its payload has that answer and an error only if it has none;
      a completed or failed record holds the one that belongs to it. */
  ghost predicate SoundRecord(r: TaskRecord) {
    && r.payload != ""
    && !r.state.Running?
    && (r.result != "" || r.state.Completed? ==> Answer(r.payload) == Success(r.result))
    && (r.error != "" || r.state.Failed? ==> Answer(r.payload).Failure? && r.error == "invalid payload: " + Answer(r.payload).error)
  }

  ghost predicate StoreSound(st: Store) {
    EntriesMatch(st) && forall id :: id in st.tasks ==> SoundRecord(st.tasks[id])
  }

  ghost predicate Known(st: Store, id: TaskId, payload: string) {
    id in st.tasks && st.tasks[id].payload == payload
  }

  ghost predicate SoundReport(st: Store, r: TaskResult) {
    r.taskId in st.tasks && r == ReportFor(r.taskId, st.tasks[r.taskId].payload)
  }

  ghost predicate InStore(st: Store, r: TaskRecord) {
    r.taskId in st.tasks && SameSubmission(r, st.tasks[r.taskId])
  }

  ghost predicate ExecsKnown(st: Store, p: Proc) {
    forall k :: k in p.live ==> Known(st, p.live[k].taskId, p.live[k].payload)
  }

  ghost predicate NetKnown(st: Store, net: Network) {
    && (forall m :: m in net.assigns ==> Known(st, m.taskId, m.payload))
    && (forall m :: m in net.reports ==> SoundReport(st, m.report))
  }

  /** Whatever travels or runs in `s` carries the payload, or the right report, of a task in `st`. */
  ghost predicate ControlKnown(st: Store, s: State) {
    && (s.disp.Holds() ==> InStore(st, s.disp.task))
    && NetKnown(st, s.net)
    && (forall w :: w in s.procs ==> ExecsKnown(st, s.procs[w]))
    && (forall t :: t in s.handlers ==> SoundReport(st, s.handlers[t].msg.report))
  }

  ghost predicate ProcsInv(s: State) {
    forall w :: w in s.procs ==> ProcInv(s.procs[w])
  }

  ghost predicate Sound(s: State) {
    StoreSound(s.store) && ControlKnown(s.store, s) && ProcsInv(s)
  }

  /** No task disappears and none changes what was submitted. */
  ghost predicate Extends(st: Store, st': Store) {
    forall id :: id in st.tasks ==> id in st'.tasks && SameSubmission(st.tasks[id], st'.tasks[id])
  }

  lemma ControlStaysKnown(st: Store, st': Store, s: State)
    requires ControlKnown(st, s) && Extends(st, st')
    ensures ControlKnown(st', s)
  {
    forall w | w in s.procs
      ensures ExecsKnown(st', s.procs[w])
    {
      assert ExecsKnown(st, s.procs[w]);
    }
  }

  lemma AddStaysSound(st: Store, id: TaskId, priority: int, payload: string, now: int)
    requires StoreSound(st) && id !in st.tasks && payload != ""
    ensures StoreSound(AddTask(st, id, priority, payload, now)) && Extends(st, AddTask(st, id, priority, payload, now))
  {
    var st' := AddTask(st, id, priority, payload, now);
    assert Extends(st, st');
    assert SoundRecord(st'.tasks[id]);
    forall e | e in st'.queue
      ensures e.taskId in st'.tasks && SameSubmission(e, st'.tasks[e.taskId])
    {
      assert e == st'.tasks[id] || e in st.queue;
    }
  }

  lemma AssignStaysSound(st: Store, id: TaskId, worker: WorkerId, now: int)
    requires StoreSound(st)
    ensures StoreSound(AssignTask(st, id, worker, now)) && Extends(st, AssignTask(st, id, worker, now))
  {
    if id in st.tasks {
      var r := st.tasks[id].(state := Assigned, assignedWorker := worker, assignedAt := Some(now));
      assert SoundRecord(st.tasks[id]);
      ReplacedRecordStaysSound(st, id, r);
    }
  }

  lemma ReportedRecordIsSound(r: TaskRecord, now: int)
    requires SoundRecord(r)
    ensures var rep := ReportFor(r.taskId, r.payload);
            if rep.state.Completed? then SoundRecord(r.(state := Completed, result := rep.result, completedAt := now))
            else rep.state.Failed? && SoundRecord(r.(state := Failed, error := rep.error, completedAt := now))
  {
  }

  lemma ReplacedRecordStaysSound(st: Store, id: TaskId, r: TaskRecord)
    requires StoreSound(st) && id in st.tasks && SameSubmission(st.tasks[id], r) && SoundRecord(r)
    ensures StoreSound(st.(tasks := st.tasks[id := r])) && Extends(st, st.(tasks := st.tasks[id := r]))
  {
  }

  lemma ReportStaysSound(st: Store, r: TaskResult, now: int)
    requires StoreSound(st) && SoundReport(st, r)
    ensures StoreSound(ApplyReport(st, r, now)) && Extends(st, ApplyReport(st, r, now))
  {
    var was := st.tasks[r.taskId];
    ReportedRecordIsSound(was, now);
    ReplacedRecordStaysSound(st, r.taskId, ApplyReport(st, r, now).tasks[r.taskId]);
  }

  lemma RequeuedRecordIsSound(r: TaskRecord)
    requires SoundRecord(r)
    ensures SoundRecord(Requeued(r)) && SameSubmission(r, Requeued(r))
  {
  }

  lemma PushedEntryStaysSound(st: Store, e: TaskRecord)
    requires StoreSound(st) && e.taskId in st.tasks && SameSubmission(e, st.tasks[e.taskId])
    ensures StoreSound(st.(queue := st.queue + multiset{e}))
  {
  }

  lemma RequeueStaysSound(st: Store, id: TaskId)
    requires StoreSound(st)
    ensures StoreSound(RequeueTask(st, id)) && Extends(st, RequeueTask(st, id))
  {
    if CanRequeue(st, id) {
      var r := Requeued(st.tasks[id]);
      var mid := st.(tasks := st.tasks[id := r]);
      RequeuedRecordIsSound(st.tasks[id]);
      ReplacedRecordStaysSound(st, id, r);
      PushedEntryStaysSound(mid, r);
      assert RequeueTask(st, id) == mid.(queue := mid.queue + multiset{r});
    }
  }

  lemma FewerEntriesStaySound(st: Store, rest: multiset<TaskRecord>)
    requires StoreSound(st) && forall e :: e in rest ==> e in st.queue
    ensures StoreSound(st.(queue := rest))
  {
  }

  lemma DispatchKeepsStoreSound(s: State, d: DispatchStep)
    requires StoreSound(s.store) && DispatchEnabled(s, d)
    ensures StoreSound(DispatchApply(s, d).store) && Extends(s.store, DispatchApply(s, d).store)
  {
    match d {
      case Pop(top, dropped, rest) => FewerEntriesStaySound(s.store, rest);
      case PopNothing => FewerEntriesStaySound(s.store, multiset{});
      case Assign => AssignStaysSound(s.store, s.disp.task.taskId, s.disp.worker.workerId, s.now);
      case RequeueHand => RequeueStaysSound(s.store, s.disp.task.taskId);
      case Refuse => RequeueStaysSound(s.store, s.disp.task.taskId);
      case RequeueListed(id) => RequeueStaysSound(s.store, id);
      case _ =>
    }
  }

  /** What the dispatcher holds after a step, and what it has sent. */
  lemma DispatchSends(s: State, d: DispatchStep)
    requires DispatchEnabled(s, d)
    ensures var s' := DispatchApply(s, d);
            if d.Pop? then
              && d.top.taskId in s.store.tasks && s'.disp.Holds() && s'.disp.task == s.store.tasks[d.top.taskId]
              && exists call, address :: s'.net.assigns
                   == s.net.assigns + {AssignMsg(call, address, s'.disp.task.taskId, s'.disp.task.payload)}
            else
              && s'.net.assigns == s.net.assigns
              && (s'.disp.Holds() ==> s.disp.Holds() && s'.disp.task == s.disp.task)
  {
  }

  lemma DispatchKeepsControlKnown(s: State, d: DispatchStep)
    requires StoreSound(s.store) && ControlKnown(s.store, s) && DispatchEnabled(s, d)
    ensures ControlKnown(s.store, DispatchApply(s, d))
  {
    DispatchFrame(s, d);
    DispatchSends(s, d);
  }

  lemma DispatchKeepsControl(s: State, d: DispatchStep)
    requires StoreSound(s.store) && ControlKnown(s.store, s) && DispatchEnabled(s, d)
    ensures ControlKnown(DispatchApply(s, d).store, DispatchApply(s, d))
  {
    DispatchKeepsStoreSound(s, d);
    DispatchKeepsControlKnown(s, d);
    ControlStaysKnown(s.store, DispatchApply(s, d).store, DispatchApply(s, d));
  }

  lemma SameProcsInv(s: State, s': State)
    requires ProcsInv(s) && s'.procs == s.procs
    ensures ProcsInv(s')
  {
  }

  lemma DispatchKeepsSound(s: State, d: DispatchStep)
    requires Sound(s) && DispatchEnabled(s, d)
    ensures Sound(DispatchApply(s, d)) && Extends(s.store, DispatchApply(s, d).store)
  {
    DispatchKeepsStoreSound(s, d);
    DispatchKeepsControl(s, d);
    DispatchFrame(s, d);
    SameProcsInv(s, DispatchApply(s, d));
  }

  lemma HealthKeepsSound(s: State, h: HealthStep)
    requires Sound(s) && HealthEnabled(s, h)
    ensures Sound(HealthApply(s, h)) && Extends(s.store, HealthApply(s, h).store)
  {
    var s' := HealthApply(s, h);
    match h {
      case RequeueOrphan(id) => RequeueStaysSound(s.store, id);
      case RequeueLate(id) => RequeueStaysSound(s.store, id);
      case _ =>
    }
    ControlStaysKnown(s.store, s'.store, s');
  }

  lemma RegistrationKeepsSound(s: State, t: nat, r: RegistrationStep)
    requires Sound(s) && RegistrationEnabled(s, t, r)
    ensures Sound(RegistrationApply(s, t, r)) && Extends(s.store, RegistrationApply(s, t, r).store)
  {
    var s' := RegistrationApply(s, t, r);
    match r {
      case RequeueOld(id) => RequeueStaysSound(s.store, id);
      case _ =>
    }
    ControlStaysKnown(s.store, s'.store, s');
  }

  lemma HandlerKeepsControlKnown(s: State, t: nat, p: HandlerStep)
    requires ControlKnown(s.store, s) && HandlerEnabled(s, t, p)
    ensures ControlKnown(s.store, HandlerApply(s, t, p))
  {
    var s' := HandlerApply(s, t, p);
    assert s'.disp == s.disp && s'.net.assigns == s.net.assigns && s'.procs == s.procs;
  }

  lemma HandlerKeepsSound(s: State, t: nat, p: HandlerStep)
    requires Sound(s) && HandlerEnabled(s, t, p)
    ensures Sound(HandlerApply(s, t, p)) && Extends(s.store, HandlerApply(s, t, p).store)
  {
    var s' := HandlerApply(s, t, p);
    if p.StoreReport? { ReportStaysSound(s.store, s.handlers[t].msg.report, s.now); }
    HandlerKeepsControlKnown(s, t, p);
    ControlStaysKnown(s.store, s'.store, s');
    assert s'.procs == s.procs;
  }

  lemma NextProcKeepsInv(p: Proc, x: WorkerStep)
    requires ProcInv(p) && ProcEnabled(p, x)
    ensures ProcInv(NextProc(p, x))
  {
    match x {
      case Handle(msg) => if Accepts(p) { AcceptKeepsInv(p, msg.taskId, msg.payload); }
      case Run(k) => ExecStepKeepsInv(p, k);
      case Call(k) => ExecStepKeepsInv(p, k);
      case CallReturns(k) => SuccessKeepsInv(p, k);
      case CallTimesOut(k) => FailureKeepsInv(p, k);
      case _ =>
    }
  }

  lemma WorkerKeepsProcsInv(s: State, w: WorkerId, x: WorkerStep)
    requires ProcsInv(s) && WorkerEnabled(s, w, x)
    ensures ProcsInv(WorkerApply(s, w, x))
  {
    NextProcKeepsInv(s.procs[w], x);
  }

  lemma NextProcExecsKnown(st: Store, p: Proc, x: WorkerStep)
    requires ExecsKnown(st, p) && ProcEnabled(p, x) && (x.Handle? ==> Known(st, x.msg.taskId, x.msg.payload))
    ensures ExecsKnown(st, NextProc(p, x))
  {
  }

  lemma NextReportIsSound(st: Store, w: WorkerId, p: Proc, k: nat)
    requires ExecsKnown(st, p) && ProcInv(p) && CanCall(p, k)
    ensures SoundReport(st, NextReport(w, p, k).report)
  {
    assert ExecInv(p.live[k]);
  }

  lemma NetKeepsKnown(st: Store, net: Network, w: WorkerId, p: Proc, x: WorkerStep)
    requires ProcEnabled(p, x) && NetKnown(st, net)
    requires x.Call? ==> SoundReport(st, NextReport(w, p, x.exec).report)
    ensures NetKnown(st, NextNet(net, w, p, x))
  {
  }

  lemma ReplyKeepsHand(d: Dispatcher, p: Proc, x: WorkerStep)
    ensures NextDisp(d, p, x).Holds() == d.Holds()
    ensures d.Holds() ==> NextDisp(d, p, x).task == d.task
  {
  }

  lemma ControlKnownInParts(st: Store, s: State, s': State, w: WorkerId, p': Proc)
    requires ControlKnown(st, s) && s'.procs == s.procs[w := p'] && s'.handlers == s.handlers
    requires ExecsKnown(st, p') && NetKnown(st, s'.net)
    requires s'.disp.Holds() ==> s.disp.Holds() && s'.disp.task == s.disp.task
    ensures ControlKnown(st, s')
  {
  }

  lemma WorkerKeepsControlKnown(s: State, w: WorkerId, x: WorkerStep)
    requires ControlKnown(s.store, s) && ProcsInv(s) && WorkerEnabled(s, w, x)
    ensures ControlKnown(s.store, WorkerApply(s, w, x))
  {
    var p := s.procs[w];
    NextProcExecsKnown(s.store, p, x);
    if x.Call? { NextReportIsSound(s.store, w, p, x.exec); }
    NetKeepsKnown(s.store, s.net, w, p, x);
    ReplyKeepsHand(s.disp, p, x);
    ControlKnownInParts(s.store, s, WorkerApply(s, w, x), w, NextProc(p, x));
  }

  lemma WorkerKeepsSound(s: State, w: WorkerId, x: WorkerStep)
    requires Sound(s) && WorkerEnabled(s, w, x)
    ensures Sound(WorkerApply(s, w, x)) && Extends(s.store, WorkerApply(s, w, x).store)
  {
    WorkerKeepsProcsInv(s, w, x);
    WorkerKeepsControlKnown(s, w, x);
    assert WorkerApply(s, w, x).store == s.store;
  }

  /** One lemma for all steps. */
  lemma StepKeepsSound(s: State, step: Step)
    requires Sound(s) && Enabled(s, step)
    ensures Sound(Apply(s, step)) && Extends(s.store, Apply(s, step).store)
  {
    match step {
      case Submit(id, priority, payload) =>
        AddStaysSound(s.store, id, priority, payload, s.now);
        ControlStaysKnown(s.store, Apply(s, step).store, s);
      case Tick(ms) =>
      case Dispatch(d) => DispatchKeepsSound(s, d);
      case Health(h) => HealthKeepsSound(s, h);
      case Registering(t, r) => RegistrationKeepsSound(s, t, r);
      case Handling(t, p) => HandlerKeepsSound(s, t, p);
      case Working(w, x) => WorkerKeepsSound(s, w, x);
      case BeatArrives(b) =>
    }
  }

  lemma InitIsSound(s: State)
    requires Init(s)
    ensures Sound(s)
  {
  }

  lemma {:induction false} RunKeepsSound(s: State, steps: seq<Step>, s': State)
    requires Sound(s) && Runs(s, steps, s')
    ensures Sound(s') && Extends(s.store, s'.store)
    decreases |steps|
  {
    if steps != [] {
      StepKeepsSound(s, steps[0]);
      RunKeepsSound(Apply(s, steps[0]), steps[1..], s');
    }
  }

  lemma ReachableIsSound(s: State)
    requires Reachable(s)
    ensures Sound(s)
  {
    var s0 :| Init(s0) && Reaches(s0, s);
    InitIsSound(s0);
    var steps :| Runs(s0, steps, s);
    RunKeepsSound(s0, steps, s);
  }

  /** End to end: if task `id` is in the store at some point of a run with payload p, then whenever it
      is completed later its result is exactly the answer to p, whenever it is failed p is a payload
      that has no answer, and at no time does it hold both a result and an error. */
  lemma ResultsAreRight(s: State, s': State, id: TaskId)
    requires Reachable(s) && Reaches(s, s') && id in s.store.tasks
    ensures id in s'.store.tasks
    ensures var p, r := s.store.tasks[id].payload, s'.store.tasks[id];
            && r.payload == p
            && (r.state.Completed? ==> Answer(p) == Success(r.result) && r.error == "")
            && (r.state.Failed? ==> Answer(p).Failure? && r.error == "invalid payload: " + Answer(p).error && r.result == "")
            && (r.result == "" || r.error == "")
  {
    ReachableIsSound(s);
    var steps :| Runs(s, steps, s');
    RunKeepsSound(s, steps, s');
    assert SoundRecord(s'.store.tasks[id]);
  }

  lemma TraceStaysSound(states: seq<State>, steps: seq<Step>, i: nat)
    requires Trace(states, steps) && i < |states| && Reachable(states[0])
    ensures Sound(states[i])
  {
    TraceIsReachable(states, steps, i);
    ReachableIsSound(states[i]);
  }
}
