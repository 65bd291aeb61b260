/** One worker process: the accept handler, the executions it starts and their report retries. */
module WorkerProcess {
  import opened Records
  import opened PrimeTask

  const MAX_ATTEMPTS: nat := 5

  /** An execution computes, then calls the coordinator until a call succeeds or five have failed. */
  datatype Phase = Computing | Reporting(report: TaskResult, failed: nat, inCall: bool)

  datatype Exec = Exec(taskId: TaskId, payload: string, phase: Phase)

  /** How an execution ended: after how many failed calls, and whether the last call succeeded. */
  datatype Ending = Ending(failed: nat, delivered: bool)

  /** The process. `accepted`, `live`, `ended` and `nextExec` are bookkeeping: the source keeps only
      the two counters and has one thread for each live execution. */
  datatype Proc = Proc(
    address: string,
    capacity: int,
    active: int,
    completed: int,
    accepted: int,
    draining: bool,
    live: map<nat, Exec>,
    ended: map<nat, Ending>,
    nextExec: nat)

  /** The report for a payload: completed with the answer, or failed with the exception's message. */
  ghost function ReportFor(id: TaskId, payload: string): TaskResult {
    match Answer(payload)
    case Success(a) => TaskResult(id, Completed, a, "")
    case Failure(m) => TaskResult(id, Failed, "", "invalid payload: " + m)
  }

  function Slots(capacity: int): nat { if capacity > 0 then capacity else 0 }

  predicate Accepts(p: Proc) { !p.draining && p.active < p.capacity }

  function Accept(p: Proc, id: TaskId, payload: string): Proc {
    p.(active := p.active + 1, accepted := p.accepted + 1,
       live := p.live[p.nextExec := Exec(id, payload, Computing)], nextExec := p.nextExec + 1)
  }

  predicate CanCompute(p: Proc, k: nat) { k in p.live && p.live[k].phase.Computing? }

  ghost function Compute(p: Proc, k: nat): Proc
    requires CanCompute(p, k)
  {
    var e := p.live[k];
    p.(live := p.live[k := e.(phase := Reporting(ReportFor(e.taskId, e.payload), 0, false))])
  }

  predicate CanCall(p: Proc, k: nat) {
    k in p.live && p.live[k].phase.Reporting? && !p.live[k].phase.inCall
  }

  function StartCall(p: Proc, k: nat): Proc
    requires CanCall(p, k)
  {
    p.(live := p.live[k := p.live[k].(phase := p.live[k].phase.(inCall := true))])
  }

  predicate InCall(p: Proc, k: nat) {
    k in p.live && p.live[k].phase.Reporting? && p.live[k].phase.inCall
  }

  function End(p: Proc, k: nat, ending: Ending): Proc {
    p.(active := p.active - 1, completed := p.completed + 1, live := p.live - {k}, ended := p.ended[k := ending])
  }

  function CallSucceeds(p: Proc, k: nat): Proc
    requires InCall(p, k)
  {
    End(p, k, Ending(p.live[k].phase.failed, true))
  }

  function CallFails(p: Proc, k: nat): Proc
    requires InCall(p, k)
  {
    var e := p.live[k];
    var failed := e.phase.failed + 1;
    if failed == MAX_ATTEMPTS then End(p, k, Ending(failed, false))
    else p.(live := p.live[k := e.(phase := e.phase.(failed := failed, inCall := false))])
  }

  function Restart(p: Proc, address: string): Proc {
    p.(address := address, active := 0, completed := 0, accepted := 0, draining := false, live := map[], ended := map[])
  }

  ghost predicate ExecInv(e: Exec) {
    e.phase.Reporting? ==> e.phase.report == ReportFor(e.taskId, e.payload) && e.phase.failed < MAX_ATTEMPTS
  }

  predicate EndedProperly(x: Ending) {
    if x.delivered then x.failed < MAX_ATTEMPTS else x.failed == MAX_ATTEMPTS
  }

  /** Conservation: what was accepted is active or completed, active counts the live executions and
      never exceeds the capacity, and every ended execution was delivered or gave up after exactly
      five failures. */
  ghost predicate ProcInv(p: Proc) {
    Conserved(p) && ExecsProper(p)
  }

  predicate Conserved(p: Proc) {
    && p.active == |p.live|
    && p.completed == |p.ended|
    && p.accepted == p.active + p.completed
    && p.active <= Slots(p.capacity)
  }

  ghost predicate ExecsProper(p: Proc) {
    && (forall k :: k in p.live ==> k < p.nextExec && k !in p.ended && ExecInv(p.live[k]))
    && (forall k :: k in p.ended ==> k < p.nextExec && EndedProperly(p.ended[k]))
  }

  lemma AcceptKeepsInv(p: Proc, id: TaskId, payload: string)
    requires ProcInv(p) && Accepts(p)
    ensures ProcInv(Accept(p, id, payload))
  {
    assert p.nextExec !in p.live && p.nextExec !in p.ended;
  }

  lemma ReplaceConserves(p: Proc, k: nat, e: Exec)
    requires Conserved(p) && k in p.live
    ensures Conserved(p.(live := p.live[k := e]))
  {
    assert p.live[k := e].Keys == p.live.Keys;
    assert |p.live[k := e].Keys| == |p.live.Keys|;
  }

  lemma ReplaceKeepsInv(p: Proc, k: nat, e: Exec)
    requires ProcInv(p) && k in p.live && ExecInv(e)
    ensures ProcInv(p.(live := p.live[k := e]))
  {
    ReplaceConserves(p, k, e);
  }

  lemma ExecStepKeepsInv(p: Proc, k: nat)
    requires ProcInv(p)
    ensures CanCompute(p, k) ==> ProcInv(Compute(p, k))
    ensures CanCall(p, k) ==> ProcInv(StartCall(p, k))
  {
    if CanCompute(p, k) { ReplaceKeepsInv(p, k, Compute(p, k).live[k]); }
    if CanCall(p, k) { ReplaceKeepsInv(p, k, StartCall(p, k).live[k]); }
  }

  lemma OneExecutionLess(live: map<nat, Exec>, k: nat)
    requires k in live
    ensures |live - {k}| == |live| - 1
  {
    assert (live - {k}).Keys == live.Keys - {k};
    assert |live.Keys - {k}| == |live.Keys| - 1;
  }

  lemma OneEndingMore(ended: map<nat, Ending>, k: nat, x: Ending)
    requires k !in ended
    ensures |ended[k := x]| == |ended| + 1
  {
    assert ended[k := x].Keys == ended.Keys + {k};
    assert |ended.Keys + {k}| == |ended.Keys| + 1;
  }

  lemma EndConserves(p: Proc, k: nat, ending: Ending)
    requires Conserved(p) && k in p.live && k !in p.ended
    ensures Conserved(End(p, k, ending))
  {
    OneExecutionLess(p.live, k);
    OneEndingMore(p.ended, k, ending);
  }

  lemma EndKeepsInv(p: Proc, k: nat, ending: Ending)
    requires ProcInv(p) && k in p.live && EndedProperly(ending)
    ensures ProcInv(End(p, k, ending))
  {
    EndConserves(p, k, ending);
  }

  lemma SuccessKeepsInv(p: Proc, k: nat)
    requires ProcInv(p) && InCall(p, k)
    ensures ProcInv(CallSucceeds(p, k))
  {
    assert ExecInv(p.live[k]);
    EndKeepsInv(p, k, Ending(p.live[k].phase.failed, true));
  }

  lemma FailureKeepsInv(p: Proc, k: nat)
    requires ProcInv(p) && InCall(p, k)
    ensures ProcInv(CallFails(p, k))
  {
    assert ExecInv(p.live[k]);
    var failed := p.live[k].phase.failed + 1;
    if failed == MAX_ATTEMPTS {
      EndKeepsInv(p, k, Ending(failed, false));
    } else {
      ReplaceKeepsInv(p, k, CallFails(p, k).live[k]);
    }
  }

  /** The drain loop exits when no task is active: then every accepted task has ended, each after a
      successful report or exactly five failed ones. */
  lemma DrainedMeansAllEnded(p: Proc)
    requires ProcInv(p) && p.active == 0
    ensures p.live == map[] && p.accepted == |p.ended|
    ensures forall k :: k in p.ended ==>
              if p.ended[k].delivered then p.ended[k].failed < 5 else p.ended[k].failed == 5
  {
  }

  /** The outcome of the retry loop when call number i succeeds exactly if `ok(i)`. */
  ghost predicate RetryOutcome(ok: nat -> bool, x: Ending) {
    && EndedProperly(x)
    && (forall i :: 1 <= i <= x.failed ==> !ok(i))
    && (x.delivered ==> ok(x.failed + 1))
  }

  class Worker {
    const capacity: int
    var activeTasks: int
    var completedTasks: int
    var draining: bool
    ghost var proc: Proc

    ghost predicate Valid()
      reads this
    {
      && ProcInv(proc)
      && proc.capacity == capacity
      && proc.active == activeTasks
      && proc.completed == completedTasks
      && proc.draining == draining
    }

    constructor (address: string, capacity: int)
      ensures Valid() && this.capacity == capacity
      ensures proc == Proc(address, capacity, 0, 0, 0, false, map[], map[], 0)
    {
      this.capacity := capacity;
      activeTasks, completedTasks, draining := 0, 0, false;
      proc := Proc(address, capacity, 0, 0, 0, false, map[], map[], 0);
    }

    /** The accept handler. It starts the execution thread as live number `proc.nextExec`. */
    method AssignTask(id: TaskId, payload: string) returns (accepted: bool)
      requires Valid()
      modifies this
      ensures Valid()
      ensures accepted <==> !old(draining) && old(activeTasks) < capacity
      ensures activeTasks == old(activeTasks) + (if accepted then 1 else 0) && draining == old(draining)
      ensures proc == if accepted then Accept(old(proc), id, payload) else old(proc)
    {
      if draining { return false; }
      if activeTasks >= capacity { return false; }
      AcceptKeepsInv(proc, id, payload);
      activeTasks := activeTasks + 1;
      proc := Accept(proc, id, payload);
      accepted := true;
    }

    /** The signal handler: from now on nothing is accepted. */
    method StartDraining()
      requires Valid()
      modifies this
      ensures Valid() && draining && proc == old(proc).(draining := true)
      ensures activeTasks == old(activeTasks) && completedTasks == old(completedTasks)
    {
      draining := true;
      proc := proc.(draining := true);
    }

    /** The body of the try block and its handler: the report, computed once. */
    method MakeReport(id: TaskId, payload: string) returns (report: TaskResult)
      ensures report == ReportFor(id, payload)
    {
      var answer := RunPrimeTask(payload);
      match answer {
        case Success(a) => report := TaskResult(id, Completed, a, "");
        case Failure(m) => report := TaskResult(id, Failed, "", "invalid payload: " + m);
      }
    }

    /** The retry loop: call number i succeeds exactly if `ok(i)`. */
    method SendReport(ok: nat -> bool) returns (x: Ending)
      ensures RetryOutcome(ok, x)
      ensures x.delivered <==> exists i: nat :: 1 <= i <= 5 && ok(i)
    {
      var attempt := 1;
      while attempt <= MAX_ATTEMPTS
        invariant 1 <= attempt <= MAX_ATTEMPTS + 1
        invariant forall i :: 1 <= i < attempt ==> !ok(i)
      {
        if ok(attempt) {
          return Ending(attempt - 1, true);
        }
        attempt := attempt + 1;
      }
      x := Ending(MAX_ATTEMPTS, false);
    }

    /** The execution thread of live number `k`, run without interference. */
    method ExecuteTask(ghost k: nat, id: TaskId, payload: string, ok: nat -> bool)
      returns (report: TaskResult, x: Ending)
      requires Valid() && CanCompute(proc, k) && proc.live[k].taskId == id && proc.live[k].payload == payload
      modifies this
      ensures Valid()
      ensures report == ReportFor(id, payload) && RetryOutcome(ok, x)
      ensures proc == End(old(proc), k, x)
      ensures activeTasks == old(activeTasks) - 1 && completedTasks == old(completedTasks) + 1
    {
      report := MakeReport(id, payload);
      x := SendReport(ok);
      GiveSlotBack(k, x);
    }

    method GiveSlotBack(ghost k: nat, ghost x: Ending)
      requires Valid() && k in proc.live && EndedProperly(x)
      modifies this
      ensures Valid() && proc == End(old(proc), k, x)
    {
      EndKeepsInv(proc, k, x);
      activeTasks := activeTasks - 1;
      completedTasks := completedTasks + 1;
      proc := End(proc, k, x);
    }
  }
}
