/** Where the coordinator's record of a worker comes from, in any run; and exactly when the health check
    finds a worker dead. */
module WorkerHistory {
  import opened Records
  import opened WorkerRegistry
  import opened Cluster
  import opened Load

  /** What a step says about one worker: its registration, a heartbeat of it while it is known, or that it
      is dead. */
  datatype WorkerEvent =
    | Nothing
    | Registered(address: string, capacity: int, at: int)
    | Heard(at: int)
    | FoundDead

  ghost function EventOf(s: State, step: Step, w: WorkerId): WorkerEvent
    requires Enabled(s, step)
  {
    match step
    case Registering(t, r) =>
      if r.Register? && s.regs[t].worker == w then
        Registered(s.regs[t].address, if w in s.procs then s.procs[w].capacity else 0, s.now)
      else Nothing
    case BeatArrives(b) => if b.worker == w && w in s.pool then Heard(s.now) else Nothing
    case Dispatch(d) => if d.MarkAsDead? && s.disp.worker.workerId == w && w in s.pool then FoundDead else Nothing
    case Health(h) => if h.Mark? && h.worker == w && w in s.pool then FoundDead else Nothing
    case _ => Nothing
  }

  datatype Field = Identity | LastHeard | Liveness

  predicate Writes(e: WorkerEvent, f: Field) {
    e.Registered? ||
    match f
    case Identity => false
    case LastHeard => e.Heard?
    case Liveness => e.Heard? || e.FoundDead?
  }

  predicate WrittenBy(info: WorkerInfo, f: Field, e: WorkerEvent, w: WorkerId)
    requires Writes(e, f)
  {
    match f
    case Identity => info.workerId == w && info.address == e.address && info.capacity == e.capacity
    case LastHeard => info.lastHeartbeat == e.at
    case Liveness => info.alive == !e.FoundDead?
  }

  predicate SameField(a: WorkerInfo, b: WorkerInfo, f: Field) {
    match f
    case Identity => a.workerId == b.workerId && a.address == b.address && a.capacity == b.capacity
    case LastHeard => a.lastHeartbeat == b.lastHeartbeat
    case Liveness => a.alive == b.alive
  }

  predicate Agrees(pool: Pool, pool': Pool, e: WorkerEvent, w: WorkerId, f: Field) {
    if Writes(e, f) then w in pool' && WrittenBy(pool'[w], f, e, w)
    else (w in pool' <==> w in pool) && (w in pool' ==> SameField(pool[w], pool'[w], f))
  }

  lemma PoolCallsAgree(pool: Pool, w: WorkerId, address: string, capacity: int, n: int, now: int, f: Field)
    ensures Agrees(pool, RegisterWorker(pool, w, address, capacity, now), Registered(address, capacity, now), w, f)
    ensures w in pool ==> Agrees(pool, RecordHeartbeat(pool, w, n, now), Heard(now), w, f)
    ensures w in pool ==> Agrees(pool, MarkDead(pool, w), FoundDead, w, f)
    ensures Agrees(pool, IncrementLoad(pool, w), Nothing, w, f) && Agrees(pool, DecrementLoad(pool, w), Nothing, w, f)
  {
  }

  lemma OtherWorkersAgree(pool: Pool, v: WorkerId, w: WorkerId, address: string, capacity: int, n: int, now: int, f: Field)
    requires v != w || v !in pool
    ensures v != w ==> Agrees(pool, RegisterWorker(pool, v, address, capacity, now), Nothing, w, f)
    ensures Agrees(pool, RecordHeartbeat(pool, v, n, now), Nothing, w, f) && Agrees(pool, MarkDead(pool, v), Nothing, w, f)
    ensures Agrees(pool, IncrementLoad(pool, v), Nothing, w, f) && Agrees(pool, DecrementLoad(pool, v), Nothing, w, f)
  {
  }

  lemma DispatchWrites(s: State, d: DispatchStep, w: WorkerId, f: Field)
    requires DispatchEnabled(s, d)
    ensures Agrees(s.pool, DispatchApply(s, d).pool, EventOf(s, Dispatch(d), w), w, f)
  {
    PoolCallsAgree(s.pool, w, "", 0, 0, 0, f);
    if d.Increment? || d.MarkAsDead? {
      var v := s.disp.worker.workerId;
      if v != w || v !in s.pool { OtherWorkersAgree(s.pool, v, w, "", 0, 0, 0, f); }
    } else {
      assert DispatchApply(s, d).pool == s.pool;
    }
  }

  lemma HealthWrites(s: State, h: HealthStep, w: WorkerId, f: Field)
    requires HealthEnabled(s, h)
    ensures Agrees(s.pool, HealthApply(s, h).pool, EventOf(s, Health(h), w), w, f)
  {
    PoolCallsAgree(s.pool, w, "", 0, 0, 0, f);
    if h.Mark? {
      if h.worker != w || w !in s.pool { OtherWorkersAgree(s.pool, h.worker, w, "", 0, 0, 0, f); }
    } else {
      assert HealthApply(s, h).pool == s.pool;
    }
  }

  lemma RegistrationWrites(s: State, t: nat, r: RegistrationStep, w: WorkerId, f: Field)
    requires RegistrationEnabled(s, t, r)
    ensures Agrees(s.pool, RegistrationApply(s, t, r).pool, EventOf(s, Registering(t, r), w), w, f)
  {
    if r.Register? {
      var v := s.regs[t].worker;
      var capacity := if v in s.procs then s.procs[v].capacity else 0;
      PoolCallsAgree(s.pool, w, s.regs[t].address, capacity, 0, s.now, f);
      if v != w { OtherWorkersAgree(s.pool, v, w, s.regs[t].address, capacity, 0, s.now, f); }
    } else {
      assert RegistrationApply(s, t, r).pool == s.pool;
    }
  }

  lemma HandlerWrites(s: State, t: nat, p: HandlerStep, w: WorkerId, f: Field)
    requires HandlerEnabled(s, t, p)
    ensures Agrees(s.pool, HandlerApply(s, t, p).pool, EventOf(s, Handling(t, p), w), w, f)
  {
    HandlerKeepsPool(s, t, p);
    PoolCallsAgree(s.pool, w, "", 0, 0, 0, f);
    if p.Release? && s.handlers[t].msg.key.worker != w { OtherWorkersAgree(s.pool, s.handlers[t].msg.key.worker, w, "", 0, 0, 0, f); }
  }

  lemma BeatWrites(s: State, b: Beat, w: WorkerId, f: Field)
    requires b in s.net.beats
    ensures Agrees(s.pool, RecordHeartbeat(s.pool, b.worker, b.activeTasks, s.now), EventOf(s, BeatArrives(b), w), w, f)
  {
    PoolCallsAgree(s.pool, w, "", 0, b.activeTasks, s.now, f);
    if b.worker != w || w !in s.pool { OtherWorkersAgree(s.pool, b.worker, w, "", 0, b.activeTasks, s.now, f); }
  }

  /** In one step: a field that its event writes is what the event says, every other is as before. */
  lemma StepWrites(s: State, step: Step, w: WorkerId, f: Field)
    requires Enabled(s, step)
    ensures Agrees(s.pool, Apply(s, step).pool, EventOf(s, step, w), w, f)
  {
    match step {
      case Dispatch(d) => DispatchWrites(s, d, w, f);
      case Health(h) => HealthWrites(s, h, w, f);
      case Registering(t, r) => RegistrationWrites(s, t, r, w, f);
      case Handling(t, p) => HandlerWrites(s, t, p, w, f);
      case BeatArrives(b) => BeatWrites(s, b, w, f);
      case Working(v, x) => WorkerFrame(s, v, x);
      case _ =>
    }
  }

  // ---- over runs

  ghost function EventAt(states: seq<State>, steps: seq<Step>, k: int, w: WorkerId): WorkerEvent
    requires Trace(states, steps) && 0 <= k < |steps|
  {
    assert MovesAt(states, steps, k);
    EventOf(states[k], steps[k], w)
  }

  /** Step k is the last one before point i that writes the field. */
  ghost predicate LastWrite(states: seq<State>, steps: seq<Step>, k: int, i: int, w: WorkerId, f: Field)
    requires Trace(states, steps) && 0 <= k < i <= |steps|
  {
    && Writes(EventAt(states, steps, k, w), f)
    && forall m :: k < m < i ==> !Writes(EventAt(states, steps, m, w), f)
  }

  lemma StepWritesAt(states: seq<State>, steps: seq<Step>, i: nat, w: WorkerId, f: Field)
    requires Trace(states, steps) && i < |steps|
    ensures Agrees(states[i].pool, states[i + 1].pool, EventAt(states, steps, i, w), w, f)
  {
    assert MovesAt(states, steps, i);
    StepWrites(states[i], steps[i], w, f);
  }

  lemma SameFieldKeeps(a: WorkerInfo, b: WorkerInfo, f: Field, e: WorkerEvent, w: WorkerId)
    requires Writes(e, f) && WrittenBy(a, f, e, w) && SameField(a, b, f)
    ensures WrittenBy(b, f, e, w)
  {
  }

  /** The address and capacity the coordinator has for a worker are those of its last registration, the
      heartbeat time that of its last heartbeat or registration, and it is alive exactly if it has not been
      found dead since. */
  lemma {:induction false} FieldsAreAsLastWritten(states: seq<State>, steps: seq<Step>, i: nat, w: WorkerId, f: Field) returns (k: nat)
    requires Trace(states, steps) && Init(states[0]) && i < |states| && w in states[i].pool
    ensures k < i && LastWrite(states, steps, k, i, w, f)
    ensures WrittenBy(states[i].pool[w], f, EventAt(states, steps, k, w), w)
    decreases i
  {
    assert i > 0;
    StepWritesAt(states, steps, i - 1, w, f);
    if Writes(EventAt(states, steps, i - 1, w), f) {
      k := i - 1;
    } else {
      k := FieldsAreAsLastWritten(states, steps, i - 1, w, f);
      SameFieldKeeps(states[i - 1].pool[w], states[i].pool[w], f, EventAt(states, steps, k, w), w);
    }
  }

  /** Step k records that the worker is there: a heartbeat of it while known, or its registration. */
  ghost predicate HeardAt(states: seq<State>, steps: seq<Step>, k: int, w: WorkerId)
    requires Trace(states, steps) && 0 <= k < |steps|
  {
    EventAt(states, steps, k, w).Heard? || EventAt(states, steps, k, w).Registered?
  }

  ghost predicate DeadSince(states: seq<State>, steps: seq<Step>, k: int, i: int, w: WorkerId)
    requires Trace(states, steps) && 0 <= k < i <= |steps|
  {
    EventAt(states, steps, k, w).FoundDead? && forall m :: k < m < i ==> !HeardAt(states, steps, m, w)
  }

  lemma {:induction false} ClockGoesOn(states: seq<State>, steps: seq<Step>, j: nat, k: nat)
    requires Trace(states, steps) && j <= k < |states|
    ensures states[j].now <= states[k].now
    decreases k - j
  {
    if j < k {
      assert MovesAt(states, steps, j);
      OnlyHealthMovesHealth(states[j], steps[j]);
      ClockGoesOn(states, steps, j + 1, k);
    }
  }

  /** Known and alive exactly if heard of, and not found dead since. */
  lemma AliveExactlyWhen(states: seq<State>, steps: seq<Step>, i: nat, w: WorkerId)
    requires Trace(states, steps) && Init(states[0]) && i < |states| && w in states[i].pool
    ensures states[i].pool[w].alive <==> forall k :: 0 <= k < i ==> !DeadSince(states, steps, k, i, w)
  {
    var k := FieldsAreAsLastWritten(states, steps, i, w, Liveness);
    if EventAt(states, steps, k, w).FoundDead? {
      assert DeadSince(states, steps, k, i, w);
    } else {
      assert HeardAt(states, steps, k, w);
      forall j | 0 <= j < i
        ensures !DeadSince(states, steps, j, i, w)
      {
        if j > k { assert !Writes(EventAt(states, steps, j, w), Liveness); }
      }
    }
  }

  /** The last time a worker was heard of before point i is not after any other. */
  lemma LastHeardIsLatest(states: seq<State>, steps: seq<Step>, k: nat, j: nat, i: nat, w: WorkerId)
    requires Trace(states, steps) && k < i <= |steps| && j < i
    requires LastWrite(states, steps, k, i, w, LastHeard) && HeardAt(states, steps, j, w)
    ensures states[j].now <= states[k].now
  {
    if j <= k { ClockGoesOn(states, steps, j, k); }
  }

  lemma HeardWhen(states: seq<State>, steps: seq<Step>, k: nat, w: WorkerId)
    requires Trace(states, steps) && k < |steps| && HeardAt(states, steps, k, w)
    ensures EventAt(states, steps, k, w).at == states[k].now
  {
    assert MovesAt(states, steps, k);
  }

  /** The health check finds a known worker dead, when it looks at step i, exactly if the worker was alive
      and neither a heartbeat nor a registration of it has been recorded in the last 6000 ms. */
  lemma FoundDeadExactlyWhen(states: seq<State>, steps: seq<Step>, i: nat, w: WorkerId)
    requires Trace(states, steps) && Init(states[0]) && i < |steps| && steps[i] == Health(FindDead) && w in states[i].pool
    ensures states[i + 1].health.Marking?
    ensures w in states[i + 1].health.dead <==>
              && (forall k :: 0 <= k < i ==> !DeadSince(states, steps, k, i, w))
              && (forall k :: 0 <= k < i && HeardAt(states, steps, k, w) ==> states[i].now - states[k].now > 6000)
  {
    assert MovesAt(states, steps, i);
    AliveExactlyWhen(states, steps, i, w);
    var k := FieldsAreAsLastWritten(states, steps, i, w, LastHeard);
    assert HeardAt(states, steps, k, w);
    HeardWhen(states, steps, k, w);
    assert states[i].pool[w].lastHeartbeat == states[k].now;
    forall j | 0 <= j < i && HeardAt(states, steps, j, w)
      ensures states[j].now <= states[k].now
    {
      LastHeardIsLatest(states, steps, k, j, i, w);
    }
    DeadMeansSilent(states[i], w);
  }

  lemma DeadMeansSilent(s: State, w: WorkerId)
    requires HealthEnabled(s, FindDead) && w in s.pool
    ensures w in HealthApply(s, FindDead).health.dead <==> s.pool[w].alive && s.now - s.pool[w].lastHeartbeat > 6000
  {
  }
}
