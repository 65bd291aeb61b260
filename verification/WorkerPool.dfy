/** The coordinator's estimate of its workers: values first, then the shared class. */
module WorkerRegistry {
  import opened Records

  type Pool = map<WorkerId, WorkerInfo>

  function RegisterWorker(pool: Pool, id: WorkerId, address: string, capacity: int, now: int): Pool {
    pool[id := WorkerInfo(id, address, capacity, 0, now, true)]
  }

  function RecordHeartbeat(pool: Pool, id: WorkerId, activeTasks: int, now: int): Pool {
    if id !in pool then pool else
      pool[id := pool[id].(lastHeartbeat := now, activeTasks := activeTasks, alive := true)]
  }

  function IncrementLoad(pool: Pool, id: WorkerId): Pool {
    if id !in pool then pool else pool[id := pool[id].(activeTasks := pool[id].activeTasks + 1)]
  }

  function DecrementLoad(pool: Pool, id: WorkerId): Pool {
    if id !in pool || pool[id].activeTasks <= 0 then pool else
      pool[id := pool[id].(activeTasks := pool[id].activeTasks - 1)]
  }

  function MarkDead(pool: Pool, id: WorkerId): Pool {
    if id !in pool then pool else pool[id := pool[id].(alive := false)]
  }

  function DeadWorkers(pool: Pool, timeout: int, now: int): set<WorkerId> {
    set id | id in pool && pool[id].alive && pool[id].lastHeartbeat < now - timeout
  }

  predicate IsEligible(pool: Pool, id: WorkerId) {
    id in pool && pool[id].Eligible()
  }

  /** An alive worker with a free slot, and no other such worker has a lighter load. */
  ghost predicate LeastLoaded(pool: Pool, id: WorkerId) {
    IsEligible(pool, id) && forall v :: IsEligible(pool, v) ==> pool[id].activeTasks <= pool[v].activeTasks
  }

  ghost function LeastLoadedWorkers(pool: Pool): set<WorkerId> {
    set id | id in pool && LeastLoaded(pool, id)
  }

  const INT32_MAX: int := 0x7FFF_FFFF

  /** A worker is found dead exactly if it is alive and its last heartbeat, or its registration, is longer
      ago than the timeout; so no worker is within the timeout after either. */
  lemma HeartbeatsKeepAlive(pool: Pool, id: WorkerId, address: string, capacity: int, n: int, now: int, timeout: int, later: int)
    ensures id in DeadWorkers(RegisterWorker(pool, id, address, capacity, now), timeout, later) <==> later - now > timeout
    ensures id in pool ==>
              (id in DeadWorkers(RecordHeartbeat(pool, id, n, now), timeout, later) <==> later - now > timeout)
    ensures id in pool ==> RecordHeartbeat(pool, id, n, now)[id].activeTasks == n
    ensures id !in DeadWorkers(MarkDead(pool, id), timeout, later)
  {
  }

  /** A heartbeat settles a worker's count, its life and its time, whatever the calls before it did. */
  lemma HeartbeatSettles(pool: Pool, id: WorkerId, n: int, now: int)
    ensures RecordHeartbeat(IncrementLoad(pool, id), id, n, now) == RecordHeartbeat(pool, id, n, now)
    ensures RecordHeartbeat(DecrementLoad(pool, id), id, n, now) == RecordHeartbeat(pool, id, n, now)
    ensures RecordHeartbeat(MarkDead(pool, id), id, n, now) == RecordHeartbeat(pool, id, n, now)
    ensures id in pool ==> RecordHeartbeat(pool, id, n, now)[id].alive
  {
  }

  /** A report undoes the increment of its dispatch; the reverse order loses the decrement at zero. */
  lemma DecrementUndoesIncrement(pool: Pool, id: WorkerId)
    requires id in pool && pool[id].activeTasks >= 0
    ensures DecrementLoad(IncrementLoad(pool, id), id) == pool
    ensures IncrementLoad(DecrementLoad(pool, id), id) == pool <==> pool[id].activeTasks > 0
  {
    assert pool[id := pool[id]] == pool;
    var up := IncrementLoad(pool, id);
    assert DecrementLoad(up, id) == pool[id := up[id].(activeTasks := pool[id].activeTasks)];
    if pool[id].activeTasks == 0 { assert IncrementLoad(pool, id)[id].activeTasks == 1; }
  }

  /** Capacities arrive as 32-bit integers. */
  ghost predicate Capacities32(pool: Pool) {
    forall id :: id in pool ==> pool[id].capacity <= INT32_MAX
  }

  /** The free slots of one worker that dispatch can still use. */
  function Spare(w: WorkerInfo): (n: nat)
    ensures n > 0 <==> w.Eligible()
  {
    if w.Eligible() then w.capacity - w.activeTasks else 0
  }

  /** The free slots of a pool: the ranking of a dispatch pass. */
  ghost function TotalSpare(pool: Pool): nat
    decreases |pool|
  {
    if pool == map[] then 0 else
      var id :| id in pool;
      Spare(pool[id]) + TotalSpare(pool - {id})
  }

  lemma {:induction false} TotalSpareWithout(pool: Pool, id: WorkerId)
    requires id in pool
    ensures TotalSpare(pool) == Spare(pool[id]) + TotalSpare(pool - {id})
    decreases |pool|
  {
    var j :| j in pool && TotalSpare(pool) == Spare(pool[j]) + TotalSpare(pool - {j});
    if j != id {
      TotalSpareWithout(pool - {j}, id);
      TotalSpareWithout(pool - {id}, j);
      assert pool - {j} - {id} == pool - {id} - {j};
    }
  }

  lemma SpareOfOneChanges(pool: Pool, id: WorkerId, w: WorkerInfo)
    requires id in pool
    ensures TotalSpare(pool[id := w]) == TotalSpare(pool) - Spare(pool[id]) + Spare(w)
  {
    TotalSpareWithout(pool, id);
    TotalSpareWithout(pool[id := w], id);
    assert pool[id := w] - {id} == pool - {id};
  }

  /** A successful dispatch uses exactly one slot; declaring a worker dead gives up all of its own. */
  lemma DispatchUsesSpare(pool: Pool, id: WorkerId)
    requires IsEligible(pool, id)
    ensures TotalSpare(IncrementLoad(pool, id)) == TotalSpare(pool) - 1
    ensures TotalSpare(MarkDead(pool, id)) == TotalSpare(pool) - Spare(pool[id]) < TotalSpare(pool)
  {
    SpareOfOneChanges(pool, id, pool[id].(activeTasks := pool[id].activeTasks + 1));
    SpareOfOneChanges(pool, id, pool[id].(alive := false));
  }

  /** Among the workers scanned so far, `candidates` are the least-loaded eligible ones and `minLoad`
      is their load. */
  ghost predicate ScanInvariant(pool: Pool, scanned: set<WorkerId>, minLoad: int, candidates: seq<WorkerId>) {
    && (forall id :: id in candidates ==> id in scanned && IsEligible(pool, id) && pool[id].activeTasks == minLoad)
    && (forall id :: id in scanned && IsEligible(pool, id) ==>
          minLoad <= pool[id].activeTasks && (pool[id].activeTasks == minLoad ==> id in candidates))
    && (candidates == [] ==> minLoad == INT32_MAX)
  }

  class WorkerPool {
    var workers: Pool

    constructor ()
      ensures workers == map[]
    {
      workers := map[];
    }

    /** `register_worker` also replaces an earlier registration and its load. */
    method Register(id: WorkerId, address: string, capacity: int, now: int) returns (ok: bool)
      modifies this
      ensures ok && workers == RegisterWorker(old(workers), id, address, capacity, now)
    {
      workers := workers[id := WorkerInfo(id, address, capacity, 0, now, true)];
      ok := true;
    }

    method Heartbeat(id: WorkerId, activeTasks: int, now: int) returns (ok: bool)
      modifies this
      ensures workers == RecordHeartbeat(old(workers), id, activeTasks, now) && ok == (id in old(workers))
    {
      ok := id in workers;
      if ok {
        workers := workers[id := workers[id].(lastHeartbeat := now, activeTasks := activeTasks, alive := true)];
      }
    }

    /** The candidate list of `select_worker` after its single pass, in whatever order the map is
        walked: exactly the least-loaded alive workers with a free slot. Starting the minimum at
        INT32_MAX hides none of them. */
    method Candidates() returns (candidates: seq<WorkerId>)
      requires Capacities32(workers)
      ensures ListsExactly(candidates, LeastLoadedWorkers(workers))
    {
      var minLoad := INT32_MAX;
      candidates := [];
      var rest := workers.Keys;
      while rest != {}
        invariant rest <= workers.Keys
        invariant ScanInvariant(workers, workers.Keys - rest, minLoad, candidates)
        invariant forall i, j :: 0 <= i < j < |candidates| ==> candidates[i] != candidates[j]
        decreases rest
      {
        var id :| id in rest;
        rest := rest - {id};
        var w := workers[id];
        if w.alive && w.activeTasks < w.capacity {
          if w.activeTasks < minLoad {
            minLoad := w.activeTasks;
            candidates := [id];
          } else if w.activeTasks == minLoad {
            candidates := candidates + [id];
          }
        }
      }
      ScanFindsLeastLoaded(workers, minLoad, candidates);
    }

    /** `select_worker`: `pick` stands for the random tie-break. */
    method Select(pick: nat) returns (w: Option<WorkerInfo>)
      requires Capacities32(workers)
      ensures w.None? <==> forall v :: v in workers && workers[v].alive ==> workers[v].activeTasks >= workers[v].capacity
      ensures w.Some? ==> exists id :: LeastLoaded(workers, id) && w.value == workers[id]
      ensures w.Some? ==> w.value.alive && w.value.activeTasks < w.value.capacity
      ensures w.Some? ==> forall v :: v in workers && workers[v].alive && workers[v].activeTasks < workers[v].capacity ==>
                            w.value.activeTasks <= workers[v].activeTasks
    {
      var candidates := Candidates();
      if candidates == [] {
        assert LeastLoadedWorkers(workers) == {};
        NoCandidateMeansNoneEligible(workers);
        assert forall v :: v in workers ==> !IsEligible(workers, v);
        return None;
      }
      var id := candidates[pick % |candidates|];
      assert id in candidates;
      assert id in LeastLoadedWorkers(workers);
      assert IsEligible(workers, id);
      return Some(workers[id]);
    }

    method Increment(id: WorkerId)
      modifies this
      ensures workers == IncrementLoad(old(workers), id)
    {
      if id in workers {
        workers := workers[id := workers[id].(activeTasks := workers[id].activeTasks + 1)];
      }
    }

    method Decrement(id: WorkerId)
      modifies this
      ensures workers == DecrementLoad(old(workers), id)
    {
      if id in workers && workers[id].activeTasks > 0 {
        workers := workers[id := workers[id].(activeTasks := workers[id].activeTasks - 1)];
      }
    }

    method MarkAsDead(id: WorkerId)
      modifies this
      ensures workers == MarkDead(old(workers), id)
    {
      if id in workers {
        workers := workers[id := workers[id].(alive := false)];
      }
    }

    /** `find_dead_workers`. */
    method FindDead(timeout: int, now: int) returns (dead: seq<WorkerId>)
      ensures ListsExactly(dead, DeadWorkers(workers, timeout, now))
    {
      var cutoff := now - timeout;
      dead := [];
      var rest := workers.Keys;
      while rest != {}
        invariant rest <= workers.Keys
        invariant ListsExactly(dead, DeadWorkers(workers, timeout, now) - rest)
        decreases rest
      {
        var id :| id in rest;
        rest := rest - {id};
        if workers[id].alive && workers[id].lastHeartbeat < cutoff {
          dead := dead + [id];
        }
      }
    }

    /** `alive_count`. */
    method AliveCount() returns (n: nat)
      ensures n == |set id | id in workers && workers[id].alive|
    {
      n := 0;
      var rest := workers.Keys;
      ghost var counted := {};
      while rest != {}
        invariant rest <= workers.Keys
        invariant counted == (set id | id in workers && workers[id].alive) - rest
        invariant n == |counted|
        decreases rest
      {
        var id :| id in rest;
        rest := rest - {id};
        if workers[id].alive {
          n := n + 1;
          counted := counted + {id};
        }
      }
      assert counted == set id | id in workers && workers[id].alive;
    }
  }

  lemma ScanFindsLeastLoaded(pool: Pool, minLoad: int, candidates: seq<WorkerId>)
    requires Capacities32(pool) && ScanInvariant(pool, pool.Keys, minLoad, candidates)
    ensures forall id :: id in candidates <==> id in pool && LeastLoaded(pool, id)
  {
    forall id | id in pool && LeastLoaded(pool, id)
      ensures id in candidates
    {
      if candidates != [] { assert candidates[0] in candidates; }
    }
  }

  /** Some eligible worker has the least load. */
  lemma {:induction false} LeastLoadedExists(pool: Pool, among: set<WorkerId>) returns (best: WorkerId)
    requires among != {} && forall id :: id in among ==> IsEligible(pool, id)
    ensures best in among && IsEligible(pool, best)
    ensures forall id :: id in among ==> IsEligible(pool, id) && pool[best].activeTasks <= pool[id].activeTasks
    decreases |among|
  {
    var id :| id in among;
    best := id;
    var others := among - {id};
    if others != {} {
      var other := LeastLoadedExists(pool, others);
      if pool[other].activeTasks < pool[id].activeTasks { best := other; }
    }
    assert forall v :: v in among ==> v == id || v in others;
  }

  lemma NoCandidateMeansNoneEligible(pool: Pool)
    ensures LeastLoadedWorkers(pool) == {} <==> forall id :: !IsEligible(pool, id)
  {
    var eligible := set id | id in pool && IsEligible(pool, id);
    assert forall v :: IsEligible(pool, v) ==> v in eligible;
    if eligible != {} {
      var best := LeastLoadedExists(pool, eligible);
      assert best in LeastLoadedWorkers(pool);
    }
  }
}
