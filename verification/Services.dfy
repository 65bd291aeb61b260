/** The coordinator's request handlers, each run without interference. */
module Services {
  import opened Records
  import opened TaskStorage
  import opened WorkerRegistry
  import opened Metrics
  import opened Scheduling

  class Coordinator {
    const tasks: TaskStore
    const workers: WorkerPool
    const metrics: MetricsCollector
    const scheduler: Scheduler

    ghost predicate Valid()
      reads this, tasks, tasks.pendingQueue, workers, scheduler, metrics
    {
      && scheduler.tasks == tasks && scheduler.workers == workers && scheduler.Valid()
      && metrics.tasks == tasks && metrics.workers == workers && metrics.Valid()
    }

    constructor ()
      ensures Valid() && tasks.View() == Store(map[], multiset{}) && workers.workers == map[]
      ensures metrics.windowSize == 10000
    {
      var store := new TaskStore();
      var pool := new WorkerPool();
      tasks, workers := store, pool;
      metrics := new MetricsCollector(store, pool, 10000);
      scheduler := new Scheduler(store, pool);
    }

    /** `SubmitTask` refuses an empty payload and otherwise returns the new task's id, a fresh one. */
    method SubmitTask(id: TaskId, priority: int, payload: string, now: int) returns (r: Result<TaskId, string>)
      requires Valid() && id !in tasks.tasks
      modifies tasks, tasks.pendingQueue
      ensures Valid()
      ensures payload == "" ==> r.Failure? && tasks.View() == old(tasks.View())
      ensures payload != "" ==> r == Result.Success(id) && tasks.View() == AddTask(old(tasks.View()), id, priority, payload, now)
    {
      if payload == "" { return Failure("Payload cannot be empty"); }
      AddKeepsReady(tasks.View(), id, priority, payload, now);
      tasks.Add(id, priority, payload, now);
      r := Result.Success(id);
    }

    /** `RegisterWorker`: a known worker has restarted, so its tasks go back to the queue first. */
    method RegisterWorker(id: WorkerId, address: string, capacity: int, now: int) returns (ok: bool)
      requires Valid() && capacity <= INT32_MAX
      modifies tasks, tasks.pendingQueue, workers
      ensures Valid() && ok
      ensures var st := old(tasks.View());
              RequeuedExactly(st, if id in old(workers.workers) then TasksOfWorker(st, id) else {}, tasks.View())
      ensures workers.workers == WorkerRegistry.RegisterWorker(old(workers.workers), id, address, capacity, now)
    {
      TakeBackOldTasks(id);
      ok := workers.Register(id, address, capacity, now);
    }

    method TakeBackOldTasks(id: WorkerId)
      requires Valid()
      modifies tasks, tasks.pendingQueue
      ensures Valid()
      ensures var st := old(tasks.View());
              RequeuedExactly(st, if id in workers.workers then TasksOfWorker(st, id) else {}, tasks.View())
    {
      ghost var st := tasks.View();
      RequeueNone(st);
      if id in workers.workers {
        scheduler.RequeueTasksOf(id, st, {});
        assert {} + TasksOfWorker(st, id) == TasksOfWorker(st, id);
      }
      RequeuedKeepsReady(st, if id in workers.workers then TasksOfWorker(st, id) else {}, tasks.View(), {});
    }

    /** `Heartbeat` from an unknown worker is not acknowledged. */
    method Heartbeat(id: WorkerId, activeTasks: int, now: int) returns (acknowledged: bool)
      requires Valid()
      modifies workers
      ensures Valid()
      ensures acknowledged == (id in old(workers.workers))
      ensures workers.workers == RecordHeartbeat(old(workers.workers), id, activeTasks, now)
    {
      acknowledged := workers.Heartbeat(id, activeTasks, now);
    }

    /** `ReportResult`: acknowledged exactly for a known task and a terminal state. Every acknowledged
        report is counted, a repeated one again; the worker's load drops in any case. */
    method ReportResult(worker: WorkerId, r: TaskResult, latency: int, now: int) returns (acknowledged: bool)
      requires Valid()
      modifies tasks, workers, metrics
      ensures Valid()
      ensures acknowledged == (r.taskId in old(tasks.tasks) && (r.state.Completed? || r.state.Failed?))
      ensures tasks.View() == ApplyReport(old(tasks.View()), r, now)
      ensures workers.workers == DecrementLoad(old(workers.workers), worker)
      ensures metrics.outcomes == old(metrics.outcomes) + (if acknowledged then [r.state.Completed?] else [])
      ensures metrics.history == old(metrics.history) + (if acknowledged then [Sample(latency, now)] else [])
    {
      ReportKeepsReady(tasks.View(), r, now);
      acknowledged := StoreAndCount(r, latency, now);
      workers.Decrement(worker);
    }

    /** The first half of `ReportResult`: the store first, then the metrics if the store knew the task. */
    method StoreAndCount(r: TaskResult, latency: int, now: int) returns (ok: bool)
      requires tasks.Valid() && metrics.Valid()
      modifies tasks, metrics
      ensures tasks.Valid() && metrics.Valid()
      ensures ok == (r.taskId in old(tasks.tasks) && (r.state.Completed? || r.state.Failed?))
      ensures tasks.View() == ApplyReport(old(tasks.View()), r, now)
      ensures metrics.outcomes == old(metrics.outcomes) + (if ok then [r.state.Completed?] else [])
      ensures metrics.history == old(metrics.history) + (if ok then [Sample(latency, now)] else [])
    {
      ok := false;
      if r.state.Completed? {
        ok := tasks.Complete(r.taskId, r.result, now);
        if ok { metrics.RecordCompletion(latency, true, now); }
      } else if r.state.Failed? {
        ok := tasks.Fail(r.taskId, r.error, now);
        if ok { metrics.RecordCompletion(latency, false, now); }
      }
    }
  }
}
