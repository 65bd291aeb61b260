/** The records the coordinator and the workers exchange, and the order of the pending queue. */
module Records {
  type TaskId = string
  type WorkerId = string

  datatype Option<+T> = None | Some(value: T)

  datatype Result<+T, +E> = Success(value: T) | Failure(error: E)

  /** A worker is dead after this many milliseconds without a heartbeat. */
  const HEARTBEAT_TIMEOUT: int := 6000

  /** A task is taken back after this many milliseconds at one worker. */
  const EXECUTION_TIMEOUT: int := 3000

  datatype TaskState = Pending | Assigned | Running | Completed | Failed

  /** One task as the coordinator keeps it. `assignedAt` is unset until the first dispatch, because
      the C++ constructor path leaves that field without a value. Priorities are integers: a proto3
      enum is open, so a request may carry any number. */
  datatype TaskRecord = TaskRecord(
    taskId: TaskId,
    priority: int,
    payload: string,
    state: TaskState,
    assignedWorker: WorkerId,
    result: string,
    error: string,
    createdAt: int,
    assignedAt: Option<int>,
    completedAt: int)
  {
    predicate Terminal() { state.Completed? || state.Failed? }

    predicate InFlight() { state.Assigned? || state.Running? }
  }

  /** What a worker sends back for one execution. */
  datatype TaskResult = TaskResult(taskId: TaskId, state: TaskState, result: string, error: string)

  /** What the coordinator knows about one worker. */
  datatype WorkerInfo = WorkerInfo(
    workerId: WorkerId,
    address: string,
    capacity: int,
    activeTasks: int,
    lastHeartbeat: int,
    alive: bool)
  {
    predicate Eligible() { alive && activeTasks < capacity }
  }

  /** The queue's comparator: `a` is less urgent than `b`. */
  predicate LessUrgent(a: TaskRecord, b: TaskRecord) {
    if a.priority != b.priority then a.priority < b.priority else a.createdAt > b.createdAt
  }

  /** Dispatch order as the repository promises it: the higher priority, and the older of equals. */
  predicate ComesFirst(a: TaskRecord, b: TaskRecord) {
    b.priority <= a.priority && (b.priority == a.priority ==> a.createdAt <= b.createdAt)
  }

  /** Two records name the same submission: nothing after `add_task` changes these four fields. */
  predicate SameSubmission(a: TaskRecord, b: TaskRecord) {
    && a.taskId == b.taskId
    && a.priority == b.priority
    && a.payload == b.payload
    && a.createdAt == b.createdAt
  }

  predicate Tied(a: TaskRecord, b: TaskRecord) {
    !LessUrgent(a, b) && !LessUrgent(b, a)
  }

  /** The comparator is a strict weak order, which a standard priority queue needs of it: it is
      irreflexive and transitive, and being tied is transitive too. */
  lemma ComparatorIsStrictWeakOrder()
    ensures forall a :: !LessUrgent(a, a)
    ensures forall a, b, c :: LessUrgent(a, b) && LessUrgent(b, c) ==> LessUrgent(a, c)
    ensures forall a, b, c :: Tied(a, b) && Tied(b, c) ==> Tied(a, c)
  {
  }

  /** `xs` lists the identifiers in `s`, each once. */
  ghost predicate ListsExactly(xs: seq<string>, s: set<string>) {
    && (forall x :: x in xs <==> x in s)
    && (forall i, j :: 0 <= i < j < |xs| ==> xs[i] != xs[j])
  }

  lemma SubsetIsSmaller<T>(a: set<T>, b: set<T>)
    requires a <= b
    ensures |a| <= |b|
  {
    assert b == a + (b - a);
  }
}
