# Verification of the distributed task orchestrator

This project models the coordinator's dispatch and recovery protocol, and the computation its workers
run, and proves properties of the model in Dafny 4.11. `dafny verify dfyconfig.toml` checks all of it.

The system accepts tasks, keeps them in a priority queue, dispatches each to the least-loaded worker,
and takes tasks back when a worker dies, restarts, cannot be reached or takes too long. Recovery races
with dispatch and with late reports, execution is at-least-once, and reports can be repeated. The
questions are whether a task can get lost, whether a result can be wrong, what exactly can go back and
forth, and whether the system can get stuck.

## How the model is laid out

Components, in the form the C++ gives them (classes with loops, proved against functions on values):

- `Records.dfy` records, results and the queue comparator; `PendingHeap.dfy` the binary heap behind the
  pending queue; `TaskStore.dfy` the task map with its lazily cleaned queue; `WorkerPool.dfy` the
  coordinator's estimate of its workers; `Metrics.dfy` the completion window and percentiles.
- `Primes.dfy` and `PrimeTask.dfy` the worker's computation, on wrapped 64-bit products;
  `WorkerProcess.dfy` the accept handler, the report retries and the drain.
- `Scheduler.dfy` and `Services.dfy` the routines that make several store and pool calls, run without
  interference.

The whole cluster as a transition system, `Cluster.dfy`: every call of a mutex-protected method is one
step, and its effect is the very function the class method is proved to compute. The dispatcher, the
health check, any number of registration and report handlers, the worker processes and the network
interleave freely. A call to a worker can time out whether or not the worker accepted, a late request
can still be accepted, a worker can crash and come back at any time, and a report attempt can be
answered after the worker gave up on it. Over it:

- `TaskHistory.dfy` and `WorkerHistory.dfy` every field of every record is what the last call that
  writes it wrote, which tasks the timeout and each recovery path list, and when a worker is found dead;
  `Provenance.dfy` results are right end to end; `Custody.dfy` no task is lost; `Urgency.dfy` dispatch
  order; `Load.dfy` the load estimate, worker conservation and draining; `Overshoot.dfy` exactly when
  the estimate exceeds the capacity; `CompletionLedger.dfy` what the totals count; `Timing.dfy` bounded
  recovery time; `Terminal.dfy` exactly when a finished task becomes unfinished; `QueueAccounting.dfy`
  exactly when a task is queued twice, and the queue's length; `Refinement.dfy` the steps of each
  routine against the contract of the routine as one method; `Progress.dfy` and `Completion.dfy` no
  stuck state; `Witnesses.dfy` runs from a fresh cluster that show four properties need their
  conditions.

## Findings

- `check_prime` is exact on the whole 64-bit range. From (2^32-5)^2 = 18446744030759878681 on the loop
  guard wraps and no longer tests the square root, but the trial value 1852311383259529397 has a square
  that wraps to 2^64-7, so the loop leaves with the right answer before it reaches n, and the seven
  numbers above that are composite with tiny factors.
- "Terminal states are final" is false: `assign_task` has no guard on the state and runs after the RPC,
  so a fast report is overwritten (`FinishedTaskCanBeTakenBack`). `TerminalIsLeftExactlyWhen` is the
  exact condition: the step is `assign_task` for the task in hand, and a report for it was handled since
  it was popped. So a run keeps a task finished if and only if it has no such step
  (`TerminalIsAbsorbingExactlyWhen`).
- "The estimate stays within the capacity" is false by one, for every capacity
  (`LoadEstimateCanOvershoot`). It exceeds exactly at an `increment_load` for a worker that a heartbeat,
  arriving since the worker was selected, already reported full (`OvershootsExactlyWhen`,
  `EstimateStaysWithinSlots`); `LoadEstimateIsBounded` is the bound without conditions.
- "A task is queued at most once" is false when two recoveries interleave
  (`InterleavedRecoveriesEnqueueTwice`). It is lost exactly by a requeue of an unfinished task that an
  earlier step pushed and no pop has taken since (`QueueStaysUniqueExactlyWhen`). That takes a race
  (`DuplicatesNeedSharedTask`): it holds as long as no task is on the lists of two recovery routines at
  once, whatever else interleaves (`QueueLengthIsAccountedFor`).
- `total_ok` counts reports, not tasks, and can lag behind the store between the handler's two calls
  (`TotalsCanLagBehind`). It falls behind exactly at a report that finishes a task anew while the total
  has nothing to spare (`FallsBehindExactlyWhen`, `TotalNeverLagsExactlyWhen`). What it has to spare is
  the number of repeats in the run: reports stored for a task that already had the outcome, and
  assignments that took such a task back. So it lags exactly while more handlers are between those calls
  than there have been repeats (`TotalsLagExactlyWhen`).
- The repository's README lists a RUNNING state and says a worker deregisters when it drains. The code
  never calls `set_running` and sends no deregistration; the model follows the code. A drained worker
  may also have given up on reports, after exactly five failures each.

## Assumptions

Task ids are fresh. The clock is positive and never goes back. A worker id keeps its capacity, which may
be any 32-bit number, also negative. The accept handler of a worker is atomic, and so is the end of an
execution: between its two counters, `g_active_tasks` and `g_completed_tasks`, the program's own account
is for an instant one task short. Every report comes from a worker running this program. `set_running`
and `remove_worker` have no callers and are not steps.

## Model

| member | source | states |
|---|---|---|
| Records.ComparatorIsStrictWeakOrder | coordinator/task_store.h:39-45 | the queue comparator is irreflexive and transitive, and ties are transitive, as a standard priority queue requires |
| PendingHeap.PriorityQueue.Push | coordinator/task_store.h:67 | keeps the heap order and adds exactly one entry |
| PendingHeap.PriorityQueue.Pop | coordinator/task_store.h:78-79 | removes exactly one entry, and none is more urgent than it |
| PendingHeap.RootIsMostUrgent | coordinator/task_store.h:78 | in a heap no entry is more urgent than the root |
| TaskStorage.PopIsMostUrgentPending | coordinator/task_store.h:74-88 | lazy deletion yields a pending task such that no pending task has a higher priority, and none of the same priority is older |
| TaskStorage.PopFindsNoneWhenNoPending | coordinator/task_store.h:77-87 | the drain comes back empty exactly when no task is pending |
| TaskStorage.PopExists | coordinator/task_store.h:77-86 | unless every entry is stale the drain ends in a take |
| TaskStorage.RequeueOneMore | coordinator/task_store.h:140-153 | requeueing one task more extends "exactly these were requeued, once each" to it |
| TaskStorage.TaskStore.Add | coordinator/task_store.h:54-71 | a new pending record and one entry, nothing else |
| TaskStorage.TaskStore.PopPending | coordinator/task_store.h:74-88 | returns the current record of the first entry that is not stale, after dropping only stale and at least as urgent entries |
| TaskStorage.TaskStore.Requeue | coordinator/task_store.h:140-153 | refuses unknown and finished tasks, otherwise pending, on no worker, with one more entry |
| TaskStorage.LastReportWins | coordinator/task_store.h:113-134 | a repeated report of the same kind leaves exactly what the last one says |
| TaskStorage.RequeueUndoesAssign | coordinator/task_store.h:91-153 | assigning and taking back leaves a pending record, on no worker, with its old result and a new assignment time, and one more entry, even if the task was finished |
| TaskStorage.LateExactlyWhen | coordinator/task_store.h:165-178 | a task with an assignment time is late exactly if it is in flight and was assigned, at a positive time, longer ago than the timeout |
| TaskStorage.TaskStore.GetTimedOutTasks | coordinator/task_store.h:165-178 | lists exactly the tasks in flight since before the cutoff, each once |
| TaskStorage.TaskStore.GetTasksForWorker | coordinator/task_store.h:181-192 | lists exactly the tasks in flight on the worker, each once |
| TaskStorage.TaskStore.PendingCount | coordinator/task_store.h:195-198 | counts the entries, stale ones included |
| WorkerRegistry.WorkerPool.Candidates | coordinator/worker_pool.h:74-88 | the one-pass candidate list is exactly the set of least-loaded alive workers with a free slot, in any map order |
| WorkerRegistry.WorkerPool.Select | coordinator/worker_pool.h:71-97 | whatever the tie-break, the choice is least-loaded; none exactly when no worker is eligible |
| WorkerRegistry.WorkerPool.FindDead | coordinator/worker_pool.h:151-161 | lists exactly the alive workers whose heartbeat is older than the timeout |
| WorkerRegistry.WorkerPool.AliveCount | coordinator/worker_pool.h:163-170 | the number of alive workers |
| WorkerRegistry.HeartbeatSettles | coordinator/worker_pool.h:56-124 | a heartbeat forgets every increment, decrement and death before it, and revives the worker |
| WorkerRegistry.HeartbeatsKeepAlive | coordinator/worker_pool.h:38-65 | after a heartbeat or a registration a worker is found dead exactly if that is longer ago than the timeout |
| WorkerRegistry.DecrementUndoesIncrement | coordinator/worker_pool.h:100-115 | a decrement undoes an increment, and the reverse holds exactly above zero |
| WorkerRegistry.DispatchUsesSpare | coordinator/scheduler.h:92-108 | a success uses exactly one free slot in the pool, an unreachable worker gives up all of its own |
| Metrics.MetricsCollector.RecordCompletion | coordinator/metrics.h:67-83 | the window stays the last completions in order and the totals count all of them |
| Metrics.MetricsCollector.TakeSnapshot | coordinator/metrics.h:85-117 | percentiles of the last window_size completions of the whole run (0 if there are none), p50 <= p95 <= p99, completions of the last 5000 ms per second, the queue entries, the alive workers and the successes |
| Metrics.PercentileRank | coordinator/metrics.h:155-163 | a percentile is a sample; more than (n-1)*pct/100 samples are at or below it, and at least n-(n-1)*pct/100 at or above |
| Metrics.PercentilesOrdered | coordinator/metrics.h:109-111 | a higher percentage never gives a smaller value |
| Metrics.CountsAreSizes | coordinator/metrics.h:94-99 | the completions counted for the throughput are those no older than the cutoff |
| Metrics.SuccessesAreSizes | coordinator/metrics.h:77-81 | the total is the number of successful completions recorded |
| Primes.CheckPrime | worker/main.cpp:28-41 | on wrapped 64-bit products: the verdict is primality and the factor the least divisor, for every 64-bit number |
| Primes.ExactIsUnique | worker/main.cpp:23-26 | there is only one right answer for each number |
| Primes.TrialsStayBelowN | worker/main.cpp:36-38 | the loop never reaches n itself, so a prime is never reported as its own factor |
| Primes.GuardWrapsAboveBound | worker/main.cpp:36 | above (2^32-5)^2 the guard passes a trial value whose true square exceeds n |
| Primes.SquaresFitBelow | worker/main.cpp:36 | up to 2^32-5 no square wraps, and the next trial value's does |
| PrimeTask.RunPrimeTask | worker/main.cpp:43-53 | the answer, or the exception's message, for every payload |
| PrimeTask.AnswerTellsTheTruth | worker/main.cpp:43-53 | there is an answer exactly for decimal notations of numbers below 2^64; it repeats the payload without leading zeros, says prime exactly for primes, else names the least factor in decimal notation; the two other messages are literal |
| PrimeTask.ValueIsPositional | worker/main.cpp:47 | a numeral is read with place values: the first digit weighs most |
| PrimeTask.ReadingAndWriting | worker/main.cpp:47-52 | reading a numeral and writing it drops its leading zeros and nothing else |
| PrimeTask.ValueOfDecimal | worker/main.cpp:50-52 | a number survives being written and read back |
| PrimeTask.AnswerIgnoresLeadingZeros | worker/main.cpp:47-50 | leading zeros do not change the answer |
| WorkerProcess.Worker.AssignTask | worker/main.cpp:121-155 | accepts exactly when not draining and below capacity, and starts one execution |
| WorkerProcess.Worker.StartDraining | worker/main.cpp:64-67 | from then on the accept handler refuses; the counters stay |
| WorkerProcess.Worker.MakeReport | worker/main.cpp:163-179 | completed with the answer, or failed with the prefixed message |
| WorkerProcess.Worker.SendReport | worker/main.cpp:185-207 | stops at the first success, or after exactly five failures |
| WorkerProcess.Worker.ExecuteTask | worker/main.cpp:158-211 | the right report, at most five calls, one slot back |
| WorkerProcess.DrainedMeansAllEnded | worker/main.cpp:311-313 | when no task is active every accepted one ended, delivered or after exactly five failures |
| Scheduling.Scheduler.DispatchPending | coordinator/scheduler.h:66-128 | each call, made while running, offers a most urgent task to a least-loaded worker and follows up its outcome; there are no more calls than free slots; the pass ends only for lack of a worker or of a task, at the first refusal, or on shutdown; no finished task changes |
| Scheduling.Scheduler.DispatchOne | coordinator/scheduler.h:69-125 | stops only if no worker is eligible or no task pending; otherwise offers a most urgent pending task to a least-loaded worker and follows up the outcome |
| Scheduling.Scheduler.FollowUp | coordinator/scheduler.h:90-124 | the whole effect of each of the three RPC outcomes on tasks and workers |
| Scheduling.OfferUsesSpare | coordinator/scheduler.h:90-124 | a call is made only with free slots in the pool, and leaves fewer unless the worker refused |
| Scheduling.FollowUpKeepsReady | coordinator/scheduler.h:84-124 | with the task in hand followed up, every pending task is in the queue again and no finished task has changed |
| Scheduling.Scheduler.RecoverUnreachable | coordinator/scheduler.h:101-112 | the worker is dead, the task in hand and everything in flight on it is requeued exactly once |
| Scheduling.Scheduler.HealthPass | coordinator/scheduler.h:173-205 | marks exactly the dead workers and requeues exactly their tasks and the late ones, once each |
| Scheduling.Scheduler.RequeueTasksOf | coordinator/scheduler.h:181-187 | requeues exactly what is in flight on the worker |
| Scheduling.RecoveryFreesWorker | coordinator/scheduler.h:180-187 | afterwards nothing is in flight on the worker, each of its tasks is pending with one more entry, all else is untouched |
| Services.Coordinator.SubmitTask | coordinator/services.cpp:10-34 | refuses an empty payload, otherwise adds the task |
| Services.Coordinator.RegisterWorker | coordinator/services.cpp:81-113 | a known worker's tasks are requeued exactly once before it is registered anew |
| Services.Coordinator.Heartbeat | coordinator/services.cpp:115-130 | acknowledged exactly for a known worker |
| Services.Coordinator.ReportResult | coordinator/services.cpp:132-165 | acknowledged exactly for a known task and a terminal state, counted exactly then, load released always |
| Cluster.StoreChange | coordinator/task_store.h:54-153 | every step of the cluster changes the store by one of the store's own operations |
| TaskHistory.StepWrites | coordinator/task_store.h:54-153 | each step writes exactly the fields of one task its store call names, with the call's arguments and clock |
| TaskHistory.FieldsAreAsLastWritten | coordinator/task_store.h:21-32 | in any run every field of every record is what the last step that writes it wrote |
| TaskHistory.SubmissionIsKept | coordinator/task_store.h:54-71 | a task holds the priority and payload of its submission and the time of it |
| TaskHistory.OutcomeIsTheLastReport | coordinator/task_store.h:113-134 | a finished task has state and text of the last terminal report for it, and its latency is the time from submission to the handling of that report |
| TaskHistory.AssignmentIsTheLastDispatch | coordinator/task_store.h:91-100 | an assigned task was given to its recorded worker at its recorded time, and nothing has happened to it since |
| TaskHistory.ListedLateExactlyWhen | coordinator/scheduler.h:194-205 | the health check lists a task as late exactly if it was dispatched more than 3000 ms ago and nothing has happened to it since |
| TaskHistory.TakenBackOnlyWhenLate | coordinator/scheduler.h:197-205 | a task taken back for its age had been with a worker for more than 3000 ms when the list was taken |
| TaskHistory.RecoveryListsExactly | coordinator/task_store.h:181-192 | each of the three recovery paths lists exactly the tasks given to the worker to which nothing has happened since |
| WorkerHistory.FieldsAreAsLastWritten | coordinator/worker_pool.h:38-65 | in any run a worker's address and capacity are those of its last registration, its heartbeat time that of the last heartbeat or registration |
| WorkerHistory.AliveExactlyWhen | coordinator/worker_pool.h:56-124 | a known worker is alive exactly if it has been heard of since it was last found dead |
| WorkerHistory.FoundDeadExactlyWhen | coordinator/scheduler.h:173-187 | the health check finds an alive worker dead exactly if neither a heartbeat nor a registration of it was recorded in the last 6000 ms |
| Provenance.StepKeepsSound | coordinator/services.cpp:140-157 | every step keeps all payloads, executions and reports traceable to the submission, and loses or rewrites none |
| Provenance.ResultsAreRight | worker/main.cpp:158-211 | in any run a completed task holds exactly the answer to its submitted payload, a failed one has no answer, none holds result and error |
| Custody.StepLosesNone | coordinator/task_store.h:136-153 | every step, however stale the list behind it, keeps every task in custody |
| Custody.NoTaskIsLost | coordinator/scheduler.h:84-124 | in every reachable state each task is finished, or assigned to a registered worker at a recorded time, or pending on no worker and queued or in hand |
| Urgency.QueueCoversPending | coordinator/task_store.h:74-88 | with nothing in hand every pending task is in the queue under its own rank |
| Urgency.DispatcherPopsMostUrgent | coordinator/scheduler.h:70-85 | in every reachable state a pop yields a pending task of the highest priority, the oldest of those, and none exactly when none is pending |
| Urgency.RankIsKept | coordinator/task_store.h:140-153 | a requeued task keeps priority, creation time and payload |
| Load.LoadEstimateIsBounded | coordinator/worker_pool.h:56-115 | in every reachable state 0 <= active_tasks <= slots+1, and at most the slots while a dispatch is under way |
| Overshoot.LoadAfterWrite | coordinator/worker_pool.h:38-115 | what each kind of step makes of a worker's count: set by a heartbeat, zero at registration, one up, one down but not below zero |
| Overshoot.ExceedsExactlyWhen | coordinator/worker_pool.h:100-106 | in one step an estimate within the slots exceeds them exactly by the increment for a worker that was full |
| Overshoot.OvershootsExactlyWhen | coordinator/scheduler.h:70-94 | in any run, exactly at an increment for a worker that a heartbeat since its selection, current or stale, reported full, with nothing written to its count in between |
| Overshoot.EstimateStaysWithinSlots | coordinator/worker_pool.h:56-115 | a run keeps a worker's estimate within its capacity if and only if no increment in it follows such a heartbeat |
| Load.WorkersConserveTasks | worker/main.cpp:136-144 | accepted equals active plus completed, active fits the slots, and a drained worker has ended every task |
| Load.DrainingAcceptsNothing | worker/main.cpp:128-133 | no step makes a draining worker accept |
| Load.DrainEndsEverything | worker/main.cpp:306-316 | in any run a worker told to drain accepts nothing more unless it crashes, and once no task is active every task it accepted has ended, delivered or after exactly five failures |
| CompletionLedger.CompletionsAreAccountedFor | coordinator/services.cpp:137-164 | totals equal acknowledged reports up to handlers in progress, and bound the completed and failed tasks |
| CompletionLedger.TotalsBetweenReports | coordinator/metrics.h:77-81 | a total bounds its finished tasks while no handler is between storing and counting, and the totals are the acknowledged reports exactly while none is between counting and answering |
| CompletionLedger.FallsBehindExactlyWhen | coordinator/services.cpp:140-157 | in one step a total falls below its finished tasks exactly by storing a report that finishes a task anew while the two are equal |
| CompletionLedger.TotalNeverLagsExactlyWhen | coordinator/metrics.h:77-81 | over a whole run a total bounds its finished tasks if and only if the run has no such step |
| CompletionLedger.TotalsLagExactlyWhen | coordinator/services.cpp:137-164 | at any point of a run a total and the handlers about to count make up the finished tasks and the repeats of the run (reports for a task that had the outcome, and tasks taken back), so it lags exactly while those handlers outnumber the repeats |
| Timing.RecoveryIsBounded | coordinator/scheduler.h:194-205 | no task stays assigned to one dispatch longer than 3000 ms plus the time since the last finished pass read the clock |
| Timing.ExaminedTimesAreSet | coordinator/task_store.h:170-173 | the timeout test never reads an assignment time that was not set |
| Timing.LatencyIsMeaningful | coordinator/services.cpp:52-54 | every finished task has a completion time, and the reported latency is never negative |
| Terminal.StepAndFinished | coordinator/task_store.h:91-134 | in one step a finished task becomes unfinished exactly by assign_task on it in hand, and an unfinished one finished exactly by a terminal report for it |
| Terminal.LeavingATerminalState | coordinator/scheduler.h:84-93 | in any run that step follows a pop of the task and a report for it in between, with the task in hand throughout |
| Terminal.TerminalIsLeftExactlyWhen | coordinator/scheduler.h:84-93 | in any run a step takes a finished task back if and only if it is assign_task for the task in hand and a report for it was handled since its pop |
| Terminal.TerminalIsAbsorbingExactlyWhen | coordinator/task_store.h:91-153 | over a whole run a task stays finished if and only if the run has no such step |
| Terminal.TerminalIsAbsorbing | coordinator/task_store.h:136-153 | without a report for the task in hand finished tasks stay finished across all recovery paths |
| QueueAccounting.UniqueIsLostExactlyWhen | coordinator/task_store.h:136-153 | in one step a queue without duplicates gets one exactly if the step requeues an unfinished task that is still queued |
| QueueAccounting.QueuedExactlyWhen | coordinator/task_store.h:74-88 | in any run a task is in the queue exactly if some step pushed it and no pop since has taken its entry away |
| QueueAccounting.QueueStaysUniqueExactlyWhen | coordinator/task_store.h:136-153 | over a whole run no task is queued twice if and only if no step requeues an unfinished one that an earlier step pushed and no pop has taken since |
| QueueAccounting.DuplicatesNeedSharedTask | coordinator/scheduler.h:180-205 | before a duplicate there was a moment at which two routines had the same task on their lists |
| QueueAccounting.StepStaysTidy | coordinator/scheduler.h:108-112 | every step from a state in which no task is on two routines' lists keeps entries unique and assigned and listed tasks out of the queue |
| QueueAccounting.QueueLengthIsAccountedFor | coordinator/task_store.h:195-198 | in a run in which no task is ever on two lists: at most one entry each, none for assigned or held tasks, and the length is the waiting plus the overtaken tasks |
| Refinement.HealthPassIsRefined | coordinator/scheduler.h:173-205 | the health check's steps, uninterrupted, do exactly what the contract of HealthPass says |
| Refinement.RecoverUnreachableIsRefined | coordinator/scheduler.h:101-112 | the dispatcher's steps after a failed call, uninterrupted, meet the contract of RecoverUnreachable and touch nothing else |
| Refinement.RegisterWorkerIsRefined | coordinator/services.cpp:81-113 | a registration handler's steps, uninterrupted, meet the contract of RegisterWorker and touch nothing else |
| Refinement.ReportResultIsRefined | coordinator/services.cpp:132-165 | a report handler's steps, uninterrupted, meet the contract of ReportResult: stored, counted and acknowledged or none of them, and the load drops in any case |
| Refinement.DispatchOneIsRefined | coordinator/scheduler.h:69-125 | the dispatcher's steps from the selection of a worker to the next top of its loop, with the workers running on, meet the contract of DispatchOne for that worker: a success for a received yes, a rejection for a no, unreachable for a time-out, and no call exactly if nothing was pending |
| Refinement.ExecuteTaskIsRefined | worker/main.cpp:158-211 | an execution's steps, whatever the rest of the cluster does meanwhile, give one slot back with the outcome of the retry loop on exactly the calls it made |
| Progress.ReportRound | worker/main.cpp:192-193 | from an execution ready to call, such steps store its report, answer it and end the execution |
| Progress.EmptyWorker | worker/main.cpp:185-210 | the steps of executions and report handlers alone can end every execution of a worker, without unfinishing or assigning a task |
| Completion.FinishDispatch | coordinator/scheduler.h:66-128 | from every state of a dispatch pass the dispatcher's own steps lead back to the top of its loop |
| Completion.FinishHealth | coordinator/scheduler.h:165-207 | from every state of a health pass its own steps lead to its end |
| Completion.TakeAllBack | coordinator/scheduler.h:194-205 | a wait of more than 3000 ms and then one pass, uninterrupted, leave no task assigned |
| Completion.Round | coordinator/scheduler.h:70-99 | with the worker at rest the system's own steps dispatch, run and report one pending task |
| Completion.EveryTaskCanFinish | coordinator/scheduler.h:66-205 | from every reachable state with a usable worker the system's own steps, without a crash, restart, registration or drain, can finish every task |
| Completion.EveryTaskCanFinishOnceRegistered | coordinator/services.cpp:81-113 | for a process not registered, or under another address, the same after the steps of one registration of its own |
| Completion.NothingFinishesWithoutWorkers | worker/main.cpp:128-144 | conversely, once work in progress has ended, no own step finishes a task while no process accepts |
| Witnesses.FinishedTaskCanBeTakenBack | coordinator/task_store.h:91-100 | for every payload and worker there is a run in which a finished task becomes assigned |
| Witnesses.LoadEstimateCanOvershoot | coordinator/worker_pool.h:100-106 | for every capacity from 1 on there is a run in which the estimate is the capacity plus one |
| Witnesses.InterleavedRecoveriesEnqueueTwice | coordinator/services.cpp:91-98 | for every payload and worker with a slot there is a run, from the start, in which two recoveries enqueue the task twice |
| Witnesses.TotalsCanLagBehind | coordinator/services.cpp:140-157 | for every payload and worker with a slot there is a run in which a task is finished and its total is still below |

## Left out

- gRPC channels, stub caching, deadlines as wall-clock waits and protobuf encoding: a call has the outcomes success, refusal and failure, and a failure does not say whether the worker accepted.
- Condition variables, sleeps, thread start and join, signal handlers: they are scheduling freedom of the steps; the shutdown flag is a parameter of the dispatch pass.
- Fairness and wall-clock performance: `EveryTaskCanFinish` shows that finishing stays possible, not that every schedule finishes; an adversarial network can refuse forever.
- Completion.EveryTaskCanFinish: needs one worker that is registered under its own address, is not draining and has a slot; a running process that is not yet registered comes first to register (`EveryTaskCanFinishOnceRegistered`), and without any process that accepts nothing new can finish (`NothingFinishesWithoutWorkers`).
- WorkerRegistry.WorkerPool.Increment: does not model 32-bit wrap-around; the estimate exceeds the capacity by at most one (`LoadEstimateIsBounded`), so it can only matter at a capacity of 2^31-1.
- PendingHeap.PriorityQueue: the vector behind the queue is a sequence field updated step by step; which of several tied entries comes first is left open.
- Metrics.Sorted: the library sort is a function.
- Logging, terminal output, command-line parsing, UUID generation and the client program.
- `stoull` and `to_string`: decimal value and notation with the 64-bit range test; the text of the range error is the one of the GNU library.
- Two processes running at the same time under one worker id, and a non-atomic accept handler.
- Coordinator crash and persistence, which the repository does not implement.
