/** The service that runs tasks: it records each task's lifecycle in its own
    store, hands the work to the executor, and tracks the running ids. */
module Services {
  import opened Schemas
  import opened Time
  import opened TaskStorage
  import opened Agents

  /** One status write the service issues to its store. */
  datatype StatusWrite = StatusWrite(taskId: string, status: TaskStatus)

  function RunningUpdate(startedAt: Instant): StatusUpdate {
    StatusUpdate(TaskStatus.Running, None, None, None, Some(startedAt), None)
  }

  function CompletedUpdate(res: ExecutionResult, completedAt: Instant): StatusUpdate {
    StatusUpdate(TaskStatus.Completed, res.output, None, Some(res.metadata), None, Some(completedAt))
  }

  function FailedUpdate(error: string, completedAt: Instant): StatusUpdate {
    StatusUpdate(TaskStatus.Failed, None, Some(error), None, None, Some(completedAt))
  }

  /** The write `_execute_task_internal` makes once the executor has returned or raised. */
  function OutcomeUpdate(outcome: Result<ExecutionResult>, completedAt: Instant): StatusUpdate {
    match outcome
    case Ok(res) => CompletedUpdate(res, completedAt)
    case Err(e) => FailedUpdate(e, completedAt)
  }

  function CancelledUpdate(completedAt: Instant): StatusUpdate {
    StatusUpdate(TaskStatus.Cancelled, None, None, None, None, Some(completedAt))
  }

  /** The status writes one `execute_task` run issues: RUNNING, then COMPLETED,
      or FAILED from the inner handler and FAILED again from the outer one. */
  function ExecutionWrites(taskId: string, outcome: Result<ExecutionResult>): seq<StatusWrite> {
    [StatusWrite(taskId, TaskStatus.Running)]
    + match outcome
      case Ok(_) => [StatusWrite(taskId, TaskStatus.Completed)]
      case Err(_) => [StatusWrite(taskId, TaskStatus.Failed), StatusWrite(taskId, TaskStatus.Failed)]
  }

  /** Whatever the executor does, a run writes RUNNING first and leaves a
      terminal status last. */
  lemma ExecutionWritesShape(taskId: string, outcome: Result<ExecutionResult>)
    ensures var w := ExecutionWrites(taskId, outcome);
      && w[0] == StatusWrite(taskId, TaskStatus.Running)
      && (w[|w| - 1].status == TaskStatus.Completed <==> outcome.Ok?)
      && (w[|w| - 1].status == TaskStatus.Failed <==> outcome.Err?)
      && forall i :: 0 < i < |w| ==> w[i].status != TaskStatus.Running
  {
  }

  /** The record a run of `execute_task` leaves for a task that held `base`:
      RUNNING from `startedAt`, then the outcome completed at `completedAt`
      (for a failure, the later of the two FAILED writes). */
  function RunRecord(base: TaskResult, startedAt: Instant, outcome: Result<ExecutionResult>, completedAt: Instant)
    : TaskResult
  {
    ApplyUpdate(ApplyUpdate(base, RunningUpdate(startedAt)), OutcomeUpdate(outcome, completedAt))
  }

  /** The second FAILED write of a failed run only moves the completion time. */
  lemma FailedTwice(t: TaskResult, e: string, first: Instant, second: Instant)
    requires t.startedAt.Some?
    ensures ApplyUpdate(ApplyUpdate(t, FailedUpdate(e, first)), FailedUpdate(e, second))
         == ApplyUpdate(t, FailedUpdate(e, second))
  {
  }

  /** What a run leaves in the record: its start and completion times, the
      duration between them, and the output and metadata of a success or the
      error of a failure; the id and steps are those of `base`. */
  lemma RunRecordFacts(base: TaskResult, startedAt: Instant, outcome: Result<ExecutionResult>, completedAt: Instant)
    ensures var t := RunRecord(base, startedAt, outcome, completedAt);
      && t.id == base.id && t.steps == base.steps
      && t.startedAt == Some(startedAt)
      && t.completedAt == Some(completedAt)
      && t.duration == Some(completedAt - startedAt)
    ensures var t := RunRecord(base, startedAt, outcome, completedAt);
      match outcome
      case Ok(res) =>
        && t.status == TaskStatus.Completed
        && t.output == (if res.output.Some? then res.output else base.output)
        && t.error == base.error
        && t.metadata.Keys == base.metadata.Keys + res.metadata.Keys
        && (forall k :: k in res.metadata ==> t.metadata[k] == res.metadata[k])
        && (forall k :: k in base.metadata && k !in res.metadata ==> t.metadata[k] == base.metadata[k])
      case Err(e) =>
        && t.status == TaskStatus.Failed
        && t.error == Some(e)
        && t.output == base.output
        && t.metadata == base.metadata
  {
  }

  /** The three stages of a run's status writes add up to `ExecutionWrites`;
      stated apart so that `ExecuteTask` need not reason about concatenation. */
  lemma WritesChain(id: string, r: Result<ExecutionResult>,
                    w0: seq<StatusWrite>, w1: seq<StatusWrite>, w2: seq<StatusWrite>, w3: seq<StatusWrite>)
    requires w1 == w0 + [StatusWrite(id, TaskStatus.Running)]
    requires w2 == w1 + [StatusWrite(id, OutcomeUpdate(r, 0).status)]
    requires w3 == w2 + if r.Ok? then [] else [StatusWrite(id, TaskStatus.Failed)]
    ensures w3 == w0 + ExecutionWrites(id, r)
  {
  }

  /** The three stages of a run's record updates add up to `RunRecord`, the
      completion time being the later FAILED write's for a failure. */
  lemma RecordChain(m0: map<string, TaskResult>, m1: map<string, TaskResult>, m2: map<string, TaskResult>,
                    m3: map<string, TaskResult>, id: string, base: TaskResult, startedAt: Instant,
                    r: Result<ExecutionResult>, completedAt: Instant, failedAt: Instant)
    requires m1 == m0[id := ApplyUpdate(base, RunningUpdate(startedAt))]
    requires m2 == m1[id := ApplyUpdate(m1[id], OutcomeUpdate(r, completedAt))]
    requires m3 == if r.Ok? then m2 else m2[id := ApplyUpdate(m2[id], FailedUpdate(r.message, failedAt))]
    ensures m3 == m0[id := RunRecord(base, startedAt, r, if r.Ok? then completedAt else failedAt)]
  {
    if r.Err? {
      FailedTwice(m1[id], r.message, completedAt, failedAt);
    }
  }

  /** Adding an id to the active set and removing it again leaves the set
      without it. */
  lemma ActiveChain(a0: set<string>, a1: set<string>, a2: set<string>, id: string)
    requires a1 == a0 + {id} && a2 == a1 - {id}
    ensures a2 == a0 - {id}
  {
  }

  /** The step lists the store keeps once a status write to `id` has been
      made: an unknown id is created afresh with an empty list. */
  function StepsAfterWrite(tasks: map<string, TaskResult>, steps: map<string, seq<StepLog>>, id: string)
    : map<string, seq<StepLog>>
  {
    if id in tasks then steps else steps[id := []]
  }

  /** The store's insertion order once a status write to `id` has been made:
      an unknown id joins the end, a known one keeps its place. */
  function OrderAfterWrite(tasks: map<string, TaskResult>, order: seq<string>, id: string): seq<string> {
    if id in tasks then order else order + [id]
  }

  class TaskService {
    const store: TaskStore
    const executor: TaskExecutor
    /** The keys of `active_tasks`: the ids whose execution is in progress. */
    var active: set<string>
    /** Every status write issued to `store`, oldest first. */
    ghost var writes: seq<StatusWrite>

    /** The service's store and the executor's are distinct objects, and the
        service's never receives a step: every list in it is empty. */
    ghost predicate Valid()
      reads this, store, executor, executor.store
    {
      && store != executor.store
      && store.Valid()
      && executor.Valid()
      && forall id :: id in store.steps ==> store.steps[id] == []
    }

    constructor ()
      ensures Valid() && fresh(store) && fresh(executor) && fresh(executor.store)
      ensures store.tasks == map[] && executor.store.steps == map[] && active == {} && writes == []
    {
      store := new TaskStore();
      executor := new TaskExecutor();
      active := {};
      writes := [];
    }

    /** `update_task_status` as the service calls it, logging the write. */
    method Write(id: string, u: StatusUpdate, clock: Clock)
      requires Valid()
      modifies this`writes, store, clock
      ensures Valid()
      ensures writes == old(writes) + [StatusWrite(id, u.status)]
      ensures store.tasks == old(store.tasks)[id := ApplyUpdate(
                if id in old(store.tasks) then old(store.tasks)[id] else NewTask(id, old(clock.time)), u)]
      ensures store.steps == StepsAfterWrite(old(store.tasks), old(store.steps), id)
      ensures store.order == OrderAfterWrite(old(store.tasks), old(store.order), id)
      ensures clock.time == old(clock.time) + if id in old(store.tasks) then 0 else 1
    {
      store.UpdateTaskStatus(id, u, clock);
      writes := writes + [StatusWrite(id, u.status)];
    }

    /** The store write `_execute_task_internal` makes once the executor has
        returned or raised, taking the completion time from the clock. */
    method RecordOutcome(id: string, r: Result<ExecutionResult>, clock: Clock)
      requires Valid() && id in store.tasks
      modifies this`writes, store, clock
      ensures Valid()
      ensures writes == old(writes) + [StatusWrite(id, OutcomeUpdate(r, 0).status)]
      ensures store.tasks == old(store.tasks)[id := ApplyUpdate(old(store.tasks)[id], OutcomeUpdate(r, old(clock.time)))]
      ensures store.steps == old(store.steps) && store.order == old(store.order)
      ensures clock.time == old(clock.time) + if r.Ok? then 2 else 1
    {
      var completedAt := clock.Now();
      Write(id, OutcomeUpdate(r, completedAt), clock);
      if r.Ok? {
        // the duration is only logged, but reading it advances the clock
        var _ := clock.Now();
      }
    }

    /** `_execute_task_internal`: runs the executor, then records COMPLETED with
        its output and metadata, or FAILED with the error and re-raises. */
    method ExecuteInternal(id: string, request: TaskRequest, llm: Llm, clock: Clock)
      returns (r: Result<ExecutionResult>, ghost completedAt: Instant)
      requires Valid() && id in store.tasks
      modifies this`writes, store, executor.store, clock
      ensures Valid()
      ensures r == ExecutionOutcome(id, request, llm)
      ensures writes == old(writes) + [StatusWrite(id, OutcomeUpdate(r, 0).status)]
      ensures old(clock.time) < completedAt < clock.time
      ensures store.tasks == old(store.tasks)[id := ApplyUpdate(old(store.tasks)[id], OutcomeUpdate(r, completedAt))]
      ensures store.steps == old(store.steps) && store.order == old(store.order)
    {
      var startTime := clock.Now();
      r := executor.Execute(id, request, llm, clock);
      completedAt := clock.time;
      RecordOutcome(id, r, clock);
    }

    /** The first half of `execute_task`: records RUNNING with the start time
        and marks the id active. */
    method StartRun(id: string, clock: Clock)
      requires Valid()
      modifies this, store, clock
      ensures Valid()
      ensures active == old(active) + {id}
      ensures writes == old(writes) + [StatusWrite(id, TaskStatus.Running)]
      ensures store.tasks == old(store.tasks)[id := ApplyUpdate(
                if id in old(store.tasks) then old(store.tasks)[id] else NewTask(id, old(clock.time) + 1),
                RunningUpdate(old(clock.time)))]
      ensures store.steps == StepsAfterWrite(old(store.tasks), old(store.steps), id)
      ensures store.order == OrderAfterWrite(old(store.tasks), old(store.order), id)
      ensures clock.time == old(clock.time) + if id in old(store.tasks) then 1 else 2
    {
      var startedAt := clock.Now();
      Write(id, RunningUpdate(startedAt), clock);
      active := active + {id};
    }

    /** The last half of `execute_task`: a run that raised is recorded FAILED
        once more, and the id leaves the active set either way. */
    method FinishRun(id: string, outcome: Result<ExecutionResult>, clock: Clock)
      requires Valid() && id in store.tasks
      modifies this, store, clock
      ensures Valid()
      ensures active == old(active) - {id}
      ensures writes == old(writes) + if outcome.Ok? then [] else [StatusWrite(id, TaskStatus.Failed)]
      ensures store.tasks == if outcome.Ok? then old(store.tasks)
        else old(store.tasks)[id := ApplyUpdate(old(store.tasks)[id], FailedUpdate(outcome.message, old(clock.time)))]
      ensures store.steps == old(store.steps) && store.order == old(store.order)
      ensures clock.time == old(clock.time) + if outcome.Ok? then 0 else 1
    {
      if outcome.Err? {
        var failedAt := clock.Now();
        Write(id, FailedUpdate(outcome.message, failedAt), clock);
      }
      if id in active {
        active := active - {id};
      }
    }

    /** `execute_task`: records RUNNING with the start time, marks the id
        active, runs the task, records a failure once more if it raised, and
        always drops the id from the active set. */
    method ExecuteTask(id: string, request: TaskRequest, llm: Llm, clock: Clock)
      returns (ghost completedAt: Instant)
      requires Valid()
      modifies this, store, executor.store, clock
      ensures Valid()
      ensures active == old(active) - {id}
      ensures writes == old(writes) + ExecutionWrites(id, ExecutionOutcome(id, request, llm))
      ensures old(clock.time) < completedAt < clock.time
      // an unknown id is first created, reading the clock after the start time
      ensures store.tasks == old(store.tasks)[id := RunRecord(
                if id in old(store.tasks) then old(store.tasks)[id] else NewTask(id, old(clock.time) + 1),
                old(clock.time), ExecutionOutcome(id, request, llm), completedAt)]
      ensures store.steps == StepsAfterWrite(old(store.tasks), old(store.steps), id)
      ensures store.order == OrderAfterWrite(old(store.tasks), old(store.order), id)
    {
      ghost var writes0, tasks0, time0, active0 := writes, store.tasks, clock.time, active;
      ghost var base := if id in tasks0 then tasks0[id] else NewTask(id, time0 + 1);
      StartRun(id, clock);
      ghost var writes1, tasks1, active1 := writes, store.tasks, active;
      var r;
      r, completedAt := ExecuteInternal(id, request, llm, clock);
      ghost var writes2, tasks2, failedAt := writes, store.tasks, clock.time;
      FinishRun(id, r, clock);
      ActiveChain(active0, active1, active, id);
      WritesChain(id, r, writes0, writes1, writes2, writes);
      RecordChain(tasks0, tasks1, tasks2, store.tasks, id, base, time0, r, completedAt, failedAt);
      if r.Err? {
        completedAt := failedAt;
      }
    }

    /** `cancel_task`: only an active id is cancelled, being dropped from the
        active set and recorded CANCELLED with a completion time. */
    method CancelTask(id: string, clock: Clock) returns (cancelled: bool)
      requires Valid()
      modifies this, store, clock
      ensures Valid()
      ensures cancelled <==> id in old(active)
      ensures active == old(active) - {id}
      ensures !cancelled ==>
        && store.tasks == old(store.tasks) && store.steps == old(store.steps) && store.order == old(store.order)
        && writes == old(writes) && clock.time == old(clock.time)
      // the CANCELLED write goes through `update_task_status` like any other
      ensures cancelled ==>
        && writes == old(writes) + [StatusWrite(id, TaskStatus.Cancelled)]
        && store.tasks == old(store.tasks)[id := ApplyUpdate(
             if id in old(store.tasks) then old(store.tasks)[id] else NewTask(id, old(clock.time) + 1),
             CancelledUpdate(old(clock.time)))]
        && store.steps == StepsAfterWrite(old(store.tasks), old(store.steps), id)
        && store.order == OrderAfterWrite(old(store.tasks), old(store.order), id)
        && clock.time == old(clock.time) + if id in old(store.tasks) then 1 else 2
    {
      if id in active {
        active := active - {id};
        var completedAt := clock.Now();
        Write(id, CancelledUpdate(completedAt), clock);
        cancelled := true;
      } else {
        cancelled := false;
      }
    }

    /** `get_task_status`: the store's record, which never carries steps. */
    method GetTaskStatus(id: string) returns (r: Option<TaskResult>)
      requires Valid()
      ensures r == store.GetTask(id)
      ensures r.Some? <==> id in store.tasks
      ensures r.Some? ==> r.value.id == id && r.value.steps == []
    {
      r := store.GetTask(id);
    }

    /** `list_tasks`: the store's page. */
    method ListTasks(limit: int, offset: int) returns (r: seq<TaskResult>)
      requires Valid()
      ensures r == store.ListTasks(limit, offset)
      ensures 0 <= limit ==> |r| <= limit
      ensures forall t :: t in r ==> t.id in store.tasks && t.steps == []
    {
      r := store.ListTasks(limit, offset);
    }

    /** `get_statistics`: the store's counters. */
    method GetStatistics() returns (r: Statistics)
      requires Valid()
      ensures r == store.GetStatistics()
      ensures r.totalTasks == |store.tasks|
    {
      r := store.GetStatistics();
    }
  }
}
