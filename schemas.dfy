/** Records and enumerations shared by the backend: the task and step schemas,
    the optional-value and exception wrappers, and the wall clock. */
module Schemas {

  datatype Option<+T> = None | Some(value: T) {
    function GetOr(default: T): T {
      match this
      case Some(v) => v
      case None => default
    }
  }

  /** The outcome of a Python call that either returns a value or raises an
      exception; `message` is `str(e)`. */
  datatype Result<+T> = Ok(value: T) | Err(message: string)

  datatype TaskStatus = Pending | Running | Completed | Failed | Cancelled

  datatype StepStatus = Pending | Running | Completed | Failed | Skipped

  /** The loosely typed values stored in a task's metadata dictionary. */
  datatype MetaValue = Text(text: string) | Number(number: real) | Null | List(items: seq<MetaValue>)

  type Metadata = map<string, MetaValue>

  /** A point in time, in ticks since `datetime.min`. */
  type Instant = nat

  /** One logged step of a task's execution. */
  datatype StepLog = StepLog(
    id: string,
    taskId: string,
    stepName: string,
    status: StepStatus,
    message: Option<string>,
    startedAt: Option<Instant>,
    completedAt: Option<Instant>,
    duration: Option<int>)

  /** The stored record of one task. */
  datatype TaskResult = TaskResult(
    id: string,
    status: TaskStatus,
    output: Option<string>,
    error: Option<string>,
    steps: seq<StepLog>,
    metadata: Metadata,
    startedAt: Option<Instant>,
    completedAt: Option<Instant>,
    duration: Option<int>)

  /** The request that starts a task; the field bounds the schema declares are
      not enforced by the code modelled here. */
  datatype TaskRequest = TaskRequest(
    prompt: string,
    model: Option<string>,
    temperature: Option<real>,
    maxTokens: Option<int>,
    systemPrompt: Option<string>)
}

/** The wall clock `datetime.utcnow()`, as a logical clock: every reading is
    one tick later than the previous one. */
module Time {
  import opened Schemas

  class Clock {
    var time: Instant

    constructor (start: Instant)
      ensures time == start
    {
      time := start;
    }

    method Now() returns (t: Instant)
      modifies this
      ensures t == old(time) && time == old(time) + 1
    {
      t := time;
      time := time + 1;
    }
  }
}
