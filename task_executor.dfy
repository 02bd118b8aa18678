/** The agent that runs a task through the plan → execute → reflect workflow,
    logging every phase as steps in a task store of its own. The language
    model is an oracle: each query either answers or raises. */
module Agents {
  import opened Schemas
  import opened Time
  import opened TaskStorage

  /** What each workflow node asks the language model (the prompt templates
      are reduced to the values they interpolate). */
  datatype LlmQuery =
    | PlanQuery(task: string)
    | ExecuteQuery(plan: string, task: string)
    | ReflectQuery(output: string)

  /** The effect of one model call: an answer, or an exception with `str(e)`. */
  datatype LlmReply = Answer(content: string) | Raise(error: string)

  type Llm = LlmQuery -> LlmReply

  /** The state dictionary threaded through the workflow nodes. */
  datatype WorkflowState = WorkflowState(
    taskId: string,
    prompt: string,
    model: Option<string>,
    temperature: Option<real>,
    maxTokens: Option<int>,
    systemPrompt: Option<string>,
    plan: Option<string>,
    output: Option<string>,
    reflection: Option<string>)

  /** The dictionary `execute` returns on success. */
  datatype ExecutionResult = ExecutionResult(output: Option<string>, metadata: Metadata)

  /** The name, status and message of a logged step: what the protocol fixes. */
  datatype StepSummary = StepSummary(name: string, status: StepStatus, message: string)

  // Step names and fixed messages used by the executor.
  const InitializationStep := "Task Initialization"
  const PlanningStep := "Planning"
  const ExecutionStep := "Execution"
  const ReflectionStep := "Reflection"
  const ExecutionFailureStep := "Task Execution"

  /** ASCII lower-casing of one character. */
  function LowerChar(c: char): (r: char)
    ensures !('A' <= r <= 'Z')
    ensures 'A' <= c <= 'Z' ==> r as int == c as int + 32
    ensures !('A' <= c <= 'Z') ==> r == c
  {
    if 'A' <= c <= 'Z' then (c as int + 32) as char else c
  }

  function Lower(s: string): (r: string)
    ensures |r| == |s|
    ensures forall i :: 0 <= i < |s| ==> r[i] == LowerChar(s[i])
  {
    if s == [] then [] else [LowerChar(s[0])] + Lower(s[1..])
  }

  lemma LowerIdempotent(s: string)
    ensures Lower(Lower(s)) == Lower(s)
  {
    assert forall i :: 0 <= i < |s| ==> LowerChar(LowerChar(s[i])) == LowerChar(s[i]);
  }

  /** The id `_add_step` gives a step: `task_id + "_" + step_name.lower()`. */
  function StepId(taskId: string, stepName: string): (r: string)
    ensures taskId + "_" <= r && |r| == |taskId| + 1 + |stepName|
  {
    taskId + "_" + Lower(stepName)
  }

  /** Within one task, two step names get the same id exactly when they agree
      after lower-casing; so all records of one phase share one id. */
  lemma StepIdSameTask(taskId: string, a: string, b: string)
    ensures StepId(taskId, a) == StepId(taskId, b) <==> Lower(a) == Lower(b)
  {
    if StepId(taskId, a) == StepId(taskId, b) {
      var n := |taskId| + 1;
      assert StepId(taskId, a)[n..] == Lower(a);
      assert StepId(taskId, b)[n..] == Lower(b);
    }
  }

  predicate Terminal(status: StepStatus) {
    status == StepStatus.Completed || status == StepStatus.Failed
  }

  function Summary(s: StepLog): StepSummary {
    StepSummary(s.stepName, s.status, s.message.GetOr(""))
  }

  /** A step as `_add_step` records it: its id derived from the task id and the
      name, a start time, and a completion time and duration exactly when the
      status is terminal. */
  ghost predicate LoggedStep(s: StepLog, taskId: string) {
    && s.id == StepId(taskId, s.stepName)
    && s.taskId == taskId
    && s.message.Some?
    && s.startedAt.Some?
    && (s.completedAt.Some? <==> Terminal(s.status))
    && (s.duration.Some? <==> Terminal(s.status))
    && (Terminal(s.status) ==>
          s.startedAt.value <= s.completedAt.value
          && s.duration.value == s.completedAt.value - s.startedAt.value)
  }

  function Summaries(steps: seq<StepLog>): (r: seq<StepSummary>)
    ensures |r| == |steps|
    ensures forall i :: 0 <= i < |steps| ==> r[i] == Summary(steps[i])
  {
    if steps == [] then [] else [Summary(steps[0])] + Summaries(steps[1..])
  }

  /** Summarising distributes over appending steps. */
  lemma SummariesAppend(a: seq<StepLog>, b: seq<StepLog>)
    ensures Summaries(a + b) == Summaries(a) + Summaries(b)
  {
    assert forall i :: 0 <= i < |a + b| ==> Summaries(a + b)[i] == (Summaries(a) + Summaries(b))[i];
  }

  /** The step list only ever grows: prefixes compose. */
  lemma PrefixTrans(a: seq<StepLog>, b: seq<StepLog>, c: seq<StepLog>)
    requires a <= b && b <= c
    ensures a <= c
  {
    assert c[..|a|] == c[..|b|][..|a|];
  }

  /** Two appends to a phase's log in a row are one append of both parts;
      stated apart so the phase methods need not reason about concatenation. */
  lemma AppendChain(s0: seq<StepSummary>, s1: seq<StepSummary>, s2: seq<StepSummary>,
                    a: seq<StepSummary>, b: seq<StepSummary>)
    requires s1 == s0 + a && s2 == s1 + b
    ensures s2 == s0 + (a + b)
  {
  }

  /** Two writes to the same key of the step map are the last write. */
  lemma UpdateChain(m0: map<string, seq<StepLog>>, m1: map<string, seq<StepLog>>, m2: map<string, seq<StepLog>>,
                    k: string, v1: seq<StepLog>, v2: seq<StepLog>)
    requires m1 == m0[k := v1] && m2 == m1[k := v2]
    ensures m2 == m0[k := v2]
  {
  }

  /** Moving the next node's log from the pending part to the logged part
      keeps the total. */
  lemma ShiftLog(total: seq<StepSummary>, logged: seq<StepSummary>, head: seq<StepSummary>,
                 rest: seq<StepSummary>, logged': seq<StepSummary>)
    requires logged + (head + rest) == total && logged' == logged + head
    ensures logged' + rest == total
  {
  }

  /** Every step stored under a task id was logged for that task. */
  ghost predicate WellLogged(steps: map<string, seq<StepLog>>) {
    forall id, i :: id in steps && 0 <= i < |steps[id]| ==> LoggedStep(steps[id][i], id)
  }

  /** Appending a well-formed step keeps every stored step well formed. */
  lemma WellLoggedAppend(steps: map<string, seq<StepLog>>, taskId: string, step: StepLog)
    requires WellLogged(steps) && LoggedStep(step, taskId)
    ensures WellLogged(steps[taskId := (if taskId in steps then steps[taskId] else []) + [step]])
  {
  }

  // ---------------------------------------------------------------------------
  // The workflow, as functions of the model oracle

  /** The nodes of the compiled graph. */
  datatype Node = PlanNode | ExecuteNode | ReflectNode

  /** `_build_workflow`: entry point "plan", then the edges plan → execute →
      reflect → END, as the order in which the nodes run. */
  const Workflow: seq<Node> := [PlanNode, ExecuteNode, ReflectNode]

  /** The step name each node logs under. */
  function NodeName(n: Node): string {
    match n
    case PlanNode => PlanningStep
    case ExecuteNode => ExecutionStep
    case ReflectNode => ReflectionStep
  }

  function RunningMessage(n: Node): string {
    match n
    case PlanNode => "Analyzing task requirements"
    case ExecuteNode => "Executing task"
    case ReflectNode => "Analyzing execution results"
  }

  /** The prompt a node sends, reduced to the state values it interpolates. */
  function Query(n: Node, s: WorkflowState): LlmQuery {
    match n
    case PlanNode => PlanQuery(s.prompt)
    case ExecuteNode => ExecuteQuery(s.plan.GetOr(""), s.prompt)
    case ReflectNode => ReflectQuery(s.output.GetOr(""))
  }

  /** The message of a node's COMPLETED step, given the model's answer. */
  function CompletedMessage(n: Node, answer: string): string {
    match n
    case ExecuteNode => "Task executed successfully"
    case _ => answer
  }

  /** The state a node returns: the answer stored under the node's key. */
  function Record(n: Node, s: WorkflowState, answer: string): (r: WorkflowState)
    ensures r.taskId == s.taskId && r.prompt == s.prompt
  {
    match n
    case PlanNode => s.(plan := Some(answer))
    case ExecuteNode => s.(output := Some(answer))
    case ReflectNode => s.(reflection := Some(answer))
  }

  /** One phase's log: RUNNING, then COMPLETED with `done` or FAILED with the error. */
  function PhaseLog(name: string, runningMessage: string, reply: LlmReply, done: string): seq<StepSummary> {
    [StepSummary(name, StepStatus.Running, runningMessage)]
    + match reply
      case Answer(_) => [StepSummary(name, StepStatus.Completed, done)]
      case Raise(e) => [StepSummary(name, StepStatus.Failed, e)]
  }

  /** What a node returns or raises. */
  function NodeResult(n: Node, s: WorkflowState, llm: Llm): Result<WorkflowState> {
    match llm(Query(n, s))
    case Answer(c) => Ok(Record(n, s, c))
    case Raise(e) => Err(e)
  }

  /** The steps a node logs. */
  function NodeLog(n: Node, s: WorkflowState, llm: Llm): seq<StepSummary> {
    var reply := llm(Query(n, s));
    PhaseLog(NodeName(n), RunningMessage(n), reply,
             match reply case Answer(c) => CompletedMessage(n, c) case Raise(_) => "")
  }

  /** Running `nodes` in order from `s`; the first node that raises ends the
      run with its exception. */
  function RunNodes(nodes: seq<Node>, s: WorkflowState, llm: Llm): Result<WorkflowState> {
    if nodes == [] then Ok(s)
    else
      match NodeResult(nodes[0], s, llm)
      case Err(e) => Err(e)
      case Ok(s1) => RunNodes(nodes[1..], s1, llm)
  }

  /** The steps logged while running `nodes` from `s`. */
  function NodesLog(nodes: seq<Node>, s: WorkflowState, llm: Llm): seq<StepSummary> {
    if nodes == [] then []
    else
      NodeLog(nodes[0], s, llm) +
      match NodeResult(nodes[0], s, llm)
      case Err(_) => []
      case Ok(s1) => NodesLog(nodes[1..], s1, llm)
  }

  /** One step of `RunNodes` and `NodesLog`. */
  lemma NodesStep(nodes: seq<Node>, s: WorkflowState, llm: Llm)
    requires nodes != []
    ensures NodeResult(nodes[0], s, llm).Err? ==>
      RunNodes(nodes, s, llm) == NodeResult(nodes[0], s, llm)
      && NodesLog(nodes, s, llm) == NodeLog(nodes[0], s, llm) + []
    ensures NodeResult(nodes[0], s, llm).Ok? ==>
      RunNodes(nodes, s, llm) == RunNodes(nodes[1..], NodeResult(nodes[0], s, llm).value, llm)
      && NodesLog(nodes, s, llm)
         == NodeLog(nodes[0], s, llm) + NodesLog(nodes[1..], NodeResult(nodes[0], s, llm).value, llm)
  {
  }

  function InitialState(taskId: string, request: TaskRequest): WorkflowState {
    WorkflowState(taskId, request.prompt, request.model, request.temperature,
                  request.maxTokens, request.systemPrompt, None, None, None)
  }

  function TextOrNull(v: Option<string>): MetaValue {
    match v case Some(t) => Text(t) case None => Null
  }

  function NumberOrNull(v: Option<real>): MetaValue {
    match v case Some(x) => Number(x) case None => Null
  }

  /** What `execute` returns or raises. */
  function ExecutionOutcome(taskId: string, request: TaskRequest, llm: Llm): (r: Result<ExecutionResult>)
    ensures r.Ok? ==>
      && r.value.metadata.Keys == {"steps", "model", "temperature"}
      && r.value.metadata["model"] == TextOrNull(request.model)
      && r.value.metadata["temperature"] == NumberOrNull(request.temperature)
  {
    match RunNodes(Workflow, InitialState(taskId, request), llm)
    case Err(e) => Err(e)
    case Ok(final) =>
      // the state's own step list, which no node extends, is still empty
      Ok(ExecutionResult(final.output, map["steps" := List([]),
                                           "model" := TextOrNull(request.model),
                                           "temperature" := NumberOrNull(request.temperature)]))
  }

  /** Every step `execute` logs, in order. */
  function RunLog(taskId: string, request: TaskRequest, llm: Llm): seq<StepSummary> {
    [StepSummary(InitializationStep, StepStatus.Completed, "Task execution started")]
    + NodesLog(Workflow, InitialState(taskId, request), llm)
    + match RunNodes(Workflow, InitialState(taskId, request), llm)
      case Ok(_) => []
      case Err(e) => [StepSummary(ExecutionFailureStep, StepStatus.Failed, e)]
  }

  lemma RunLogCases(taskId: string, request: TaskRequest, llm: Llm)
    ensures var init := [StepSummary(InitializationStep, StepStatus.Completed, "Task execution started")];
      var wlog := NodesLog(Workflow, InitialState(taskId, request), llm);
      match RunNodes(Workflow, InitialState(taskId, request), llm)
      case Ok(_) => RunLog(taskId, request, llm) == init + wlog
      case Err(e) => RunLog(taskId, request, llm) == init + wlog + [StepSummary(ExecutionFailureStep, StepStatus.Failed, e)]
  {
    var init := [StepSummary(InitializationStep, StepStatus.Completed, "Task execution started")];
    var wlog := NodesLog(Workflow, InitialState(taskId, request), llm);
    if RunNodes(Workflow, InitialState(taskId, request), llm).Ok? {
      assert RunLog(taskId, request, llm) == init + wlog + [];
    }
  }

  // ---------------------------------------------------------------------------
  // Properties of the step-logging protocol

  /** Every RUNNING entry is followed at once by a terminal entry of the same name. */
  ghost predicate PhaseProtocol(log: seq<StepSummary>) {
    forall i :: 0 <= i < |log| && log[i].status == StepStatus.Running ==>
      i + 1 < |log| && log[i + 1].name == log[i].name && Terminal(log[i + 1].status)
  }

  lemma ProtocolConcat(a: seq<StepSummary>, b: seq<StepSummary>)
    requires PhaseProtocol(a) && PhaseProtocol(b)
    ensures PhaseProtocol(a + b)
  {
    forall i | 0 <= i < |a + b| && (a + b)[i].status == StepStatus.Running
      ensures i + 1 < |a + b| && (a + b)[i + 1].name == (a + b)[i].name && Terminal((a + b)[i + 1].status)
    {
      if i >= |a| {
        assert (a + b)[i] == b[i - |a|];
        assert (a + b)[i + 1] == b[i - |a| + 1];
      } else {
        assert (a + b)[i] == a[i];
        assert (a + b)[i + 1] == a[i + 1];
      }
    }
  }

  /** The names of the RUNNING entries, in order. */
  function PhasesStarted(log: seq<StepSummary>): seq<string> {
    if log == [] then []
    else (if log[0].status == StepStatus.Running then [log[0].name] else []) + PhasesStarted(log[1..])
  }

  lemma {:induction false} PhasesStartedConcat(a: seq<StepSummary>, b: seq<StepSummary>)
    ensures PhasesStarted(a + b) == PhasesStarted(a) + PhasesStarted(b)
  {
    if a != [] {
      PhasesStartedConcat(a[1..], b);
      assert (a + b)[1..] == a[1..] + b;
    } else {
      assert a + b == b;
    }
  }

  lemma PrefixCons(x: string, a: seq<string>, b: seq<string>)
    requires a <= b
    ensures [x] + a <= [x] + b
  {
    assert ([x] + b)[..|[x] + a|] == [x] + b[..|a|];
  }

  /** The phase names of a node sequence, in the order the graph runs them. */
  function NodeNames(nodes: seq<Node>): (r: seq<string>)
    ensures |r| == |nodes|
    ensures forall i :: 0 <= i < |nodes| ==> r[i] == NodeName(nodes[i])
  {
    if nodes == [] then [] else [NodeName(nodes[0])] + NodeNames(nodes[1..])
  }

  lemma PhaseLogFacts(name: string, running: string, reply: LlmReply, done: string)
    ensures var log := PhaseLog(name, running, reply, done);
      && |log| == 2 && PhaseProtocol(log) && PhasesStarted(log) == [name]
      && log[1].name == name && Terminal(log[1].status)
      && (reply.Answer? <==> log[1].status == StepStatus.Completed)
      && (reply.Raise? ==> log[1].message == reply.error)
  {
    var log := PhaseLog(name, running, reply, done);
    assert log[1..][1..] == [];
    assert PhasesStarted(log[1..]) == [] + PhasesStarted(log[1..][1..]);
  }

  /** The log of a run of nodes keeps the protocol and starts the phases in
      node order, all of them when the run succeeds. */
  lemma {:induction false} NodesLogProtocol(nodes: seq<Node>, s: WorkflowState, llm: Llm)
    ensures var log := NodesLog(nodes, s, llm);
      && PhaseProtocol(log)
      && PhasesStarted(log) <= NodeNames(nodes)
      && (RunNodes(nodes, s, llm).Ok? ==> PhasesStarted(log) == NodeNames(nodes))
  {
    if nodes != [] {
      var n := nodes[0];
      var head := NodeLog(n, s, llm);
      var reply := llm(Query(n, s));
      PhaseLogFacts(NodeName(n), RunningMessage(n), reply,
                    match reply case Answer(c) => CompletedMessage(n, c) case Raise(_) => "");
      assert NodeNames(nodes) == [NodeName(n)] + NodeNames(nodes[1..]);
      NodesStep(nodes, s, llm);
      match NodeResult(n, s, llm)
      case Err(e) => {
        assert NodesLog(nodes, s, llm) == head;
        PrefixCons(NodeName(n), [], NodeNames(nodes[1..]));
      }
      case Ok(s1) => {
        var rest := NodesLog(nodes[1..], s1, llm);
        NodesLogProtocol(nodes[1..], s1, llm);
        ProtocolConcat(head, rest);
        PhasesStartedConcat(head, rest);
        PrefixCons(NodeName(n), PhasesStarted(rest), NodeNames(nodes[1..]));
      }
    }
  }

  /** The last entry of a run's log: the last node's COMPLETED step when the
      run succeeds, or the raising node's FAILED step carrying the error. */
  lemma {:induction false} NodesLogEnd(nodes: seq<Node>, s: WorkflowState, llm: Llm)
    ensures var log := NodesLog(nodes, s, llm);
      && (RunNodes(nodes, s, llm).Ok? && nodes != [] ==>
            && |log| >= 2
            && log[|log| - 1].name == NodeName(nodes[|nodes| - 1])
            && log[|log| - 1].status == StepStatus.Completed)
      && (RunNodes(nodes, s, llm).Err? ==>
            |log| >= 2
            && log[|log| - 1].status == StepStatus.Failed
            && log[|log| - 1].message == RunNodes(nodes, s, llm).message)
  {
    if nodes != [] {
      var n := nodes[0];
      var head := NodeLog(n, s, llm);
      var reply := llm(Query(n, s));
      PhaseLogFacts(NodeName(n), RunningMessage(n), reply,
                    match reply case Answer(c) => CompletedMessage(n, c) case Raise(_) => "");
      NodesStep(nodes, s, llm);
      match NodeResult(n, s, llm)
      case Err(e) => {
        assert NodesLog(nodes, s, llm) == head;
      }
      case Ok(s1) => {
        var rest := NodesLog(nodes[1..], s1, llm);
        NodesLogEnd(nodes[1..], s1, llm);
        if nodes[1..] == [] {
          assert rest == [];
          assert head + rest == head;
        } else {
          assert nodes[|nodes| - 1] == nodes[1..][|nodes[1..]| - 1];
          assert (head + rest)[|head + rest| - 1] == rest[|rest| - 1];
        }
      }
    }
  }

  lemma WorkflowNames()
    ensures NodeNames(Workflow) == [PlanningStep, ExecutionStep, ReflectionStep]
    ensures NodeName(Workflow[|Workflow| - 1]) == ReflectionStep
  {
    assert Workflow[1..] == [ExecuteNode, ReflectNode];
    assert Workflow[1..][1..] == [ReflectNode];
    assert Workflow[1..][1..][1..] == [];
  }

  /** The logging protocol of one `execute` run: it opens with the
      initialisation step; every phase logs RUNNING and then exactly one
      COMPLETED or FAILED step of its own name; and the phases start in the
      order plan, execute, reflect. */
  lemma RunLogProtocol(taskId: string, request: TaskRequest, llm: Llm)
    ensures var log := RunLog(taskId, request, llm);
      && log[0] == StepSummary(InitializationStep, StepStatus.Completed, "Task execution started")
      && PhaseProtocol(log)
      && PhasesStarted(log) <= [PlanningStep, ExecutionStep, ReflectionStep]
      && (ExecutionOutcome(taskId, request, llm).Ok? ==>
            PhasesStarted(log) == [PlanningStep, ExecutionStep, ReflectionStep])
  {
    var s0 := InitialState(taskId, request);
    var init := [StepSummary(InitializationStep, StepStatus.Completed, "Task execution started")];
    var wlog := NodesLog(Workflow, s0, llm);
    NodesLogProtocol(Workflow, s0, llm);
    WorkflowNames();
    assert init[1..] == [];
    assert PhasesStarted(init) == [];
    ProtocolConcat(init, wlog);
    PhasesStartedConcat(init, wlog);
    RunLogCases(taskId, request, llm);
    match RunNodes(Workflow, s0, llm)
    case Ok(_) => {
      assert RunLog(taskId, request, llm) == init + wlog;
    }
    case Err(e) => {
      var tail := [StepSummary(ExecutionFailureStep, StepStatus.Failed, e)];
      assert RunLog(taskId, request, llm) == (init + wlog) + tail;
      assert PhasesStarted(tail) == [] + PhasesStarted(tail[1..]);
      ProtocolConcat(init + wlog, tail);
      PhasesStartedConcat(init + wlog, tail);
    }
  }

  /** How a run's log ends: it succeeds exactly when the last step is
      reflection's COMPLETED step, and a failed run ends with the failing
      phase's FAILED step followed by the "Task Execution" failure, both
      carrying the error. */
  lemma RunLogOutcome(taskId: string, request: TaskRequest, llm: Llm)
    ensures var log := RunLog(taskId, request, llm);
      && (ExecutionOutcome(taskId, request, llm).Ok? <==>
            log[|log| - 1].name == ReflectionStep && log[|log| - 1].status == StepStatus.Completed)
      && (ExecutionOutcome(taskId, request, llm).Err? ==>
            var e := ExecutionOutcome(taskId, request, llm).message;
            |log| >= 4
            && log[|log| - 1] == StepSummary(ExecutionFailureStep, StepStatus.Failed, e)
            && log[|log| - 2].status == StepStatus.Failed && log[|log| - 2].message == e)
  {
    var s0 := InitialState(taskId, request);
    var init := [StepSummary(InitializationStep, StepStatus.Completed, "Task execution started")];
    var wlog := NodesLog(Workflow, s0, llm);
    NodesLogEnd(Workflow, s0, llm);
    WorkflowNames();
    RunLogCases(taskId, request, llm);
    var log := RunLog(taskId, request, llm);
    match RunNodes(Workflow, s0, llm)
    case Ok(_) => {
      assert log == init + wlog;
      assert log[|log| - 1] == wlog[|wlog| - 1];
    }
    case Err(e) => {
      assert log == (init + wlog) + [StepSummary(ExecutionFailureStep, StepStatus.Failed, e)];
      assert log[|log| - 2] == wlog[|wlog| - 1];
      assert |ExecutionFailureStep| != |ReflectionStep|;
    }
  }

  // ---------------------------------------------------------------------------
  // The executor object

  class TaskExecutor {
    /** The executor's own store, distinct from any other component's. */
    const store: TaskStore

    /** The executor only ever adds steps, each as `_add_step` builds it: its
        store holds no task record, and every stored step is well formed. */
    ghost predicate Valid()
      reads this, store
    {
      store.Valid() && store.tasks == map[] && WellLogged(store.steps)
    }

    constructor ()
      ensures Valid() && fresh(store) && store.steps == map[]
    {
      store := new TaskStore();
    }

    /** `_add_step`: builds the step record and appends it to the store. */
    method AddStep(taskId: string, stepName: string, status: StepStatus, message: string, clock: Clock)
      requires Valid()
      modifies store, clock
      ensures Valid() && store.order == old(store.order)
      ensures store.steps == old(store.steps)[taskId := store.StepsOf(taskId)]
      ensures old(store.StepsOf(taskId)) <= store.StepsOf(taskId)
      ensures |store.StepsOf(taskId)| == |old(store.StepsOf(taskId))| + 1
      ensures Summaries(store.StepsOf(taskId))
           == Summaries(old(store.StepsOf(taskId))) + [StepSummary(stepName, status, message)]
      // the new step's times are the clock readings taken while building it
      ensures var step := store.StepsOf(taskId)[|store.StepsOf(taskId)| - 1];
        && step.id == StepId(taskId, stepName) && step.taskId == taskId
        && step.startedAt == Some(old(clock.time))
        && (Terminal(status) ==> step.completedAt == Some(old(clock.time) + 1) && step.duration == Some(1))
        && (!Terminal(status) ==> step.completedAt.None? && step.duration.None?)
      ensures clock.time == old(clock.time) + if Terminal(status) then 2 else 1
    {
      var startedAt := clock.Now();
      var step := StepLog(StepId(taskId, stepName), taskId, stepName, status, Some(message),
                          Some(startedAt), None, None);
      if status == StepStatus.Completed || status == StepStatus.Failed {
        var completedAt := clock.Now();
        step := step.(completedAt := Some(completedAt));
        if step.startedAt.Some? {
          step := step.(duration := Some(completedAt - step.startedAt.value));
        }
      }
      assert LoggedStep(step, taskId);
      ghost var before := store.StepsOf(taskId);
      ghost var oldSteps := store.steps;
      store.AddStep(taskId, step);
      assert store.StepsOf(taskId) == before + [step];
      SummariesAppend(before, [step]);
      assert Summaries([step]) == [StepSummary(stepName, status, message)];
      WellLoggedAppend(oldSteps, taskId, step);
    }

    /** One workflow node: logs RUNNING, asks the model, then logs COMPLETED
        with `doneMessage` or FAILED with the error. */
    method RunPhase(taskId: string, name: string, runningMessage: string, reply: LlmReply,
                    doneMessage: string, clock: Clock)
      requires Valid()
      modifies store, clock
      ensures Valid() && store.order == old(store.order) && old(clock.time) < clock.time
      ensures store.steps == old(store.steps)[taskId := store.StepsOf(taskId)]
      ensures old(store.StepsOf(taskId)) <= store.StepsOf(taskId)
      ensures Summaries(store.StepsOf(taskId))
           == Summaries(old(store.StepsOf(taskId))) + PhaseLog(name, runningMessage, reply, doneMessage)
    {
      ghost var m0, l0 := store.steps, store.StepsOf(taskId);
      AddStep(taskId, name, StepStatus.Running, runningMessage, clock);
      ghost var m1, l1 := store.steps, store.StepsOf(taskId);
      var status := if reply.Answer? then StepStatus.Completed else StepStatus.Failed;
      var message := if reply.Answer? then doneMessage else reply.error;
      AddStep(taskId, name, status, message, clock);
      assert PhaseLog(name, runningMessage, reply, doneMessage)
          == [StepSummary(name, StepStatus.Running, runningMessage)] + [StepSummary(name, status, message)];
      AppendChain(Summaries(l0), Summaries(l1), Summaries(store.StepsOf(taskId)),
                  [StepSummary(name, StepStatus.Running, runningMessage)], [StepSummary(name, status, message)]);
      UpdateChain(m0, m1, store.steps, taskId, l1, store.StepsOf(taskId));
      PrefixTrans(l0, l1, store.StepsOf(taskId));
    }

    /** `_plan_task` */
    method PlanTask(state: WorkflowState, llm: Llm, clock: Clock) returns (r: Result<WorkflowState>)
      requires Valid()
      modifies store, clock
      ensures Valid() && store.order == old(store.order) && old(clock.time) < clock.time
      ensures store.steps == old(store.steps)[state.taskId := store.StepsOf(state.taskId)]
      ensures old(store.StepsOf(state.taskId)) <= store.StepsOf(state.taskId)
      ensures Summaries(store.StepsOf(state.taskId))
           == Summaries(old(store.StepsOf(state.taskId))) + NodeLog(PlanNode, state, llm)
      ensures r == NodeResult(PlanNode, state, llm)
    {
      var reply := llm(PlanQuery(state.prompt));
      var plan := match reply case Answer(p) => p case Raise(_) => "";
      assert reply == llm(Query(PlanNode, state));
      assert NodeLog(PlanNode, state, llm) == PhaseLog(PlanningStep, "Analyzing task requirements", reply, plan);
      RunPhase(state.taskId, PlanningStep, "Analyzing task requirements", reply, plan, clock);
      match reply
      case Answer(p) => r := Ok(state.(plan := Some(p)));
      case Raise(e) => r := Err(e);
    }

    /** `_execute_task` */
    method ExecuteTask(state: WorkflowState, llm: Llm, clock: Clock) returns (r: Result<WorkflowState>)
      requires Valid()
      modifies store, clock
      ensures Valid() && store.order == old(store.order) && old(clock.time) < clock.time
      ensures store.steps == old(store.steps)[state.taskId := store.StepsOf(state.taskId)]
      ensures old(store.StepsOf(state.taskId)) <= store.StepsOf(state.taskId)
      ensures Summaries(store.StepsOf(state.taskId))
           == Summaries(old(store.StepsOf(state.taskId))) + NodeLog(ExecuteNode, state, llm)
      ensures r == NodeResult(ExecuteNode, state, llm)
    {
      var reply := llm(ExecuteQuery(state.plan.GetOr(""), state.prompt));
      assert reply == llm(Query(ExecuteNode, state));
      assert NodeLog(ExecuteNode, state, llm) == PhaseLog(ExecutionStep, "Executing task", reply, "Task executed successfully");
      RunPhase(state.taskId, ExecutionStep, "Executing task", reply, "Task executed successfully", clock);
      match reply
      case Answer(output) => r := Ok(state.(output := Some(output)));
      case Raise(e) => r := Err(e);
    }

    /** `_reflect_task` */
    method ReflectTask(state: WorkflowState, llm: Llm, clock: Clock) returns (r: Result<WorkflowState>)
      requires Valid()
      modifies store, clock
      ensures Valid() && store.order == old(store.order) && old(clock.time) < clock.time
      ensures store.steps == old(store.steps)[state.taskId := store.StepsOf(state.taskId)]
      ensures old(store.StepsOf(state.taskId)) <= store.StepsOf(state.taskId)
      ensures Summaries(store.StepsOf(state.taskId))
           == Summaries(old(store.StepsOf(state.taskId))) + NodeLog(ReflectNode, state, llm)
      ensures r == NodeResult(ReflectNode, state, llm)
    {
      var reply := llm(ReflectQuery(state.output.GetOr("")));
      var reflection := match reply case Answer(c) => c case Raise(_) => "";
      assert reply == llm(Query(ReflectNode, state));
      assert NodeLog(ReflectNode, state, llm) == PhaseLog(ReflectionStep, "Analyzing execution results", reply, reflection);
      RunPhase(state.taskId, ReflectionStep, "Analyzing execution results", reply, reflection, clock);
      match reply
      case Answer(c) => r := Ok(state.(reflection := Some(c)));
      case Raise(e) => r := Err(e);
    }

    /** The graph calling the method registered for a node. */
    method RunNode(n: Node, state: WorkflowState, llm: Llm, clock: Clock) returns (r: Result<WorkflowState>)
      requires Valid()
      modifies store, clock
      ensures Valid() && store.order == old(store.order) && old(clock.time) < clock.time
      ensures store.steps == old(store.steps)[state.taskId := store.StepsOf(state.taskId)]
      ensures old(store.StepsOf(state.taskId)) <= store.StepsOf(state.taskId)
      ensures Summaries(store.StepsOf(state.taskId))
           == Summaries(old(store.StepsOf(state.taskId))) + NodeLog(n, state, llm)
      ensures r == NodeResult(n, state, llm)
    {
      match n
      case PlanNode => r := PlanTask(state, llm, clock);
      case ExecuteNode => r := ExecuteTask(state, llm, clock);
      case ReflectNode => r := ReflectTask(state, llm, clock);
    }

    /** The compiled graph's `ainvoke`: the nodes along the edges, each given
        the state the previous one returned, until END or the first exception. */
    method RunWorkflow(state: WorkflowState, llm: Llm, clock: Clock) returns (r: Result<WorkflowState>)
      requires Valid()
      modifies store, clock
      ensures Valid() && store.order == old(store.order) && old(clock.time) < clock.time
      ensures store.steps == old(store.steps)[state.taskId := store.StepsOf(state.taskId)]
      ensures old(store.StepsOf(state.taskId)) <= store.StepsOf(state.taskId)
      ensures Summaries(store.StepsOf(state.taskId))
           == Summaries(old(store.StepsOf(state.taskId))) + NodesLog(Workflow, state, llm)
      ensures r == RunNodes(Workflow, state, llm)
    {
      var id := state.taskId;
      ghost var m0, l0 := store.steps, store.StepsOf(id);
      var current := state;
      var i := 0;
      while i < |Workflow|
        invariant 0 <= i <= |Workflow| && current.taskId == id
        invariant Valid() && store.order == old(store.order)
        invariant old(clock.time) <= clock.time && (i > 0 ==> old(clock.time) < clock.time)
        invariant i > 0 ==> store.steps == m0[id := store.StepsOf(id)]
        invariant i == 0 ==> store.steps == m0 && store.StepsOf(id) == l0
        invariant l0 <= store.StepsOf(id)
        invariant Summaries(store.StepsOf(id)) + NodesLog(Workflow[i..], current, llm)
               == Summaries(l0) + NodesLog(Workflow, state, llm)
        invariant RunNodes(Workflow[i..], current, llm) == RunNodes(Workflow, state, llm)
      {
        ghost var mi, li := store.steps, store.StepsOf(id);
        var next := RunNode(Workflow[i], current, llm, clock);
        if i > 0 {
          UpdateChain(m0, mi, store.steps, id, li, store.StepsOf(id));
        }
        PrefixTrans(l0, li, store.StepsOf(id));
        NodesStep(Workflow[i..], current, llm);
        if next.Err? {
          ShiftLog(Summaries(l0) + NodesLog(Workflow, state, llm), Summaries(li), NodeLog(Workflow[i], current, llm),
                   [], Summaries(store.StepsOf(id)));
          r := next;
          return;
        }
        ShiftLog(Summaries(l0) + NodesLog(Workflow, state, llm), Summaries(li), NodeLog(Workflow[i], current, llm),
                 NodesLog(Workflow[i + 1..], next.value, llm), Summaries(store.StepsOf(id)));
        current := next.value;
        i := i + 1;
      }
      assert Workflow[i..] == [];
      r := Ok(current);
    }

    /** `execute`: logs the initialisation step, runs the workflow, and on an
        exception logs a "Task Execution" failure and re-raises. */
    method Execute(taskId: string, request: TaskRequest, llm: Llm, clock: Clock)
      returns (r: Result<ExecutionResult>)
      requires Valid()
      modifies store, clock
      ensures Valid() && store.order == old(store.order) && old(clock.time) < clock.time
      ensures store.steps == old(store.steps)[taskId := store.StepsOf(taskId)]
      ensures old(store.StepsOf(taskId)) <= store.StepsOf(taskId)
      ensures Summaries(store.StepsOf(taskId))
           == Summaries(old(store.StepsOf(taskId))) + RunLog(taskId, request, llm)
      ensures r == ExecutionOutcome(taskId, request, llm)
    {
      var state := InitialState(taskId, request);
      ghost var m0, l0 := store.steps, store.StepsOf(taskId);
      ghost var init := [StepSummary(InitializationStep, StepStatus.Completed, "Task execution started")];
      AddStep(taskId, InitializationStep, StepStatus.Completed, "Task execution started", clock);
      ghost var m1, l1 := store.steps, store.StepsOf(taskId);
      var result := RunWorkflow(state, llm, clock);
      ghost var m2, l2 := store.steps, store.StepsOf(taskId);
      AppendChain(Summaries(l0), Summaries(l1), Summaries(l2), init, NodesLog(Workflow, state, llm));
      UpdateChain(m0, m1, m2, taskId, l1, l2);
      PrefixTrans(l0, l1, l2);
      RunLogCases(taskId, request, llm);
      match result
      case Ok(final) =>
        r := Ok(ExecutionResult(final.output, map["steps" := List([]),
                                                 "model" := TextOrNull(request.model),
                                                 "temperature" := NumberOrNull(request.temperature)]));
      case Err(e) =>
        AddStep(taskId, ExecutionFailureStep, StepStatus.Failed, e, clock);
        AppendChain(Summaries(l0), Summaries(l2), Summaries(store.StepsOf(taskId)),
                    init + NodesLog(Workflow, state, llm), [StepSummary(ExecutionFailureStep, StepStatus.Failed, e)]);
        UpdateChain(m0, m2, store.steps, taskId, l2, store.StepsOf(taskId));
        PrefixTrans(l0, l2, store.StepsOf(taskId));
        r := Err(e);
    }
  }
}
