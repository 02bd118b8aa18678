# taskflow in Dafny

A verified model of the logic at the core of taskflow, a small service that runs a natural-language task through an LLM-driven plan → execute → reflect workflow. The model covers:

- **The backend's in-memory task store.** It is a class over three fields: a dictionary of task records, the dictionary's insertion order, and a dictionary of step lists. It models task creation, the conditional field-by-field status update, step appends, the newest-first paginated listing and the statistics counters.
- **The task executor.** It logs every workflow phase into its own store through `_add_step`. The language model is an oracle that answers or raises. The compiled LangGraph graph is the fixed node order plan → execute → reflect, run by a loop.
- **The task service.** It writes a task's lifecycle statuses into its own store, runs the executor, and keeps the set of active task ids. Its store is a different object from the executor's, so it never receives a step.
- **The frontend's pieces of logic:**
  - the `useTaskflow` run hook, as a state record plus a pool of pending timer callbacks;
  - the demo-mode settings handlers;
  - the prompt box's trim-and-submit gate;
  - `truncateText` and `isValidEmail`, with the JavaScript whitespace class that `trim` and `\s` use.

Timestamps are whole numbers. `datetime.utcnow()` is a logical clock (`Time.Clock.Now`) that returns its reading and then advances by one. Durations are differences of readings.

Modules, one per source file:

| file | module | source |
|---|---|---|
| `schemas.dfy` | `Schemas`, `Time` | the schema records and enums; the clock |
| `task_store.dfy` | `TaskStorage` | `backend/src/storage/task_store.py` |
| `task_executor.dfy` | `Agents` | `backend/src/agents/task_executor.py` |
| `task_service.dfy` | `Services` | `backend/src/services/task_service.py` |
| `use_taskflow.dfy` | `Taskflow` | `frontend/src/hooks/useTaskflow.ts` |
| `demo_mode_toggle.dfy` | `DemoMode` | `frontend/src/components/DemoModeToggle.tsx` |
| `prompt_box.dfy` | `Prompt` | `frontend/src/components/PromptBox.tsx` |
| `js_strings.dfy` | `JsStrings` | `String.prototype.trim` and the `\s` class |
| `utils.dfy` | `Utils` | `frontend/src/lib/utils.ts` |

## Model

| member | source | states |
|---|---|---|
| TaskStorage.ApplyUpdate | backend/src/storage/task_store.py:40-54 | The status is always the new one. Output, error, start and completion change only when given. Metadata is merged key by key: new keys win and old keys stay. A given completion time sets the duration from the start time, including a start time written in the same call. Id and steps are untouched. |
| TaskStorage.TaskStore.CreateTask | backend/src/storage/task_store.py:17-24 | The id maps to a PENDING record started at the clock reading with no steps. Its step list is reset to empty, replacing any earlier record. Every other entry is unchanged, and a new id joins the end of the insertion order. |
| TaskStorage.TaskStore.UpdateTaskStatus | backend/src/storage/task_store.py:26-54 | A known id gets its record rewritten by the update and nothing else changes. An unknown id is first created (one clock reading) and then updated. The store invariant is kept. |
| TaskStorage.TaskStore.GetTask | backend/src/storage/task_store.py:56-58 | Returns a record exactly when the id is stored, and then the stored one. |
| TaskStorage.TaskStore.constructor | backend/src/storage/task_store.py:13-15 | A new store holds no tasks, no insertion order and no step lists. |
| TaskStorage.SortByStartDesc | backend/src/storage/task_store.py:62-66 | The sorted list has as many records as the input. |
| TaskStorage.SortByStartDescCorrect | backend/src/storage/task_store.py:62-66 | The sort returns a permutation of the records, ordered by descending start time, with a missing start counted as the minimum. Records with equal start times keep their insertion order. |
| TaskStorage.PySlice | backend/src/storage/task_store.py:67 | A slice is never longer than the list, nor longer than `stop - start` when 0 <= start <= stop. |
| TaskStorage.SliceFacts | backend/src/storage/task_store.py:67 | The Python slice `s[offset:offset+limit]` holds at most `limit` elements, all taken from `s` in order, so a sorted input gives a sorted page. |
| TaskStorage.PageOfSorted | backend/src/storage/task_store.py:60-67 | A page of the sorted records has at most `limit` entries, all stored and sorted. For non-negative bounds it is exactly the window `[offset, offset+limit)` of the sorted list. |
| TaskStorage.TaskStore.ListTasks | backend/src/storage/task_store.py:60-67 | The same page, read from the store: at most `limit` stored records, sorted newest first, and the window of the sorted records for non-negative bounds. The store is not changed. |
| TaskStorage.TaskStore.AddStep | backend/src/storage/task_store.py:69-77 | The step is appended at the end of the id's list, which is created if absent, and earlier steps are kept. The task record's steps become that list when the task exists. Other ids are untouched. |
| TaskStorage.CountsBounded | backend/src/storage/task_store.py:81-90 | Across any list of records, the completed, failed and running counts together never exceed its length. |
| TaskStorage.StatisticsFacts | backend/src/storage/task_store.py:81-90 | Counting a status over the stored records in dictionary order gives the number of stored ids with that status. |
| TaskStorage.TaskStore.GetStatistics | backend/src/storage/task_store.py:79-110 | The total is the number of stored tasks. Each count is the number of stored tasks with that status, and the three counts sum to at most the total. The success rate lies in 0..1 and is 0 for an empty store. |
| TaskStorage.SuccessRate | backend/src/storage/task_store.py:110 | The quotient lies in 0..1 and is 0 when there are no tasks. It is 0 exactly when none completed and 1 exactly when all did. |
| Agents.LowerChar | backend/src/agents/task_executor.py:207 | Lower-casing maps `A`..`Z` to `a`..`z`, keeps every other character, and never yields an upper-case ASCII letter. |
| Agents.Lower | backend/src/agents/task_executor.py:207 | Lower-casing keeps the length and lower-cases character by character. |
| Agents.LowerIdempotent | backend/src/agents/task_executor.py:207 | Lower-casing twice is lower-casing once. |
| Agents.StepId | backend/src/agents/task_executor.py:207 | A step id is the task id and `_`, followed by as many characters as the step name has. |
| Agents.StepIdSameTask | backend/src/agents/task_executor.py:207 | Within one task, two step names give the same step id exactly when they agree after lower-casing. So the RUNNING and COMPLETED records of one phase share an id. |
| Time.Clock.Now | backend/src/agents/task_executor.py:212 | A reading returns the clock's current time and advances it by one. |
| Agents.TaskExecutor.constructor | backend/src/agents/task_executor.py:19-23 | A new executor owns a fresh, empty store of its own. |
| Agents.TaskExecutor.AddStep | backend/src/agents/task_executor.py:202-220 | Exactly one step is appended to the executor's own store under the task id, with that name, status and message. Its id is the task id, `_` and the lower-cased name. Its start time is the clock's reading at the call. A COMPLETED or FAILED step also has the next reading as completion time and a duration of 1; any other step has neither. The clock advances by two for a terminal step and by one otherwise. |
| Agents.PhaseLogFacts | backend/src/agents/task_executor.py:107-132 | A phase logs two entries of its own name: RUNNING, then COMPLETED exactly when the model answered, and otherwise FAILED with the error text. |
| Agents.TaskExecutor.RunPhase | backend/src/agents/task_executor.py:107-132 | One phase's logging: the task's step list grows by exactly the phase's RUNNING entry and its COMPLETED or FAILED entry. Other tasks' steps and the insertion order are untouched. |
| Agents.TaskExecutor.PlanTask | backend/src/agents/task_executor.py:102-132 | Appends the planning phase's log to the task's steps. Returns the state with the plan stored, or raises the model's error. |
| Agents.TaskExecutor.ExecuteTask | backend/src/agents/task_executor.py:134-166 | Appends the execution phase's log, whose COMPLETED message is fixed. Returns the state with the output stored, or raises the model's error. |
| Agents.TaskExecutor.ReflectTask | backend/src/agents/task_executor.py:168-200 | Appends the reflection phase's log. Returns the state with the reflection stored, or raises the model's error. |
| Agents.TaskExecutor.RunWorkflow | backend/src/agents/task_executor.py:42-57 | Runs the nodes in graph order, each on the state the previous one returned, and stops at the first exception. The steps appended are exactly the nodes' logs in that order. |
| Agents.TaskExecutor.RunNode | backend/src/agents/task_executor.py:47-49 | Running a registered node appends exactly that node's log to the task's steps and returns exactly the node's result. |
| Agents.WorkflowNames | backend/src/agents/task_executor.py:52-55 | The graph runs the phases Planning, Execution and Reflection in that order, with Reflection last before END. |
| Agents.NodesLogProtocol | backend/src/agents/task_executor.py:107-200 | Running a list of nodes logs each phase as RUNNING followed immediately by a terminal entry of the same name. Phases start in node order, and all of them start when the run succeeds. |
| Agents.NodesLogEnd | backend/src/agents/task_executor.py:125-200 | A successful run's log ends with the last node's COMPLETED entry. A failed run's log ends with a FAILED entry carrying the exception text. |
| Agents.ExecutionOutcome | backend/src/agents/task_executor.py:86-95 | On success the metadata has exactly the keys steps, model and temperature, with the request's model and temperature. |
| Agents.TaskExecutor.Execute | backend/src/agents/task_executor.py:59-100 | Appends the initialisation step, then the workflow's log, then a "Task Execution" FAILED step if an exception was raised. Returns the result, or raises the same error. |
| Agents.RunLogProtocol | backend/src/agents/task_executor.py:59-100 | A run's log opens with "Task Initialization" COMPLETED and keeps the RUNNING-then-terminal protocol. Its phases start in the order Planning, Execution, Reflection, all three on success. |
| Agents.RunLogOutcome | backend/src/agents/task_executor.py:97-100 | A run succeeds exactly when its log ends with Reflection COMPLETED. A failed run ends with the failing phase's FAILED entry, then "Task Execution" FAILED, both carrying the error. |
| Services.TaskService.constructor | backend/src/services/task_service.py:17-20 | A fresh service has an empty store and no active ids. Its executor has a distinct, fresh store of its own. |
| Services.TaskService.Write | backend/src/services/task_service.py:26-28 | One `update_task_status` call through the service's store: the id's record (created first when unknown) is rewritten by the update and the write is logged. An unknown id joins the end of the insertion order with an empty step list; a known id keeps its place. Other tasks are unchanged. |
| Services.TaskService.StartRun | backend/src/services/task_service.py:24-34 | Writes RUNNING with the start reading to the id, creating the task if unknown, and adds the id to the active set. An unknown id joins the end of the insertion order; a known id keeps its place. |
| Services.TaskService.RecordOutcome | backend/src/services/task_service.py:55-74 | After a success: COMPLETED with output, merged metadata and the completion reading, plus one more reading for the logged duration. After an exception: FAILED with its text and the completion reading. Step lists and insertion order are unchanged. |
| Services.TaskService.ExecuteInternal | backend/src/services/task_service.py:49-74 | Returns or raises what the executor does. The task's record gets that outcome with a completion time later than the call's start reading (for the logical clock). One status write is logged, and the store's step lists and insertion order are untouched. |
| Services.TaskService.FinishRun | backend/src/services/task_service.py:39-47 | A raised run is written FAILED once more with a fresh reading. Either way the id leaves the active set. Step lists and insertion order are unchanged. |
| Services.TaskService.ExecuteTask | backend/src/services/task_service.py:22-47 | Never raises and always leaves the id inactive. The writes are RUNNING then COMPLETED, or RUNNING, FAILED, FAILED. The task's final record is the run's record from the start reading; other tasks are unchanged. An unknown id joins the end of the insertion order; a known id keeps its place. |
| Services.RunRecordFacts | backend/src/services/task_service.py:22-74 | The final record has the run's start time and completion time and their difference as duration. A success is COMPLETED with the new output (or the old when absent) and metadata merged key by key. A failure is FAILED with the error text and the old output and metadata. |
| Services.FailedTwice | backend/src/services/task_service.py:39-43 | The outer handler's second FAILED write only moves the completion time and duration. |
| Services.ExecutionWritesShape | backend/src/services/task_service.py:22-74 | A run's first write is RUNNING and no later write is. Its last write is COMPLETED exactly on success and FAILED exactly on failure. |
| Services.TaskService.CancelTask | backend/src/services/task_service.py:80-93 | Returns true exactly when the id was active, and afterwards the id is never active. A non-active id leaves the store's records, step lists and insertion order, the write log and the clock unchanged. An active id gets one CANCELLED write through `update_task_status`: its record (created first when unknown) is rewritten by that update with the current reading as completion time, an unknown id joins the end of the order with an empty step list, and other tasks are unchanged. |
| Services.TaskService.GetTaskStatus | backend/src/services/task_service.py:76-78 | The store's record for the id, which carries no steps. |
| Services.TaskService.ListTasks | backend/src/services/task_service.py:95-97 | The store's page: at most `limit` stored records, none with steps. |
| Services.TaskService.GetStatistics | backend/src/services/task_service.py:99-101 | The store's counters, whose total is the number of stored tasks. |
| Taskflow.TaskflowHook.constructor | frontend/src/hooks/useTaskflow.ts:11-15 | The hook starts idle, not running, at progress 0, with nothing scheduled. |
| Taskflow.TaskflowHook.StartTask | frontend/src/hooks/useTaskflow.ts:17-50 | From any state: running, progress 0, "Starting task...". This run's interval and timeout are added to the pending pool, and earlier runs' callbacks stay. |
| Taskflow.Ticked | frontend/src/hooks/useTaskflow.ts:31-38 | A tick adds ten to the progress, capped at 100. It keeps the status and `isRunning`, never lowers an in-range progress, keeps it within 0..100, and sets the message to the new figure. |
| Taskflow.TaskflowHook.Tick | frontend/src/hooks/useTaskflow.ts:30-38 | A pending interval's firing applies the tick, so progress does not decrease. The pool is unchanged. |
| Taskflow.TicksFromStart | frontend/src/hooks/useTaskflow.ts:30-38 | From a fresh start, k ticks show min(10k, 100) percent and the run stays running. |
| Taskflow.ParseNatToString | frontend/src/hooks/useTaskflow.ts:36 | The decimal rendering of the progress reads back as the same number. |
| Taskflow.ProgressMessageInjective | frontend/src/hooks/useTaskflow.ts:36 | Different progress values give different "Processing... N%" messages. |
| Taskflow.TaskflowHook.Complete | frontend/src/hooks/useTaskflow.ts:42-50 | A pending timeout clears its own run's interval and sets completed, progress 100, not running and the success message, whatever the current run. |
| Taskflow.Failed | frontend/src/hooks/useTaskflow.ts:52-59 | The catch branch's state: error status, not running, progress within 0..100, and always a message. |
| Taskflow.TaskflowHook.ResetTask | frontend/src/hooks/useTaskflow.ts:62-68 | Back to the idle initial state. Nothing scheduled is cancelled: the pending pool and the run count are kept. |
| Taskflow.TransitionsKeepInvariant | frontend/src/hooks/useTaskflow.ts:11-67 | Every state a transition produces has `isRunning` true exactly when the status is running, and progress within 0..100. |
| Taskflow.StaleCompletion | frontend/src/hooks/useTaskflow.ts:17-68 | Start, reset and start again: the first run's timeout still completes the hook, and the second run's callbacks stay pending. |
| Taskflow.TickAfterCompletion | frontend/src/hooks/useTaskflow.ts:30-50 | After one run's timeout has completed the hook, another run's interval still fires. The hook stays completed at 100 but shows a progress message again. |
| DemoMode.HandleToggle | frontend/src/components/DemoModeToggle.tsx:12-21 | Flips demo mode and leaves both external-action switches as they were. A message is set exactly when demo mode is turned on, and it is the simulation notice. |
| DemoMode.HandleExternalActionsToggle | frontend/src/components/DemoModeToggle.tsx:23-32 | Flips the external-actions switch and keeps the others. The message always names the new position. |
| DemoMode.ToggleTwice | frontend/src/components/DemoModeToggle.tsx:12-21 | Toggling demo mode twice restores every switch. The message becomes the one for the original position. |
| DemoMode.ExternalActionsToggleTwice | frontend/src/components/DemoModeToggle.tsx:23-32 | Toggling external actions twice restores every switch. The message becomes the one for the original position. |
| DemoMode.HandlersCommuteOnSwitches | frontend/src/components/DemoModeToggle.tsx:12-32 | Both handler orders give the same switches. The message is the last handler's. |
| JsStrings.TrimStart | frontend/src/components/PromptBox.tsx:14 | The longest suffix not starting with whitespace; everything cut is whitespace. |
| JsStrings.TrimEnd | frontend/src/components/PromptBox.tsx:14 | The longest prefix not ending with whitespace; everything cut is whitespace. |
| JsStrings.Trim | frontend/src/components/PromptBox.tsx:14 | `trim` is never longer than its input and neither starts nor ends with whitespace. |
| JsStrings.TrimFacts | frontend/src/components/PromptBox.tsx:14 | `trim` keeps a contiguous piece of the input that neither starts nor ends with whitespace, with only whitespace around it. It is empty exactly for all-whitespace input. |
| JsStrings.TrimIdempotent | frontend/src/components/PromptBox.tsx:14 | Trimming twice is trimming once. |
| Prompt.SubmissionFacts | frontend/src/components/PromptBox.tsx:14-15 | A submission happens exactly when a callback is given and the prompt is not all whitespace. What is submitted is the trimmed prompt: non-empty, and not starting or ending with whitespace. |
| Prompt.PromptBox.HandleSubmit | frontend/src/components/PromptBox.tsx:12-18 | Makes at most one call, with the trimmed prompt, as the gate allows. The field is cleared exactly when something was submitted and kept otherwise. |
| Prompt.PromptBox.SetPrompt | frontend/src/components/PromptBox.tsx:27 | The field takes the typed value. |
| Utils.SliceEnd | frontend/src/lib/utils.ts:43 | `slice(0, end)`'s end index: clamped into the string, counting back from the end when negative. |
| Utils.TruncateText | frontend/src/lib/utils.ts:41-44 | The result is either the text itself or a prefix of it followed by "...". |
| Utils.TruncateFacts | frontend/src/lib/utils.ts:41-44 | A text within the limit is returned unchanged. Otherwise the result is the first `maxLength` characters plus "...", exactly `maxLength`+3 long, which can exceed the text's length. A negative limit drops that many characters from the end before the ellipsis. |
| Utils.TruncateKeepsPrefix | frontend/src/lib/utils.ts:42-43 | For a limit of zero or more, the result begins with the first min(length, limit) characters of the text. |
| Utils.TruncateIdempotent | frontend/src/lib/utils.ts:42-43 | For a fixed limit of zero or more, truncating twice is truncating once. |
| Utils.IndexOf | frontend/src/lib/utils.ts:55 | The index of the first occurrence of a character, or the length when it is absent. |
| Utils.IsValidEmail | frontend/src/lib/utils.ts:54-57 | No accepted address is shorter than five characters, the length of `a@b.c`. |
| Utils.IsValidEmailMatchesPattern | frontend/src/lib/utils.ts:54-57 | The check accepts exactly the strings of the form local@domain.tld, each part a non-empty run without whitespace or `@`. |
| Utils.ValidEmailOneAt | frontend/src/lib/utils.ts:55 | An accepted address holds exactly one `@`. |
| Utils.ValidEmailNoSpace | frontend/src/lib/utils.ts:55 | An accepted address holds no whitespace character. |
| Utils.ValidEmailShape | frontend/src/lib/utils.ts:55 | An accepted address holds exactly one `@` and no whitespace. The empty string is rejected. |

## Left out

- Floating point: `average_duration` in `get_statistics` is not modelled. `success_rate` is an exact rational. Durations are tick differences, not `total_seconds()` of real time spans.
- The language model and LangGraph are oracles. A model call is a function from the query (the three prompt templates reduced to the values they interpolate) to an answer or an exception text. The checkpointer, thread config and lazy initialisation of the model and graph are not modelled.
- asyncio: `create_task`, `await` and the `.cancel()` of a running execution are not modelled. Only the bookkeeping is: the active set, and the status writes in the order one run makes them. A cancellation interleaved with a running execution is not modelled.
- Services.TaskService.ExecuteTask: does not restate the steps the executor logs during the run. Agents.TaskExecutor.Execute states them; the service only keeps the executor's store valid.
- Services.TaskService.ExecuteInternal: does not restate the steps the executor logs, for the same reason.
- Timestamps come from a strictly increasing logical clock. `datetime.utcnow()` can return equal readings or step backwards, so the strict orderings of readings (in Services.TaskService.ExecuteInternal, Services.TaskService.ExecuteTask, Agents.TaskExecutor.RunPhase and Agents.TaskExecutor.RunNode) and the positive step durations hold for the model's clock only.
- Agents.LowerChar: models ASCII lower-casing only. Python's `str.lower` also lower-cases non-ASCII letters.
- String lengths and indices are counted in Unicode scalar values. JavaScript counts UTF-16 code units, which differ for characters outside the Basic Multilingual Plane.
- `truncateText` with a non-integral or NaN `maxLength` is not modelled; the limit is a whole number.
- Logging calls, `console.log` and the `StepLog` fields `details`, `error` and `progress`, which the executor never sets.
- `execute` returns the workflow state's `steps` entry as metadata. No node extends it, so it is always the empty list.
- Taskflow: the catch branch of `startTask` cannot be reached, since nothing inside the `try` throws. Its resulting state is modelled by `Taskflow.Failed` but no hook method leads to it. The timer delays (one and ten seconds) are not modelled: any pending callback may fire next.
- `onSettingsChange` and `onSubmit` are the parent's callbacks. Each handler's single call is modelled as the value it passes (the new settings record, or the submitted prompt).
- `calculateTokenCost`, `formatCost`, `formatFileSize`, `formatTimestamp`, `cn` and `isValidUrl` are floating point, locale or foreign-library wrappers.
- The HTTP routers, the application setup, the frontend HTTP client, the randomised status poller and the presentational components are not part of this model.
