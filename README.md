# opcode core, modelled in Dafny

This project models the in-memory core of opcode's Tauri back end and proves
properties of it. The core consists of:

- the background **task registry**: the task status machine, the task manager
  with its handle map and history trimming, and the task-count command;
- the remote **MCP client**: authentication strategies, server health records and
  the health monitor, and the Streamable HTTP transport with its SSE framing;
- the **session lifecycle**: session records, the session manager with its
  capacity and duplicate checks, cleanup and process bookkeeping, and session
  event names;
- the **skills system**: the registry cache with its slash-command and hook
  indexes, and the executor with its guards, placeholder expansion, workflow
  runner and hook fan-out.

Each source file has one module, apart from the shared `Common`, `Strings` and
`Json` modules in `common.dfy`. The form follows the source:

- Managers whose maps are updated in place are classes: `TaskManager`,
  `HealthMonitor`, `StreamableHttpTransport`, `SessionManager`, `SkillRegistry`
  and `SkillExecutor`. Their methods carry `modifies` clauses and state the whole
  new state.
- The records those managers store are datatypes: `Task`, `ServerHealth`,
  `SessionState` and `Skill`. Their `&mut self` updates are functions returning
  the updated record, which the manager stores back.
- Loops become methods with invariants, each proved against a specification
  function:
  - the SSE line parser and the SSE chunk/frame loop;
  - history trimming, `clear_completed`, `cancel_all`, session cleanup and
    `shutdown_all`;
  - `count_by_kind`, prompt and template expansion, the workflow loop and the hook
    fan-out.

The model's treatment of the outside world:

- **Time** is a `nat` instant supplied by the caller.
- **Outcomes from outside** are parameters: network replies and HTTP statuses,
  SSE body chunks, ping results, shell-command outcomes, the nested skill run of
  a SkillRef step, and serde decoding.
- **Hash maps** iterated by the source are association lists whose order is an
  input, or `map`s with sets of ids for the iteration order.

## Model

| member | source | states |
|---|---|---|
| TaskTypes.DefaultProgress | src-tauri/src/tasks/types.rs:79-89 | default progress: step 0, no total, no percentage, message "Starting...", no details |
| TaskTypes.Indeterminate | src-tauri/src/tasks/types.rs:93-98 | indeterminate progress: step 0, no total, no percentage, the given message |
| TaskTypes.WithTotal | src-tauri/src/tasks/types.rs:101-115 | progress against a total has that total, and a percentage exactly when the total is positive |
| TaskTypes.UpdateProgress | src-tauri/src/tasks/types.rs:118-124 | `update` replaces step and message, keeps total and details; a percentage appears exactly when a total is known (or one was already there) |
| TaskTypes.SuccessResult | src-tauri/src/tasks/types.rs:144-153 | a success result has no error and no logs and keeps data and duration |
| TaskTypes.FailureResult | src-tauri/src/tasks/types.rs:155-164 | a failure result has no data, the given error and no logs |
| TaskTypes.WithLogs | src-tauri/src/tasks/types.rs:166-169 | only the logs change |
| TaskTypes.NewTask | src-tauri/src/tasks/types.rs:234-251 | a new task is Pending, Normal priority, cancellable, not background, without result, start or completion time |
| TaskTypes.WithDescription | src-tauri/src/tasks/types.rs:254-257 | only the description changes |
| TaskTypes.WithPriority | src-tauri/src/tasks/types.rs:260-263 | only the priority changes |
| TaskTypes.AsBackground | src-tauri/src/tasks/types.rs:266-269 | only the background flag changes, and it is set |
| TaskTypes.Start | src-tauri/src/tasks/types.rs:278-281 | `start` makes the task Running (active, not terminal) and records the start time, whatever the previous status; nothing else changes |
| TaskTypes.Complete | src-tauri/src/tasks/types.rs:284-292 | `complete` gives Completed for a successful result and Failed otherwise, stores the result and the completion time; nothing else changes |
| TaskTypes.Cancel | src-tauri/src/tasks/types.rs:295-298 | `cancel` gives Cancelled and records the completion time; nothing else changes |
| TaskTypes.StatusClasses | src-tauri/src/tasks/types.rs:301-312 | no status is both active and terminal; exactly Paused is neither |
| TaskTypes.NoTerminalGuard | src-tauri/src/tasks/types.rs:278-298 | a finished task can be restarted, completed again after a cancel, and cancelled after completing |
| TaskTypes.StatusNameRoundTrip | src-tauri/src/tasks/types.rs:344-352 | the lowercased status name reads back to the status |
| TaskTypes.StatusFromNameInverse | src-tauri/src/tasks/types.rs:344-352 | a name denotes a status exactly when it is that status's lowercased name |
| TaskTypes.StatusNameInjective | src-tauri/src/tasks/types.rs:344-352 | two statuses share a name only when they are equal |
| TaskTypes.InfoOf | src-tauri/src/tasks/types.rs:344-361 | `TaskInfo::from` copies id, name, description, progress, both flags and the three times; kind and priority become their lowercased names, and the status text reads back to the task's status |
| TaskTypes.KindNameInjective | src-tauri/src/tasks/types.rs:348 | the lowercased kind names of `TaskInfo` are distinct for distinct kinds |
| TaskTypes.PriorityNameInjective | src-tauri/src/tasks/types.rs:352 | the lowercased priority names of `TaskInfo` are distinct for distinct priorities |
| TaskManagement.NewTaskTakesSlot | src-tauri/src/tasks/manager.rs:126-135 | a task created under a new id takes one more of the Pending/Running slots `can_start_task` compares with the limit |
| TaskManagement.TaskManager.ActiveCount | src-tauri/src/tasks/manager.rs:266-268 | the number of tasks that are Pending or Running (with NewTaskTakesSlot: each created task adds one; with ActiveIsPendingOrRunning: the Pending plus the Running bucket) |
| TaskManagement.TaskManager.CanStartTask | src-tauri/src/tasks/manager.rs:271-273 | true exactly while fewer than max_concurrent tasks are Pending or Running (NewTaskTakesSlot gives the slot each created task takes) |
| TaskManagement.InsertByKey | src-tauri/src/tasks/manager.rs:284-285 | inserting into a list sorted by completion key keeps it sorted and adds exactly the entry |
| TaskManagement.SortByKey | src-tauri/src/tasks/manager.rs:284-285 | the sort by completion key is sorted and a permutation of its input |
| TaskManagement.PermutationKeepsDistinct | src-tauri/src/tasks/manager.rs:278-285 | reordering the collected history keeps its ids distinct |
| TaskManagement.RemovedIdsCount | src-tauri/src/tasks/manager.rs:286-293 | removing the first k distinct entries removes k ids |
| TaskManagement.CollectedIds | src-tauri/src/tasks/manager.rs:278-293 | the collected history names exactly the terminal tasks, and every removed id is terminal |
| TaskManagement.TrimmedCount | src-tauri/src/tasks/manager.rs:286-293 | after trimming, min(terminal count, max_history) terminal tasks remain |
| TaskManagement.TrimmedOldestFirst | src-tauri/src/tasks/manager.rs:284-293 | every dropped task completed no later than every kept terminal task |
| TaskManagement.TrimKeepsUnfinished | src-tauri/src/tasks/manager.rs:278-293 | trimming never removes a task that is not terminal |
| TaskManagement.TrimmedKeys | src-tauri/src/tasks/manager.rs:286-293 | trimming drops exactly the removed ids from the task map |
| TaskManagement.TrimmingDropsOldestFirst | src-tauri/src/tasks/manager.rs:277-294 | dropping the oldest `len - max_history` entries is a history trim (only terminal tasks, oldest first, handles with them) |
| TaskManagement.CancelledTasks | src-tauri/src/tasks/manager.rs:312-323 | cancelling a set of tasks keeps the task map's keys |
| TaskManagement.CancelledHandles | src-tauri/src/tasks/manager.rs:312-323 | cancelling a set of tasks never adds a handle |
| TaskManagement.CancelEventsAppend | src-tauri/src/tasks/manager.rs:188-213 | each cancellation in turn sends one TaskCancelled event exactly for a known cancellable task |
| TaskManagement.CancelStepTasks | src-tauri/src/tasks/manager.rs:312-323 | one more turn of `cancel_all` changes the tasks exactly as one `cancel_task` |
| TaskManagement.CancelStepHandles | src-tauri/src/tasks/manager.rs:312-323 | one more turn of `cancel_all` changes the handles exactly as one `cancel_task` |
| TaskManagement.CancelAllEffect | src-tauri/src/tasks/manager.rs:312-323 | after `cancel_all` no task is active and cancellable; cancelled ones carry the time; the others are unchanged |
| TaskManagement.TaskManager.constructor | src-tauri/src/tasks/manager.rs:95-105 | an empty manager with limits 10 and 100 |
| TaskManagement.TaskManager.WithLimits | src-tauri/src/tasks/manager.rs:108-118 | an empty manager with the given limits |
| TaskManagement.TaskManager.CreateTask | src-tauri/src/tasks/manager.rs:126-135 | one new Pending task stored under its id and announced; handles unchanged |
| TaskManagement.TaskManager.RegisterHandle | src-tauri/src/tasks/manager.rs:138-140 | the handle is stored under the id; tasks unchanged |
| TaskManagement.TaskManager.StartTask | src-tauri/src/tasks/manager.rs:143-152 | a known task becomes Running and a TaskStarted event is sent; an unknown id is "Task not found" and changes nothing |
| TaskManagement.TaskManager.UpdateProgress | src-tauri/src/tasks/manager.rs:155-160 | only the named task's progress is replaced; an unknown id is ignored |
| TaskManagement.TaskManager.CompleteTask | src-tauri/src/tasks/manager.rs:163-185 | a known task is completed and its handle removed, then the history is trimmed; an unknown id only trims |
| TaskManagement.TaskManager.CancelTask | src-tauri/src/tasks/manager.rs:188-213 | the handle's signal is sent first; unknown id or non-cancellable task is an error with tasks unchanged; otherwise Cancelled (even when finished) and the handle removed |
| TaskManagement.TaskManager.AbortTask | src-tauri/src/tasks/manager.rs:216-223 | the running future is aborted, then the task is cancelled as `cancel_task` does |
| TaskManagement.TaskManager.GetTask | src-tauri/src/tasks/manager.rs:225-228 | the stored task exactly when the id is known |
| TaskManagement.TaskManager.GetTaskInfo | src-tauri/src/tasks/manager.rs:230-233 | the task's view exactly when the id is known |
| TaskManagement.TaskManager.MatchingIds | src-tauri/src/tasks/manager.rs:235-265 | the ids a filter selects, each once |
| TaskManagement.TaskManager.ListTasks | src-tauri/src/tasks/manager.rs:235-265 | every selected task's view, each once, and nothing else |
| TaskManagement.TaskManager.CollectHistory | src-tauri/src/tasks/manager.rs:278-285 | the terminal tasks with their completion keys, each once, sorted oldest first |
| TaskManagement.TaskManager.CleanupHistory | src-tauri/src/tasks/manager.rs:277-294 | the new state is a history trim of the old one |
| TaskManagement.TaskManager.DropEntries | src-tauri/src/tasks/manager.rs:286-293 | the first `count` entries' tasks and handles are removed |
| TaskManagement.TaskManager.ClearCompleted | src-tauri/src/tasks/manager.rs:297-309 | every terminal task and its handle are removed and every other task is kept |
| TaskManagement.TaskManager.CancelAll | src-tauri/src/tasks/manager.rs:312-323 | every active task is cancelled in turn as `cancel_task` does; the events follow the turn order |
| TaskManagement.TaskManager.CancelInOrder | src-tauri/src/tasks/manager.rs:312-323 | cancelling a list of ids one after the other |
| TaskManagement.TaskManager.CancelNext | src-tauri/src/tasks/manager.rs:316-321 | one turn of `cancel_all` |
| TaskCommands.CountStatus | src-tauri/src/commands/tasks.rs:83-85 | a status bucket never exceeds the listing |
| TaskCommands.CountIsListedIds | src-tauri/src/commands/tasks.rs:83-85 | over distinct ids, the bucket count is the number of listed ids with that status |
| TaskCommands.ListedIsStatusIds | src-tauri/src/commands/tasks.rs:81-85 | in a listing, the ids listed under a status name are the tasks with that status |
| TaskCommands.ListingSize | src-tauri/src/commands/tasks.rs:81-88 | a listing has one entry per task |
| TaskCommands.StatusesPartition | src-tauri/src/commands/tasks.rs:82-85 | the six status names partition a listing |
| TaskCommands.GetTask | src-tauri/src/commands/tasks.rs:48-56 | the task's view for a known id, "Task not found: id" otherwise |
| TaskCommands.CancelTask | src-tauri/src/commands/tasks.rs:59-65 | the manager's answer and effect, unchanged: the handle's cancel signal in every case; "Task not found: id" or "Task is not cancellable" with tasks and events unchanged; otherwise Cancelled, the handle removed and one TaskCancelled event |
| TaskCommands.ClearCompletedTasks | src-tauri/src/commands/tasks.rs:68-74 | always Ok; every terminal task and its handle removed, the other tasks and handles kept, no event sent |
| TaskCommands.GetTaskCount | src-tauri/src/commands/tasks.rs:78-94 | total is the task count, active the Pending/Running tasks, one bucket per finished status; buckets plus Paused make the total |
| TaskCommands.SummaryOfListing | src-tauri/src/commands/tasks.rs:80-93 | the summary of a listing counts the listed map's tasks, bucket by bucket |
| TaskCommands.StatusCountOfListing | src-tauri/src/commands/tasks.rs:83-85 | the count under a status name is the number of tasks with that status |
| TaskCommands.ActiveIsPendingOrRunning | src-tauri/src/commands/tasks.rs:82 | the active count is the Pending count plus the Running count |
| McpTypes.NewRequest | src-tauri/src/mcp/types.rs:21-31 | a JSON-RPC 2.0 request with the method, params and id |
| McpTypes.ErrorMessage | src-tauri/src/mcp/error.rs:8-86 | every error's `#[error]` message is non-empty and ends with the text the error carries |
| McpTypes.FromHttpError | src-tauri/src/mcp/error.rs:88-98 | a timeout becomes a 30000 ms connection timeout, a connect failure a connection failure with the client's message, anything else a transport error with it |
| McpAuth.NewBearer | src-tauri/src/mcp/auth.rs:40-45 | a bearer strategy with the token, valid at every instant |
| McpAuth.BearerWithExpiry | src-tauri/src/mcp/auth.rs:48-53 | a bearer strategy with the token, valid exactly before the expiry instant |
| McpAuth.NewApiKey | src-tauri/src/mcp/auth.rs:108-114 | an API-key strategy under the header name that sends the key verbatim and is always valid |
| McpAuth.XApiKey | src-tauri/src/mcp/auth.rs:117-119 | the API-key strategy under "X-API-Key" without prefix |
| McpAuth.WithPrefix | src-tauri/src/mcp/auth.rs:122-125 | header name and key kept; the value sent becomes prefix then key |
| McpAuth.AddHeader | src-tauri/src/mcp/auth.rs:172-175 | the named custom header now gives the value, replacing any earlier one, and every other header gives what it gave before |
| McpAuth.Apply | src-tauri/src/mcp/auth.rs:72-208 | `apply` keeps the request's headers and only appends |
| McpAuth.BearerHeader | src-tauri/src/mcp/auth.rs:72-74 | bearer adds exactly one Authorization header, "Bearer " followed by the token |
| McpAuth.ApiKeyHeader | src-tauri/src/mcp/auth.rs:135-142 | API key adds one header under its name: prefix+key with a prefix, the key without |
| McpAuth.CustomAndNoAuthHeaders | src-tauri/src/mcp/auth.rs:180-208 | custom headers are added, all and only them; no-auth leaves the request unchanged |
| McpAuth.ExpiryIsPermanent | src-tauri/src/mcp/auth.rs:56-62 | once expired, a token stays expired |
| McpAuth.ValidityAndRefresh | src-tauri/src/mcp/auth.rs:56-216 | bearer valid iff not expired, refresh is TokenExpired iff expired and Ok(false) otherwise; other strategies always valid, refresh Ok(false); no expiry means valid |
| McpAuth.ConfigRoundTrip | src-tauri/src/mcp/auth.rs:224-235 | `create_auth_from_config` picks the variant's strategy and keeps its fields: the configuration reads back |
| McpHealth.NewServerHealth | src-tauri/src/mcp/health.rs:63-74 | a new record is Unknown with no latency, error or average and zero streaks |
| McpHealth.MovingAverage | src-tauri/src/mcp/health.rs:84-89 | the average is the first sample, then lies between the old average and the sample |
| McpHealth.RecordSuccess | src-tauri/src/mcp/health.rs:76-97 | failure streak reset, success streak +1, error cleared, latency and (avg*4+latency)/5 recorded; Degraded exactly for a spike against the new average |
| McpHealth.RecordFailure | src-tauri/src/mcp/health.rs:99-107 | Unhealthy after one failure, latency cleared, error kept, failure streak +1, success streak reset, average untouched |
| McpHealth.UpdatesKeepConsistent | src-tauri/src/mcp/health.rs:63-107 | streaks, error, latency and status stay consistent under every update |
| McpHealth.FirstSuccessIsHealthy | src-tauri/src/mcp/health.rs:84-96 | the first success is Healthy and sets the average to the sample |
| McpHealth.DegradedMeansSpike | src-tauri/src/mcp/health.rs:91-96 | Degraded means latency > 1000 and more than twice the previous average |
| McpHealth.SpikeAfterSteadyChecks | src-tauri/src/mcp/health.rs:464-477 | five 100 ms checks are Healthy with average 100; a 5000 ms check then is Degraded |
| McpHealth.FailuresAccumulate | src-tauri/src/mcp/health.rs:99-107 | n failures add n to the streak, leave the server Unhealthy with the last error |
| McpHealth.ServerCheckEventRules | src-tauri/src/mcp/health.rs:193-265 | CheckCompleted last; StatusChanged iff the status changed; ServerRecovered only Unhealthy→Healthy on success; ServerUnreachable iff failed at the threshold; no debouncing |
| McpHealth.ClassifyStatus | src-tauri/src/mcp/health.rs:286-304 | 2xx or 405 reachable, 5xx server fault, anything else unexpected |
| McpHealth.EndpointHealth | src-tauri/src/mcp/health.rs:284-317 | reachable is a success, a server fault a failure naming the status, an unexpected status a success forced to Degraded, a failed request a failure |
| McpHealth.ProbeHealth | src-tauri/src/mcp/health.rs:374-397 | in the periodic probe only 2xx/405 avoid Unhealthy |
| McpHealth.ProbeDiffersFromEndpointCheck | src-tauri/src/mcp/health.rs:295-386 | a 404 is Degraded for the endpoint check but Unhealthy for the probe; a recovery to Degraded is reported only by the probe |
| McpHealth.HealthMonitor.constructor | src-tauri/src/mcp/health.rs:152-163 | interval 60 s, timeout 10 s, threshold 3, not running, no records |
| McpHealth.HealthMonitor.WithSettings | src-tauri/src/mcp/health.rs:165-176 | the three settings replace the defaults |
| McpHealth.HealthMonitor.GetHealth | src-tauri/src/mcp/health.rs:183-186 | the stored record exactly when one exists |
| McpHealth.HealthMonitor.GetAllHealth | src-tauri/src/mcp/health.rs:188-191 | every stored record, each once: as many records as servers, each the one stored under its own id, no server id twice |
| McpHealth.HealthMonitor.CheckServerHealth | src-tauri/src/mcp/health.rs:193-265 | record created if missing, updated by the ping, its events sent, stored; always Ok |
| McpHealth.HealthMonitor.EffectiveTimeout | src-tauri/src/mcp/health.rs:275 | the given timeout, else the default |
| McpHealth.HealthMonitor.CheckEndpointHealth | src-tauri/src/mcp/health.rs:267-330 | record created first; a client build failure is a transport error changing nothing else; otherwise the endpoint record stored and its events sent |
| McpHealth.HealthMonitor.ProbeServer | src-tauri/src/mcp/health.rs:353-412 | one server's turn of the monitor loop: skipped after creating its record when no client; otherwise updated, reported and stored |
| McpHealth.HealthMonitor.StartMonitoring | src-tauri/src/mcp/health.rs:340 | the monitor is running; records unchanged |
| McpHealth.HealthMonitor.StopMonitoring | src-tauri/src/mcp/health.rs:421-423 | the monitor is stopped; records unchanged |
| McpHealth.HealthMonitor.IsRunning | src-tauri/src/mcp/health.rs:426-428 | the running flag that `start_monitoring` sets and `stop_monitoring` clears |
| StreamableHttp.FieldValue | src-tauri/src/mcp/streamable_http.rs:227-236 | a line gives at most one value per field |
| StreamableHttp.LastValue | src-tauri/src/mcp/streamable_http.rs:228-235 | no value exactly when no line had the field |
| StreamableHttp.EventDataEmpty | src-tauri/src/mcp/streamable_http.rs:229-243 | the data is empty exactly when every data value is blank |
| StreamableHttp.EventDataOfNonBlank | src-tauri/src/mcp/streamable_http.rs:229-233 | without blank values the data is the values joined by '\n' |
| StreamableHttp.EventDataStep | src-tauri/src/mcp/streamable_http.rs:229-233 | one more data line: the value alone if no data yet, else appended on its own line |
| StreamableHttp.ParseLineStep | src-tauri/src/mcp/streamable_http.rs:226-237 | reading a line sets its field exactly as the loop body does |
| StreamableHttp.ParsedAll | src-tauri/src/mcp/streamable_http.rs:239-243 | after all lines: None iff the data is empty, otherwise the event |
| StreamableHttp.EventAbsentIffBlank | src-tauri/src/mcp/streamable_http.rs:239-243 | no event exactly when every data value is blank |
| StreamableHttp.ParseLine | src-tauri/src/mcp/streamable_http.rs:227-236 | one line sets the event, the id or appends to the data; other lines change nothing |
| StreamableHttp.ParseSseEvent | src-tauri/src/mcp/streamable_http.rs:221-246 | `parse_sse_event` is the event the frame describes |
| StreamableHttp.ThreeLineFrame | src-tauri/src/mcp/streamable_http.rs:517-533 | an event/data/id frame gives the trimmed name, data and id |
| StreamableHttp.FramesRoundTrip | src-tauri/src/mcp/streamable_http.rs:196-205 | the complete frames and the unterminated rest rebuild the buffer; the rest holds no frame end |
| StreamableHttp.FramesOfAppend | src-tauri/src/mcp/streamable_http.rs:193-205 | chunk boundaries do not change which frames are read |
| StreamableHttp.FramesStep | src-tauri/src/mcp/streamable_http.rs:196-199 | the first frame is the text before the first "\n\n" |
| StreamableHttp.NoFrames | src-tauri/src/mcp/streamable_http.rs:196 | without "\n\n" nothing is complete and the buffer stays |
| StreamableHttp.FrameResponse | src-tauri/src/mcp/streamable_http.rs:200-204 | a frame yields a response only for the request's id |
| StreamableHttp.LastResponse | src-tauri/src/mcp/streamable_http.rs:200-217 | the kept response always has the request's id |
| StreamableHttp.LastResponseIsLast | src-tauri/src/mcp/streamable_http.rs:200-217 | the kept response is the last frame's that carries one; none only when no frame does |
| StreamableHttp.LastResponseAppend | src-tauri/src/mcp/streamable_http.rs:200-205 | over two runs, the second run's response wins if it has one |
| StreamableHttp.FirstChunkError | src-tauri/src/mcp/streamable_http.rs:192-193 | no error exactly when every chunk arrived |
| StreamableHttp.FirstChunkErrorAt | src-tauri/src/mcp/streamable_http.rs:192-193 | a failed chunk after delivered ones is the error reported |
| StreamableHttp.UnterminatedEventIgnored | src-tauri/src/mcp/streamable_http.rs:196-217 | a stream without a frame end answers "No result in SSE stream" |
| StreamableHttp.LatestStep | src-tauri/src/mcp/streamable_http.rs:200-205 | one more frame's response, if any, becomes the latest |
| StreamableHttp.TakeFrame | src-tauri/src/mcp/streamable_http.rs:196-199 | taking the first frame off keeps the frames accounted for |
| StreamableHttp.ReadFrame | src-tauri/src/mcp/streamable_http.rs:200-204 | the response one frame carries for the request |
| StreamableHttp.DrainFrames | src-tauri/src/mcp/streamable_http.rs:196-205 | the inner loop leaves the unterminated rest and the latest response |
| StreamableHttp.StreamReadStep | src-tauri/src/mcp/streamable_http.rs:190-205 | draining after a chunk reads that chunk |
| StreamableHttp.ChunkTextStep | src-tauri/src/mcp/streamable_http.rs:193-194 | the text of one more delivered chunk |
| StreamableHttp.ReadNextChunk | src-tauri/src/mcp/streamable_http.rs:190-205 | one delivered chunk appended and its frames read |
| StreamableHttp.StreamFailed | src-tauri/src/mcp/streamable_http.rs:192-193 | the first failing chunk's error is the answer |
| StreamableHttp.StreamEnded | src-tauri/src/mcp/streamable_http.rs:207-217 | a fully read stream answers its last response or InvalidResponse |
| StreamableHttp.HandleSseResponse | src-tauri/src/mcp/streamable_http.rs:187-219 | `handle_sse_response` answers as the whole stream's outcome |
| StreamableHttp.ResponseOutcome | src-tauri/src/mcp/streamable_http.rs:133-185 | 200/202 carry the body (JSON error field → JsonRpcError); 401 AuthenticationFailed; 404 ConnectionFailed; 400 InvalidResponse; other statuses TransportError |
| StreamableHttp.StreamedErrorsPassThrough | src-tauri/src/mcp/streamable_http.rs:146-169 | an SSE response is returned as is; a JSON body without error is returned |
| StreamableHttp.ResultOf | src-tauri/src/mcp/streamable_http.rs:345-376 | a request's answer is the response's result, or an error when there is none |
| StreamableHttp.NotificationOutcome | src-tauri/src/mcp/streamable_http.rs:466-478 | a notification succeeds exactly with 200, 202 or 204 |
| StreamableHttp.RequestHeaders | src-tauri/src/mcp/streamable_http.rs:86-105 | content type and accept first, then the session id when known; without authentication nothing else |
| StreamableHttp.SessionAfter | src-tauri/src/mcp/streamable_http.rs:112-127 | a reply carrying an Mcp-Session-Id replaces the session id; a failed send or a reply without it keeps it |
| StreamableHttp.InitializeOutcome | src-tauri/src/mcp/streamable_http.rs:305-328 | the exchange's error, "Missing result in initialize response", a deserialization error, or the decoded result; a differing protocol version is accepted |
| StreamableHttp.TypedResult | src-tauri/src/mcp/streamable_http.rs:348-351 | an error passes on; a result the request's type does not decode becomes a DeserializationError; otherwise the decoded value |
| StreamableHttp.UntypedResult | src-tauri/src/mcp/streamable_http.rs:410-413 | `read_resource` and `get_prompt`, which decode nothing, return the result as it is |
| StreamableHttp.StreamableHttpTransport.constructor | src-tauri/src/mcp/streamable_http.rs:51-79 | not connected, no session, ids from 1 |
| StreamableHttp.StreamableHttpTransport.IsConnected | src-tauri/src/mcp/streamable_http.rs:295-297 | the connected flag that `connect` sets on success and `disconnect` clears |
| StreamableHttp.StreamableHttpTransport.NextRequestId | src-tauri/src/mcp/streamable_http.rs:81-84 | the id handed out is at least 1 and above every earlier one; the counter moves by one |
| StreamableHttp.StreamableHttpTransport.HandleResponse | src-tauri/src/mcp/streamable_http.rs:133-185 | `handle_response` is the status classification |
| StreamableHttp.StreamableHttpTransport.SendAndReceive | src-tauri/src/mcp/streamable_http.rs:107-131 | sent with the current session id; a reply's Mcp-Session-Id replaces it for every later request |
| StreamableHttp.StreamableHttpTransport.SendNotification | src-tauri/src/mcp/streamable_http.rs:458-479 | sent with the session id and no request id; answered by the status |
| StreamableHttp.StreamableHttpTransport.Call | src-tauri/src/mcp/streamable_http.rs:334-452 | refused with NotConnected before `connect`, with nothing changed; otherwise sent with the next id under the old session id, answered by the response's result after the request's typed decode (a result that does not decode is a DeserializationError), and the reply's session id kept; server fields unchanged |
| StreamableHttp.StreamableHttpTransport.Ping | src-tauri/src/mcp/streamable_http.rs:481-485 | a ping is sent with the next id, connected or not; the exchange's error is passed up and any response is Ok; the reply's session id is kept and the server fields are unchanged |
| StreamableHttp.StreamableHttpTransport.Initialize | src-tauri/src/mcp/streamable_http.rs:305-328 | sent with the next id; the answer is `InitializeOutcome` of the reply, and the reply's session id is kept |
| StreamableHttp.StreamableHttpTransport.Handshake | src-tauri/src/mcp/streamable_http.rs:259-270 | a failed handshake returns its error with the server fields unchanged; otherwise description and capabilities are stored, the notification goes out under the session id the handshake's reply left, and the transport is connected exactly when it is accepted |
| StreamableHttp.StreamableHttpTransport.Announce | src-tauri/src/mcp/streamable_http.rs:263-270 | the server's description and capabilities are stored before the notification is sent; connected exactly when the notification is accepted, otherwise its error is returned |
| StreamableHttp.StreamableHttpTransport.Connect | src-tauri/src/mcp/streamable_http.rs:249-277 | an invalid credential stops it before sending; a failed handshake returns its error with the server fields unchanged; otherwise the server's description and capabilities are stored before the notification, which goes out under the session id the handshake's reply left; its error is returned without connecting; Ok exactly when the credential is valid, the handshake decodes and the notification is accepted |
| StreamableHttp.StreamableHttpTransport.Disconnect | src-tauri/src/mcp/streamable_http.rs:279-293 | forgets session and server and disconnects; a no-op when not connected |
| SessionStatuses.StatusTextInjective | src-tauri/src/session/state.rs:38-50 | status display texts are distinct |
| SessionEvents.SessionIdIsField | src-tauri/src/session/events.rs:112-125 | `session_id` is the field every variant carries |
| SessionEvents.GlobalNameHasNoColon | src-tauri/src/session/events.rs:145-158 | no global name contains ':' |
| SessionEvents.EventNameRoundTrip | src-tauri/src/session/events.rs:128-143 | `event_name` is global name + ":" + session id, and both read back from it |
| SessionEvents.GlobalNamesDistinct | src-tauri/src/session/events.rs:145-158 | the global name depends only on the variant and differs between variants |
| SessionEvents.ExampleOutputNames | src-tauri/src/session/events.rs:250-260 | the Output event of "test-123" is "session-output:test-123" on "session-output" |
| SessionStates.NewSessionState | src-tauri/src/session/state.rs:92-110 | Initializing, no pid, zero tokens, created_at = last_activity, nothing broadcast |
| SessionStates.SetStatus | src-tauri/src/session/state.rs:123-133 | the new status, activity now, a StatusChanged(old, new) broadcast; the rest unchanged |
| SessionStates.SetRunning | src-tauri/src/session/state.rs:136-139 | the pid is recorded and the session is Running |
| SessionStates.SetCompleted | src-tauri/src/session/state.rs:142-145 | Completed and no pid |
| SessionStates.SetFailed | src-tauri/src/session/state.rs:148-152 | Failed, no pid, the error stored |
| SessionStates.SetCancelled | src-tauri/src/session/state.rs:155-158 | Cancelled and no pid |
| SessionStates.AddTokens | src-tauri/src/session/state.rs:161-167 | each amount added to its own counter; status, pid and broadcasts unchanged |
| SessionStates.TokensAccumulate | src-tauri/src/session/state.rs:161-167 | after several additions the counters are the start plus the sum |
| SessionStates.ReplayStep | src-tauri/src/session/state.rs:123-133 | a status change continues the replayed history |
| SessionStates.SetStatusTraced | src-tauri/src/session/state.rs:123-133 | after any status change the broadcasts still replay to the current status |
| SessionStates.OperationsTraced | src-tauri/src/session/state.rs:136-167 | every setter and token update keeps the broadcasts replaying to the current status |
| SessionStates.StatusClasses | src-tauri/src/session/state.rs:170-180 | never both active and terminal; exactly Initializing and Terminating are neither |
| SessionStates.ExampleTransitions | src-tauri/src/session/state.rs:236-248 | new, Running with pid 12345, then Completed without pid, both changes broadcast |
| SessionStates.ExampleTokens | src-tauri/src/session/state.rs:251-259 | two additions give 200 input, 100 output, 20 cache-read tokens |
| SessionStates.InfoOf | src-tauri/src/session/state.rs:204-220 | `SessionInfo::from` copies id, project path, status, model, pid, both timestamps, initial prompt, error message and token usage, and adds the duration |
| SessionManagement.ErrorTextNamesSession | src-tauri/src/session/manager.rs:382-400 | the lookup errors end with the session id and differ |
| SessionManagement.SelectedIds | src-tauri/src/session/manager.rs:280-294 | a listing selects every session, or exactly the active ones |
| SessionManagement.ActiveAndTerminalDisjoint | src-tauri/src/session/manager.rs:331-338 | active and terminal sessions are disjoint and together at most the total |
| SessionManagement.PurgeKeepsLive | src-tauri/src/session/manager.rs:297-308 | the purge leaves no terminal session and keeps every other one |
| SessionManagement.StoreKeeps | src-tauri/src/session/manager.rs:195-208 | storing a well-formed session keeps the maps consistent |
| SessionManagement.RemoveKeeps | src-tauri/src/session/manager.rs:297-328 | removing sessions with their processes keeps the maps consistent |
| SessionManagement.InfosOf | src-tauri/src/session/manager.rs:280-294 | the views of the named sessions, in order |
| SessionManagement.SessionManager.constructor | src-tauri/src/session/manager.rs:129-137 | an empty manager for 10 sessions with a one-hour timeout |
| SessionManagement.SessionManager.WithLimits | src-tauri/src/session/manager.rs:139-147 | an empty manager with the given limits |
| SessionManagement.SessionManager.CreateSession | src-tauri/src/session/manager.rs:149-177 | at capacity, terminal sessions are purged first and a still-full manager refuses; a duplicate id is refused with the map unchanged; otherwise one new Initializing session |
| SessionManagement.SessionManager.RegisterProcess | src-tauri/src/session/manager.rs:195-208 | unknown session refused; otherwise Running with the pid and the process stored |
| SessionManagement.SessionManager.CancelSession | src-tauri/src/session/manager.rs:211-232 | always Ok; the process entry removed; a known session goes through Terminating to Cancelled |
| SessionManagement.SessionManager.KillSession | src-tauri/src/session/manager.rs:235-249 | always Ok; the process entry removed; a known session is Cancelled |
| SessionManagement.SessionManager.CompleteSession | src-tauri/src/session/manager.rs:252-263 | the process entry always removed; known session Completed, unknown SessionNotFound |
| SessionManagement.SessionManager.FailSession | src-tauri/src/session/manager.rs:266-277 | the process entry always removed; known session Failed with the error, unknown SessionNotFound |
| SessionManagement.SessionManager.ListSessions | src-tauri/src/session/manager.rs:280-294 | each selected session's view once, and nothing else |
| SessionManagement.SessionManager.RemoveAll | src-tauri/src/session/manager.rs:297-328 | the listed sessions and their processes are removed |
| SessionManagement.SessionManager.CleanupTerminalSessions | src-tauri/src/session/manager.rs:297-308 | exactly the terminal sessions and their processes go |
| SessionManagement.SessionManager.CleanupStaleSessions | src-tauri/src/session/manager.rs:311-328 | exactly the terminal sessions idle longer than the timeout go, with their processes |
| SessionManagement.SessionManager.ActiveSessionCount | src-tauri/src/session/manager.rs:331-338 | the number of active sessions; with the terminal ones at most the total |
| SessionManagement.SessionManager.TotalSessionCount | src-tauri/src/session/manager.rs:336-338 | the number of stored sessions |
| SessionManagement.SessionManager.SessionExists | src-tauri/src/session/manager.rs:341-343 | a session is stored under the id |
| SessionManagement.SessionManager.IsSessionActive | src-tauri/src/session/manager.rs:346-348 | the session exists and is Running or Paused; false for an unknown id |
| SessionManagement.SessionManager.GetProcess | src-tauri/src/session/manager.rs:351-354 | a process exactly when one is registered, and then its session is active with that pid |
| SessionManagement.CancelledSessions | src-tauri/src/session/manager.rs:361-365 | after `cancel_session` on a set of ids, each known one is Cancelled without a process, having broadcast Terminating then Cancelled; the rest are unchanged |
| SessionManagement.CancelledStep | src-tauri/src/session/manager.rs:361-365 | cancelling one more session extends the cancelled set by its id |
| SessionManagement.SessionManager.CancelInTurn | src-tauri/src/session/manager.rs:361-365 | one turn of `shutdown_all`: the next listed session is cancelled, extending `CancelledSessions` by its id and removing its process |
| SessionManagement.SessionManager.CancelEach | src-tauri/src/session/manager.rs:361-365 | the loop over the listed ids leaves exactly `CancelledSessions` of them, and their processes removed |
| SessionManagement.SessionManager.ShutdownAll | src-tauri/src/session/manager.rs:356-371 | every session is cancelled in turn (the sessions left before the clear are `CancelledSessions` of all ids), then both maps end empty and the manager stays consistent |
| SessionManagement.ExampleCreate | src-tauri/src/session/manager.rs:412-419 | a new manager accepts "test-1" and then knows it |
| SessionManagement.ExampleDuplicate | src-tauri/src/session/manager.rs:421-427 | the second "test-1" is SessionExists |
| SessionManagement.ExampleMaxSessions | src-tauri/src/session/manager.rs:429-436 | with room for two, the third is MaxSessionsReached(2) |
| SessionManagement.ExampleListAll | src-tauri/src/session/manager.rs:438-446 | two sessions created, two listed |
| SkillTypes.TriggerKeyInjective | src-tauri/src/skills/registry.rs:142 | different triggers are filed under different keys |
| SkillsRegistry.Without | src-tauri/src/skills/registry.rs:169 | `retain` keeps exactly the other ids |
| SkillsRegistry.WithoutAppend | src-tauri/src/skills/registry.rs:169 | `retain` distributes over appended lists |
| SkillsRegistry.WithoutAbsent | src-tauri/src/skills/registry.rs:169 | `retain` of an unlisted id changes nothing |
| SkillsRegistry.StoredSkills | src-tauri/src/skills/registry.rs:239-248 | looking up ids gives only cached skills, at most one per id |
| SkillsRegistry.StoredSkillsAllCached | src-tauri/src/skills/registry.rs:239-248 | when every id is cached, each id's skill in order |
| SkillsRegistry.StoredSkillsSkipUncached | src-tauri/src/skills/registry.rs:239-248 | an uncached id never comes back |
| SkillsRegistry.Register | src-tauri/src/skills/registry.rs:129-154 | indexes change only for a configured SlashCommand or Hook |
| SkillsRegistry.Unregister | src-tauri/src/skills/registry.rs:157-177 | the skill leaves the cache; an unknown id changes nothing |
| SkillsRegistry.GetSkill | src-tauri/src/skills/registry.rs:227-230 | a skill exactly for a cached id, and it carries that id |
| SkillsRegistry.GetSlashCommand | src-tauri/src/skills/registry.rs:232-237 | a skill only when the name is indexed and its id still cached |
| SkillsRegistry.GetHooksForTrigger | src-tauri/src/skills/registry.rs:239-249 | at most one skill per filed id |
| SkillsRegistry.RegisterFinds | src-tauri/src/skills/registry.rs:129-154 | after registering the skill is found by id, by command name and as its trigger's last hook |
| SkillsRegistry.UnregisterForgets | src-tauri/src/skills/registry.rs:157-177 | after unregistering no lookup returns that id |
| SkillsRegistry.RegisterUnregisterRoundTrip | src-tauri/src/skills/registry.rs:129-177 | registering a new skill and unregistering it restores cache, slash index and every trigger's list |
| SkillsRegistry.RegisterAgainRepeatsHook | src-tauri/src/skills/registry.rs:140-149 | registering a hook skill twice files its id twice |
| SkillsRegistry.SelectedIds | src-tauri/src/skills/registry.rs:251-275 | a query selects all, one kind, or Global plus the project's skills |
| SkillsRegistry.KindCountOfListing | src-tauri/src/skills/registry.rs:289-296 | counting along a listing counts the listed skills of the kind |
| SkillsRegistry.TallyNext | src-tauri/src/skills/registry.rs:292-294 | one more skill counts once more for its kind |
| SkillsRegistry.SkillRegistry.constructor | src-tauri/src/skills/registry.rs:24-30 | a new registry is empty |
| SkillsRegistry.SkillRegistry.RegisterSkill | src-tauri/src/skills/registry.rs:129-154 | the state after `register_skill`, keeping every skill under its id |
| SkillsRegistry.SkillRegistry.UnregisterSkill | src-tauri/src/skills/registry.rs:157-177 | the state after `unregister_skill` |
| SkillsRegistry.SkillRegistry.ListSkills | src-tauri/src/skills/registry.rs:251-275 | exactly the cached skills the query selects, each once |
| SkillsRegistry.SkillRegistry.ListSlashCommands | src-tauri/src/skills/registry.rs:277-287 | each indexed name whose skill is cached, with that skill, once |
| SkillsRegistry.SkillRegistry.HasSlashCommand | src-tauri/src/skills/registry.rs:298-300 | the name is in the index; every name the lookup resolves is |
| SkillsRegistry.SkillRegistry.CountByKind | src-tauri/src/skills/registry.rs:289-296 | per kind present, the number of cached skills of that kind |
| SkillsRegistry.SkillRegistry.ClearCache | src-tauri/src/skills/registry.rs:303-307 | all three maps empty |
| SkillsRegistry.ExampleNewRegistry | src-tauri/src/skills/registry.rs:321-324 | a new registry lists nothing |
| SkillsRegistry.ExampleRegisterSlashCommand | src-tauri/src/skills/registry.rs:326-362 | a registered slash command is indexed and found |
| SkillsExecutor.ExpandSlashPrompt | src-tauri/src/skills/executor.rs:133-150 | the in-place expansion equals `$ARGUMENTS` replacement then each `${key}` in turn |
| SkillsExecutor.ArgumentsExpansion | src-tauri/src/skills/executor.rs:136-140 | every `$ARGUMENTS` becomes the argument text (cut and joined); without it the prompt stays |
| SkillsExecutor.VariablesNeedMarker | src-tauri/src/skills/executor.rs:142-150 | a prompt without "${" is untouched by any variables in any order |
| SkillsExecutor.ExpandTemplate | src-tauri/src/skills/executor.rs:417-433 | the in-place expansion equals replacing each declared placeholder in turn |
| SkillsExecutor.VariableValuePrecedence | src-tauri/src/skills/executor.rs:422-430 | context variable first, then the default, then "" |
| SkillsExecutor.TemplateOneVariable | src-tauri/src/skills/executor.rs:420-433 | every "{{name}}" becomes the variable's value |
| SkillsExecutor.TemplateNeedsMarker | src-tauri/src/skills/executor.rs:417-433 | content without "{{" comes out unchanged |
| SkillsExecutor.HookResult | src-tauri/src/skills/executor.rs:167-216 | success exactly for exit code 0; error exactly on failure, and then stderr |
| SkillsExecutor.ExecuteStep | src-tauri/src/skills/executor.rs:320-398 | the step's outcome under its own id and name, no retries |
| SkillsExecutor.StoppedStays | src-tauri/src/skills/executor.rs:293-295 | after the first executed failure later steps change nothing |
| SkillsExecutor.AdvanceWellRun | src-tauri/src/skills/executor.rs:259-296 | one turn keeps the run well formed |
| SkillsExecutor.ProgressWellRun | src-tauri/src/skills/executor.rs:259-296 | one result per step in order until a stop; only unmet dependencies fail before the last; completed holds exactly the successful outputs |
| SkillsExecutor.FirstFailureIsEarliest | src-tauri/src/skills/executor.rs:309-312 | the reported error is the earliest failing step's |
| SkillsExecutor.WorkflowOutcome | src-tauri/src/skills/executor.rs:298-315 | success iff every step ran and succeeded; otherwise the earliest failure's error |
| SkillsExecutor.CollectedIds | src-tauri/src/skills/executor.rs:284-288 | a step id is completed exactly when a recorded step with it succeeded with output |
| SkillsExecutor.RunStep | src-tauri/src/skills/executor.rs:260-295 | one turn: dependency check, then the step and its bookkeeping |
| SkillsExecutor.RanToEnd | src-tauri/src/skills/executor.rs:259-296 | a run that stopped or saw every step is finished |
| SkillsExecutor.RunWorkflow | src-tauri/src/skills/executor.rs:253-296 | the loop's state is the sequential run's, stopping at the first executed failure |
| SkillsExecutor.MissingConfigFails | src-tauri/src/skills/executor.rs:117-461 | a missing kind configuration fails with "Invalid <kind> configuration" |
| SkillsExecutor.ConfiguredSucceeds | src-tauri/src/skills/executor.rs:154-481 | configured slash commands, templates and agents always succeed without error |
| SkillsExecutor.SuccessNeedsEnabledSkill | src-tauri/src/skills/executor.rs:46-67 | a success means the skill exists and is enabled |
| SkillsExecutor.SkillExecutor.constructor | src-tauri/src/skills/executor.rs:29-34 | default timeout 300 s over the registry |
| SkillsExecutor.SkillExecutor.WithTimeout | src-tauri/src/skills/executor.rs:37-40 | the timeout is replaced |
| SkillsExecutor.SkillExecutor.Execute | src-tauri/src/skills/executor.rs:43-78 | unknown id "Skill not found: id", disabled "Skill is disabled", otherwise the kind's handler |
| SkillsExecutor.SkillExecutor.ExecuteSlashCommandByName | src-tauri/src/skills/executor.rs:81-114 | unknown name "Slash command not found: /name"; otherwise the command with the text as ARGUMENTS, enabled or not; a configured one answers its prompt with every `$ARGUMENTS` replaced by the text |
| SkillsExecutor.SkillExecutor.ExecuteHooksForTrigger | src-tauri/src/skills/executor.rs:219-234 | one `execute` result per hook filed under the trigger, in order |

## Left out

- Records stored in maps (`Task`, `ServerHealth`, `SessionState`, `Skill`) are values, not objects; the source clones them out of and back into its maps, so nothing aliases them.
- Concurrency: DashMap, RwLock, Arc, AtomicU64, oneshot and broadcast channels. Each manager is single-threaded, and events are appended to a sequence field.
- The wall clock (`chrono::Utc::now`, `Instant`), RFC 3339 parsing and `duration_ms`. Times are caller-supplied naturals, so a token expiry before the epoch is not modelled. A missing completion time sorts first in history trimming, as the empty text does.
- Floating point: task percentages are recorded only as present or absent; the f64 fields of events and the backoff multiplier are not modelled. JSON numbers are integers: fractional or exponent values (`0.5`, `1e300`) and the text `to_string` gives them when a skill variable is expanded are not modelled.
- u32/u64/usize widths. Counters, ids and latencies are unbounded naturals. Apart from the case below, the source's overflow would need 2^64 requests or checks. A session timeout above i64::MAX/1000 seconds, which panics in `chrono::Duration::seconds` or wraps negative in the `as i64` cast of `cleanup_stale_sessions`, is not modelled: `StaleIds` compares against the timeout as an unbounded natural.
- The HTTP client and network: request sending, URL parsing, client-build failures (an input flag), `reqwest::Error` classification (an input variant), and lossy UTF-8 decoding of body chunks (chunks arrive as text).
- serde decoding and encoding: decoders are function parameters; the typed results of `list_tools`, `call_tool`, `list_resources` and `list_prompts` are represented by the JSON value their decoder accepts; JSON output objects list their members in the order the source writes them.
- The tokio ticker of `start_monitoring`. Only one server's turn (`ProbeServer`) and the running flag are modelled.
- Child processes: `ManagedProcess::shutdown`/`kill` and `run_shell_command`. Shell outcomes are inputs; shutdown and kill errors are logged and ignored by the source, so they do not appear.
- Event transport: `subscribe`, the Tauri emitters and `setup_task_event_emitter`.
- `get_session`, `get_session_mut` and `SessionManager::subscribe` return references into the map. `GetProcess`, `SessionExists` and `IsSessionActive` cover the lookups.
- Database and loader: `init_database`, `load_from_database`, `save_skill`, `delete_skill` and skills/loader.rs. Their effect on the cache is `RegisterSkill` and `UnregisterSkill`.
- `Task.metadata` and `with_metadata`, and `SessionState.metadata`: free-form data no modelled operation reads or changes; they are not transcribed.
- Skill metadata, retry and condition settings, argument and input definitions, and workflow outputs are data the executor never reads; they are not transcribed.
- Hash map iteration order is an input: the order of `${key}` substitution, of listings, of `cancel_all` and of `count_by_kind`. Only `VariablesNeedMarker` states something about substitution independent of it.
- SkillsExecutor.ExecuteStep: a SkillRef step's nested `execute` is an input function, so cyclic skill references, which recurse without bound in the source, are not modelled.
- The workflow's `variables` map is never changed by the source (the steps receive it but do not write it); the model passes the context's variables through.
- SkillsExecutor.SkillExecutor.WithTimeout: the default timeout is stored but, as in the source, never read.
- StreamableHttp.ThreeLineFrame: it states the source's parser example for any event, data and id text rather than the literal strings.
- Tasks have no terminal-state guard: `start`, `complete` and `cancel` apply whatever the status, and `cancel_task` cancels a finished cancellable task. Health has no debouncing: one failed check makes a server Unhealthy.
