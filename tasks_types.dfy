/// Tasks of the parallel task system: their status machine, progress,
/// results, and the flattened view handed to the frontend.
module TaskTypes {
  import opened Common
  import opened Json

  datatype TaskStatus = Pending | Running | Completed | Failed | Cancelled | Paused

  datatype TaskKind =
    | AgentExecution | SkillExecution | Shell | FileOperation
    | McpToolCall | Checkpoint | Sync | Async

  datatype TaskPriority = Low | Normal | High | Critical

  /** Progress of a task. Of the floating-point percentage only its presence
      is kept. */
  datatype TaskProgress = TaskProgress(
    current: nat,
    total: Option<nat>,
    hasPercentage: bool,
    message: string,
    details: Option<string>)

  /** Progress before any step: nothing done, no total, no percentage. */
  function DefaultProgress(): (p: TaskProgress)
    ensures p.current == 0 && p.total.None? && !p.hasPercentage
    ensures p.message == "Starting..." && p.details.None?
  {
    TaskProgress(0, None, false, "Starting...", None)
  }

  /** Progress whose total is unknown. */
  function Indeterminate(message: string): (p: TaskProgress)
    ensures p.total.None? && !p.hasPercentage && p.current == 0 && p.message == message
  {
    DefaultProgress().(message := message)
  }

  /** Progress against a known total; a percentage exists exactly when the
      total is positive. */
  function WithTotal(current: nat, total: nat, message: string): (p: TaskProgress)
    ensures p.current == current && p.total == Some(total) && p.message == message
    ensures p.hasPercentage <==> total > 0
    ensures p.details.None?
  {
    TaskProgress(current, Some(total), total > 0, message, None)
  }

  /** `update`: a new current step and message; the total and details stay,
      and the percentage is recomputed only when a total is known. */
  function UpdateProgress(p: TaskProgress, current: nat, message: string): (r: TaskProgress)
    ensures r.current == current && r.message == message
    ensures r.total == p.total && r.details == p.details
    ensures r.hasPercentage <==> (p.total.Some? || p.hasPercentage)
  {
    if p.total.Some? then p.(current := current, message := message, hasPercentage := true)
    else p.(current := current, message := message)
  }

  datatype TaskResult = TaskResult(
    success: bool,
    data: Option<JsonValue>,
    error: Option<string>,
    durationMs: nat,
    logs: Option<seq<string>>)

  /** A successful result: no error, no logs. */
  function SuccessResult(data: Option<JsonValue>, durationMs: nat): (r: TaskResult)
    ensures r.success && r.error.None? && r.data == data && r.durationMs == durationMs && r.logs.None?
  {
    TaskResult(true, data, None, durationMs, None)
  }

  /** A failed result: no data, the given error, no logs. */
  function FailureResult(error: string, durationMs: nat): (r: TaskResult)
    ensures !r.success && r.data.None? && r.error == Some(error) && r.durationMs == durationMs && r.logs.None?
  {
    TaskResult(false, None, Some(error), durationMs, None)
  }

  /** `with_logs`: only the logs change. */
  function WithLogs(res: TaskResult, logs: seq<string>): (r: TaskResult)
    ensures r.logs == Some(logs) && r.(logs := res.logs) == res
  {
    res.(logs := Some(logs))
  }

  /** A task. Its times are caller-supplied instants; the source stores them
      as RFC 3339 text produced by one formatter, which orders like the
      instant it denotes. */
  datatype Task = Task(
    id: string,
    kind: TaskKind,
    name: string,
    description: Option<string>,
    status: TaskStatus,
    priority: TaskPriority,
    progress: TaskProgress,
    result: Option<TaskResult>,
    cancellable: bool,
    background: bool,
    createdAt: Instant,
    startedAt: Option<Instant>,
    completedAt: Option<Instant>)

  /** `Task::new`; the generated id and the clock are inputs. */
  function NewTask(id: string, kind: TaskKind, name: string, now: Instant): (t: Task)
    ensures t.id == id && t.kind == kind && t.name == name && t.description.None?
    ensures t.status == Pending && t.priority == Normal && t.progress == DefaultProgress()
    ensures t.result.None? && t.cancellable && !t.background
    ensures t.createdAt == now && t.startedAt.None? && t.completedAt.None?
  {
    Task(id, kind, name, None, Pending, Normal, DefaultProgress(), None, true, false, now, None, None)
  }

  /** `with_description`: only the description changes. */
  function WithDescription(t: Task, description: string): (r: Task)
    ensures r.description == Some(description) && r.(description := t.description) == t
  {
    t.(description := Some(description))
  }

  /** `with_priority`: only the priority changes. */
  function WithPriority(t: Task, priority: TaskPriority): (r: Task)
    ensures r.priority == priority && r.(priority := t.priority) == t
  {
    t.(priority := priority)
  }

  /** `as_background`: only the background flag changes, to set. */
  function AsBackground(t: Task): (r: Task)
    ensures r.background && r.(background := t.background) == t
  {
    t.(background := true)
  }

  /** Pending or Running. */
  predicate IsActive(t: Task)
  {
    t.status == Pending || t.status == Running
  }

  /** Completed, Failed or Cancelled. */
  predicate IsTerminal(t: Task)
  {
    t.status == Completed || t.status == Failed || t.status == Cancelled
  }

  /** Only the status machine's fields differ between `t` and `r`. */
  predicate SameTaskExceptLifecycle(t: Task, r: Task)
  {
    r.id == t.id && r.kind == t.kind && r.name == t.name && r.description == t.description
    && r.priority == t.priority && r.progress == t.progress && r.cancellable == t.cancellable
    && r.background == t.background && r.createdAt == t.createdAt
  }

  /** `start`: the task runs from `now`, whatever its status was. */
  function Start(t: Task, now: Instant): (r: Task)
    ensures r.status == Running && IsActive(r) && !IsTerminal(r)
    ensures r.startedAt == Some(now) && r.completedAt == t.completedAt && r.result == t.result
    ensures SameTaskExceptLifecycle(t, r)
  {
    t.(status := Running, startedAt := Some(now))
  }

  /** `complete`: the result decides between Completed and Failed; the result
      is kept and the completion time recorded, whatever the status was. */
  function Complete(t: Task, result: TaskResult, now: Instant): (r: Task)
    ensures r.status == (if result.success then Completed else Failed)
    ensures IsTerminal(r) && !IsActive(r)
    ensures r.result == Some(result) && r.completedAt == Some(now) && r.startedAt == t.startedAt
    ensures SameTaskExceptLifecycle(t, r)
  {
    t.(status := if result.success then Completed else Failed,
       result := Some(result),
       completedAt := Some(now))
  }

  /** `cancel`: Cancelled from `now`, whatever the status was. */
  function Cancel(t: Task, now: Instant): (r: Task)
    ensures r.status == Cancelled && IsTerminal(r) && !IsActive(r)
    ensures r.completedAt == Some(now) && r.startedAt == t.startedAt && r.result == t.result
    ensures SameTaskExceptLifecycle(t, r)
  {
    t.(status := Cancelled, completedAt := Some(now))
  }

  /** No status is both active and terminal; Paused is neither, and every
      other status is one of the two. */
  lemma StatusClasses(t: Task)
    ensures !(IsActive(t) && IsTerminal(t))
    ensures t.status == Paused <==> (!IsActive(t) && !IsTerminal(t))
  {
  }

  /** The lifecycle operations have no terminal-state guard: a finished task
      can be restarted, completed again, or cancelled after completing. */
  lemma NoTerminalGuard(t: Task, result: TaskResult, now: Instant)
    requires IsTerminal(t)
    ensures Start(t, now).status == Running
    ensures t.status == Cancelled ==> Complete(t, result, now).status != Cancelled
    ensures t.status == Completed ==> Cancel(t, now).status == Cancelled
  {
  }

  /** The lowercased debug name of a status. */
  function StatusName(s: TaskStatus): string
  {
    match s
    case Pending => "pending"
    case Running => "running"
    case Completed => "completed"
    case Failed => "failed"
    case Cancelled => "cancelled"
    case Paused => "paused"
  }

  /** The status a name denotes, if any. */
  function StatusFromName(name: string): Option<TaskStatus>
  {
    if name == "pending" then Some(Pending)
    else if name == "running" then Some(Running)
    else if name == "completed" then Some(Completed)
    else if name == "failed" then Some(Failed)
    else if name == "cancelled" then Some(Cancelled)
    else if name == "paused" then Some(Paused)
    else None
  }

  /** Status names are distinct: the status can be read back from its name. */
  lemma StatusNameRoundTrip(s: TaskStatus)
    ensures StatusFromName(StatusName(s)) == Some(s)
  {
  }

  /** A name denotes a status only when it is that status's name. */
  lemma StatusFromNameInverse(name: string, s: TaskStatus)
    ensures StatusFromName(name) == Some(s) <==> name == StatusName(s)
  {
  }

  /** Two statuses share a name only if they are the same status. */
  lemma StatusNameInjective(s: TaskStatus, u: TaskStatus)
    ensures StatusName(s) == StatusName(u) <==> s == u
  {
    StatusNameRoundTrip(s);
    StatusNameRoundTrip(u);
  }

  /** The lowercased Debug name of a kind, as `TaskInfo` shows it. */
  function KindName(k: TaskKind): string
  {
    match k
    case AgentExecution => "agentexecution"
    case SkillExecution => "skillexecution"
    case Shell => "shell"
    case FileOperation => "fileoperation"
    case McpToolCall => "mcptoolcall"
    case Checkpoint => "checkpoint"
    case Sync => "sync"
    case Async => "async"
  }

  /** The lowercased Debug name of a priority, as `TaskInfo` shows it. */
  function PriorityName(p: TaskPriority): string
  {
    match p
    case Low => "low"
    case Normal => "normal"
    case High => "high"
    case Critical => "critical"
  }

  /** Distinct kinds are shown under distinct names. */
  lemma KindNameInjective(k: TaskKind, u: TaskKind)
    ensures KindName(k) == KindName(u) <==> k == u
  {
  }

  /** Distinct priorities are shown under distinct names. */
  lemma PriorityNameInjective(p: TaskPriority, q: TaskPriority)
    ensures PriorityName(p) == PriorityName(q) <==> p == q
  {
  }

  /** The frontend's view of a task; the elapsed-time field is not kept. */
  datatype TaskInfo = TaskInfo(
    id: string,
    kind: string,
    name: string,
    description: Option<string>,
    status: string,
    priority: string,
    progress: TaskProgress,
    background: bool,
    cancellable: bool,
    createdAt: Instant,
    startedAt: Option<Instant>,
    completedAt: Option<Instant>)

  /** `TaskInfo::from`: enumerations become their lowercased names, from
      which the task's status can be read back. */
  function InfoOf(t: Task): (info: TaskInfo)
    ensures info.id == t.id && StatusFromName(info.status) == Some(t.status)
    ensures info.progress == t.progress && info.cancellable == t.cancellable
    ensures info.background == t.background && info.completedAt == t.completedAt
    ensures info.kind == KindName(t.kind) && info.priority == PriorityName(t.priority)
    ensures info.name == t.name && info.description == t.description
    ensures info.createdAt == t.createdAt && info.startedAt == t.startedAt
  {
    StatusNameRoundTrip(t.status);
    TaskInfo(t.id, KindName(t.kind), t.name, t.description, StatusName(t.status),
             PriorityName(t.priority), t.progress, t.background, t.cancellable,
             t.createdAt, t.startedAt, t.completedAt)
  }
}
