/// The state of one Claude session: its status machine, its process id,
/// token counters and timestamps, and the status changes it broadcasts.
module SessionStates {
  import opened Common
  import opened SessionStatuses
  import SessionEvents

  datatype TokenUsage = TokenUsage(inputTokens: nat, outputTokens: nat, cacheReadTokens: nat, cacheWriteTokens: nat)

  /** A session. `emitted` is every event sent on the session's broadcast
      channel so far, in order; whether anyone receives it is not
      modelled. */
  datatype SessionState = SessionState(
    id: string,
    projectPath: string,
    status: SessionStatus,
    model: string,
    pid: Option<nat>,
    createdAt: Instant,
    lastActivity: Instant,
    initialPrompt: Option<string>,
    errorMessage: Option<string>,
    tokensUsed: TokenUsage,
    emitted: seq<SessionEvents.SessionEvent>)

  /** Running or Paused: the session can take input. */
  predicate IsActive(s: SessionState)
  {
    s.status == Running || s.status == Paused
  }

  /** Completed, Cancelled or Failed: the session is over. */
  predicate IsTerminal(s: SessionState)
  {
    s.status == Completed || s.status == Cancelled || s.status == Failed
  }

  /** `duration_secs`: the time from creation to the last activity. */
  function DurationSecs(s: SessionState): int
  {
    s.lastActivity - s.createdAt
  }

  /** The status the broadcast status changes lead to from `start`, when each
      change starts from the status the previous one ended in; none when the
      log holds anything else. */
  function Replay(start: SessionStatus, log: seq<SessionEvents.SessionEvent>): Option<SessionStatus>
  {
    if log == [] then Some(start)
    else
      match Replay(start, log[..|log| - 1])
      case None => None
      case Some(current) =>
        var e := log[|log| - 1];
        if e.StatusChanged? && e.oldStatus == current then Some(e.newStatus) else None
  }

  /** The broadcast log is the session's status history: replayed from
      Initializing, it ends in the current status, and every change names
      this session. */
  ghost predicate Traced(s: SessionState)
  {
    Replay(Initializing, s.emitted) == Some(s.status)
    && forall i :: 0 <= i < |s.emitted| ==> s.emitted[i].sessionId == s.id
  }

  /** Only the status machine's fields, the activity time and the log differ
      between `s` and `r`. */
  predicate SameSession(s: SessionState, r: SessionState)
  {
    r.id == s.id && r.projectPath == s.projectPath && r.model == s.model
    && r.createdAt == s.createdAt && r.initialPrompt == s.initialPrompt
  }

  /** `SessionState::new`: Initializing, no process, no tokens, created and
      last active now, nothing broadcast. */
  function NewSessionState(id: string, projectPath: string, model: string, now: Instant): (s: SessionState)
    ensures s.id == id && s.projectPath == projectPath && s.model == model
    ensures s.status == Initializing && !IsActive(s) && !IsTerminal(s)
    ensures s.pid.None? && s.errorMessage.None? && s.initialPrompt.None?
    ensures s.tokensUsed == TokenUsage(0, 0, 0, 0)
    ensures s.createdAt == now && s.lastActivity == now && DurationSecs(s) == 0
    ensures s.emitted == [] && Traced(s)
  {
    SessionState(id, projectPath, Initializing, model, None, now, now, None, None, TokenUsage(0, 0, 0, 0), [])
  }

  /** `set_status`: the new status, active now, and a StatusChanged event
      from the old status to the new one; the process id, the error and the
      counters stay. */
  function SetStatus(s: SessionState, status: SessionStatus, now: Instant): (r: SessionState)
    ensures r.status == status && r.lastActivity == now
    ensures r.emitted == s.emitted + [SessionEvents.StatusChanged(s.id, s.status, status)]
    ensures r.pid == s.pid && r.errorMessage == s.errorMessage && r.tokensUsed == s.tokensUsed
    ensures SameSession(s, r)
  {
    s.(status := status, lastActivity := now,
       emitted := s.emitted + [SessionEvents.StatusChanged(s.id, s.status, status)])
  }

  /** `set_running`: the process id is recorded, then the status becomes
      Running. */
  function SetRunning(s: SessionState, pid: nat, now: Instant): (r: SessionState)
    ensures r.status == Running && IsActive(r) && r.pid == Some(pid)
    ensures r.emitted == s.emitted + [SessionEvents.StatusChanged(s.id, s.status, Running)]
    ensures r.errorMessage == s.errorMessage && r.tokensUsed == s.tokensUsed && SameSession(s, r)
  {
    SetStatus(s.(pid := Some(pid)), Running, now)
  }

  /** `set_completed`: the process id is cleared, then Completed. */
  function SetCompleted(s: SessionState, now: Instant): (r: SessionState)
    ensures r.status == Completed && IsTerminal(r) && r.pid.None?
    ensures r.emitted == s.emitted + [SessionEvents.StatusChanged(s.id, s.status, Completed)]
    ensures r.errorMessage == s.errorMessage && r.tokensUsed == s.tokensUsed && SameSession(s, r)
  {
    SetStatus(s.(pid := None), Completed, now)
  }

  /** `set_failed`: the error is stored and the process id cleared, then
      Failed. */
  function SetFailed(s: SessionState, error: string, now: Instant): (r: SessionState)
    ensures r.status == Failed && IsTerminal(r) && r.pid.None? && r.errorMessage == Some(error)
    ensures r.emitted == s.emitted + [SessionEvents.StatusChanged(s.id, s.status, Failed)]
    ensures r.tokensUsed == s.tokensUsed && SameSession(s, r)
  {
    SetStatus(s.(errorMessage := Some(error), pid := None), Failed, now)
  }

  /** `set_cancelled`: the process id is cleared, then Cancelled. */
  function SetCancelled(s: SessionState, now: Instant): (r: SessionState)
    ensures r.status == Cancelled && IsTerminal(r) && r.pid.None?
    ensures r.emitted == s.emitted + [SessionEvents.StatusChanged(s.id, s.status, Cancelled)]
    ensures r.errorMessage == s.errorMessage && r.tokensUsed == s.tokensUsed && SameSession(s, r)
  {
    SetStatus(s.(pid := None), Cancelled, now)
  }

  /** The four counters added pairwise. */
  function AddUsage(a: TokenUsage, b: TokenUsage): TokenUsage
  {
    TokenUsage(a.inputTokens + b.inputTokens, a.outputTokens + b.outputTokens,
               a.cacheReadTokens + b.cacheReadTokens, a.cacheWriteTokens + b.cacheWriteTokens)
  }

  /** `add_tokens`: each amount is added to its own counter and the session
      is active now; the status does not change and nothing is broadcast. */
  function AddTokens(s: SessionState, input: nat, output: nat, cacheRead: nat, cacheWrite: nat,
                     now: Instant): (r: SessionState)
    ensures r.tokensUsed.inputTokens == s.tokensUsed.inputTokens + input
    ensures r.tokensUsed.outputTokens == s.tokensUsed.outputTokens + output
    ensures r.tokensUsed.cacheReadTokens == s.tokensUsed.cacheReadTokens + cacheRead
    ensures r.tokensUsed.cacheWriteTokens == s.tokensUsed.cacheWriteTokens + cacheWrite
    ensures r.lastActivity == now && r.status == s.status && r.pid == s.pid && r.emitted == s.emitted
    ensures r.errorMessage == s.errorMessage && SameSession(s, r)
  {
    s.(tokensUsed := AddUsage(s.tokensUsed, TokenUsage(input, output, cacheRead, cacheWrite)),
       lastActivity := now)
  }

  /** Several `add_tokens` calls in order, all at `now`. */
  function AddAll(s: SessionState, adds: seq<TokenUsage>, now: Instant): SessionState
  {
    if adds == [] then s
    else
      var a := adds[|adds| - 1];
      AddTokens(AddAll(s, adds[..|adds| - 1], now), a.inputTokens, a.outputTokens,
                a.cacheReadTokens, a.cacheWriteTokens, now)
  }

  /** The sum of several usages. */
  function Total(adds: seq<TokenUsage>): TokenUsage
  {
    if adds == [] then TokenUsage(0, 0, 0, 0) else AddUsage(Total(adds[..|adds| - 1]), adds[|adds| - 1])
  }

  /** The counters after several additions are the starting counters plus
      the sum of what was added, whatever the order; the status, process id
      and log are untouched. */
  lemma {:induction false} TokensAccumulate(s: SessionState, adds: seq<TokenUsage>, now: Instant)
    ensures AddAll(s, adds, now).tokensUsed == AddUsage(s.tokensUsed, Total(adds))
    ensures AddAll(s, adds, now).status == s.status && AddAll(s, adds, now).pid == s.pid
    ensures AddAll(s, adds, now).emitted == s.emitted
    decreases |adds|
  {
    if adds != [] {
      TokensAccumulate(s, adds[..|adds| - 1], now);
    }
  }

  /** One more status change extends the replay by its new status. */
  lemma ReplayStep(start: SessionStatus, log: seq<SessionEvents.SessionEvent>, current: SessionStatus,
                   e: SessionEvents.SessionEvent)
    requires Replay(start, log) == Some(current)
    ensures Replay(start, log + [e])
      == if e.StatusChanged? && e.oldStatus == current then Some(e.newStatus) else None
  {
    assert (log + [e])[..|log|] == log;
  }

  /** Every status change keeps the log the session's status history. */
  lemma SetStatusTraced(s: SessionState, status: SessionStatus, now: Instant)
    requires Traced(s)
    ensures Traced(SetStatus(s, status, now))
  {
    ReplayStep(Initializing, s.emitted, s.status, SessionEvents.StatusChanged(s.id, s.status, status));
    var r := SetStatus(s, status, now);
    assert forall i :: 0 <= i < |s.emitted| ==> r.emitted[i] == s.emitted[i];
  }

  /** The lifecycle operations, and token updates, keep the log the
      session's status history. */
  lemma OperationsTraced(s: SessionState, pid: nat, error: string, input: nat, output: nat,
                         cacheRead: nat, cacheWrite: nat, now: Instant)
    requires Traced(s)
    ensures Traced(SetRunning(s, pid, now)) && Traced(SetCompleted(s, now))
    ensures Traced(SetFailed(s, error, now)) && Traced(SetCancelled(s, now))
    ensures Traced(AddTokens(s, input, output, cacheRead, cacheWrite, now))
  {
    SetStatusTraced(s.(pid := Some(pid)), Running, now);
    SetStatusTraced(s.(pid := None), Completed, now);
    SetStatusTraced(s.(errorMessage := Some(error), pid := None), Failed, now);
    SetStatusTraced(s.(pid := None), Cancelled, now);
  }

  /** No status is both active and terminal; Initializing and Terminating
      are neither, and every other status is one of the two. */
  lemma StatusClasses(s: SessionState)
    ensures !(IsActive(s) && IsTerminal(s))
    ensures (s.status == Initializing || s.status == Terminating) <==> (!IsActive(s) && !IsTerminal(s))
  {
  }

  /** A new session run with pid 12345 and then completed: Running with the
      pid and active, then Completed without a pid and terminal, having
      broadcast both changes. */
  lemma ExampleTransitions(now: Instant, later: Instant, end: Instant)
    ensures var s0 := NewSessionState("test", "/path", "opus", now);
      var s1 := SetRunning(s0, 12345, later);
      var s2 := SetCompleted(s1, end);
      s1.status == Running && s1.pid == Some(12345) && IsActive(s1)
      && s2.status == Completed && s2.pid.None? && IsTerminal(s2)
      && s2.emitted == [SessionEvents.StatusChanged("test", Initializing, Running),
                        SessionEvents.StatusChanged("test", Running, Completed)]
  {
  }

  /** Two additions of (100, 50, 20, 10) and (100, 50, 0, 0) give 200 input,
      100 output and 20 cache-read tokens. */
  lemma ExampleTokens(now: Instant)
    ensures var s := AddTokens(AddTokens(NewSessionState("test", "/path", "opus", now), 100, 50, 20, 10, now),
                               100, 50, 0, 0, now);
      s.tokensUsed.inputTokens == 200 && s.tokensUsed.outputTokens == 100
      && s.tokensUsed.cacheReadTokens == 20
  {
  }

  /** What the frontend is told about a session; timestamps stay instants
      rather than RFC 3339 text. */
  datatype SessionInfo = SessionInfo(
    id: string,
    projectPath: string,
    status: SessionStatus,
    model: string,
    pid: Option<nat>,
    createdAt: Instant,
    lastActivity: Instant,
    initialPrompt: Option<string>,
    errorMessage: Option<string>,
    tokensUsed: TokenUsage,
    durationSecs: int)

  /** `SessionInfo::from`: every field copied, and the duration. */
  function InfoOf(s: SessionState): (info: SessionInfo)
    ensures info.id == s.id && info.projectPath == s.projectPath && info.status == s.status
    ensures info.model == s.model && info.pid == s.pid
    ensures info.createdAt == s.createdAt && info.lastActivity == s.lastActivity
    ensures info.initialPrompt == s.initialPrompt && info.errorMessage == s.errorMessage
    ensures info.tokensUsed == s.tokensUsed && info.durationSecs == DurationSecs(s)
  {
    SessionInfo(s.id, s.projectPath, s.status, s.model, s.pid, s.createdAt, s.lastActivity,
                s.initialPrompt, s.errorMessage, s.tokensUsed, DurationSecs(s))
  }
}
