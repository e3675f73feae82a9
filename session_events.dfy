/// The lifecycle status of a Claude session.
module SessionStatuses {
  datatype SessionStatus = Initializing | Running | Paused | Completed | Cancelled | Failed | Terminating

  /** The lowercase text a status displays as. */
  function StatusText(s: SessionStatus): string
  {
    match s
    case Initializing => "initializing"
    case Running => "running"
    case Paused => "paused"
    case Completed => "completed"
    case Cancelled => "cancelled"
    case Failed => "failed"
    case Terminating => "terminating"
  }

  /** Two statuses display alike only if they are the same status. */
  lemma StatusTextInjective(s: SessionStatus, u: SessionStatus)
    ensures StatusText(s) == StatusText(u) <==> s == u
  {
    if s != u {
      assert StatusText(s)[0] != StatusText(u)[0] || StatusText(s)[1] != StatusText(u)[1]
        || |StatusText(s)| != |StatusText(u)|;
    }
  }
}

/// The events a session broadcasts, and the names under which the frontend
/// receives them: one channel per session and one global channel per kind.
module SessionEvents {
  import opened Common
  import opened Strings
  import SessionStatuses

  type SessionStatus = SessionStatuses.SessionStatus

  datatype OutputType = Assistant | System | User | Tool | Error | Stderr

  /** An event of one session. Progress keeps only its message: its
      floating-point amounts are not modelled. */
  datatype SessionEvent =
    | StatusChanged(sessionId: string, oldStatus: SessionStatus, newStatus: SessionStatus)
    | Output(sessionId: string, content: string, messageType: OutputType)
    | Error(sessionId: string, message: string, code: Option<string>)
    | ToolStart(sessionId: string, toolName: string, toolId: Option<string>)
    | ToolComplete(sessionId: string, toolName: string, toolId: Option<string>, success: bool)
    | TokenUsage(sessionId: string, inputTokens: nat, outputTokens: nat,
                 cacheReadTokens: nat, cacheWriteTokens: nat)
    | Progress(sessionId: string, progressMessage: Option<string>)
    | Thinking(sessionId: string, content: string)
    | Completed(sessionId: string, summary: Option<string>)
    | Cancelled(sessionId: string)

  /** `session_id`: the session an event belongs to. */
  function SessionId(e: SessionEvent): string
  {
    match e
    case StatusChanged(id, _, _) => id
    case Output(id, _, _) => id
    case Error(id, _, _) => id
    case ToolStart(id, _, _) => id
    case ToolComplete(id, _, _, _) => id
    case TokenUsage(id, _, _, _, _) => id
    case Progress(id, _) => id
    case Thinking(id, _) => id
    case Completed(id, _) => id
    case Cancelled(id) => id
  }

  /** `global_event_name`: the broadcast channel of the event's kind. */
  function GlobalEventName(e: SessionEvent): string
  {
    match e
    case StatusChanged(_, _, _) => "session-status"
    case Output(_, _, _) => "session-output"
    case Error(_, _, _) => "session-error"
    case ToolStart(_, _, _) => "session-tool-start"
    case ToolComplete(_, _, _, _) => "session-tool-complete"
    case TokenUsage(_, _, _, _, _) => "session-tokens"
    case Progress(_, _) => "session-progress"
    case Thinking(_, _) => "session-thinking"
    case Completed(_, _) => "session-completed"
    case Cancelled(_) => "session-cancelled"
  }

  /** `event_name`: the event's kind channel qualified by its session. */
  function EventName(e: SessionEvent): string
  {
    GlobalEventName(e) + ":" + SessionId(e)
  }

  /** The kind and the session an event name denotes: the text before the
      first colon and the text after it. */
  function ParseEventName(name: string): Option<(string, string)>
  {
    match Find(name, ":")
    case None => None
    case Some(k) => Some((name[..k], name[k + 1..]))
  }

  /** Every variant carries its session id in the same field. */
  lemma SessionIdIsField(e: SessionEvent)
    ensures SessionId(e) == e.sessionId
  {
  }

  /** No global name contains a colon. */
  lemma GlobalNameHasNoColon(e: SessionEvent)
    ensures ':' !in GlobalEventName(e)
  {
  }

  /** An event name can be read back into the event's global name and
      session id, whatever the session id holds. */
  lemma EventNameRoundTrip(e: SessionEvent)
    ensures ParseEventName(EventName(e)) == Some((GlobalEventName(e), SessionId(e)))
  {
    var g := GlobalEventName(e);
    var name := EventName(e);
    GlobalNameHasNoColon(e);
    assert name[|g|] == ':';
    assert OccursAt(name, ":", |g|);
    forall j | 0 <= j < |g|
      ensures !OccursAt(name, ":", j)
    {
      assert name[j] == g[j];
    }
    FindFirst(name, ":", |g|);
    assert name[..|g|] == g;
    assert name[|g| + 1..] == SessionId(e);
  }

  /** Events of different kinds are broadcast on different global channels,
      and events of one kind on the same one. */
  lemma GlobalNamesDistinct(e: SessionEvent, f: SessionEvent)
    ensures GlobalEventName(e) == GlobalEventName(f) <==> KindIndex(e) == KindIndex(f)
  {
    if KindIndex(e) != KindIndex(f) {
      var g, h := GlobalEventName(e), GlobalEventName(f);
      assert |g| != |h| || g[8] != h[8] || g[9] != h[9] || g[13] != h[13];
    }
  }

  /** The position of an event's variant in the declaration. */
  function KindIndex(e: SessionEvent): nat
  {
    match e
    case StatusChanged(_, _, _) => 0
    case Output(_, _, _) => 1
    case Error(_, _, _) => 2
    case ToolStart(_, _, _) => 3
    case ToolComplete(_, _, _, _) => 4
    case TokenUsage(_, _, _, _, _) => 5
    case Progress(_, _) => 6
    case Thinking(_, _) => 7
    case Completed(_, _) => 8
    case Cancelled(_) => 9
  }

  /** The names of an assistant output event of session "test-123". */
  lemma ExampleOutputNames()
    ensures var e := Output("test-123", "Hello", OutputType.Assistant);
      EventName(e) == "session-output:test-123" && GlobalEventName(e) == "session-output"
      && SessionId(e) == "test-123"
  {
  }
}
