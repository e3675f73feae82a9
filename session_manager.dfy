/// The session manager: every Claude session by id, the process each
/// running one belongs to, and the capacity and cleanup rules.
module SessionManagement {
  import opened Common
  import opened SessionStatuses
  import opened SessionStates
  import opened Strings

  /** A spawned Claude process; its pipes and the process itself are not
      modelled, only whom it belongs to and its pid. */
  datatype ManagedProcess = ManagedProcess(sessionId: string, pid: nat)

  datatype SessionError =
    | SessionNotFound(id: string)
    | SessionExists(id: string)
    | MaxSessionsReached(limit: nat)
    | SessionNotActive(id: string)
    | ProcessError(message: string)
    | IoError(message: string)

  /** The error's display text. */
  function ErrorText(e: SessionError): string
  {
    match e
    case SessionNotFound(id) => "Session not found: " + id
    case SessionExists(id) => "Session already exists: " + id
    case MaxSessionsReached(limit) => "Maximum sessions reached: " + NatToString(limit)
    case SessionNotActive(id) => "Session not active: " + id
    case ProcessError(message) => "Process error: " + message
    case IoError(message) => "IO error: " + message
  }

  /** The text of a lookup error ends with the id it was about, after the
      kind's own prefix. */
  lemma ErrorTextNamesSession(id: string)
    ensures ErrorText(SessionNotFound(id)) == "Session not found: " + id
    ensures ErrorText(SessionNotFound(id))[19..] == id
    ensures ErrorText(SessionExists(id))[24..] == id
    ensures ErrorText(SessionNotFound(id)) != ErrorText(SessionExists(id))
  {
    assert ErrorText(SessionNotFound(id))[8] == 'n' != ErrorText(SessionExists(id))[8];
  }

  /** The ids of the terminal sessions. */
  function TerminalIds(sessions: map<string, SessionState>): set<string>
  {
    set id | id in sessions && IsTerminal(sessions[id])
  }

  /** The ids of the active sessions. */
  function ActiveIds(sessions: map<string, SessionState>): set<string>
  {
    set id | id in sessions && IsActive(sessions[id])
  }

  /** The ids of the terminal sessions idle for longer than `timeout` at
      `now`. */
  function StaleIds(sessions: map<string, SessionState>, now: Instant, timeout: nat): set<string>
  {
    set id | id in sessions && IsTerminal(sessions[id]) && now - sessions[id].lastActivity > timeout
  }

  /** What a listing selects: every session, or only the active ones. */
  function SelectedIds(sessions: map<string, SessionState>, activeOnly: bool): (ids: set<string>)
    ensures ids <= sessions.Keys
    ensures forall id :: id in ids <==> id in sessions && (activeOnly ==> IsActive(sessions[id]))
  {
    if activeOnly then ActiveIds(sessions) else sessions.Keys
  }

  /** No session is both active and terminal, so the active, terminal and
      other sessions together never outnumber the map. */
  lemma ActiveAndTerminalDisjoint(sessions: map<string, SessionState>)
    ensures ActiveIds(sessions) !! TerminalIds(sessions)
    ensures |ActiveIds(sessions)| + |TerminalIds(sessions)| <= |sessions|
  {
    forall id | id in ActiveIds(sessions) ensures id !in TerminalIds(sessions) {
      StatusClasses(sessions[id]);
    }
    assert ActiveIds(sessions) + TerminalIds(sessions) <= sessions.Keys;
    SubsetSize(ActiveIds(sessions) + TerminalIds(sessions), sessions.Keys);
  }

  lemma SubsetSize(a: set<string>, b: set<string>)
    requires a <= b
    ensures |a| <= |b|
  {
    assert b == a + (b - a);
  }

  /** Removing the terminal sessions leaves no terminal session and keeps
      every other one unchanged. */
  lemma PurgeKeepsLive(sessions: map<string, SessionState>)
    ensures TerminalIds(sessions - TerminalIds(sessions)) == {}
    ensures forall id :: id in sessions && !IsTerminal(sessions[id]) ==>
              id in sessions - TerminalIds(sessions) && (sessions - TerminalIds(sessions))[id] == sessions[id]
  {
  }

  /** A session stored under `id` carries that id, and its broadcast log is
      its status history. */
  ghost predicate Keyed(id: string, s: SessionState)
  {
    s.id == id && Traced(s)
  }

  ghost predicate SessionsValid(sessions: map<string, SessionState>)
  {
    forall id :: id in sessions ==> Keyed(id, sessions[id])
  }

  /** The session runs the process with this pid. */
  predicate RunsWith(s: SessionState, pid: nat)
  {
    s.status == Running && s.pid == Some(pid)
  }

  predicate ProcessesValid(sessions: map<string, SessionState>, processes: map<string, ManagedProcess>)
  {
    forall id :: id in processes ==> id in sessions && RunsWith(sessions[id], processes[id].pid)
  }

  lemma StoredUnderOwnId(sessions: map<string, SessionState>)
    requires SessionsValid(sessions)
    ensures forall id :: id in sessions ==> sessions[id].id == id
  {
  }

  /** Storing a well-formed session, running its process if it has one,
      keeps both maps valid. */
  lemma StoreKeeps(sessions: map<string, SessionState>, processes: map<string, ManagedProcess>,
                   id: string, s: SessionState)
    requires SessionsValid(sessions) && ProcessesValid(sessions, processes)
    requires Keyed(id, s) && (id in processes ==> RunsWith(s, processes[id].pid))
    ensures SessionsValid(sessions[id := s]) && ProcessesValid(sessions[id := s], processes)
  {
  }

  /** Removing sessions together with their processes keeps both maps
      valid, and so does removing a process alone. */
  lemma RemoveKeeps(sessions: map<string, SessionState>, processes: map<string, ManagedProcess>,
                    ids: set<string>)
    requires SessionsValid(sessions) && ProcessesValid(sessions, processes)
    ensures SessionsValid(sessions - ids) && ProcessesValid(sessions - ids, processes - ids)
    ensures ProcessesValid(sessions, processes - ids)
  {
  }

  /** The frontend view of the sessions `ids` names, in that order. */
  function InfosOf(sessions: map<string, SessionState>, ids: seq<string>): (infos: seq<SessionInfo>)
    requires forall i :: 0 <= i < |ids| ==> ids[i] in sessions && sessions[ids[i]].id == ids[i]
    ensures |infos| == |ids|
    ensures forall i :: 0 <= i < |ids| ==> infos[i] == InfoOf(sessions[ids[i]]) && infos[i].id == ids[i]
  {
    seq(|ids|, i requires 0 <= i < |ids| => InfoOf(sessions[ids[i]]))
  }

  /** The sessions once `cancel_session` has run for every id in `done`:
      each of them went to Terminating and then to Cancelled without a
      process, broadcasting both changes; the others are as they were. */
  function CancelledSessions(sessions: map<string, SessionState>, done: set<string>, now: Instant)
    : (r: map<string, SessionState>)
    ensures r.Keys == sessions.Keys
    ensures forall id :: id in sessions && id in done ==>
      r[id].status == Cancelled && r[id].pid.None? && SameSession(sessions[id], r[id])
      && r[id].emitted == sessions[id].emitted
           + [SessionEvents.StatusChanged(sessions[id].id, sessions[id].status, Terminating),
              SessionEvents.StatusChanged(sessions[id].id, Terminating, Cancelled)]
    ensures forall id :: id in sessions && id !in done ==> r[id] == sessions[id]
  {
    map id | id in sessions ::
      if id in done then SetCancelled(SetStatus(sessions[id], Terminating, now), now) else sessions[id]
  }

  /** Before any cancellation the sessions are as they were. */
  lemma CancelledNone(sessions: map<string, SessionState>, now: Instant)
    ensures CancelledSessions(sessions, {}, now) == sessions
  {
  }

  /** Removing keys one set after another removes their union. */
  lemma RemoveTwice(processes: map<string, ManagedProcess>, done: set<string>, id: string)
    ensures processes - done - {id} == processes - (done + {id})
  {
  }

  /** Cancelling one more session extends the cancelled set by its id. */
  lemma CancelledStep(sessions: map<string, SessionState>, done: set<string>, id: string, now: Instant)
    requires id in sessions && id !in done
    ensures var before := CancelledSessions(sessions, done, now);
      before[id := SetCancelled(SetStatus(before[id], Terminating, now), now)]
      == CancelledSessions(sessions, done + {id}, now)
  {
  }

  class SessionManager {
    var sessions: map<string, SessionState>
    var processes: map<string, ManagedProcess>
    const maxSessions: nat
    const sessionTimeoutSecs: nat

    /** Every session is stored under its own id and its broadcast log is
        its status history; a process entry exists only for a session that
        is Running with that process's pid. */
    ghost predicate Valid()
      reads this
    {
      SessionsValid(sessions) && ProcessesValid(sessions, processes)
    }

    /** An empty manager with room for 10 sessions and a one-hour timeout. */
    constructor ()
      ensures sessions == map[] && processes == map[]
      ensures Valid() && maxSessions == 10 && sessionTimeoutSecs == 3600
    {
      sessions := map[];
      processes := map[];
      maxSessions := 10;
      sessionTimeoutSecs := 3600;
    }

    constructor WithLimits(maxSessions: nat, sessionTimeoutSecs: nat)
      ensures sessions == map[] && processes == map[]
      ensures Valid() && this.maxSessions == maxSessions && this.sessionTimeoutSecs == sessionTimeoutSecs
    {
      sessions := map[];
      processes := map[];
      this.maxSessions := maxSessions;
      this.sessionTimeoutSecs := sessionTimeoutSecs;
    }

    /** A manager at capacity first drops its terminal sessions and refuses
        the new one if it is still full; an id already present is refused
        next; otherwise a new Initializing session is stored under the id,
        one more than before. */
    method CreateSession(id: string, projectPath: string, model: string, now: Instant)
      returns (r: Result<string, SessionError>)
      requires Valid()
      modifies this
      ensures Valid()
      ensures var full := |old(sessions)| >= maxSessions;
        var kept := if full then old(sessions) - TerminalIds(old(sessions)) else old(sessions);
        && processes == (if full then old(processes) - TerminalIds(old(sessions)) else old(processes))
        && (if full && |kept| >= maxSessions then
              r == Err(MaxSessionsReached(maxSessions)) && sessions == kept
            else if id in kept then
              r == Err(SessionError.SessionExists(id)) && sessions == kept
            else
              r == Ok(id) && sessions == kept[id := NewSessionState(id, projectPath, model, now)]
              && |sessions| == |kept| + 1)
    {
      if |sessions| >= maxSessions {
        CleanupTerminalSessions();
        if |sessions| >= maxSessions {
          return Err(MaxSessionsReached(maxSessions));
        }
      }
      if id in sessions {
        return Err(SessionError.SessionExists(id));
      }
      StoreKeeps(sessions, processes, id, NewSessionState(id, projectPath, model, now));
      sessions := sessions[id := NewSessionState(id, projectPath, model, now)];
      r := Ok(id);
    }

    /** An unknown session is refused; a known one becomes Running with the
        process's pid and the process is stored under its id. */
    method RegisterProcess(id: string, process: ManagedProcess, now: Instant) returns (r: Result<(), SessionError>)
      requires Valid()
      modifies this
      ensures Valid()
      ensures id !in old(sessions) ==>
        r == Err(SessionNotFound(id)) && sessions == old(sessions) && processes == old(processes)
      ensures id in old(sessions) ==>
        r == Ok(()) && sessions == old(sessions)[id := SetRunning(old(sessions)[id], process.pid, now)]
        && processes == old(processes)[id := process]
    {
      if id !in sessions {
        return Err(SessionNotFound(id));
      }
      OperationsTraced(sessions[id], process.pid, "", 0, 0, 0, 0, now);
      RemoveKeeps(sessions, processes, {id});
      StoreKeeps(sessions, processes - {id}, id, SetRunning(sessions[id], process.pid, now));
      sessions := sessions[id := SetRunning(sessions[id], process.pid, now)];
      processes := processes[id := process];
      r := Ok(());
    }

    /** `cancel_session` always succeeds: the process entry is gone and a
        known session passes through Terminating to Cancelled. */
    method CancelSession(id: string, now: Instant) returns (r: Result<(), SessionError>)
      requires Valid()
      modifies this
      ensures Valid() && r == Ok(())
      ensures processes == old(processes) - {id}
      ensures id in old(sessions) ==>
        sessions == old(sessions)[id := SetCancelled(SetStatus(old(sessions)[id], Terminating, now), now)]
      ensures id !in old(sessions) ==> sessions == old(sessions)
    {
      RemoveKeeps(sessions, processes, {id});
      if id in sessions {
        SetStatusTraced(sessions[id], Terminating, now);
        StoreKeeps(sessions, processes - {id}, id, SetStatus(sessions[id], Terminating, now));
        sessions := sessions[id := SetStatus(sessions[id], Terminating, now)];
      }
      processes := processes - {id};
      if id in sessions {
        OperationsTraced(sessions[id], 0, "", 0, 0, 0, 0, now);
        StoreKeeps(sessions, processes, id, SetCancelled(sessions[id], now));
        sessions := sessions[id := SetCancelled(sessions[id], now)];
      }
      r := Ok(());
    }

    /** `kill_session` always succeeds: the process entry is gone and a
        known session is Cancelled. */
    method KillSession(id: string, now: Instant) returns (r: Result<(), SessionError>)
      requires Valid()
      modifies this
      ensures Valid() && r == Ok(())
      ensures processes == old(processes) - {id}
      ensures id in old(sessions) ==> sessions == old(sessions)[id := SetCancelled(old(sessions)[id], now)]
      ensures id !in old(sessions) ==> sessions == old(sessions)
    {
      RemoveKeeps(sessions, processes, {id});
      processes := processes - {id};
      if id in sessions {
        OperationsTraced(sessions[id], 0, "", 0, 0, 0, 0, now);
        StoreKeeps(sessions, processes, id, SetCancelled(sessions[id], now));
        sessions := sessions[id := SetCancelled(sessions[id], now)];
      }
      r := Ok(());
    }

    /** The process entry is removed in every case; a known session is
        Completed, an unknown one is reported. */
    method CompleteSession(id: string, now: Instant) returns (r: Result<(), SessionError>)
      requires Valid()
      modifies this
      ensures Valid()
      ensures processes == old(processes) - {id}
      ensures id in old(sessions) ==>
        r == Ok(()) && sessions == old(sessions)[id := SetCompleted(old(sessions)[id], now)]
      ensures id !in old(sessions) ==> r == Err(SessionNotFound(id)) && sessions == old(sessions)
    {
      RemoveKeeps(sessions, processes, {id});
      processes := processes - {id};
      if id in sessions {
        OperationsTraced(sessions[id], 0, "", 0, 0, 0, 0, now);
        StoreKeeps(sessions, processes, id, SetCompleted(sessions[id], now));
        sessions := sessions[id := SetCompleted(sessions[id], now)];
        r := Ok(());
      } else {
        r := Err(SessionNotFound(id));
      }
    }

    /** The process entry is removed in every case; a known session is
        Failed with the error, an unknown one is reported. */
    method FailSession(id: string, error: string, now: Instant) returns (r: Result<(), SessionError>)
      requires Valid()
      modifies this
      ensures Valid()
      ensures processes == old(processes) - {id}
      ensures id in old(sessions) ==>
        r == Ok(()) && sessions == old(sessions)[id := SetFailed(old(sessions)[id], error, now)]
      ensures id !in old(sessions) ==> r == Err(SessionNotFound(id)) && sessions == old(sessions)
    {
      RemoveKeeps(sessions, processes, {id});
      processes := processes - {id};
      if id in sessions {
        OperationsTraced(sessions[id], 0, error, 0, 0, 0, 0, now);
        StoreKeeps(sessions, processes, id, SetFailed(sessions[id], error, now));
        sessions := sessions[id := SetFailed(sessions[id], error, now)];
        r := Ok(());
      } else {
        r := Err(SessionNotFound(id));
      }
    }

    /** `list_active_sessions` (`activeOnly`) and `list_all_sessions`: the
        frontend view of every selected session, each once. */
    method ListSessions(activeOnly: bool) returns (infos: seq<SessionInfo>)
      requires Valid()
      ensures |infos| == |SelectedIds(sessions, activeOnly)|
      ensures forall i :: 0 <= i < |infos| ==>
        infos[i].id in SelectedIds(sessions, activeOnly) && infos[i] == InfoOf(sessions[infos[i].id])
      ensures forall i, j :: 0 <= i < j < |infos| ==> infos[i].id != infos[j].id
      ensures forall id :: id in SelectedIds(sessions, activeOnly) ==> exists i :: 0 <= i < |infos| && infos[i].id == id
    {
      var ids := Enumerate(SelectedIds(sessions, activeOnly));
      StoredUnderOwnId(sessions);
      infos := InfosOf(sessions, ids);
      forall id | id in SelectedIds(sessions, activeOnly)
        ensures exists i :: 0 <= i < |infos| && infos[i].id == id
      {
        var i :| 0 <= i < |ids| && ids[i] == id;
        assert infos[i].id == id;
      }
    }

    /** Removes every session `ids` names, with its process entry. */
    method RemoveAll(ids: seq<string>)
      requires Valid()
      modifies this
      ensures Valid()
      ensures sessions == old(sessions) - IdSet(ids) && processes == old(processes) - IdSet(ids)
    {
      var i := 0;
      assert IdSet(ids[..0]) == {};
      while i < |ids|
        invariant 0 <= i <= |ids|
        invariant Valid()
        invariant sessions == old(sessions) - IdSet(ids[..i])
        invariant processes == old(processes) - IdSet(ids[..i])
      {
        assert IdSet(ids[..i + 1]) == IdSet(ids[..i]) + {ids[i]} by {
          assert ids[..i + 1] == ids[..i] + [ids[i]];
        }
        RemoveKeeps(sessions, processes, {ids[i]});
        sessions := sessions - {ids[i]};
        processes := processes - {ids[i]};
        i := i + 1;
      }
      assert ids[..|ids|] == ids;
    }

    /** `cleanup_terminal_sessions`: exactly the terminal sessions go, with
        their process entries. */
    method CleanupTerminalSessions()
      requires Valid()
      modifies this
      ensures Valid()
      ensures sessions == old(sessions) - TerminalIds(old(sessions))
      ensures processes == old(processes) - TerminalIds(old(sessions))
    {
      var ids := Enumerate(TerminalIds(sessions));
      RemoveAll(ids);
    }

    /** `cleanup_stale_sessions`: exactly the terminal sessions idle for
        longer than the timeout go, with their process entries. */
    method CleanupStaleSessions(now: Instant)
      requires Valid()
      modifies this
      ensures Valid()
      ensures sessions == old(sessions) - StaleIds(old(sessions), now, sessionTimeoutSecs)
      ensures processes == old(processes) - StaleIds(old(sessions), now, sessionTimeoutSecs)
    {
      var ids := Enumerate(StaleIds(sessions, now, sessionTimeoutSecs));
      RemoveAll(ids);
    }

    /** The number of Running or Paused sessions; never more than the
        sessions that are not terminal. */
    function ActiveSessionCount(): (n: nat)
      reads this
      ensures n == |ActiveIds(sessions)|
      ensures n + |TerminalIds(sessions)| <= TotalSessionCount()
    {
      ActiveAndTerminalDisjoint(sessions);
      |ActiveIds(sessions)|
    }

    /** Every stored session, whatever its status. */
    function TotalSessionCount(): (n: nat)
      reads this
      ensures n == |sessions.Keys|
    {
      |sessions|
    }

    /** Whether a session is stored under the id. */
    predicate SessionExists(id: string)
      reads this
      ensures SessionExists(id) <==> id in sessions.Keys
    {
      id in sessions
    }

    /** A session is active only if it exists and is Running or Paused. */
    predicate IsSessionActive(id: string)
      reads this
      ensures IsSessionActive(id) <==> id in ActiveIds(sessions)
      ensures IsSessionActive(id) ==> SessionExists(id)
    {
      id in sessions && IsActive(sessions[id])
    }

    /** The process of a session, present exactly for a session Running
        with that process's pid. */
    function GetProcess(id: string): (r: Option<ManagedProcess>)
      requires Valid()
      reads this
      ensures r.Some? <==> id in processes
      ensures r.Some? ==> IsSessionActive(id) && sessions[id].pid == Some(r.value.pid)
    {
      if id in processes then Some(processes[id]) else None
    }

    /** One turn of `shutdown_all`: the next listed session is cancelled. */
    method CancelInTurn(ghost before: map<string, SessionState>, ghost beforeProcesses: map<string, ManagedProcess>,
                        ids: seq<string>, i: nat, now: Instant)
      requires Valid() && DistinctIds(ids) && i < |ids| && ids[i] in before
      requires sessions == CancelledSessions(before, IdSet(ids[..i]), now)
      requires processes == beforeProcesses - IdSet(ids[..i])
      modifies this
      ensures Valid()
      ensures sessions == CancelledSessions(before, IdSet(ids[..i + 1]), now)
      ensures processes == beforeProcesses - IdSet(ids[..i + 1])
    {
      IdSetStep(ids, i);
      assert IdSet(ids[..i + 1]) == IdSet(ids[..i]) + {ids[i]} by {
        assert ids[..i + 1] == ids[..i] + [ids[i]];
      }
      CancelledStep(before, IdSet(ids[..i]), ids[i], now);
      RemoveTwice(beforeProcesses, IdSet(ids[..i]), ids[i]);
      var _ := CancelSession(ids[i], now);
    }

    /** The loop of `shutdown_all`: `cancel_session` for each listed id in
        turn. */
    method CancelEach(ids: seq<string>, now: Instant)
      requires Valid() && DistinctIds(ids) && IdSet(ids) <= sessions.Keys
      modifies this
      ensures Valid()
      ensures sessions == CancelledSessions(old(sessions), IdSet(ids), now)
      ensures processes == old(processes) - IdSet(ids)
    {
      ghost var before, beforeProcesses := sessions, processes;
      var i := 0;
      assert IdSet(ids[..0]) == {};
      CancelledNone(sessions, now);
      assert processes - {} == processes;
      while i < |ids|
        invariant 0 <= i <= |ids|
        invariant Valid()
        invariant sessions == CancelledSessions(before, IdSet(ids[..i]), now)
        invariant processes == beforeProcesses - IdSet(ids[..i])
      {
        assert ids[i] in IdSet(ids);
        CancelInTurn(before, beforeProcesses, ids, i, now);
        i := i + 1;
      }
      assert ids[..|ids|] == ids;
    }

    /** `shutdown_all`: every session is cancelled in turn, which leaves
        `cancelled` behind, then both maps are emptied. */
    method ShutdownAll(now: Instant) returns (ghost cancelled: map<string, SessionState>)
      requires Valid()
      modifies this
      ensures cancelled == CancelledSessions(old(sessions), old(sessions).Keys, now)
      ensures Valid() && sessions == map[] && processes == map[]
    {
      var ids := Enumerate(sessions.Keys);
      CancelEach(ids, now);
      cancelled := sessions;
      sessions := map[];
      processes := map[];
    }
  }

  /** A new manager accepts "test-1" and then knows it. */
  method ExampleCreate(now: Instant) returns (r: Result<string, SessionError>, known: bool)
    ensures r == Ok("test-1") && known
  {
    var manager := new SessionManager();
    r := manager.CreateSession("test-1", "/path/to/project", "opus", now);
    known := manager.SessionExists("test-1");
  }

  /** A second session under the same id is refused. */
  method ExampleDuplicate(now: Instant) returns (r: Result<string, SessionError>)
    ensures r == Err(SessionExists("test-1"))
  {
    var manager := new SessionManager();
    var _ := manager.CreateSession("test-1", "/path", "opus", now);
    r := manager.CreateSession("test-1", "/path", "opus", now);
  }

  /** With room for two sessions, none of them finished, the third is
      refused with the limit. */
  method ExampleMaxSessions(now: Instant) returns (r: Result<string, SessionError>)
    ensures r == Err(MaxSessionsReached(2))
  {
    var manager := new SessionManager.WithLimits(2, 3600);
    var _ := manager.CreateSession("test-1", "/path", "opus", now);
    var _ := manager.CreateSession("test-2", "/path", "opus", now);
    assert TerminalIds(manager.sessions) == {};
    r := manager.CreateSession("test-3", "/path", "opus", now);
  }

  /** Two sessions created, two listed. */
  method ExampleListAll(now: Instant) returns (all: seq<SessionInfo>)
    ensures |all| == 2
  {
    var manager := new SessionManager();
    var _ := manager.CreateSession("test-1", "/path1", "opus", now);
    var _ := manager.CreateSession("test-2", "/path2", "sonnet", now);
    all := manager.ListSessions(false);
  }
}
