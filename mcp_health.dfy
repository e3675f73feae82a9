/// Health monitoring of remote MCP servers: the per-server health record,
/// the rules that update it after a check, the events a check sends, and the
/// monitor that keeps one record per server.
module McpHealth {
  import opened Common
  import McpTypes

  datatype HealthStatus = Healthy | Degraded | Unhealthy | Unknown

  /** The health record of one server. The check time is the caller's
      instant rather than its RFC 3339 rendering. */
  datatype ServerHealth = ServerHealth(
    serverId: string,
    status: HealthStatus,
    latencyMs: Option<nat>,
    lastCheck: Option<Instant>,
    lastError: Option<string>,
    consecutiveFailures: nat,
    consecutiveSuccesses: nat,
    avgLatencyMs: Option<nat>)

  /** A server never checked: Unknown, nothing measured, nothing counted. */
  function NewServerHealth(serverId: string): (h: ServerHealth)
    ensures h.serverId == serverId && h.status == Unknown
    ensures h.latencyMs.None? && h.lastCheck.None? && h.lastError.None? && h.avgLatencyMs.None?
    ensures h.consecutiveFailures == 0 && h.consecutiveSuccesses == 0
  {
    ServerHealth(serverId, Unknown, None, None, None, 0, 0, None)
  }

  /** The running average after a sample: the sample itself at first, then
      four parts old average to one part sample, rounded down. It always lies
      between the old average and the sample. */
  function MovingAverage(avg: Option<nat>, latency: nat): (a: nat)
    ensures avg.None? ==> a == latency
    ensures avg.Some? && avg.value <= latency ==> avg.value <= a <= latency
    ensures avg.Some? && latency <= avg.value ==> latency <= a <= avg.value
  {
    if avg.Some? then (avg.value * 4 + latency) / 5 else latency
  }

  /** A sample is a spike when it exceeds one second and twice the average. */
  predicate IsSpike(latency: nat, avg: nat)
  {
    latency > avg * 2 && latency > 1000
  }

  /** `record_success`: the failure streak ends, the success streak grows,
      the error is cleared, the sample and the new average are recorded, and
      the status is Degraded for a spike against the new average and Healthy
      otherwise. */
  function RecordSuccess(h: ServerHealth, latency: nat, now: Instant): (r: ServerHealth)
    ensures r.serverId == h.serverId && r.latencyMs == Some(latency) && r.lastCheck == Some(now)
    ensures r.lastError.None? && r.consecutiveFailures == 0
    ensures r.consecutiveSuccesses == h.consecutiveSuccesses + 1
    ensures r.avgLatencyMs == Some(MovingAverage(h.avgLatencyMs, latency))
    ensures r.status == Degraded <==> IsSpike(latency, MovingAverage(h.avgLatencyMs, latency))
    ensures r.status == Healthy || r.status == Degraded
  {
    var avg := MovingAverage(h.avgLatencyMs, latency);
    h.(status := if IsSpike(latency, avg) then Degraded else Healthy,
       latencyMs := Some(latency),
       lastCheck := Some(now),
       lastError := None,
       consecutiveFailures := 0,
       consecutiveSuccesses := h.consecutiveSuccesses + 1,
       avgLatencyMs := Some(avg))
  }

  /** `record_failure`: one failure is enough to be Unhealthy; the latency
      is cleared, the error kept, the failure streak grows and the success
      streak ends. The average is untouched. */
  function RecordFailure(h: ServerHealth, error: string, now: Instant): (r: ServerHealth)
    ensures r.serverId == h.serverId && r.status == Unhealthy && r.latencyMs.None?
    ensures r.lastCheck == Some(now) && r.lastError == Some(error)
    ensures r.consecutiveFailures == h.consecutiveFailures + 1 && r.consecutiveSuccesses == 0
    ensures r.avgLatencyMs == h.avgLatencyMs
  {
    h.(status := Unhealthy,
       latencyMs := None,
       lastCheck := Some(now),
       lastError := Some(error),
       consecutiveFailures := h.consecutiveFailures + 1,
       consecutiveSuccesses := 0)
  }

  /** The agreement between a record's fields that every update keeps: a
      failure streak exactly when Unhealthy, an error exactly when Unhealthy,
      a latency exactly when on a success streak, never both streaks, and an
      average once anything succeeded. */
  predicate Consistent(h: ServerHealth)
  {
    (h.status == Unhealthy <==> h.consecutiveFailures > 0)
    && (h.lastError.Some? <==> h.status == Unhealthy)
    && (h.latencyMs.Some? <==> h.consecutiveSuccesses > 0)
    && !(h.consecutiveFailures > 0 && h.consecutiveSuccesses > 0)
    && (h.consecutiveSuccesses > 0 ==> h.avgLatencyMs.Some?)
  }

  /** A new record is consistent, and both updates keep it so; so does
      forcing a successful record to Degraded, as an endpoint check does. */
  lemma UpdatesKeepConsistent(h: ServerHealth, latency: nat, error: string, now: Instant)
    ensures Consistent(NewServerHealth(h.serverId))
    ensures Consistent(RecordSuccess(h, latency, now))
    ensures Consistent(RecordFailure(h, error, now))
    ensures Consistent(RecordSuccess(h, latency, now).(status := Degraded))
  {
  }

  /** The first success never looks like a spike: the average is the sample. */
  lemma FirstSuccessIsHealthy(h: ServerHealth, latency: nat, now: Instant)
    requires h.avgLatencyMs.None?
    ensures RecordSuccess(h, latency, now).status == Healthy
    ensures RecordSuccess(h, latency, now).avgLatencyMs == Some(latency)
  {
  }

  /** A Degraded verdict means the sample exceeded one second and was more
      than twice the average before it. */
  lemma DegradedMeansSpike(h: ServerHealth, latency: nat, now: Instant)
    requires RecordSuccess(h, latency, now).status == Degraded
    ensures h.avgLatencyMs.Some? && latency > 1000 && latency > 2 * h.avgLatencyMs.value
  {
    var a := h.avgLatencyMs.value;
    var n := (a * 4 + latency) / 5;
    assert 5 * n + 4 >= a * 4 + latency;
    assert latency > 2 * n;
    if a >= 4 {
      assert 3 * latency > 8 * a - 8;
    }
  }

  /** Five checks at 100 ms build an average of 100 ms; a check at 5000 ms
      after them is a spike and makes the server Degraded. */
  lemma SpikeAfterSteadyChecks(h: ServerHealth, now: Instant)
    requires h == NewServerHealth("test")
    ensures var steady := RecordSuccess(RecordSuccess(RecordSuccess(RecordSuccess(
                            RecordSuccess(h, 100, now), 100, now), 100, now), 100, now), 100, now);
      steady.status == Healthy && steady.avgLatencyMs == Some(100)
      && RecordSuccess(steady, 5000, now).status == Degraded
  {
  }

  /** The record after a run of failed checks, one per error message. */
  function AfterFailures(h: ServerHealth, errors: seq<string>, now: Instant): ServerHealth
  {
    if errors == [] then h else RecordFailure(AfterFailures(h, errors[..|errors| - 1], now), errors[|errors| - 1], now)
  }

  /** Failures accumulate: after `n` failed checks the failure streak has
      grown by `n`, the server is Unhealthy and the last error is kept. */
  lemma {:induction false} FailuresAccumulate(h: ServerHealth, errors: seq<string>, now: Instant)
    ensures AfterFailures(h, errors, now).consecutiveFailures == h.consecutiveFailures + |errors|
    ensures |errors| > 0 ==>
      AfterFailures(h, errors, now).status == Unhealthy
      && AfterFailures(h, errors, now).lastError == Some(errors[|errors| - 1])
    ensures AfterFailures(h, errors, now).avgLatencyMs == h.avgLatencyMs
  {
    if errors != [] {
      FailuresAccumulate(h, errors[..|errors| - 1], now);
    }
  }

  datatype HealthEvent =
    | StatusChanged(serverId: string, oldStatus: HealthStatus, newStatus: HealthStatus)
    | CheckCompleted(serverId: string, health: ServerHealth)
    | ServerUnreachable(serverId: string, consecutiveFailures: nat)
    | ServerRecovered(serverId: string)

  /** The events a transport check sends, in order: recovery (a successful
      check taking an Unhealthy server to Healthy), unreachability (a failed
      check reaching the threshold), a status change, and always the
      completed check. */
  function ServerCheckEvents(serverId: string, oldStatus: HealthStatus, h: ServerHealth,
                             pingOk: bool, threshold: nat): seq<HealthEvent>
  {
    (if pingOk && oldStatus == Unhealthy && h.status == Healthy then [ServerRecovered(serverId)] else [])
    + (if !pingOk && h.consecutiveFailures >= threshold then [ServerUnreachable(serverId, h.consecutiveFailures)] else [])
    + (if oldStatus != h.status then [StatusChanged(serverId, oldStatus, h.status)] else [])
    + [CheckCompleted(serverId, h)]
  }

  /** The events an endpoint check sends: a status change, if any, then the
      completed check. */
  function EndpointCheckEvents(serverId: string, oldStatus: HealthStatus, h: ServerHealth): seq<HealthEvent>
  {
    (if oldStatus != h.status then [StatusChanged(serverId, oldStatus, h.status)] else [])
    + [CheckCompleted(serverId, h)]
  }

  /** The record a transport check produces from the previous one. */
  function PingHealth(prior: ServerHealth, ping: Result<(), McpTypes.McpError>, latency: nat, now: Instant): (h: ServerHealth)
    ensures h.serverId == prior.serverId
  {
    if ping.Ok? then RecordSuccess(prior, latency, now)
    else RecordFailure(prior, McpTypes.ErrorMessage(ping.error), now)
  }

  /** What a check of a server's transport tells: the check completes last;
      the status change is reported exactly when the status changed; a
      recovery only for Unhealthy to Healthy; unreachability exactly for a
      failed check once the failure streak reaches the threshold. There is no
      debouncing: a single failure of a Healthy server reports it Unhealthy. */
  lemma ServerCheckEventRules(serverId: string, prior: ServerHealth,
                              ping: Result<(), McpTypes.McpError>, latency: nat, now: Instant, threshold: nat)
    ensures var h := PingHealth(prior, ping, latency, now);
      var evs := ServerCheckEvents(serverId, prior.status, h, ping.Ok?, threshold);
      |evs| > 0 && evs[|evs| - 1] == CheckCompleted(serverId, h)
      && (StatusChanged(serverId, prior.status, h.status) in evs <==> prior.status != h.status)
      && (ServerRecovered(serverId) in evs <==> ping.Ok? && prior.status == Unhealthy && h.status == Healthy)
      && ((ServerUnreachable(serverId, h.consecutiveFailures) in evs)
          <==> (ping.Err? && prior.consecutiveFailures + 1 >= threshold))
      && (ping.Err? && prior.status == Healthy ==> StatusChanged(serverId, Healthy, Unhealthy) in evs)
  {
    var h := PingHealth(prior, ping, latency, now);
    var evs := ServerCheckEvents(serverId, prior.status, h, ping.Ok?, threshold);
    assert evs[|evs| - 1] == CheckCompleted(serverId, h);
  }

  /** What an HTTP probe of an endpoint produced. */
  datatype ProbeOutcome =
    | Response(status: nat, statusText: string)
    | RequestFailed(message: string)

  /** How an endpoint check reads an HTTP status. */
  datatype EndpointVerdict = Reachable | ServerFault | Unexpected

  /** 2xx or 405 (the endpoint exists but refuses HEAD) is reachable, 5xx a
      server fault, anything else unexpected. */
  function ClassifyStatus(status: nat): (v: EndpointVerdict)
    ensures v == Reachable <==> (200 <= status <= 299 || status == 405)
    ensures v == ServerFault <==> 500 <= status <= 599
  {
    if 200 <= status <= 299 || status == 405 then Reachable
    else if 500 <= status <= 599 then ServerFault
    else Unexpected
  }

  /** The record an endpoint check produces: a reachable endpoint is a
      success, a server fault a failure naming the status, an unexpected
      status a success forced to Degraded, and a failed request a failure. */
  function EndpointHealth(prior: ServerHealth, outcome: ProbeOutcome, latency: nat, now: Instant): (h: ServerHealth)
    ensures h.serverId == prior.serverId
    ensures outcome.Response? && ClassifyStatus(outcome.status) == Reachable ==>
      h == RecordSuccess(prior, latency, now)
    ensures outcome.Response? && ClassifyStatus(outcome.status) == ServerFault ==>
      h == RecordFailure(prior, "Server error: " + outcome.statusText, now)
    ensures outcome.Response? && ClassifyStatus(outcome.status) == Unexpected ==>
      h.status == Degraded && h.consecutiveFailures == 0 && h.latencyMs == Some(latency)
    ensures outcome.RequestFailed? ==> h == RecordFailure(prior, outcome.message, now)
    ensures h.status == Unhealthy <==>
      outcome.RequestFailed? || ClassifyStatus(outcome.status) == ServerFault
  {
    match outcome
    case Response(status, text) =>
      (match ClassifyStatus(status)
       case Reachable => RecordSuccess(prior, latency, now)
       case ServerFault => RecordFailure(prior, "Server error: " + text, now)
       case Unexpected => RecordSuccess(prior, latency, now).(status := Degraded))
    case RequestFailed(message) => RecordFailure(prior, message, now)
  }

  /** The events one probe of the periodic monitor sends: recovery for any
      success after Unhealthy, unreachability only for a failed request at
      the threshold, then a status change and the completed check. */
  function ProbeEvents(serverId: string, oldStatus: HealthStatus, h: ServerHealth,
                       outcome: ProbeOutcome, threshold: nat): seq<HealthEvent>
  {
    (if outcome.Response? && ClassifyStatus(outcome.status) == Reachable && oldStatus == Unhealthy
     then [ServerRecovered(serverId)] else [])
    + (if outcome.RequestFailed? && h.consecutiveFailures >= threshold
       then [ServerUnreachable(serverId, h.consecutiveFailures)] else [])
    + (if oldStatus != h.status then [StatusChanged(serverId, oldStatus, h.status)] else [])
    + [CheckCompleted(serverId, h)]
  }

  /** The record one probe of the periodic monitor produces: only 2xx and
      405 count as success; every other status is a failure naming it. */
  function ProbeHealth(prior: ServerHealth, outcome: ProbeOutcome, latency: nat, now: Instant): (h: ServerHealth)
    ensures h.serverId == prior.serverId
    ensures h.status == Unhealthy <==> !(outcome.Response? && ClassifyStatus(outcome.status) == Reachable)
  {
    match outcome
    case Response(status, text) =>
      if ClassifyStatus(status) == Reachable then RecordSuccess(prior, latency, now)
      else RecordFailure(prior, "HTTP " + text, now)
    case RequestFailed(message) => RecordFailure(prior, message, now)
  }

  /** The periodic probe and the endpoint check read statuses differently:
      an unexpected status is Degraded for the check but Unhealthy for the
      probe, and a recovery to Degraded is reported only by the probe. */
  lemma ProbeDiffersFromEndpointCheck(prior: ServerHealth, latency: nat, now: Instant)
    ensures EndpointHealth(prior, Response(404, "404 Not Found"), latency, now).status == Degraded
    ensures ProbeHealth(prior, Response(404, "404 Not Found"), latency, now).status == Unhealthy
    ensures prior.status == Unhealthy && RecordSuccess(prior, latency, now).status == Degraded ==>
      ServerRecovered(prior.serverId) in
        ProbeEvents(prior.serverId, Unhealthy, ProbeHealth(prior, Response(200, "200 OK"), latency, now),
                    Response(200, "200 OK"), 3)
      && ServerRecovered(prior.serverId) !in
        ServerCheckEvents(prior.serverId, Unhealthy, PingHealth(prior, Ok(()), latency, now), true, 3)
  {
  }

  /** The record stored for a server, or a fresh one. */
  /** Every record is stored under its own server id. */
  ghost predicate Keyed(health: map<string, ServerHealth>)
  {
    forall id :: id in health ==> health[id].serverId == id
  }

  /** The stored record, or a fresh one for an unknown server. */
  function Prior(health: map<string, ServerHealth>, serverId: string): (h: ServerHealth)
    ensures Keyed(health) ==> h.serverId == serverId
  {
    if serverId in health then health[serverId] else NewServerHealth(serverId)
  }

  class HealthMonitor {
    var healthStatus: map<string, ServerHealth>
    /** Every event broadcast so far. */
    var events: seq<HealthEvent>
    var running: bool
    const defaultIntervalSecs: nat
    const defaultTimeoutSecs: nat
    const unreachableThreshold: nat

    ghost predicate Valid()
      reads this
    {
      Keyed(healthStatus)
    }

    /** A monitor checking every 60 seconds with a 10-second timeout that
        reports a server unreachable after 3 failures. */
    constructor ()
      ensures healthStatus == map[] && events == [] && !running && Valid()
      ensures defaultIntervalSecs == 60 && defaultTimeoutSecs == 10 && unreachableThreshold == 3
    {
      healthStatus := map[];
      events := [];
      running := false;
      defaultIntervalSecs := 60;
      defaultTimeoutSecs := 10;
      unreachableThreshold := 3;
    }

    /** `with_settings`: the three settings replace the defaults. */
    constructor WithSettings(intervalSecs: nat, timeoutSecs: nat, threshold: nat)
      ensures healthStatus == map[] && events == [] && !running && Valid()
      ensures defaultIntervalSecs == intervalSecs && defaultTimeoutSecs == timeoutSecs
      ensures unreachableThreshold == threshold
    {
      healthStatus := map[];
      events := [];
      running := false;
      defaultIntervalSecs := intervalSecs;
      defaultTimeoutSecs := timeoutSecs;
      unreachableThreshold := threshold;
    }

    function GetHealth(serverId: string): (r: Option<ServerHealth>)
      reads this
      ensures r.Some? <==> serverId in healthStatus
      ensures r.Some? ==> r.value == healthStatus[serverId]
    {
      if serverId in healthStatus then Some(healthStatus[serverId]) else None
    }

    /** Every stored record, each once, in the map's iteration order. */
    method GetAllHealth() returns (all: seq<ServerHealth>)
      requires Valid()
      ensures |all| == |healthStatus|
      ensures forall h :: h in all ==> h.serverId in healthStatus && healthStatus[h.serverId] == h
      ensures forall id :: id in healthStatus ==> healthStatus[id] in all
      ensures forall i, j :: 0 <= i < j < |all| ==> all[i].serverId != all[j].serverId
    {
      var remaining := healthStatus.Keys;
      var current := healthStatus;
      all := [];
      while remaining != {}
        invariant remaining <= current.Keys
        invariant |all| + |remaining| == |current|
        invariant forall h :: h in all ==> h.serverId in current && current[h.serverId] == h && h.serverId !in remaining
        invariant forall id :: id in current && id !in remaining ==> current[id] in all
        invariant forall i, j :: 0 <= i < j < |all| ==> all[i].serverId != all[j].serverId
        decreases |remaining|
      {
        var id :| id in remaining;
        all := all + [current[id]];
        remaining := remaining - {id};
      }
    }

    /** `check_server_health` with the ping's outcome and the elapsed time as
        inputs: the record is created if missing, updated by the outcome,
        reported and stored. The check itself always succeeds. */
    method CheckServerHealth(serverId: string, ping: Result<(), McpTypes.McpError>, latency: nat, now: Instant)
      returns (r: Result<ServerHealth, McpTypes.McpError>)
      requires Valid()
      modifies this
      ensures Valid()
      ensures var h := PingHealth(Prior(old(healthStatus), serverId), ping, latency, now);
        r == Ok(h) && healthStatus == old(healthStatus)[serverId := h]
        && events == old(events) + ServerCheckEvents(serverId, Prior(old(healthStatus), serverId).status,
                                                    h, ping.Ok?, unreachableThreshold)
      ensures running == old(running)
    {
      var health := Prior(healthStatus, serverId);
      healthStatus := healthStatus[serverId := health];
      var oldStatus := health.status;
      var sent: seq<HealthEvent> := [];
      if ping.Ok? {
        health := RecordSuccess(health, latency, now);
        if oldStatus == Unhealthy && health.status == Healthy {
          sent := sent + [ServerRecovered(serverId)];
        }
      } else {
        health := RecordFailure(health, McpTypes.ErrorMessage(ping.error), now);
        if health.consecutiveFailures >= unreachableThreshold {
          sent := sent + [ServerUnreachable(serverId, health.consecutiveFailures)];
        }
      }
      if oldStatus != health.status {
        sent := sent + [StatusChanged(serverId, oldStatus, health.status)];
      }
      sent := sent + [CheckCompleted(serverId, health)];
      events := events + sent;
      healthStatus := healthStatus[serverId := health];
      r := Ok(health);
    }

    /** `timeout_secs.unwrap_or(default_timeout_secs)`. */
    function EffectiveTimeout(timeoutSecs: Option<nat>): (t: nat)
      ensures timeoutSecs.Some? ==> t == timeoutSecs.value
      ensures timeoutSecs.None? ==> t == defaultTimeoutSecs
    {
      if timeoutSecs.Some? then timeoutSecs.value else defaultTimeoutSecs
    }

    /** `check_endpoint_health` with the HTTP outcome and elapsed time as
        inputs. The record is created first; when the HTTP client cannot be
        built (`clientError`) the check fails with a transport error and
        nothing else changes. */
    method CheckEndpointHealth(serverId: string, clientError: Option<string>, outcome: ProbeOutcome,
                               latency: nat, now: Instant)
      returns (r: Result<ServerHealth, McpTypes.McpError>)
      requires Valid()
      modifies this
      ensures Valid()
      ensures clientError.Some? ==>
        r == Err(McpTypes.TransportError(clientError.value))
        && healthStatus == old(healthStatus)[serverId := Prior(old(healthStatus), serverId)]
        && events == old(events)
      ensures clientError.None? ==>
        var h := EndpointHealth(Prior(old(healthStatus), serverId), outcome, latency, now);
        r == Ok(h) && healthStatus == old(healthStatus)[serverId := h]
        && events == old(events) + EndpointCheckEvents(serverId, Prior(old(healthStatus), serverId).status, h)
      ensures running == old(running)
    {
      var health := Prior(healthStatus, serverId);
      healthStatus := healthStatus[serverId := health];
      var oldStatus := health.status;
      if clientError.Some? {
        return Err(McpTypes.TransportError(clientError.value));
      }
      match outcome {
        case Response(status, text) =>
          if 200 <= status <= 299 || status == 405 {
            health := RecordSuccess(health, latency, now);
          } else if 500 <= status <= 599 {
            health := RecordFailure(health, "Server error: " + text, now);
          } else {
            health := RecordSuccess(health, latency, now);
            health := health.(status := Degraded);
          }
        case RequestFailed(message) =>
          health := RecordFailure(health, message, now);
      }
      if oldStatus != health.status {
        events := events + [StatusChanged(serverId, oldStatus, health.status)];
      }
      events := events + [CheckCompleted(serverId, health)];
      healthStatus := healthStatus[serverId := health];
      r := Ok(health);
    }

    /** One server's turn in the periodic monitor; when the HTTP client cannot
        be built the server is skipped after its record was created. */
    method ProbeServer(serverId: string, clientBuilt: bool, outcome: ProbeOutcome, latency: nat, now: Instant)
      requires Valid()
      modifies this
      ensures Valid()
      ensures !clientBuilt ==>
        healthStatus == old(healthStatus)[serverId := Prior(old(healthStatus), serverId)]
        && events == old(events)
      ensures clientBuilt ==>
        var h := ProbeHealth(Prior(old(healthStatus), serverId), outcome, latency, now);
        healthStatus == old(healthStatus)[serverId := h]
        && events == old(events) + ProbeEvents(serverId, Prior(old(healthStatus), serverId).status,
                                              h, outcome, unreachableThreshold)
      ensures running == old(running)
    {
      var health := Prior(healthStatus, serverId);
      healthStatus := healthStatus[serverId := health];
      var oldStatus := health.status;
      if !clientBuilt {
        return;
      }
      var sent: seq<HealthEvent> := [];
      match outcome {
        case Response(status, text) =>
          if 200 <= status <= 299 || status == 405 {
            health := RecordSuccess(health, latency, now);
            if oldStatus == Unhealthy {
              sent := sent + [ServerRecovered(serverId)];
            }
          } else {
            health := RecordFailure(health, "HTTP " + text, now);
          }
        case RequestFailed(message) =>
          health := RecordFailure(health, message, now);
          if health.consecutiveFailures >= unreachableThreshold {
            sent := sent + [ServerUnreachable(serverId, health.consecutiveFailures)];
          }
      }
      if oldStatus != health.status {
        sent := sent + [StatusChanged(serverId, oldStatus, health.status)];
      }
      events := events + sent + [CheckCompleted(serverId, health)];
      healthStatus := healthStatus[serverId := health];
    }

    /** `start_monitoring` without its ticker: the monitor is running. */
    method StartMonitoring()
      requires Valid()
      modifies this
      ensures Valid()
      ensures running && healthStatus == old(healthStatus) && events == old(events)
    {
      running := true;
    }

    method StopMonitoring()
      requires Valid()
      modifies this
      ensures Valid()
      ensures !running && healthStatus == old(healthStatus) && events == old(events)
    {
      running := false;
    }

    /** The flag `start_monitoring` sets and `stop_monitoring` clears. */
    function IsRunning(): (r: bool)
      reads this
      ensures r <==> running
    {
      running
    }
  }
}
