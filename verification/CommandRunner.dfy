/**
  Running an external command: the polling loop with its deadline and claim refreshes, the retry loop
  around it, and the health probe loop. Time moves only by sleeping and, for probes, by probing.
  worker/execution/command_runner.py and worker/services/healthcheck.py.
 */
module CommandRunner {
  import opened Basics
  import opened Heartbeats

  /******* Health probes *******/

  // An exception (a refused connection, say) or an HTTP status, after some time on the wire.
  datatype Probe = Error(took: int) | Status(code: int, took: int)

  function ProbeAt(probes: seq<Probe>, i: nat): Probe {
    if i < |probes| then probes[i] else Error(0)
  }

  predicate Healthy(p: Probe) {
    p.Status? && 200 <= p.code < 300
  }

  predicate Timed(probes: seq<Probe>, slowest: int) {
    0 <= slowest && forall i | 0 <= i < |probes| :: 0 <= probes[i].took <= slowest
  }

  // When probe i is made, if it is: after the probes before it and a pause for each.
  function StartOf(probes: seq<Probe>, pause: int, i: nat): int {
    if i == 0 then 0 else StartOf(probes, pause, i - 1) + ProbeAt(probes, i - 1).took + pause
  }

  lemma {:induction false} StartsGrow(probes: seq<Probe>, pause: int, slowest: int, i: nat, j: nat)
    requires 0 <= pause && Timed(probes, slowest) && i <= j
    ensures StartOf(probes, pause, i) <= StartOf(probes, pause, j)
  {
    if i < j {
      StartsGrow(probes, pause, slowest, i, j - 1);
    }
  }

  // Probe i starts no earlier than i pauses, and exactly then if probes take no time.
  lemma {:induction false} StartsAfterPauses(probes: seq<Probe>, pause: int, slowest: int, i: nat)
    requires Timed(probes, slowest)
    ensures Spent(i, pause) <= StartOf(probes, pause, i) <= Spent(i, pause + slowest)
  {
    if i > 0 {
      StartsAfterPauses(probes, pause, slowest, i - 1);
    }
  }

  // Some healthy probe starts before the timeout.
  ghost predicate HealthyInTime(probes: seq<Probe>, pause: int, timeout: int) {
    exists i: nat :: StartOf(probes, pause, i) < timeout && Healthy(ProbeAt(probes, i))
  }

  lemma NoneInTime(probes: seq<Probe>, pause: int, slowest: int, timeout: int, made: nat)
    requires 0 <= pause && Timed(probes, slowest) && timeout <= StartOf(probes, pause, made)
    requires forall i | 0 <= i < made :: !Healthy(ProbeAt(probes, i))
    ensures !HealthyInTime(probes, pause, timeout)
  {
    forall i: nat | StartOf(probes, pause, i) < timeout ensures i < made {
      if made <= i { StartsGrow(probes, pause, slowest, made, i); }
    }
  }

  datatype Health = Up | Down | HealthClaimGone

  /******* The runner *******/

  class Runner {
    const commandTimeout: nat
    const interval: nat
    const heartbeat: Option<Callback>
    const probeTimeout: int
    const probeInterval: int
    var clock: int
    ghost var beats: seq<int>
    ghost var paused: nat

    constructor (commandTimeout: nat, interval: nat, heartbeat: Option<Callback>, probeTimeout: int, probeInterval: int)
      ensures this.commandTimeout == commandTimeout && this.interval == interval && this.heartbeat == heartbeat
      ensures this.probeTimeout == probeTimeout && this.probeInterval == probeInterval
      ensures clock == 0 && beats == [] && paused == 0
    {
      this.commandTimeout, this.interval, this.heartbeat := commandTimeout, interval, heartbeat;
      this.probeTimeout, this.probeInterval := probeTimeout, probeInterval;
      clock, beats, paused := 0, [], 0;
    }

    function On(): Limits {
      Limits(commandTimeout, interval, heartbeat)
    }

    // A missing callback falls back to the runner's own.
    method HeartbeatIfDue(last: int, callback: Option<Callback>) returns (last': int, lost: bool)
      modifies this`beats
      ensures var own := if callback.None? then heartbeat else callback;
              if own.Some? && clock - last >= interval then
                lost == Loses(own.value, clock)
                && beats == (if lost then old(beats) else old(beats) + [clock])
                && last' == (if lost then last else clock)
              else !lost && beats == old(beats) && last' == last
    {
      var own := if callback.None? then heartbeat else callback;
      last', lost := last, false;
      if own.None? {
        return;
      }
      if clock - last >= interval {
        if own.value.lostAt.Some? && clock >= own.value.lostAt.value {
          lost := true;
          return;
        }
        beats := beats + [clock];
        last' := clock;
      }
    }

    // One execution. allowHeartbeat makes no difference: when it is false the heartbeat still runs.
    method ExecuteCommand(p: Process, allowHeartbeat: bool) returns (a: Attempt, ghost sent: seq<int>)
      modifies this`clock, this`beats
      ensures Trace(a, sent, clock) == Execute(On(), p, old(clock)) && beats == old(beats) + sent
    {
      sent := [];
      if p.CannotStart? {
        return NotStarted, sent;
      }
      ghost var first := beats;
      var start := clock;
      var deadline := clock + commandTimeout;
      var last := clock;
      var callback := if allowHeartbeat then heartbeat else None;
      while true
        invariant Polls(On(), p, start, clock, sent) == Execute(On(), p, start)
        invariant beats == first + sent && last == LastBeat(start, sent)
        decreases deadline - clock
      {
        if p.exits.Some? && start + p.exits.value <= clock {
          return Completed(p.code), sent;
        }
        if clock >= deadline {
          return TimedOut, sent;
        }
        var left := deadline - clock;
        var pause := if left < ShortPoll then ShortPoll else if left < LongPoll then left else LongPoll;
        ghost var next := if Due(On(), start, sent, clock) then sent + [clock] else sent;
        var lost;
        last, lost := HeartbeatIfDue(last, callback);
        if lost {
          return ClaimGone, sent;
        }
        sent := next;
        clock := clock + pause;
      }
    }

    // The retry loop. It stops at the first attempt that exits with 0, pauses min(i, 3) seconds
    // after failed attempt i but not after the last, and lets a lost claim through at once.
    method RunCommand(processes: seq<Process>, retryable: bool, retries: nat) returns (o: Outcome, ghost sent: seq<int>)
      modifies this
      ensures RunTrace(o, sent, clock) == Run(On(), processes, if retryable then 1 + retries else 1, old(clock))
      ensures beats == old(beats) + sent
      ensures o.attempts >= 1 && paused == old(paused) + TotalBackOff(o.attempts - 1)
    {
      var total := if retryable then 1 + retries else 1;
      var attempt := 1;
      ghost var first, start := beats, clock;
      sent := [];
      while true
        invariant 1 <= attempt <= total
        invariant RunFrom(On(), processes, total, attempt, clock, sent) == Run(On(), processes, total, start)
        invariant paused == old(paused) + TotalBackOff(attempt - 1)
        invariant beats == first + sent
        decreases total - attempt
      {
        var a, more := ExecuteCommand(ProcessAt(processes, attempt), true);
        sent := sent + more;
        if a.ClaimGone? {
          return Abandoned(attempt), sent;
        }
        if a.Completed? && a.code == 0 {
          return Succeeded(attempt), sent;
        }
        if attempt == total {
          return Failed(attempt), sent;
        }
        clock := clock + Seconds(BackOff(attempt));
        paused := paused + BackOff(attempt);
        attempt := attempt + 1;
      }
    }

    // The refreshes of a wait so far; a runner without a heartbeat sends none.
    predicate Refreshed(start: int, sent: seq<int>, now: int, slack: int) {
      if heartbeat.Some? then Spaced(start, sent, now, interval, slack) else sent == []
    }

    // A refresh if one is due, then a probe and perhaps a pause.
    lemma ProbeAndPause(start: int, sent: seq<int>, now: int, took: int, slack: int)
      requires 0 <= took <= slack && Refreshed(start, sent, now, slack)
      ensures Refreshed(start, if Due(On(), start, sent, now) then sent + [now] else sent, now + took, slack)
    {
      if heartbeat.Some? { PollAndPause(start, sent, now, took, interval, slack); }
    }

    // Success is the first healthy probe, failure means that the timeout has passed, and a lost claim
    // ends the wait at the heartbeat that finds it lost. Unless the claim is lost the wait succeeds
    // exactly when some healthy probe starts before the timeout, however long the probes before it take.
    // Refreshes, if there are any, are late by at most one probe and one pause.
    method WaitForHealthcheck(probes: seq<Probe>, slowest: int)
      returns (health: Health, attempts: nat, ghost sent: seq<int>)
      requires 0 < probeInterval && Timed(probes, slowest)
      modifies this`clock, this`beats
      ensures !health.HealthClaimGone? ==> (health.Up? <==> HealthyInTime(probes, probeInterval, probeTimeout))
      ensures attempts > 0 ==> StartOf(probes, probeInterval, attempts - 1) < probeTimeout
      ensures forall i | 0 <= i < attempts :: Healthy(ProbeAt(probes, i)) <==> health.Up? && i == attempts - 1
      ensures match health
              case Up => attempts > 0
                         && clock == old(clock) + StartOf(probes, probeInterval, attempts - 1)
                                     + ProbeAt(probes, attempts - 1).took
              case Down => clock == old(clock) + StartOf(probes, probeInterval, attempts) >= old(clock) + probeTimeout
              case HealthClaimGone => clock == old(clock) + StartOf(probes, probeInterval, attempts)
                                      && heartbeat.Some? && Loses(heartbeat.value, clock)
      ensures beats == old(beats) + sent && Refreshed(old(clock), sent, clock, slowest + probeInterval)
    {
      var deadline := clock + probeTimeout;
      var last := clock;
      health, attempts, sent := Down, 0, [];
      ghost var start, first := clock, beats;
      while clock < deadline
        invariant clock == start + StartOf(probes, probeInterval, attempts)
        invariant attempts > 0 ==> StartOf(probes, probeInterval, attempts - 1) < probeTimeout
        invariant forall i | 0 <= i < attempts :: !Healthy(ProbeAt(probes, i))
        invariant beats == first + sent && last == LastBeat(start, sent)
        invariant Refreshed(start, sent, clock, slowest + probeInterval)
        decreases deadline - clock
      {
        var probe := ProbeAt(probes, attempts);
        ghost var due := Due(On(), start, sent, clock);
        ProbeAndPause(start, sent, clock, probe.took, slowest + probeInterval);
        ProbeAndPause(start, sent, clock, probe.took + probeInterval, slowest + probeInterval);
        var lost;
        last, lost := HeartbeatIfDue(last, None);
        if lost {
          return HealthClaimGone, attempts, sent;
        }
        sent := if due then sent + [clock] else sent;
        attempts := attempts + 1;
        clock := clock + probe.took;
        if probe.Status? && 200 <= probe.code < 300 {
          assert Healthy(ProbeAt(probes, attempts - 1));
          return Up, attempts, sent;
        }
        clock := clock + probeInterval;
      }
      NoneInTime(probes, probeInterval, slowest, probeTimeout, attempts);
    }
  }

  // With probes that take no time, exactly those are made of which as many pauses fit into the timeout.
  lemma InstantProbes(probes: seq<Probe>, pause: int, timeout: int)
    requires Timed(probes, 0)
    ensures HealthyInTime(probes, pause, timeout)
       <==> exists i: nat :: Spent(i, pause) < timeout && Healthy(ProbeAt(probes, i))
  {
    forall i: nat ensures StartOf(probes, pause, i) == Spent(i, pause) {
      StartsAfterPauses(probes, pause, 0, i);
    }
    if HealthyInTime(probes, pause, timeout) {
      var i: nat :| StartOf(probes, pause, i) < timeout && Healthy(ProbeAt(probes, i));
      assert Spent(i, pause) < timeout;
    }
  }
}
