/**
  When a command that is polled, killed at its deadline and retried leaves its claim unrefreshed:
  refresh times, one execution and the retry loop as functions of what the processes do, and the exact
  longest stretch without a refresh. worker/execution/command_runner.py.
 */
module Heartbeats {
  import opened Basics

  // Times are in microseconds.
  const LongPoll: int := 500_000
  const ShortPoll: int := 50_000

  function Seconds(n: nat): int {
    1_000_000 * n
  }

  /******* Refresh times *******/

  function LastBeat(start: int, beats: seq<int>): int {
    if beats == [] then start else beats[|beats| - 1]
  }

  // Less than interval + slack, except that an interval of zero may use the slack up.
  predicate Within(gap: int, interval: int, slack: int) {
    gap < interval + slack || (interval == 0 && gap == slack)
  }

  // Every refresh comes at least interval and within the slack after the one before it.
  predicate Steps(start: int, beats: seq<int>, interval: int, slack: int) {
    beats == [] ||
    var n := |beats| - 1;
    var gap := beats[n] - LastBeat(start, beats[..n]);
    Steps(start, beats[..n], interval, slack) && interval <= gap && Within(gap, interval, slack)
  }

  // And the moment end is within it after the last refresh.
  predicate Spaced(start: int, beats: seq<int>, end: int, interval: int, slack: int) {
    Steps(start, beats, interval, slack)
    && LastBeat(start, beats) <= end && Within(end - LastBeat(start, beats), interval, slack)
  }

  // A poll at moment end, with or without a refresh, followed by a pause within the slack.
  lemma PollAndPause(start: int, beats: seq<int>, end: int, pause: int, interval: int, slack: int)
    requires 0 <= interval && 0 <= pause <= slack && Spaced(start, beats, end, interval, slack)
    ensures end - LastBeat(start, beats) < interval ==> Spaced(start, beats, end + pause, interval, slack)
    ensures end - LastBeat(start, beats) >= interval ==> Spaced(start, beats + [end], end + pause, interval, slack)
  {
    assert (beats + [end])[..|beats|] == beats;
  }

  predicate Hops(start: int, beats: seq<int>, gap: int) {
    beats == [] ||
    var n := |beats| - 1;
    Hops(start, beats[..n], gap) && LastBeat(start, beats[..n]) <= beats[n] <= LastBeat(start, beats[..n]) + gap
  }

  // No stretch of time between refreshes, or before the first, or after the last, exceeds gap.
  predicate Gapped(start: int, beats: seq<int>, end: int, gap: int) {
    Hops(start, beats, gap) && LastBeat(start, beats) <= end <= LastBeat(start, beats) + gap
  }

  lemma {:induction false} HopsWiden(start: int, beats: seq<int>, gap: int, wider: int)
    requires gap <= wider && Hops(start, beats, gap)
    ensures Hops(start, beats, wider)
  {
    if beats != [] {
      HopsWiden(start, beats[..|beats| - 1], gap, wider);
    }
  }

  // Work that ended at mid and work that restarts the timer there: the stretches around mid add up,
  // unless the second work refreshes at once or takes no time.
  lemma {:induction false} HopsJoin(start: int, a: seq<int>, mid: int, g: int, b: seq<int>, h: int, wider: int)
    requires 0 <= h && Gapped(start, a, mid, g) && Hops(mid, b, h)
    requires g + h <= wider || (g <= wider && h <= wider && (b == [] || b[0] == mid))
    ensures Hops(start, a + b, wider)
    ensures LastBeat(start, a + b) == if b == [] then LastBeat(start, a) else b[|b| - 1]
  {
    if b == [] {
      assert a + b == a;
      HopsWiden(start, a, g, wider);
    } else {
      var n := |b| - 1;
      HopsJoin(start, a, mid, g, b[..n], h, wider);
      assert (a + b)[..|a + b| - 1] == a + b[..n];
    }
  }

  lemma GapsJoin(start: int, a: seq<int>, mid: int, g: int, b: seq<int>, end: int, h: int, wider: int)
    requires 0 <= h && Gapped(start, a, mid, g) && Gapped(mid, b, end, h)
    requires g + h <= wider || (g <= wider && h <= wider && (b == [] ==> end == mid) && (b == [] || b[0] == mid))
    ensures Gapped(start, a + b, end, wider)
  {
    HopsJoin(start, a, mid, g, b, h, wider);
  }

  // The refresh a reader of the claim sees at moment t, counting one at start.
  function LatestBeat(start: int, beats: seq<int>, t: int): int {
    if beats == [] then start
    else if beats[|beats| - 1] <= t then beats[|beats| - 1]
    else LatestBeat(start, beats[..|beats| - 1], t)
  }

  // At no moment of the work is the claim stale, when it was refreshed at the start.
  predicate FreshThroughout(start: int, beats: seq<int>, end: int, ttl: int) {
    forall t | start <= t <= end :: t - ttl <= LatestBeat(start, beats, t)
  }

  lemma {:induction false} ClaimStaysFresh(start: int, beats: seq<int>, end: int, gap: int, ttl: int, t: int)
    requires Gapped(start, beats, end, gap) && gap <= ttl && start <= t <= end
    ensures t - ttl <= LatestBeat(start, beats, t) <= t
  {
    if beats != [] && t < beats[|beats| - 1] {
      ClaimStaysFresh(start, beats[..|beats| - 1], beats[|beats| - 1], gap, ttl, t);
    }
  }

  /******* One execution *******/

  // The operating system refuses to start a process, or it runs and perhaps exits after some time.
  datatype Process = CannotStart | Runs(exits: Option<int>, code: int)

  // The claim refresh handed to the runner, and from when on it finds the claim lost.
  datatype Callback = Callback(lostAt: Option<int>)

  datatype Limits = Limits(timeout: nat, interval: nat, heartbeat: Option<Callback>)

  datatype Attempt = Completed(code: int) | TimedOut | NotStarted | ClaimGone

  // How an execution ends, the refreshes it made, and when.
  datatype Trace = Trace(attempt: Attempt, sent: seq<int>, end: int)

  predicate Loses(callback: Callback, now: int) {
    callback.lostAt.Some? && now >= callback.lostAt.value
  }

  predicate ExitsBy(p: Process, start: int, t: int) {
    p.Runs? && p.exits.Some? && start + p.exits.value <= t
  }

  function Pause(left: int): int {
    if left < ShortPoll then ShortPoll else if left < LongPoll then left else LongPoll
  }

  predicate Due(on: Limits, start: int, sent: seq<int>, now: int) {
    on.heartbeat.Some? && now - LastBeat(start, sent) >= on.interval
  }

  // The polls of a process started at start, from moment now on.
  function Polls(on: Limits, p: Process, start: int, now: int, sent: seq<int>): Trace
    requires p.Runs?
    decreases start + on.timeout - now
  {
    if ExitsBy(p, start, now) then Trace(Completed(p.code), sent, now)
    else if now >= start + on.timeout then Trace(TimedOut, sent, now)
    else if Due(on, start, sent, now) && Loses(on.heartbeat.value, now) then Trace(ClaimGone, sent, now)
    else Polls(on, p, start, now + Pause(start + on.timeout - now),
               if Due(on, start, sent, now) then sent + [now] else sent)
  }

  function Execute(on: Limits, p: Process, start: int): Trace {
    if p.CannotStart? then Trace(NotStarted, [], start) else Polls(on, p, start, start, [])
  }

  // At a poll: what the execution has done so far.
  predicate Underway(on: Limits, p: Process, start: int, now: int, sent: seq<int>) {
    && start <= now < start + on.timeout + ShortPoll
    && (now > start ==> !ExitsBy(p, start, now - LongPoll))
    && if on.heartbeat.Some? then Spaced(start, sent, now, on.interval, LongPoll) else sent == []
  }

  // And once it has ended: before the deadline plus a short poll, with an exit seen within a long poll,
  // a time-out only past the deadline and of a process still running, and refreshes at least the
  // interval and less than the interval plus a long poll apart.
  predicate Ended(on: Limits, p: Process, start: int, t: Trace) {
    && start <= t.end < start + on.timeout + ShortPoll
    && (if on.heartbeat.Some? then Spaced(start, t.sent, t.end, on.interval, LongPoll) else t.sent == [])
    && (t.attempt.NotStarted? <==> p.CannotStart?)
    && (t.attempt.Completed? ==> ExitsBy(p, start, t.end) && t.attempt.code == p.code)
    && (t.attempt.Completed? && p.exits.value >= 0 ==> t.end < start + p.exits.value + LongPoll)
    && (t.attempt.TimedOut? ==> t.end >= start + on.timeout && !ExitsBy(p, start, t.end))
    && (t.attempt.ClaimGone? ==> on.heartbeat.Some? && Loses(on.heartbeat.value, t.end))
    && (ExitsBy(p, start, start + on.timeout) && !t.attempt.ClaimGone? ==> t.attempt.Completed?)
  }

  lemma {:induction false} PollsEnd(on: Limits, p: Process, start: int, now: int, sent: seq<int>)
    requires p.Runs? && Underway(on, p, start, now, sent)
    ensures Ended(on, p, start, Polls(on, p, start, now, sent))
    decreases start + on.timeout - now
  {
    if !ExitsBy(p, start, now) && now < start + on.timeout
       && !(Due(on, start, sent, now) && Loses(on.heartbeat.value, now)) {
      var pause := Pause(start + on.timeout - now);
      if on.heartbeat.Some? { PollAndPause(start, sent, now, pause, on.interval, LongPoll); }
      PollsEnd(on, p, start, now + pause, if Due(on, start, sent, now) then sent + [now] else sent);
    }
  }

  lemma ExecutionEnds(on: Limits, p: Process, start: int)
    ensures Ended(on, p, start, Execute(on, p, start))
  {
    if p.Runs? { PollsEnd(on, p, start, start, []); }
  }

  /******* Poll times *******/

  // Polls before the deadline are at multiples of the long poll; the last one comes at or just after it.
  function LastPoll(timeout: nat): int {
    var rest := timeout % LongPoll;
    timeout - rest + if rest == 0 then 0 else if rest < ShortPoll then ShortPoll else rest
  }

  // The first such multiple, after a refresh, at which the next one is due.
  function Rounded(interval: nat): int {
    if interval == 0 then LongPoll else (interval + LongPoll - 1) / LongPoll * LongPoll
  }

  // The longest time one execution may leave unrefreshed.
  function AttemptGap(on: Limits): int {
    if Rounded(on.interval) < LastPoll(on.timeout) then Rounded(on.interval) else LastPoll(on.timeout)
  }

  lemma NextPoll(timeout: nat, now: int)
    requires 0 <= now < timeout && now % LongPoll == 0
    ensures var next := now + Pause(timeout - now);
            && now < next <= now + LongPoll && next <= LastPoll(timeout)
            && if next < timeout then next % LongPoll == 0 else next == LastPoll(timeout)
  {
  }

  lemma RoundedUp(interval: nat, gap: int)
    requires gap % LongPoll == 0 && 0 <= gap
    ensures LongPoll <= Rounded(interval) && interval <= Rounded(interval) && Rounded(interval) % LongPoll == 0
    ensures gap < interval ==> gap + LongPoll <= Rounded(interval)
    ensures 0 < interval <= gap ==> Rounded(interval) <= gap
  {
  }

  predicate PollTime(timeout: nat, t: int) {
    0 <= t <= LastPoll(timeout) && if t < timeout then t % LongPoll == 0 else t == LastPoll(timeout)
  }

  // A refresh happens at a poll before the deadline, and the next one as soon as it is due.
  predicate Polled(on: Limits, start: int, now: int, sent: seq<int>) {
    && PollTime(on.timeout, now - start) && Gapped(start, sent, now, AttemptGap(on))
    && start <= LastBeat(start, sent) && (LastBeat(start, sent) - start) % LongPoll == 0
  }

  lemma NextPolled(on: Limits, start: int, now: int, sent: seq<int>)
    requires on.heartbeat.Some? && Polled(on, start, now, sent) && now < start + on.timeout
    ensures Polled(on, start, now + Pause(start + on.timeout - now),
                   if Due(on, start, sent, now) then sent + [now] else sent)
  {
    NextPoll(on.timeout, now - start);
    var next := now + Pause(start + on.timeout - now);
    PauseWithin(on, start, now, LastBeat(start, sent));
    if Due(on, start, sent, now) {
      BeatAndPause(start, sent, now, next, AttemptGap(on));
    }
  }

  // The pause after a poll stays within the gap, whether or not the poll refreshed.
  lemma PauseWithin(on: Limits, start: int, now: int, last: int)
    requires start <= last <= now < start + on.timeout
    requires (now - start) % LongPoll == 0 && (last - start) % LongPoll == 0
    ensures now + Pause(start + on.timeout - now) <= now + AttemptGap(on)
    ensures now - last < on.interval ==> now + Pause(start + on.timeout - now) <= last + AttemptGap(on)
  {
    NextPoll(on.timeout, now - start);
    RoundedUp(on.interval, now - last);
  }

  lemma BeatAndPause(start: int, sent: seq<int>, now: int, next: int, gap: int)
    requires Gapped(start, sent, now, gap) && now <= next <= now + gap
    ensures Gapped(start, sent + [now], next, gap) && LastBeat(start, sent + [now]) == now
  {
    assert (sent + [now])[..|sent|] == sent;
  }

  lemma {:induction false} PollsGapped(on: Limits, p: Process, start: int, now: int, sent: seq<int>)
    requires p.Runs? && on.heartbeat.Some? && Polled(on, start, now, sent)
    ensures var t := Polls(on, p, start, now, sent);
            Gapped(start, t.sent, t.end, AttemptGap(on)) && sent <= t.sent
    decreases start + on.timeout - now
  {
    if !ExitsBy(p, start, now) && now < start + on.timeout
       && !(Due(on, start, sent, now) && Loses(on.heartbeat.value, now)) {
      NextPolled(on, start, now, sent);
      PollsGapped(on, p, start, now + Pause(start + on.timeout - now),
                  if Due(on, start, sent, now) then sent + [now] else sent);
    }
  }

  // With an interval of zero an execution refreshes at once or takes no time.
  lemma AttemptGapped(on: Limits, p: Process, start: int)
    requires on.heartbeat.Some?
    ensures var t := Execute(on, p, start);
            && Gapped(start, t.sent, t.end, AttemptGap(on))
            && (on.interval == 0 ==> if t.sent == [] then t.end == start else t.sent[0] == start)
  {
    RoundedUp(on.interval, 0);
    if p.Runs? {
      PollsGapped(on, p, start, start, []);
      if !ExitsBy(p, start, start) && 0 < on.timeout && Due(on, start, [], start)
         && !Loses(on.heartbeat.value, start) {
        NextPolled(on, start, start, []);
        PollsGapped(on, p, start, start + Pause(on.timeout), [start]);
      }
    }
  }

  /******* The retry loop *******/

  datatype Outcome = Succeeded(attempts: nat) | Failed(attempts: nat) | Abandoned(attempts: nat)

  datatype RunTrace = RunTrace(outcome: Outcome, sent: seq<int>, end: int)

  // What the i-th run of the command will do, counting from one; there is always another to ask for.
  function ProcessAt(processes: seq<Process>, i: nat): Process {
    if 1 <= i <= |processes| then processes[i - 1] else CannotStart
  }

  function BackOff(attempt: nat): nat {
    if attempt < 3 then attempt else 3
  }

  // The pauses after the first n attempts.
  function TotalBackOff(n: nat): nat {
    if n == 0 then 0 else TotalBackOff(n - 1) + BackOff(n)
  }

  // One second, then two, then three after each further attempt.
  lemma {:induction false} BackOffTotals(n: nat)
    ensures TotalBackOff(n) == if n == 0 then 0 else if n == 1 then 1 else 3 * n - 3
  {
    if n > 0 {
      BackOffTotals(n - 1);
    }
  }

  // n times x.
  function Spent(n: nat, x: int): int {
    if n == 0 then 0 else Spent(n - 1, x) + x
  }

  lemma {:induction false} SpentGrows(m: nat, n: nat, x: int)
    requires m <= n && 0 <= x
    ensures Spent(m, x) <= Spent(n, x)
  {
    if m < n {
      SpentGrows(m, n - 1, x);
    }
  }

  function RunFrom(on: Limits, processes: seq<Process>, total: nat, attempt: nat, now: int, sent: seq<int>): RunTrace
    requires 1 <= attempt <= total
    decreases total - attempt
  {
    var t := Execute(on, ProcessAt(processes, attempt), now);
    if t.attempt.ClaimGone? then RunTrace(Abandoned(attempt), sent + t.sent, t.end)
    else if t.attempt == Completed(0) then RunTrace(Succeeded(attempt), sent + t.sent, t.end)
    else if attempt == total then RunTrace(Failed(attempt), sent + t.sent, t.end)
    else RunFrom(on, processes, total, attempt + 1, t.end + Seconds(BackOff(attempt)), sent + t.sent)
  }

  function Run(on: Limits, processes: seq<Process>, total: nat, start: int): RunTrace
    requires 1 <= total
  {
    RunFrom(on, processes, total, 1, start, [])
  }

  predicate Succeeds(on: Limits, p: Process) {
    p.Runs? && p.exits.Some? && p.code == 0 && p.exits.value <= on.timeout
  }

  predicate ExitsZero(p: Process, before: int) {
    p.Runs? && p.exits.Some? && p.code == 0 && p.exits.value < before
  }

  // The run stops at the first attempt that exits with 0, fails only after all of them, ends within the
  // sum of the attempts' bounds and the pauses between them, and is abandoned only when the claim is lost.
  predicate RunEnded(on: Limits, processes: seq<Process>, total: nat, start: int, r: RunTrace) {
    var n := r.outcome.attempts;
    && 1 <= n <= total && (r.outcome.Failed? ==> n == total)
    && (forall i | 1 <= i < n :: !Succeeds(on, ProcessAt(processes, i)))
    && (r.outcome.Succeeded? ==> ExitsZero(ProcessAt(processes, n), on.timeout + ShortPoll))
    && (r.outcome.Failed? ==> !Succeeds(on, ProcessAt(processes, n)))
    && (r.outcome.Abandoned? ==> on.heartbeat.Some? && Loses(on.heartbeat.value, r.end))
    && start <= r.end <= start + Spent(n, on.timeout + ShortPoll) + Seconds(TotalBackOff(n - 1))
  }

  lemma {:induction false} RunFromEnds(on: Limits, processes: seq<Process>, total: nat, attempt: nat, start: int,
                                       now: int, sent: seq<int>)
    requires 1 <= attempt <= total && forall i | 1 <= i < attempt :: !Succeeds(on, ProcessAt(processes, i))
    requires start <= now <= start + Spent(attempt - 1, on.timeout + ShortPoll) + Seconds(TotalBackOff(attempt - 1))
    ensures RunEnded(on, processes, total, start, RunFrom(on, processes, total, attempt, now, sent))
    decreases total - attempt
  {
    var p := ProcessAt(processes, attempt);
    var t := Execute(on, p, now);
    ExecutionEnds(on, p, now);
    if !t.attempt.ClaimGone? && t.attempt != Completed(0) && attempt < total {
      RunFromEnds(on, processes, total, attempt + 1, start, t.end + Seconds(BackOff(attempt)), sent + t.sent);
    }
  }

  lemma RunEnds(on: Limits, processes: seq<Process>, total: nat, start: int)
    requires 1 <= total
    ensures RunEnded(on, processes, total, start, Run(on, processes, total, start))
  {
    RunFromEnds(on, processes, total, 1, start, start, []);
  }

  // What executions and pauses may leave unrefreshed: each execution restarts the timer, and no pause
  // refreshes. With an interval of zero only one execution counts.
  function Unrefreshed(on: Limits, executions: nat, pauses: nat): int {
    (if on.interval == 0 then AttemptGap(on) else Spent(executions, AttemptGap(on))) + Seconds(TotalBackOff(pauses))
  }

  function LongestGap(on: Limits, attempts: nat): int {
    Unrefreshed(on, attempts, if attempts == 0 then 0 else attempts - 1)
  }

  lemma {:induction false} LongestGapGrows(on: Limits, m: nat, n: nat)
    requires 1 <= m <= n
    ensures LongestGap(on, m) <= LongestGap(on, n)
  {
    if m < n {
      RoundedUp(on.interval, 0);
      LongestGapGrows(on, m, n - 1);
    }
  }

  lemma {:induction false} RunFromGapped(on: Limits, processes: seq<Process>, total: nat, attempt: nat, start: int,
                                         now: int, sent: seq<int>)
    requires on.heartbeat.Some? && 1 <= attempt <= total
    requires Gapped(start, sent, now, Unrefreshed(on, attempt - 1, attempt - 1))
    ensures var r := RunFrom(on, processes, total, attempt, now, sent);
            attempt <= r.outcome.attempts <= total && Gapped(start, r.sent, r.end, LongestGap(on, r.outcome.attempts))
    decreases total - attempt
  {
    RoundedUp(on.interval, 0);
    AttemptGapped(on, ProcessAt(processes, attempt), now);
    var t := Execute(on, ProcessAt(processes, attempt), now);
    var gap := Unrefreshed(on, attempt, attempt - 1);
    GapsJoin(start, sent, now, Unrefreshed(on, attempt - 1, attempt - 1), t.sent, t.end, AttemptGap(on), gap);
    if !t.attempt.ClaimGone? && t.attempt != Completed(0) && attempt < total {
      HopsWiden(start, sent + t.sent, gap, Unrefreshed(on, attempt, attempt));
      RunFromGapped(on, processes, total, attempt + 1, start, t.end + Seconds(BackOff(attempt)), sent + t.sent);
    }
  }

  // Whatever the processes do, no stretch without a refresh exceeds the longest gap of the attempts made.
  lemma RunGapped(on: Limits, processes: seq<Process>, total: nat, start: int)
    requires on.heartbeat.Some? && 1 <= total
    ensures var r := Run(on, processes, total, start);
            1 <= r.outcome.attempts <= total && Gapped(start, r.sent, r.end, LongestGap(on, r.outcome.attempts))
  {
    RoundedUp(on.interval, 0);
    RunFromGapped(on, processes, total, 1, start, start, []);
  }

  /******* The longest gap is reached *******/

  // Every run exits with 1, just before a refresh would be due, or at the last poll if none is. With an
  // interval of zero, where the first poll refreshes, only the first run takes any time.
  function SlowFailures(on: Limits, total: nat): seq<Process> {
    seq(total, i => Runs(Some(if i == 0 || on.interval > 0 then AttemptGap(on) else 0), 1))
  }

  lemma {:induction false} SlowPolls(on: Limits, start: int, now: int)
    requires 0 < on.interval && start <= now <= start + AttemptGap(on) && PollTime(on.timeout, now - start)
    ensures Polls(on, Runs(Some(AttemptGap(on)), 1), start, now, []) == Trace(Completed(1), [], start + AttemptGap(on))
    decreases start + on.timeout - now
  {
    if now < start + AttemptGap(on) {
      NextPoll(on.timeout, now - start);
      RoundedUp(on.interval, now - start);
      SlowPolls(on, start, now + Pause(start + on.timeout - now));
    }
  }

  lemma SlowAttempt(on: Limits, start: int)
    requires on.heartbeat == Some(Callback(None))
    ensures var t := Execute(on, Runs(Some(AttemptGap(on)), 1), start);
            && t.attempt == Completed(1) && t.end == start + AttemptGap(on)
            && t.sent == if on.interval == 0 < on.timeout then [start] else []
  {
    RoundedUp(on.interval, 0);
    if on.interval > 0 {
      SlowPolls(on, start, start);
    } else if on.timeout > 0 {
      NextPoll(on.timeout, 0);
      assert Pause(on.timeout) == AttemptGap(on) && [] + [start] == [start];
      var p := Runs(Some(AttemptGap(on)), 1);
      assert !ExitsBy(p, start, start) && Due(on, start, [], start);
      assert Polls(on, p, start, start, []) == Polls(on, p, start, start + AttemptGap(on), [start]);
      assert ExitsBy(p, start, start + AttemptGap(on));
    }
  }

  lemma {:induction false} SlowRunFrom(on: Limits, total: nat, attempt: nat, start: int, sent: seq<int>)
    requires on.heartbeat == Some(Callback(None)) && 2 <= attempt <= total
    ensures var now := start + Unrefreshed(on, attempt - 1, attempt - 1);
            RunFrom(on, SlowFailures(on, total), total, attempt, now, sent)
            == RunTrace(Failed(total), sent, start + LongestGap(on, total))
    decreases total - attempt
  {
    var now := start + Unrefreshed(on, attempt - 1, attempt - 1);
    SlowAttempt(on, now);
    var t := Execute(on, ProcessAt(SlowFailures(on, total), attempt), now);
    assert t == Trace(Completed(1), [], start + Unrefreshed(on, attempt, attempt - 1));
    assert sent + [] == sent;
    if attempt < total {
      SlowRunFrom(on, total, attempt + 1, start, sent);
    }
  }

  // These failures leave the claim unrefreshed for the whole longest gap.
  lemma SlowRun(on: Limits, total: nat, start: int)
    requires on.heartbeat == Some(Callback(None)) && 1 <= total
    ensures var r := Run(on, SlowFailures(on, total), total, start);
            && r.outcome == Failed(total) && r.end == start + LongestGap(on, total)
            && LatestBeat(start, r.sent, r.end) == start <= r.end
            && (on.interval > 0 ==> r.sent == [])
  {
    SlowAttempt(on, start);
    assert ProcessAt(SlowFailures(on, total), 1) == Runs(Some(AttemptGap(on)), 1);
    var t := Execute(on, Runs(Some(AttemptGap(on)), 1), start);
    assert [] + t.sent == t.sent && Spent(1, AttemptGap(on)) == AttemptGap(on) && TotalBackOff(0) == 0;
    RoundedUp(on.interval, 0);
    LongestGapGrows(on, 1, total);
    assert LongestGap(on, 1) == AttemptGap(on);
    if total > 1 {
      SlowRunFrom(on, total, 2, start, t.sent);
    }
  }

  predicate KeepsFresh(on: Limits, processes: seq<Process>, total: nat, start: int, ttl: int)
    requires 1 <= total
  {
    var r := Run(on, processes, total, start);
    FreshThroughout(start, r.sent, r.end, ttl)
  }

  lemma SlowRunGoesStale(on: Limits, total: nat, start: int, ttl: int)
    requires on.heartbeat == Some(Callback(None)) && 1 <= total && ttl < LongestGap(on, total)
    ensures !KeepsFresh(on, SlowFailures(on, total), total, start, ttl)
  {
    SlowRun(on, total, start);
    var r := Run(on, SlowFailures(on, total), total, start);
    assert r.end - ttl > LatestBeat(start, r.sent, r.end);
  }

  lemma FreshWithin(on: Limits, processes: seq<Process>, total: nat, start: int, ttl: int)
    requires on.heartbeat.Some? && 1 <= total && LongestGap(on, total) <= ttl
    ensures KeepsFresh(on, processes, total, start, ttl)
  {
    RunGapped(on, processes, total, start);
    var r := Run(on, processes, total, start);
    LongestGapGrows(on, r.outcome.attempts, total);
    forall t | start <= t <= r.end ensures t - ttl <= LatestBeat(start, r.sent, t) {
      ClaimStaysFresh(start, r.sent, r.end, LongestGap(on, r.outcome.attempts), ttl, t);
    }
  }

  // Whatever the processes do and whenever the claim is lost, a command of at most total attempts keeps
  // its claim fresh at every moment, if and only if the TTL covers the longest gap of all attempts.
  lemma RunsKeepClaimsFresh(timeout: nat, interval: nat, total: nat, ttl: int)
    requires 1 <= total
    ensures (forall processes, callback, start ::
               KeepsFresh(Limits(timeout, interval, Some(callback)), processes, total, start, ttl))
       <==> LongestGap(Limits(timeout, interval, Some(Callback(None))), total) <= ttl
  {
    var on := Limits(timeout, interval, Some(Callback(None)));
    if LongestGap(on, total) <= ttl {
      forall processes, callback, start
        ensures KeepsFresh(Limits(timeout, interval, Some(callback)), processes, total, start, ttl)
      {
        FreshWithin(Limits(timeout, interval, Some(callback)), processes, total, start, ttl);
      }
    } else {
      SlowRunGoesStale(on, total, 0, ttl);
    }
  }

  // A refresh interval of 200 s is accepted with a TTL of 300 s, yet a command of 600 s with one retry
  // may go 401 s without a refresh.
  lemma AcceptedIntervalGoesStale() returns (on: Limits)
    ensures on.timeout == Seconds(600) && on.interval == Seconds(200) < Seconds(300)
    ensures Run(on, SlowFailures(on, 2), 2, 0) == RunTrace(Failed(2), [], Seconds(401))
    ensures !KeepsFresh(on, SlowFailures(on, 2), 2, 0, Seconds(300))
  {
    on := Limits(600_000_000, 200_000_000, Some(Callback(None)));
    assert LongestGap(on, 2) == Seconds(401) by {
      assert AttemptGap(on) == Seconds(200);
      assert Spent(1, AttemptGap(on)) == Seconds(200) && TotalBackOff(1) == 1;
    }
    SlowRun(on, 2, 0);
    SlowRunGoesStale(on, 2, 0, Seconds(300));
  }

  // The defaults leave at most 61 s: 600 s for a command, one retry, a refresh every 30 s.
  lemma DefaultsStayFresh(processes: seq<Process>, callback: Callback, start: int) returns (on: Limits)
    ensures on.timeout == Seconds(600) && on.interval == Seconds(30) && on.heartbeat == Some(callback)
    ensures KeepsFresh(on, processes, 2, start, Seconds(61))
  {
    on := Limits(600_000_000, 30_000_000, Some(callback));
    assert AttemptGap(on) == Seconds(30) && Spent(1, AttemptGap(on)) == Seconds(30) && TotalBackOff(1) == 1;
    FreshWithin(on, processes, 2, start, Seconds(61));
  }
}
