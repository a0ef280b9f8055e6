/**
  Claims in time: how far a run lets the refreshes of a process lie apart decides whether its claims stay
  fresh, and with them the exclusion of the lease. worker/processing/claims.py.
 */
module Punctuality {
  import opened Basics
  import opened Records
  import opened Transactions
  import opened Repair
  import opened Protocol
  import opened ProtocolInvariants
  import opened Lease

  // The steps in which a process takes up work or refreshes the claim on it: its heartbeats, every stage
  // it passes except the recording of the target, and the start of a command it has read.
  predicate Refreshes(cfg: Config, s: System, step: Step, p: ProcessId) {
    var after := Doing(Next(cfg, s, step), p);
    match Doing(s, p)
    case Idle => !after.Idle?
    case Pipeline(_, stage) =>
      || step == Heartbeat(p)
      || (&& step.Advance? && step.process == p && !stage.RecordTarget?
          && after.Pipeline? && after.stage != stage && after.stage != MarkFailed)
    case Commanding(_, _, phase) =>
      || (step == CommandHeartbeat(p) && !phase.Reading?)
      || (step.AdvanceCommand? && step.process == p && phase.Starting?)
  }

  function Ticks(step: Step): nat {
    if step.Tick? then step.elapsed else 0
  }

  // The time since the last of them.
  function SinceRefresh(cfg: Config, steps: seq<Step>, p: ProcessId): nat {
    if steps == [] then 0
    else
      var n := |steps| - 1;
      if Refreshes(cfg, Run(cfg, Init, steps[..n]), steps[n], p) then 0
      else SinceRefresh(cfg, steps[..n], p) + Ticks(steps[n])
  }

  // The claim a process works under is no older than the given time, if there still is one.
  predicate NoOlder(claimedAt: Option<Time>, now: Time, age: nat) {
    claimedAt.Some? ==> now - claimedAt.value <= age
  }

  predicate Timely(s: System, p: ProcessId, age: nat) {
    match Doing(s, p)
    case Idle => true
    case Pipeline(d, _) => d < |s.db.deployments| && NoOlder(s.db.deployments[d].claimedAt, s.db.now, age)
    case Commanding(c, _, _) => c < |s.db.commands| && NoOlder(s.db.commands[c].claimedAt, s.db.now, age)
  }

  /******* Claim times only move to now *******/

  predicate TimeMoves(before: Option<Time>, after: Option<Time>, now: Time) {
    after == before || after == None || after == Some(now)
  }

  predicate RowTimesMove(db: Db, db': Db) {
    |db.deployments| <= |db'.deployments|
    && forall d | 0 <= d < |db.deployments| ::
         TimeMoves(db.deployments[d].claimedAt, db'.deployments[d].claimedAt, db.now)
  }

  predicate CommandTimesMove(db: Db, db': Db) {
    |db.commands| <= |db'.commands|
    && forall c | 0 <= c < |db.commands| :: TimeMoves(db.commands[c].claimedAt, db'.commands[c].claimedAt, db.now)
  }

  lemma StageMovesTime(stage: Stage, row: Deployment, now: Time, e: Execution)
    requires e.Success? && StageRow(stage, row, now, e).Some?
    ensures var row' := StageRow(stage, row, now, e).value;
            && TimeMoves(row.claimedAt, row'.claimedAt, now)
            && (!stage.RecordTarget? && !Ends(stage) ==> row'.claimedAt == Some(now))
  {
  }

  lemma StepMovesRowTimes(cfg: Config, s: System, step: Step)
    ensures RowTimesMove(s.db, Next(cfg, s, step).db)
  {
    match step
    case Advance(p, e) =>
      AdvanceRows(cfg, s, p, e);
      if Doing(s, p).Pipeline? && Doing(s, p).deployment < |s.db.deployments| && e.Success? {
        var Pipeline(d, stage) := Doing(s, p);
        if StageRow(stage, s.db.deployments[d], s.db.now, e).Some? {
          StageMovesTime(stage, s.db.deployments[d], s.db.now, e);
        }
      }
    case AdvanceCommand(p, e) => AdvanceCommandWrites(cfg, s, p, e);
    case Reconcile(d, rule, rt, ex) => ReconcileMovesTimes(cfg, s, d, rule, rt, ex);
    case ClaimPending(p, d) =>
    case Heartbeat(p) =>
    case Create(_, _, _) =>
    case _ => RowsFramed(cfg, s, step);
  }

  lemma ReconcileMovesTimes(cfg: Config, s: System, d: Id, rule: Rule, rt: Runtime, ex: Executor)
    ensures RowTimesMove(s.db, ApplyReconcile(cfg, s, d, rule, rt, ex).db)
  {
  }

  lemma StepMovesCommandTimes(cfg: Config, s: System, step: Step)
    ensures CommandTimesMove(s.db, Next(cfg, s, step).db)
  {
    match step
    case Advance(p, e) => AdvanceRows(cfg, s, p, e);
    case AdvanceCommand(p, e) => AdvanceCommandWrites(cfg, s, p, e);
    case LookUp(r, d, kind) => RequestGrows(s, r, d, kind);
    case LookUpAgain(r) => RequestGrows(s, r, 0, Stop);
    case _ =>
  }

  /******* Every refresh counts *******/

  lemma RefreshIsTimely(cfg: Config, s: System, step: Step, p: ProcessId)
    requires WorkerOk(s, p) && ActorOk(s, p) && Linked(s.db) && Refreshes(cfg, s, step, p)
    ensures Timely(Next(cfg, s, step), p, 0)
  {
    match Doing(s, p)
    case Idle => TakingUpIsTimely(cfg, s, step, p);
    case Pipeline(d, stage) =>
      if step.Advance? { PassingIsTimely(cfg, s, p, step.execution); }
    case Commanding(c, id, phase) =>
  }

  lemma TakingUpIsTimely(cfg: Config, s: System, step: Step, p: ProcessId)
    requires Doing(s, p).Idle? && !Doing(Next(cfg, s, step), p).Idle?
    ensures Timely(Next(cfg, s, step), p, 0)
  {
    if Doing(Next(cfg, s, step), p).Pipeline? {
      if step.Advance? {
        AdvanceActivity(cfg, s, step.process, step.execution, p);
      } else {
        OthersActivity(cfg, s, step, p);
      }
    } else {
      WasCommanding(cfg, s, step, p);
    }
  }

  lemma PassingIsTimely(cfg: Config, s: System, p: ProcessId, e: Execution)
    requires Doing(s, p).Pipeline? && Doing(s, p).deployment < |s.db.deployments|
    requires Refreshes(cfg, s, Advance(p, e), p)
    ensures Timely(Next(cfg, s, Advance(p, e)), p, 0)
  {
    var Pipeline(d, stage) := Doing(s, p);
    AdvanceActivity(cfg, s, p, e, p);
    if e.Success? && StageRow(stage, s.db.deployments[d], s.db.now, e).Some? {
      StageMovesTime(stage, s.db.deployments[d], s.db.now, e);
    }
  }

  /******* Runs *******/

  lemma NowAdvances(cfg: Config, s: System, step: Step)
    ensures Next(cfg, s, step).db.now == s.db.now + Ticks(step)
  {
    match step
    case LookUp(r, d, kind) => RequestGrows(s, r, d, kind);
    case LookUpAgain(r) => RequestGrows(s, r, 0, Stop);
    case AdvanceCommand(p, e) => AdvanceCommandWrites(cfg, s, p, e);
    case Advance(p, e) => AdvanceActivity(cfg, s, p, e, p);
    case _ =>
  }

  // A process that is not idle after a step without a refresh has the work it had before.
  lemma WorkStays(cfg: Config, s: System, step: Step, p: ProcessId)
    requires !Refreshes(cfg, s, step, p)
    ensures match Doing(Next(cfg, s, step), p)
            case Idle => true
            case Pipeline(d, _) => Doing(s, p).Pipeline? && Doing(s, p).deployment == d
            case Commanding(c, _, _) => Doing(s, p).Commanding? && Doing(s, p).command == c
  {
    match Doing(Next(cfg, s, step), p)
    case Idle =>
    case Pipeline(d, _) => WasWorking(cfg, s, step, p);
    case Commanding(c, _, _) => WasCommanding(cfg, s, step, p);
  }

  lemma StepIsTimely(cfg: Config, s: System, step: Step, p: ProcessId, age: nat)
    requires Inv(s) && Timely(s, p, age)
    ensures Timely(Next(cfg, s, step), p, if Refreshes(cfg, s, step, p) then 0 else age + Ticks(step))
  {
    assert WorkerOk(s, p) && ActorOk(s, p);
    forall c | 0 <= c < |s.db.commands| ensures s.db.commands[c].deployment < |s.db.deployments| {
      assert CommandOk(s.db, c);
    }
    if Refreshes(cfg, s, step, p) {
      RefreshIsTimely(cfg, s, step, p);
    } else {
      WorkStays(cfg, s, step, p);
      NowAdvances(cfg, s, step);
      StepMovesRowTimes(cfg, s, step);
      StepMovesCommandTimes(cfg, s, step);
      WaitIsTimely(s, Next(cfg, s, step), p, age, Ticks(step));
    }
  }

  lemma WaitIsTimely(s: System, s': System, p: ProcessId, age: nat, ticks: nat)
    requires Timely(s, p, age) && s'.db.now == s.db.now + ticks
    requires RowTimesMove(s.db, s'.db) && CommandTimesMove(s.db, s'.db)
    requires match Doing(s', p)
             case Idle => true
             case Pipeline(d, _) => Doing(s, p).Pipeline? && Doing(s, p).deployment == d
             case Commanding(c, _, _) => Doing(s, p).Commanding? && Doing(s, p).command == c
    ensures Timely(s', p, age + ticks)
  {
  }

  // In every run, the claim a live process works under is no older than its last refresh.
  lemma {:induction false} ClaimsAreTimely(cfg: Config, steps: seq<Step>, p: ProcessId)
    ensures Timely(Run(cfg, Init, steps), p, SinceRefresh(cfg, steps, p))
  {
    if steps != [] {
      var n := |steps| - 1;
      ClaimsAreTimely(cfg, steps[..n], p);
      RunsKeepInv(cfg, steps[..n]);
      StepIsTimely(cfg, Run(cfg, Init, steps[..n]), steps[n], p, SinceRefresh(cfg, steps[..n], p));
    }
  }

  // At every moment each process that is not idle has refreshed within the TTL.
  ghost predicate Punctual(cfg: Config, steps: seq<Step>) {
    forall k, p | 0 <= k <= |steps| && !Doing(Run(cfg, Init, steps[..k]), p).Idle? ::
      SinceRefresh(cfg, steps[..k], p) <= cfg.ttl
  }

  lemma PunctualIsFresh(cfg: Config, steps: seq<Step>, p: ProcessId)
    requires SinceRefresh(cfg, steps, p) <= cfg.ttl
    ensures ProcessFresh(cfg, Run(cfg, Init, steps), p)
  {
    ClaimsAreTimely(cfg, steps, p);
  }

  lemma PunctualRunsAreFresh(cfg: Config, steps: seq<Step>)
    requires Punctual(cfg, steps)
    ensures FreshRun(cfg, steps)
  {
    forall k | 0 <= k <= |steps| ensures Fresh(cfg, Run(cfg, Init, steps[..k])) {
      forall p ensures ProcessFresh(cfg, Run(cfg, Init, steps[..k]), p) {
        if !Doing(Run(cfg, Init, steps[..k]), p).Idle? { PunctualIsFresh(cfg, steps[..k], p); }
      }
    }
  }

  // Whoever keeps refreshing within the TTL keeps its work to itself: in a punctual run a worker past its
  // first begin_step on d owns d and is alone on it, no stop or cleanup of d is under way, and no repair
  // rule touches its status, build or claim.
  lemma PunctualityExcludes(cfg: Config, steps: seq<Step>, p: ProcessId, d: Id)
    requires Punctual(cfg, steps) && AtWork(Run(cfg, Init, steps), p, d)
    ensures var s := Run(cfg, Init, steps);
            && d < |s.db.deployments| && Owns(s.db.deployments[d], cfg.name(p))
            && (forall q :: !Commands(s, q, d) && (Doing(s, q).Pipeline? && Doing(s, q).deployment == d ==> q == p))
            && (forall rule, rt, ex ::
                  LeavesWork(s.db.deployments[d], ApplyRule(rule, cfg.ttl, s.db.now, s.db.deployments, d, rt, ex)))
  {
    PunctualRunsAreFresh(cfg, steps);
    LeaseExclusion(cfg, steps, p, d);
  }
}
