/**
  Mutual exclusion of the lease. The timing assumption is the only one: along the run, no live
  process lets the age of a claim it holds exceed the TTL. Nothing is assumed about worker ids.
 */
module Lease {
  import opened Lifecycle
  import opened Records
  import opened Transactions
  import opened Repair
  import opened Protocol
  import opened ProtocolInvariants

  predicate ProcessFresh(cfg: Config, s: System, p: ProcessId) {
    match Doing(s, p)
    case Idle => true
    case Pipeline(d, _) =>
      d < |s.db.deployments| && Owns(s.db.deployments[d], cfg.name(p)) ==>
        !Stale(s.db.deployments[d].claimedAt, s.db.now, cfg.ttl)
    case Commanding(c, id, _) =>
      c < |s.db.commands| && OwnsCommand(s.db.commands[c], id) ==>
        !Stale(s.db.commands[c].claimedAt, s.db.now, cfg.ttl)
  }

  ghost predicate Fresh(cfg: Config, s: System) {
    forall p :: ProcessFresh(cfg, s, p)
  }

  ghost predicate FreshRun(cfg: Config, steps: seq<Step>) {
    forall k | 0 <= k <= |steps| :: Fresh(cfg, Run(cfg, Init, steps[..k]))
  }

  // A live pipeline worker past its first begin_step on d.
  predicate AtWork(s: System, p: ProcessId, d: Id) {
    Doing(s, p).Pipeline? && Doing(s, p).deployment == d && HasBegun(s, p, d)
  }

  predicate Commands(s: System, q: ProcessId, d: Id) {
    Doing(s, q).Commanding? && Doing(s, q).command < |s.db.commands|
    && s.db.commands[Doing(s, q).command].deployment == d
  }

  // A worker owns its deployment at the right stage, and no command has stopped it once it has begun.
  predicate Keeps(cfg: Config, s: System, p: ProcessId) {
    Doing(s, p).Pipeline? ==>
      var Pipeline(d, stage) := Doing(s, p);
      && d < |s.db.deployments| && Owns(s.db.deployments[d], cfg.name(p)) && StageOk(stage, s.db.deployments[d])
      && (HasBegun(s, p, d) ==> InProgress(s.db.deployments[d].status))
  }

  predicate Holds(cfg: Config, s: System, q: ProcessId) {
    Doing(s, q).Commanding? ==>
      && Doing(s, q).command < |s.db.commands| && Doing(s, q).identity == cfg.name(q)
      && OwnsCommand(s.db.commands[Doing(s, q).command], cfg.name(q))
  }

  // No two processes are on one deployment, and no two on one command.
  predicate Sole(s: System, p: ProcessId, q: ProcessId) {
    && (Doing(s, p).Pipeline? && Doing(s, q).Pipeline? && Doing(s, p).deployment == Doing(s, q).deployment ==> p == q)
    && (Doing(s, p).Commanding? && Doing(s, q).Commanding? && Doing(s, p).command == Doing(s, q).command ==> p == q)
  }

  predicate Apart(s: System, p: ProcessId, q: ProcessId) {
    Doing(s, p).Pipeline? && AtWork(s, p, Doing(s, p).deployment) ==> !Commands(s, q, Doing(s, p).deployment)
  }

  ghost predicate Exclusive(cfg: Config, s: System) {
    && (forall p :: Keeps(cfg, s, p))
    && (forall q :: Holds(cfg, s, q))
    && (forall p, q :: Sole(s, p, q))
    && (forall p, q :: Apart(s, p, q))
  }

  /******* Preservation: who works where *******/

  // Whoever has begun on d began it before this step, or begins it by this step.
  lemma BegunBefore(cfg: Config, s: System, step: Step, p: ProcessId, d: Id)
    requires HasBegun(Next(cfg, s, step), p, d) && !HasBegun(s, p, d)
    ensures step.Advance? && step.process == p && step.execution.Success?
    ensures Doing(s, p) == Pipeline(d, StartClone) && d < |s.db.deployments|
    ensures CheckClaim(s.db, d, cfg.name(p)).Owned?
    ensures d < |Next(cfg, s, step).db.deployments| && Next(cfg, s, step).db.deployments[d].status == Cloning
    ensures CanTransition(s.db.deployments[d].status, Cloning)
  {
    HistoryGrows(cfg, s, step);
    var s' := Next(cfg, s, step);
    var n := |s.history|;
    assert s'.history == s.history + [s'.history[n]];
    StartRecorded(cfg, s, step);
  }

  // A process in the pipeline after a step was on the same deployment before it, or just claimed it.
  lemma WasWorking(cfg: Config, s: System, step: Step, p: ProcessId)
    requires Doing(Next(cfg, s, step), p).Pipeline?
    ensures var d := Doing(Next(cfg, s, step), p).deployment;
            || (Doing(s, p).Pipeline? && Doing(s, p).deployment == d)
            || (step == ClaimPending(p, d) && d < |s.db.deployments|
                && DeploymentClaimable(s.db.deployments[d], s.db.now, cfg.ttl))
  {
    if step.Advance? {
      AdvanceActivity(cfg, s, step.process, step.execution, p);
    } else {
      OthersActivity(cfg, s, step, p);
    }
  }

  // A fresh claim is claimed by nobody else.
  lemma KeptIsNotClaimable(cfg: Config, s: System, p: ProcessId)
    requires Doing(s, p).Pipeline? && Keeps(cfg, s, p) && ProcessFresh(cfg, s, p)
    ensures var row := s.db.deployments[Doing(s, p).deployment];
            !Stale(row.claimedAt, s.db.now, cfg.ttl) && !Claimable(row.claimedAt, s.db.now, cfg.ttl)
  {
  }

  lemma SoleKept(cfg: Config, s: System, step: Step, p: ProcessId, q: ProcessId)
    requires Fresh(cfg, s) && Exclusive(cfg, s)
    ensures Sole(Next(cfg, s, step), p, q)
  {
    var s' := Next(cfg, s, step);
    assert Sole(s, p, q) && Keeps(cfg, s, p) && Keeps(cfg, s, q) && ProcessFresh(cfg, s, p) && ProcessFresh(cfg, s, q);
    assert Holds(cfg, s, p) && Holds(cfg, s, q);
    if Doing(s', p).Pipeline? && Doing(s', q).Pipeline? {
      WasWorking(cfg, s, step, p);
      WasWorking(cfg, s, step, q);
    }
    if Doing(s', p).Commanding? && Doing(s', q).Commanding? {
      WasCommanding(cfg, s, step, p);
      WasCommanding(cfg, s, step, q);
    }
  }

  /******* Preservation: the worker's row *******/

  // What may happen to the row of a worker that does not move: its target, or a command's stop.
  predicate Untouched(row: Deployment, row': Deployment) {
    row' == row.(target := row'.target)
  }

  lemma ReconcileLeavesRow(cfg: Config, s: System, d': Id, rule: Rule, rt: Runtime, ex: Executor, d: Id)
    requires d < |s.db.deployments| && !Stale(s.db.deployments[d].claimedAt, s.db.now, cfg.ttl)
    requires !s.db.deployments[d].status.Running? && !s.db.deployments[d].status.Failed?
    ensures Untouched(s.db.deployments[d], ApplyReconcile(cfg, s, d', rule, rt, ex).db.deployments[d])
  {
  }

  lemma CommandLeavesRow(cfg: Config, s: System, q: ProcessId, e: Execution, d: Id)
    requires d < |s.db.deployments|
    ensures var row, row' := s.db.deployments[d], ApplyAdvanceCommand(cfg, s, q, e).db.deployments[d];
            row' == row || (Commands(s, q, d) && row'.status.Stopped?
                            && row'.claimedBy == row.claimedBy && row'.claimedAt == row.claimedAt)
  {
    AdvanceCommandWrites(cfg, s, q, e);
  }

  lemma HeartbeatLeavesRow(cfg: Config, s: System, q: ProcessId, d: Id)
    requires d < |s.db.deployments| && !(Doing(s, q).Pipeline? && Doing(s, q).deployment == d)
    ensures ApplyHeartbeat(cfg, s, q).db.deployments[d] == s.db.deployments[d]
  {
  }

  lemma ClaimLeavesRow(cfg: Config, s: System, q: ProcessId, d': Id, d: Id)
    requires d < |s.db.deployments| && !Claimable(s.db.deployments[d].claimedAt, s.db.now, cfg.ttl)
    ensures ApplyClaim(cfg, s, q, d').db.deployments[d] == s.db.deployments[d]
  {
  }

  // Another process leaves the row of a worker alone, except that a command may stop it.
  lemma OthersLeaveRow(cfg: Config, s: System, step: Step, p: ProcessId, d: Id)
    requires Fresh(cfg, s) && Exclusive(cfg, s) && Doing(s, p).Pipeline? && Doing(s, p).deployment == d
    requires (step.Advance? || step.Heartbeat?) ==> step.process != p
    ensures d < |s.db.deployments| <= |Next(cfg, s, step).db.deployments|
    ensures var row, row' := s.db.deployments[d], Next(cfg, s, step).db.deployments[d];
            || Untouched(row, row')
            || (step.AdvanceCommand? && Commands(s, step.process, d) && row'.status.Stopped?
                && row'.claimedBy == row.claimedBy && row'.claimedAt == row.claimedAt)
  {
    StepGrows(cfg, s, step);
    assert Keeps(cfg, s, p) && ProcessFresh(cfg, s, p);
    KeptIsNotClaimable(cfg, s, p);
    match step
    case Advance(q, e) => assert Sole(s, p, q); AdvanceRows(cfg, s, q, e);
    case Heartbeat(q) => assert Sole(s, p, q); HeartbeatLeavesRow(cfg, s, q, d);
    case AdvanceCommand(q, e) => CommandLeavesRow(cfg, s, q, e, d);
    case Reconcile(d', rule, rt, ex) => ReconcileLeavesRow(cfg, s, d', rule, rt, ex, d);
    case ClaimPending(q, d') => ClaimLeavesRow(cfg, s, q, d', d);
    case Create(_, _, _) =>
    case _ => RowsFramed(cfg, s, step);
  }

  // A heartbeat of its own refreshes a worker's claim, or ends its work.
  lemma OwnHeartbeat(cfg: Config, s: System, p: ProcessId)
    requires Keeps(cfg, s, p) && Doing(s, p).Pipeline? && Doing(ApplyHeartbeat(cfg, s, p), p).Pipeline?
    ensures ApplyHeartbeat(cfg, s, p)
         == s.(db := SetRow(s.db, Doing(s, p).deployment, Heard(s.db.deployments[Doing(s, p).deployment], s.db.now)))
  {
  }

  lemma StageRowSecured(stage: Stage, row: Deployment, now: Time, result: Execution, worker: WorkerName)
    requires result.Success? && !Ends(stage) && StageRow(stage, row, now, result).Some?
    requires Owns(row, worker) && StageOk(stage, row)
    ensures var row' := StageRow(stage, row, now, result).value;
            Owns(row', worker) && (InProgress(row.status) || row'.status == Cloning ==> InProgress(row'.status))
  {
  }

  lemma OwnCommit(row: Deployment, now: Time, stage: Stage, e: Execution, worker: WorkerName)
    requires RowOk(row) && Owns(row, worker) && StageOk(stage, row) && !Ends(stage)
    requires e.Success? && StageRow(stage, row, now, e).Some?
    ensures var row' := StageRow(stage, row, now, e).value;
            && Owns(row', worker) && StageOk(NextStage(stage, row.hasTests), row')
            && (InProgress(row.status) || row'.status == Cloning ==> InProgress(row'.status))
  {
    StageMoves(stage, row, now, e);
    StageRowSecured(stage, row, now, e, worker);
  }

  // A worker whose step wrote nothing stays where it was or turns to failing.
  lemma OwnStays(cfg: Config, s: System, s': System, p: ProcessId, d: Id, stage: Stage)
    requires Keeps(cfg, s, p) && Doing(s, p) == Pipeline(d, stage)
    requires s'.db == s.db && (Doing(s', p) == Doing(s, p) || Doing(s', p) == Pipeline(d, MarkFailed))
    requires HasBegun(s', p, d) ==> InProgress(s.db.deployments[d].status)
    ensures Keeps(cfg, s', p)
  {
  }

  // A worker whose step committed goes on to the next stage.
  lemma OwnCommits(cfg: Config, s: System, s': System, p: ProcessId, d: Id, stage: Stage, e: Execution)
    requires Keeps(cfg, s, p) && Doing(s, p) == Pipeline(d, stage) && RowOk(s.db.deployments[d]) && !Ends(stage)
    requires e.Success? && StageRow(stage, s.db.deployments[d], s.db.now, e).Some?
    requires Doing(s', p) == Pipeline(d, NextStage(stage, s.db.deployments[d].hasTests))
    requires s'.db == SetRow(s.db, d, StageRow(stage, s.db.deployments[d], s.db.now, e).value)
    requires HasBegun(s', p, d) ==>
               InProgress(s.db.deployments[d].status) || s'.db.deployments[d].status == Cloning
    ensures Keeps(cfg, s', p)
  {
    OwnCommit(s.db.deployments[d], s.db.now, stage, e, cfg.name(p));
  }

  lemma OwnAdvance(cfg: Config, s: System, p: ProcessId, e: Execution)
    requires RowsOk(s) && Keeps(cfg, s, p) && Doing(s, p).Pipeline? && Doing(ApplyAdvance(cfg, s, p, e), p).Pipeline?
    ensures Keeps(cfg, ApplyAdvance(cfg, s, p, e), p)
  {
    var s' := ApplyAdvance(cfg, s, p, e);
    var Pipeline(d, stage) := Doing(s, p);
    AdvanceActivity(cfg, s, p, e, p);
    OwnBegins(cfg, s, p, e, d);
    if s'.db == s.db {
      OwnStaysAt(cfg, s, p, e);
    } else {
      OwnCommits(cfg, s, s', p, d, stage, e);
    }
  }

  // Without a write no start was recorded, and the worker has not moved on.
  lemma OwnStaysAt(cfg: Config, s: System, p: ProcessId, e: Execution)
    requires Keeps(cfg, s, p) && Doing(s, p).Pipeline? && Doing(ApplyAdvance(cfg, s, p, e), p).Pipeline?
    requires RowsOk(s) && ApplyAdvance(cfg, s, p, e).db == s.db
    ensures Keeps(cfg, ApplyAdvance(cfg, s, p, e), p)
  {
    var s' := ApplyAdvance(cfg, s, p, e);
    var Pipeline(d, stage) := Doing(s, p);
    AdvanceActivity(cfg, s, p, e, p);
    OwnBegins(cfg, s, p, e, d);
    assert s.db.deployments[d].status == Cloning ==> InProgress(s.db.deployments[d].status);
    if Doing(s', p) == Doing(s, p) || Doing(s', p) == Pipeline(d, MarkFailed) {
      OwnStays(cfg, s, s', p, d, stage);
    } else {
      OwnCommits(cfg, s, s', p, d, stage, e);
    }
  }

  lemma OwnBegins(cfg: Config, s: System, p: ProcessId, e: Execution, d: Id)
    requires Keeps(cfg, s, p) && Doing(s, p).Pipeline? && Doing(s, p).deployment == d
    ensures HasBegun(ApplyAdvance(cfg, s, p, e), p, d) ==>
              InProgress(s.db.deployments[d].status) || ApplyAdvance(cfg, s, p, e).db.deployments[d].status == Cloning
  {
    if HasBegun(ApplyAdvance(cfg, s, p, e), p, d) && !HasBegun(s, p, d) {
      BegunBefore(cfg, s, Advance(p, e), p, d);
    }
  }

  // A deployment somebody has begun on is never pending again.
  lemma BegunIsNotPending(s: System, p: ProcessId, d: Id)
    requires StartsBelow(s)
    ensures HasBegun(s, p, d) ==> d < |s.db.deployments| && !s.db.deployments[d].status.Pending?
  {
    if HasBegun(s, p, d) {
      var k :| 0 <= k < |s.history| && s.history[k] == Started(d, p, Cloning);
      assert StartOk(s, k);
    }
  }

  lemma ClaimKeeps(cfg: Config, s: System, p: ProcessId, d: Id)
    requires StartsBelow(s) && Doing(ApplyClaim(cfg, s, p, d), p) != Doing(s, p)
    ensures Keeps(cfg, ApplyClaim(cfg, s, p, d), p)
  {
    BegunIsNotPending(s, p, d);
  }

  lemma IdleKeeps(cfg: Config, s: System, step: Step, p: ProcessId)
    requires Fresh(cfg, s) && Exclusive(cfg, s)
    requires !((step.Advance? || step.Heartbeat?) && step.process == p)
    requires Doing(s, p).Pipeline? && Doing(Next(cfg, s, step), p) == Doing(s, p)
    ensures Keeps(cfg, Next(cfg, s, step), p)
  {
    var d := Doing(s, p).deployment;
    assert Keeps(cfg, s, p);
    OthersLeaveRow(cfg, s, step, p, d);
    if HasBegun(Next(cfg, s, step), p, d) {
      if !HasBegun(s, p, d) { BegunBefore(cfg, s, step, p, d); }
      if step.AdvanceCommand? { assert Apart(s, p, step.process); }
    }
  }

  lemma KeepsKept(cfg: Config, s: System, step: Step, p: ProcessId)
    requires Inv(s) && Fresh(cfg, s) && Exclusive(cfg, s)
    ensures Keeps(cfg, Next(cfg, s, step), p)
  {
    var s' := Next(cfg, s, step);
    assert Keeps(cfg, s, p);
    if Doing(s', p).Pipeline? {
      WasWorking(cfg, s, step, p);
      if !Doing(s, p).Pipeline? {
        ClaimKeeps(cfg, s, p, step.deployment);
      } else if step.Advance? && step.process == p {
        OwnAdvance(cfg, s, p, step.execution);
      } else if step.Heartbeat? && step.process == p {
        OwnHeartbeat(cfg, s, p);
      } else {
        StaysPut(cfg, s, step, p);
        IdleKeeps(cfg, s, step, p);
      }
    }
  }

  lemma StaysPut(cfg: Config, s: System, step: Step, p: ProcessId)
    requires !(step.Advance? && step.process == p)
    requires Doing(s, p).Pipeline? && Doing(Next(cfg, s, step), p).Pipeline?
    ensures Doing(Next(cfg, s, step), p) == Doing(s, p)
  {
    if step.Advance? {
      AdvanceActivity(cfg, s, step.process, step.execution, p);
    } else {
      OthersActivity(cfg, s, step, p);
    }
  }

  /******* Preservation: commands *******/

  lemma HoldsKept(cfg: Config, s: System, step: Step, q: ProcessId)
    requires Fresh(cfg, s) && Exclusive(cfg, s)
    ensures Holds(cfg, Next(cfg, s, step), q)
  {
    assert Holds(cfg, s, q) && ProcessFresh(cfg, s, q);
    match step
    case AdvanceCommand(p, e) =>
      assert Sole(s, p, q);
      AdvanceCommandHolds(cfg, s, p, e, q);
    case Advance(p, e) =>
      AdvanceRows(cfg, s, p, e);
      AdvanceActivity(cfg, s, p, e, q);
    case CommandHeartbeat(p) => CommandHeartbeatHolds(cfg, s, p, q);
    case TakeCommand(p, c) => TakeCommandHolds(cfg, s, p, c, q);
    case LookUp(r, d, kind) => RequestGrows(s, r, d, kind);
    case LookUpAgain(r) => RequestGrows(s, r, 0, Stop);
    case _ =>
  }

  lemma CommandHeartbeatHolds(cfg: Config, s: System, p: ProcessId, q: ProcessId)
    requires Holds(cfg, s, q)
    ensures Holds(cfg, ApplyCommandHeartbeat(cfg, s, p), q)
  {
  }

  lemma TakeCommandHolds(cfg: Config, s: System, p: ProcessId, c: Id, q: ProcessId)
    requires Holds(cfg, s, q) && ProcessFresh(cfg, s, q)
    ensures Holds(cfg, ApplyTakeCommand(cfg, s, p, c), q)
  {
  }

  lemma AdvanceCommandHolds(cfg: Config, s: System, p: ProcessId, e: Execution, q: ProcessId)
    requires Sole(s, p, q) && Holds(cfg, s, q)
    ensures Holds(cfg, ApplyAdvanceCommand(cfg, s, p, e), q)
  {
    AdvanceCommandWrites(cfg, s, p, e);
    AdvanceCommandActivity(cfg, s, p, e, q);
  }

  // A command is taken up only while its deployment has no fresh claim.
  lemma CommandTaken(cfg: Config, s: System, step: Step, q: ProcessId, d: Id)
    requires ActorOk(s, q) && Commands(Next(cfg, s, step), q, d)
    ensures || Commands(s, q, d)
            || (&& step.TakeCommand? && d < |s.db.deployments|
                && Claimable(s.db.deployments[d].claimedAt, s.db.now, cfg.ttl))
  {
    StepGrows(cfg, s, step);
    WasCommanding(cfg, s, step, q);
    var c := Doing(Next(cfg, s, step), q).command;
    assert CommandMoves(s.db.commands[c], Next(cfg, s, step).db.commands[c]);
  }

  // An active command on d is a stop, or a cleanup of a deployment that is past pushing.
  lemma CommandBlocksBegin(cfg: Config, s: System, q: ProcessId, d: Id)
    requires CommandsOk(s.db) && Commands(s, q, d) && Holds(cfg, s, q)
    ensures d < |s.db.deployments|
    ensures StopActive(s.db, d) || Late(s.db.deployments[d].status)
  {
    assert CommandOk(s.db, Doing(s, q).command);
    assert s.db.commands[Doing(s, q).command].kind == Stop ==> IsStopFor(s.db.commands[Doing(s, q).command], d);
  }

  // No command runs on d, or may be taken up on it, while p is at work on d.
  lemma NoCommandAtWork(cfg: Config, s: System, step: Step, p: ProcessId, q: ProcessId, d: Id)
    requires ActorOk(s, q) && Apart(s, p, q) && Keeps(cfg, s, p) && ProcessFresh(cfg, s, p)
    requires AtWork(s, p, d)
    ensures !Commands(Next(cfg, s, step), q, d)
  {
    if Commands(Next(cfg, s, step), q, d) {
      CommandTaken(cfg, s, step, q, d);
    }
  }

  // Nor when p has just begun on it.
  lemma NoCommandAtBegin(cfg: Config, s: System, step: Step, p: ProcessId, q: ProcessId, d: Id)
    requires ActorOk(s, q) && CommandsOk(s.db) && Holds(cfg, s, q)
    requires HasBegun(Next(cfg, s, step), p, d) && !HasBegun(s, p, d)
    ensures !Commands(Next(cfg, s, step), q, d)
  {
    BegunBefore(cfg, s, step, p, d);
    if Commands(Next(cfg, s, step), q, d) {
      CommandTaken(cfg, s, step, q, d);
      CommandBlocksBegin(cfg, s, q, d);
    }
  }

  lemma ApartKept(cfg: Config, s: System, step: Step, p: ProcessId, q: ProcessId)
    requires Inv(s) && Fresh(cfg, s) && Exclusive(cfg, s)
    ensures Apart(Next(cfg, s, step), p, q)
  {
    assert Holds(cfg, s, q) && Apart(s, p, q) && Keeps(cfg, s, p) && ProcessFresh(cfg, s, p) && ActorOk(s, q);
    var s' := Next(cfg, s, step);
    if Doing(s', p).Pipeline? && AtWork(s', p, Doing(s', p).deployment) {
      var d := Doing(s', p).deployment;
      if HasBegun(s, p, d) {
        AtWorkBefore(cfg, s, step, p, d);
        NoCommandAtWork(cfg, s, step, p, q, d);
      } else {
        NoCommandAtBegin(cfg, s, step, p, q, d);
      }
    }
  }

  // Whoever has begun on d cannot claim it again: it is no longer pending.
  lemma AtWorkBefore(cfg: Config, s: System, step: Step, p: ProcessId, d: Id)
    requires StartsBelow(s) && AtWork(Next(cfg, s, step), p, d) && HasBegun(s, p, d)
    ensures AtWork(s, p, d)
  {
    WasWorking(cfg, s, step, p);
    BegunIsNotPending(s, p, d);
  }

  /******* Runs *******/

  lemma StepKeepsExclusive(cfg: Config, s: System, step: Step)
    requires Inv(s) && Fresh(cfg, s) && Exclusive(cfg, s)
    ensures Exclusive(cfg, Next(cfg, s, step))
  {
    forall p ensures Keeps(cfg, Next(cfg, s, step), p) { KeepsKept(cfg, s, step, p); }
    forall q ensures Holds(cfg, Next(cfg, s, step), q) { HoldsKept(cfg, s, step, q); }
    forall p, q ensures Sole(Next(cfg, s, step), p, q) { SoleKept(cfg, s, step, p, q); }
    forall p, q ensures Apart(Next(cfg, s, step), p, q) { ApartKept(cfg, s, step, p, q); }
  }

  lemma {:induction false} FreshRunsAreExclusive(cfg: Config, steps: seq<Step>)
    requires FreshRun(cfg, steps)
    ensures Exclusive(cfg, Run(cfg, Init, steps))
  {
    if steps != [] {
      var n := |steps| - 1;
      forall k | 0 <= k <= n ensures Fresh(cfg, Run(cfg, Init, steps[..n][..k])) {
        assert steps[..n][..k] == steps[..k];
      }
      assert steps[..n][..n] == steps[..n];
      FreshRunsAreExclusive(cfg, steps[..n]);
      RunsKeepInv(cfg, steps[..n]);
      StepKeepsExclusive(cfg, Run(cfg, Init, steps[..n]), steps[n]);
    }
  }

  /******* The theorem *******/

  predicate LeavesWork(row: Deployment, outcome: Outcome) {
    || outcome.Raised?
    || (outcome.Unchanged? && !outcome.stopCalled)
    || (outcome.Repaired? && outcome.row == row.(target := outcome.row.target) && !outcome.stopCalled)
  }

  lemma RulesLeaveFreshWork(rule: Rule, ttl: nat, now: Time, rows: seq<Deployment>, d: Id, rt: Runtime, ex: Executor)
    requires d < |rows| && InProgress(rows[d].status) && !Stale(rows[d].claimedAt, now, ttl)
    ensures LeavesWork(rows[d], ApplyRule(rule, ttl, now, rows, d, rt, ex))
  {
  }

  // While a live worker is past its first begin_step on d it owns d and is the only process on it, no
  // process is executing a stop or cleanup of d, and no repair rule, whatever it observes, touches the
  // status, build or claim of d. Whatever the processes are called.
  lemma LeaseExclusion(cfg: Config, steps: seq<Step>, p: ProcessId, d: Id)
    requires FreshRun(cfg, steps) && AtWork(Run(cfg, Init, steps), p, d)
    ensures var s := Run(cfg, Init, steps);
            d < |s.db.deployments| && Owns(s.db.deployments[d], cfg.name(p))
    ensures var s := Run(cfg, Init, steps);
            forall q :: !Commands(s, q, d) && (Doing(s, q).Pipeline? && Doing(s, q).deployment == d ==> q == p)
    ensures var s := Run(cfg, Init, steps);
            forall rule, rt, ex ::
              LeavesWork(s.db.deployments[d], ApplyRule(rule, cfg.ttl, s.db.now, s.db.deployments, d, rt, ex))
  {
    FreshRunsAreExclusive(cfg, steps);
    assert steps[..|steps|] == steps;
    var s := Run(cfg, Init, steps);
    assert Keeps(cfg, s, p) && ProcessFresh(cfg, s, p);
    forall q ensures !Commands(s, q, d) && (Doing(s, q).Pipeline? && Doing(s, q).deployment == d ==> q == p) {
      assert Apart(s, p, q) && Sole(s, p, q);
    }
    forall rule, rt, ex
      ensures LeavesWork(s.db.deployments[d], ApplyRule(rule, cfg.ttl, s.db.now, s.db.deployments, d, rt, ex))
    {
      RulesLeaveFreshWork(rule, cfg.ttl, s.db.now, s.db.deployments, d, rt, ex);
    }
  }
}
