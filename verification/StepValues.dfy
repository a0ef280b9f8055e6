/**
  What single steps of the protocol write, column by column: claims and their refreshes, the stages of
  the pipeline, and the stages of a command. worker/processing/claims.py, pipeline.py,
  command_processor.py.
 */
module StepValues {
  import opened Basics
  import opened Lifecycle
  import opened Records
  import opened Transactions
  import opened Protocol
  import opened ProtocolInvariants
  import opened ProtocolTheorems
  import opened PipelineRun

  /******* Claims *******/

  // A pending deployment is claimed exactly when nobody claimed it or the claim is more than the TTL old.
  lemma PendingIsClaimed(cfg: Config, s: System, p: ProcessId, d: Id)
    requires Doing(s, p).Idle? && d < |s.db.deployments|
    ensures var row, s' := s.db.deployments[d], Next(cfg, s, ClaimPending(p, d));
            if row.status == Pending && (row.claimedAt.None? || s.db.now - row.claimedAt.value > cfg.ttl) then
              && s'.db == s.db.(deployments :=
                   s.db.deployments[d := row.(claimedBy := Some(cfg.name(p)), claimedAt := Some(s.db.now))])
              && Doing(s', p) == Pipeline(d, StartClone)
            else s' == s
  {
  }

  // A claim written at some time goes stale when more than the TTL has passed, and not before.
  lemma ClaimAges(at: Time, elapsed: nat, ttl: nat)
    ensures Stale(Some(at), at + elapsed, ttl) <==> elapsed > ttl
    ensures Claimable(Some(at), at + elapsed, ttl) <==> elapsed > ttl
  {
  }

  // A stop for d that has not ended.
  predicate StopPending(db: Db, d: Id) {
    exists c | 0 <= c < |db.commands| ::
      && db.commands[c].deployment == d && db.commands[c].kind == Stop
      && (db.commands[c].status == CommandPending || db.commands[c].status == CommandClaimed)
  }

  lemma StopPendingIsActive(db: Db, d: Id)
    requires CommandsOk(db)
    ensures StopActive(db, d) <==> StopPending(db, d)
  {
    if c :| 0 <= c < |db.commands| && db.commands[c].deployment == d && db.commands[c].kind == Stop
            && (db.commands[c].status == CommandPending || db.commands[c].status == CommandClaimed) {
      assert CommandOk(db, c) && IsStopFor(db.commands[c], d);
    }
  }

  // Ownership, spelled out in columns.
  predicate Holds(row: Deployment, worker: WorkerName) {
    row.claimedBy == Some(worker) && row.claimedAt.Some?
  }

  // A heartbeat of the holder moves the claim time to now, or gives the claim up when a stop has been
  // asked for; a worker that lost its claim writes nothing. It goes on only in the first case.
  lemma HeartbeatWrites(cfg: Config, s: System, p: ProcessId)
    requires CommandsOk(s.db) && Doing(s, p).Pipeline? && Doing(s, p).deployment < |s.db.deployments|
    ensures var d, s' := Doing(s, p).deployment, Next(cfg, s, Heartbeat(p));
            var row, row' := s.db.deployments[d], s'.db.deployments[d];
            && s'.db == s.db.(deployments := s.db.deployments[d := row'])
            && (if !Holds(row, cfg.name(p)) then row' == row && Doing(s', p).Idle?
                else if StopPending(s.db, d) then
                  row' == row.(claimedBy := None, claimedAt := None) && Doing(s', p).Idle?
                else row' == row.(claimedAt := Some(s.db.now))
                     && Doing(s', p) == Doing(s, p))
  {
    StopPendingIsActive(s.db, Doing(s, p).deployment);
  }

  /******* The pipeline *******/

  // A worker that lost its claim, or is asked to stop, writes no result, whatever the stage.
  lemma InterruptedWrites(cfg: Config, s: System, p: ProcessId, e: Execution)
    requires CommandsOk(s.db) && Doing(s, p).Pipeline? && Doing(s, p).deployment < |s.db.deployments| && e.Success?
    ensures var d, s' := Doing(s, p).deployment, Next(cfg, s, Advance(p, e));
            var row := s.db.deployments[d];
            && (!Holds(row, cfg.name(p)) ==> s'.db == s.db && Doing(s', p).Idle?)
            && (Holds(row, cfg.name(p)) && StopPending(s.db, d) ==>
                  && s'.db == s.db.(deployments := s.db.deployments[d := row.(claimedBy := None, claimedAt := None)])
                  && Doing(s', p).Idle?)
  {
    StopPendingIsActive(s.db, Doing(s, p).deployment);
  }

  // What the executor reports as an error leads to mark_failed without a write.
  lemma ErrorsFail(cfg: Config, s: System, p: ProcessId, e: Execution)
    requires Doing(s, p).Pipeline? && Doing(s, p).deployment < |s.db.deployments| && !e.Success?
    requires !Doing(s, p).stage.MarkFailed?
    ensures var s' := Next(cfg, s, Advance(p, e));
            s'.db == s.db && Doing(s', p) == Pipeline(Doing(s, p).deployment, MarkFailed)
  {
  }

  // On a deployment that was stopped every stage that moves a status is refused: nothing is written, and the
  // worker turns to mark_failed, which is refused in turn and ends its work.
  lemma StoppedRefuses(cfg: Config, s: System, p: ProcessId, e: Execution)
    requires CommandsOk(s.db) && Doing(s, p).Pipeline? && Doing(s, p).deployment < |s.db.deployments| && e.Success?
    requires Doing(s, p).stage in {StartClone, StartBuild, StartTests, StartPush, StartDeploy, Finish, MarkFailed}
    requires var d := Doing(s, p).deployment;
             Holds(s.db.deployments[d], cfg.name(p)) && !StopPending(s.db, d) && s.db.deployments[d].status == Stopped
    ensures var Pipeline(d, stage) := Doing(s, p);
            var s' := Next(cfg, s, Advance(p, e));
            s'.db == s.db && Doing(s', p) == if stage == MarkFailed then Idle else Pipeline(d, MarkFailed)
  {
    StopPendingIsActive(s.db, Doing(s, p).deployment);
  }

  // The statuses a committed stage leaves, and the columns the executor's report decides.
  predicate StatusWritten(stage: Stage, row: Deployment, row': Deployment) {
    match stage
    case StartClone => row'.status == Cloning && row'.build == BuildCloning
    case StartBuild => row'.status == Building && row'.build == BuildBuilding
    case StartTests => row'.status == Testing && row'.build == BuildTesting
    case StartPush => row'.status == PushingImage && row'.build == BuildPushing
    case PushImage => row'.status == PushingImage && row'.build == BuildSucceeded
    case StartDeploy => row'.status == Deploying && row'.build == BuildSucceeded
    case Finish => row'.status == Running && row'.build == BuildSucceeded
    case MarkFailed => row'.status == Failed && row'.build == BuildFailed
    case _ => row'.status == row.status && row'.build == row.build
  }

  predicate TargetWritten(stage: Stage, row: Deployment, row': Deployment, target: Option<Target>, helm: bool) {
    && row'.target == (if (stage.RecordTarget? || stage.Deploy?) && target.Some? then target else row.target)
    && (row'.helm <==> row.helm || (helm && (stage.Deploy? || (stage.RecordTarget? && target == Some(Kubernetes)))))
    && row'.preflightTarget == (if stage.StartClone? then None else if stage.PreflightDeploy? then target
                                else row.preflightTarget)
  }

  predicate ClaimWritten(stage: Stage, row: Deployment, row': Deployment, now: Time) {
    if stage.Finish? || stage.MarkFailed? then row'.claimedBy.None? && row'.claimedAt.None?
    else
      && row'.claimedBy == row.claimedBy
      && if stage.RecordTarget? then row'.claimedAt == row.claimedAt else row'.claimedAt == Some(now)
  }

  predicate SameIdentity(row: Deployment, row': Deployment) {
    row'.project == row.project && row'.environment == row.environment && row'.hasTests == row.hasTests
  }

  // A stage its holder is ready for commits: it writes its statuses, the reported target where the
  // stage records one, and a claim time of now, and nothing else; the last stages release the claim.
  lemma StageWrites(cfg: Config, s: System, p: ProcessId, e: Execution)
    requires Doing(s, p).Pipeline? && e.Success?
    requires ReadyFor(s.db, Doing(s, p).deployment, cfg.name(p), Doing(s, p).stage)
    ensures var Pipeline(d, stage) := Doing(s, p);
            var s' := Next(cfg, s, Advance(p, e));
            var row, row' := s.db.deployments[d], s'.db.deployments[d];
            && s'.db == s.db.(deployments := s.db.deployments[d := row'])
            && StatusWritten(stage, row, row') && TargetWritten(stage, row, row', e.target, e.helm)
            && ClaimWritten(stage, row, row', s.db.now) && SameIdentity(row, row')
  {
    var Pipeline(d, stage) := Doing(s, p);
    var row := s.db.deployments[d];
    StageRowWrites(stage, row, s.db.now, e);
  }

  lemma StageRowWrites(stage: Stage, row: Deployment, now: Time, e: Execution)
    requires RowOk(row) && row.status != Stopped && StageOk(stage, row) && row.claimedBy.Some? && e.Success?
    ensures StageRow(stage, row, now, e).Some?
    ensures var row' := StageRow(stage, row, now, e).value;
            && StatusWritten(stage, row, row') && TargetWritten(stage, row, row', e.target, e.helm)
            && ClaimWritten(stage, row, row', now) && SameIdentity(row, row')
  {
    StageStatus(stage, row, now, e);
    StageColumns(stage, row, now, e);
  }

  lemma StageStatus(stage: Stage, row: Deployment, now: Time, e: Execution)
    requires RowOk(row) && row.status != Stopped && StageOk(stage, row) && e.Success?
    ensures StageRow(stage, row, now, e).Some? && StatusWritten(stage, row, StageRow(stage, row, now, e).value)
  {
  }

  lemma StageColumns(stage: Stage, row: Deployment, now: Time, e: Execution)
    requires e.Success? && StageRow(stage, row, now, e).Some?
    ensures var row' := StageRow(stage, row, now, e).value;
            && TargetWritten(stage, row, row', e.target, e.helm)
            && ClaimWritten(stage, row, row', now) && SameIdentity(row, row')
  {
    match stage
    case StartClone =>
    case StartBuild =>
    case StartTests =>
    case StartPush =>
    case StartDeploy =>
    case RecordTarget =>
    case Finish =>
    case MarkFailed =>
    case _ =>
  }

  /******* Commands *******/

  // A command is taken exactly when it has not ended and neither it nor its deployment has a claim that
  // is at most the TTL old.
  lemma CommandIsTaken(cfg: Config, s: System, p: ProcessId, c: Id)
    requires Doing(s, p).Idle? && Linked(s.db) && c < |s.db.commands|
    ensures var command, s' := s.db.commands[c], Next(cfg, s, TakeCommand(p, c));
            var owner := s.db.deployments[command.deployment].claimedAt;
            if && (command.status == CommandPending || command.status == CommandClaimed)
               && (command.claimedAt.None? || s.db.now - command.claimedAt.value > cfg.ttl)
               && (owner.None? || s.db.now - owner.value > cfg.ttl) then
              && s'.db == s.db.(commands := s.db.commands[c := command.(
                   status := CommandClaimed, claimedBy := Some(cfg.name(p)), claimedAt := Some(s.db.now))])
              && Doing(s', p) == Commanding(c, cfg.name(p), Reading)
            else s' == s
  {
  }

  // Once its command is taken a process reads from the row by which id it goes.
  lemma IdentityIsRead(cfg: Config, s: System, p: ProcessId, e: Execution)
    requires Doing(s, p).Commanding? && Doing(s, p).phase.Reading?
    requires Linked(s.db) && Doing(s, p).command < |s.db.commands|
    ensures var c, s' := Doing(s, p).command, Next(cfg, s, AdvanceCommand(p, e));
            var named := s.db.commands[c].claimedBy;
            && s'.db == s.db
            && Doing(s', p) ==
                 Commanding(c, if named == None || named == Some("") then cfg.name(p) else named.value, Starting)
  {
  }

  predicate HoldsCommand(command: Command, worker: WorkerName) {
    command.claimedBy == Some(worker) && command.claimedAt.Some? && command.status == CommandClaimed
  }

  // Before the stop and at every heartbeat the holder of a command moves its claim time to now.
  lemma CommandRefreshWrites(cfg: Config, s: System, p: ProcessId, step: Step)
    requires Doing(s, p).Commanding? && Linked(s.db) && Doing(s, p).command < |s.db.commands|
    requires || (step == CommandHeartbeat(p) && !Doing(s, p).phase.Reading?)
             || (step.AdvanceCommand? && step.process == p && Doing(s, p).phase.Starting?)
    ensures var Commanding(c, id, _) := Doing(s, p);
            var command, s' := s.db.commands[c], Next(cfg, s, step);
            if HoldsCommand(command, id) then
              && s'.db == s.db.(commands := s.db.commands[c := command.(claimedAt := Some(s.db.now))])
              && Doing(s', p).Commanding?
            else s'.db == s.db && Doing(s', p).Idle?
  {
  }

  // A Helm-managed deployment of which a later one shares project and environment.
  predicate Superseded(rows: seq<Deployment>, d: Id)
    requires d < |rows|
  {
    && rows[d].target == Some(Kubernetes) && rows[d].helm
    && exists k | d < k < |rows| :: rows[k].project == rows[d].project && rows[k].environment == rows[d].environment
  }

  lemma SupersededIsSkipped(db: Db, d: Id)
    requires d < |db.deployments|
    ensures SkipsHistorical(db, d) <==> Superseded(db.deployments, d)
  {
    NewestIff(db.deployments, d);
    if Newest(db.deployments, d) {
      forall k | d < k < |db.deployments| ensures !SameGroup(db.deployments[k], db.deployments[d]) {}
    }
  }

  // A command on a superseded Helm deployment is skipped by its holder and its stop never called; on any
  // other deployment the stop is called.
  lemma CheckWrites(cfg: Config, s: System, p: ProcessId, e: Execution)
    requires Doing(s, p).Commanding? && Doing(s, p).phase.Checking?
    requires Linked(s.db) && Doing(s, p).command < |s.db.commands|
    ensures var Commanding(c, id, _) := Doing(s, p);
            var command, s' := s.db.commands[c], Next(cfg, s, AdvanceCommand(p, e));
            if !Superseded(s.db.deployments, command.deployment) then
              && s'.db == s.db && s'.history == s.history + [StopCalled(command.deployment)]
              && Doing(s', p) == Commanding(c, id, Ending(e))
            else if HoldsCommand(command, id) then
              && s'.db == s.db.(commands := s.db.commands[c := command.(
                   status := CommandSkipped, active := false, claimedBy := None, claimedAt := None)])
              && s'.history == s.history + [Entry.Finished(c, p, CommandSkipped, id)] && Doing(s', p).Idle?
            else s'.db == s.db && s'.history == s.history && Doing(s', p).Idle?
  {
    SupersededIsSkipped(s.db, s.db.commands[Doing(s, p).command].deployment);
  }

  predicate UnsettledBuild(b: BuildStatus) {
    b != BuildSucceeded && b != BuildFailed && b != BuildCancelled
  }

  // What a completed command makes of its deployment: stopped, an unsettled build cancelled by a stop
  // but not by a cleanup, the reported target recorded, and the claim left as it is.
  function AfterStop(row: Deployment, kind: CommandKind, target: Option<Target>, helm: bool): Deployment {
    Deployment(
      row.project, row.environment, row.hasTests, Stopped,
      if kind == Stop && UnsettledBuild(row.build) then BuildCancelled else row.build,
      row.claimedBy, row.claimedAt,
      if target.Some? then target else row.target,
      row.preflightTarget,
      row.helm || helm)
  }

  lemma CompletionStops(db: Db, c: Id, result: Execution)
    requires Linked(db) && c < |db.commands| && result.Success?
    ensures var command := db.commands[c];
            CompleteCommand(db, c, result).deployments == db.deployments[command.deployment :=
              AfterStop(db.deployments[command.deployment], command.kind, result.target, result.helm)]
  {
  }

  // The holder ends its command: succeeded with the deployment stopped, or failed with the deployment
  // left alone. Whoever lost the claim writes nothing.
  lemma EndWrites(cfg: Config, s: System, p: ProcessId, e: Execution)
    requires Doing(s, p).Commanding? && Doing(s, p).phase.Ending?
    requires Linked(s.db) && Doing(s, p).command < |s.db.commands|
    ensures var Commanding(c, id, phase) := Doing(s, p);
            var command, s', result := s.db.commands[c], Next(cfg, s, AdvanceCommand(p, e)), phase.result;
            var d := command.deployment;
            var outcome := if result.Success? then CommandSucceeded else CommandFailed;
            && Doing(s', p).Idle?
            && if !HoldsCommand(command, id) then s'.db == s.db && s'.history == s.history
               else
                 && s'.history == s.history + [Entry.Finished(c, p, outcome, id)]
                 && s'.db.commands == s.db.commands[c := command.(
                      status := outcome, active := false, claimedBy := None, claimedAt := None)]
                 && s'.db.now == s.db.now
                 && s'.db.deployments ==
                      if result.Success? then
                        s.db.deployments[d := AfterStop(s.db.deployments[d], command.kind, result.target, result.helm)]
                      else s.db.deployments
  {
  }

  /******* Requests and creation *******/

  // A deployment starts pending and unclaimed, without a target.
  lemma CreateWrites(cfg: Config, s: System, project: nat, environment: string, hasTests: bool)
    ensures Next(cfg, s, Create(project, environment, hasTests)).db.deployments == s.db.deployments
              + [Deployment(project, environment, hasTests, Pending, BuildPending, None, None, None, None, false)]
  {
  }

  // An insert adds a pending, active, unclaimed command exactly when no active one for the same
  // deployment and kind holds the key.
  lemma InsertWrites(cfg: Config, s: System, r: RequestId)
    requires r in s.requests && s.requests[r].Inserting?
    ensures var Inserting(d, kind) := s.requests[r];
            var s' := Next(cfg, s, Insert(r));
            if exists c | 0 <= c < |s.db.commands| ::
                 s.db.commands[c].deployment == d && s.db.commands[c].kind == kind && s.db.commands[c].active then
              s'.db == s.db && s'.requests[r] == Conflicted(d, kind)
            else
              && s'.db == s.db.(commands := s.db.commands + [Command(d, kind, CommandPending, true, None, None)])
              && s'.requests[r] == Answered(d, kind, |s.db.commands|, true)
  {
  }

  // A cleanup is offered for Kubernetes deployments only, a stop for every deployment.
  lemma LookUpAdmits(cfg: Config, s: System, r: RequestId, d: Id, kind: CommandKind)
    requires r !in s.requests
    ensures r in Next(cfg, s, LookUp(r, d, kind)).requests <==>
              d < |s.db.deployments| && (kind == Stop || s.db.deployments[d].target == Some(Kubernetes))
  {
  }
}
