/**
  What every step of the protocol keeps. Inv, about rows, commands and requests, holds whatever the
  processes are called; NamedInv, about who owns a row, needs distinct worker ids.
 */
module ProtocolInvariants {
  import opened Basics
  import opened Lifecycle
  import opened Records
  import opened Transactions
  import opened Repair
  import opened Protocol

  /******* Invariants *******/

  predicate RowOk(row: Deployment) {
    && Coupled(row.status, row.build)
    && (row.claimedBy.None? <==> row.claimedAt.None?)
    && (row.target.Some? || row.preflightTarget.Some? ==> Late(row.status))
  }

  // What the owner of a claim may assume about its deployment before each stage. A command can
  // finish on a stale-claimed deployment without clearing the claim, hence the first disjunct.
  predicate StageOk(stage: Stage, row: Deployment) {
    || row.status == Stopped
    || match stage
       case StartClone => row.status == Pending
       case CloneRepo => row.status == Cloning
       case StartBuild => row.status == Cloning
       case BuildImage => row.status == Building
       case StartTests => row.status == Building && row.hasTests
       case RunTests => row.status == Testing && row.hasTests
       case StartPush => row.status == if row.hasTests then Testing else Building
       case TagImage => row.status == PushingImage && row.build == BuildPushing
       case PushImage => row.status == PushingImage && row.build == BuildPushing
       case VerifyImage => row.status == PushingImage && row.build == BuildSucceeded
       case StartDeploy => row.status == PushingImage && row.build == BuildSucceeded
       case RecordTarget => row.status == Deploying
       case PreflightDeploy => row.status == Deploying
       case Deploy => row.status == Deploying
       case Finish => row.status == Deploying
       case MarkFailed => row.status == Pending || InProgress(row.status)
  }

  // The image of this row was pushed, or the row has moved past pushing.
  predicate Built(row: Deployment) {
    row.build == BuildSucceeded || Late(row.status)
  }

  // What a pipeline worker may assume before each stage even if it no longer owns the row.
  predicate StageFloor(stage: Stage, row: Deployment) {
    match stage
    case VerifyImage => Built(row)
    case StartDeploy => Built(row)
    case RecordTarget => Late(row.status)
    case PreflightDeploy => Late(row.status)
    case Deploy => Late(row.status)
    case Finish => Late(row.status)
    case _ => true
  }

  predicate WorkerOk(s: System, p: ProcessId) {
    Doing(s, p).Pipeline? ==>
      && Doing(s, p).deployment < |s.db.deployments|
      && StageFloor(Doing(s, p).stage, s.db.deployments[Doing(s, p).deployment])
  }

  ghost predicate WorkersOk(s: System) {
    forall p :: WorkerOk(s, p)
  }

  predicate RowsOk(s: System) {
    forall d | 0 <= d < |s.db.deployments| :: RowOk(s.db.deployments[d])
  }

  predicate OwnerOk(cfg: Config, s: System, p: ProcessId) {
    Doing(s, p).Pipeline? ==>
      var d := Doing(s, p).deployment;
      && d < |s.db.deployments|
      && (Owns(s.db.deployments[d], cfg.name(p)) ==> StageOk(Doing(s, p).stage, s.db.deployments[d]))
  }

  ghost predicate OwnersOk(cfg: Config, s: System) {
    forall p :: OwnerOk(cfg, s, p)
  }

  predicate CommandOk(db: Db, c: Id)
    requires c < |db.commands|
  {
    var command := db.commands[c];
    && command.deployment < |db.deployments|
    && (command.active <==> ActiveStatus(command.status))
    && (command.claimedAt.Some? <==> command.status == CommandClaimed)
    && (command.claimedBy.Some? <==> command.status == CommandClaimed)
    && (command.kind == Cleanup ==> Late(db.deployments[command.deployment].status))
  }

  predicate CommandsOk(db: Db) {
    forall c | 0 <= c < |db.commands| :: CommandOk(db, c)
  }

  // At most one active command per deployment and kind.
  predicate KeysUnique(db: Db) {
    forall b, c | 0 <= b < c < |db.commands| && db.commands[b].active && db.commands[c].active ::
      db.commands[b].deployment != db.commands[c].deployment || db.commands[b].kind != db.commands[c].kind
  }

  predicate HasStop(db: Db, d: Id) {
    exists c | 0 <= c < |db.commands| :: db.commands[c].deployment == d && db.commands[c].kind == Stop
  }

  predicate Orphaned(row: Deployment) {
    InProgress(row.status) && row.claimedAt.None?
  }

  // Work in progress without an owner was left that way by a stop request.
  predicate OrphansExplained(s: System) {
    forall d | 0 <= d < |s.db.deployments| && Orphaned(s.db.deployments[d]) :: HasStop(s.db, d)
  }

  predicate ActorOk(s: System, p: ProcessId) {
    Doing(s, p).Commanding? ==> Doing(s, p).command < |s.db.commands|
  }

  ghost predicate ActorsOk(s: System) {
    forall p :: ActorOk(s, p)
  }

  predicate RequestOk(db: Db, request: Request) {
    match request
    case Inserting(d, kind) => d < |db.deployments| && (kind == Cleanup ==> Late(db.deployments[d].status))
    case Conflicted(d, kind) => d < |db.deployments|
    case Answered(d, kind, c, _) =>
      c < |db.commands| && db.commands[c].deployment == d && db.commands[c].kind == kind
    case Abandoned => true
  }

  predicate RequestsOk(s: System) {
    forall r | r in s.requests :: RequestOk(s.db, s.requests[r])
  }

  predicate Creates(request: Request, c: Id) {
    request.Answered? && request.created && request.command == c
  }

  predicate CreatedBy(s: System, r: RequestId, c: Id) {
    r in s.requests && Creates(s.requests[r], c)
  }

  ghost predicate HasCreator(s: System, c: Id) {
    exists r :: CreatedBy(s, r, c)
  }

  predicate OnlyCreator(s: System, r: RequestId, q: RequestId, c: Id) {
    CreatedBy(s, r, c) && CreatedBy(s, q, c) ==> r == q
  }

  // Exactly one requester is told that it created a given command.
  ghost predicate OneCreator(s: System) {
    && (forall c | 0 <= c < |s.db.commands| :: HasCreator(s, c))
    && (forall r, q, c :: OnlyCreator(s, r, q, c))
  }

  predicate StartOk(s: System, i: nat)
    requires i < |s.history|
  {
    s.history[i].Started? ==>
      && s.history[i].deployment < |s.db.deployments|
      && 1 <= Rank(s.history[i].status) <= Rank(s.db.deployments[s.history[i].deployment].status)
  }

  predicate Climbs(first: Entry, second: Entry) {
    first.Started? && second.Started? && first.deployment == second.deployment ==>
      Rank(first.status) < Rank(second.status) && first.process == second.process
  }

  // A deployment never falls behind a start recorded for it.
  predicate StartsBelow(s: System) {
    forall i | 0 <= i < |s.history| :: StartOk(s, i)
  }

  // Starts recorded for one deployment climb the status order and come from one process.
  predicate StartsClimb(s: System) {
    forall i, j | 0 <= i < j < |s.history| :: Climbs(s.history[i], s.history[j])
  }

  predicate HasBegun(s: System, p: ProcessId, d: Id) {
    Started(d, p, Cloning) in s.history
  }

  predicate WorkerBegan(s: System, p: ProcessId) {
    match Doing(s, p)
    case Pipeline(d, stage) => stage.StartClone? || stage.MarkFailed? || HasBegun(s, p, d)
    case _ => true
  }

  ghost predicate WorkersBegan(s: System) {
    forall p :: WorkerBegan(s, p)
  }

  predicate FinishOk(s: System, i: nat)
    requires i < |s.history|
  {
    s.history[i].Finished? ==>
      && s.history[i].command < |s.db.commands|
      && s.db.commands[s.history[i].command].status == s.history[i].outcome
      && !ActiveStatus(s.history[i].outcome)
  }

  predicate EndDifferent(first: Entry, second: Entry) {
    first.Finished? && second.Finished? ==> first.command != second.command
  }

  predicate FinishesOk(s: System) {
    && (forall i | 0 <= i < |s.history| :: FinishOk(s, i))
    && (forall i, j | 0 <= i < j < |s.history| :: EndDifferent(s.history[i], s.history[j]))
  }

  // Holds under any naming of the processes.
  ghost predicate Inv(s: System) {
    && RowsOk(s)
    && WorkersOk(s)
    && CommandsOk(s.db)
    && KeysUnique(s.db)
    && OrphansExplained(s)
    && ActorsOk(s)
    && RequestsOk(s)
    && OneCreator(s)
    && StartsBelow(s)
    && FinishesOk(s)
  }

  // Holds when no two processes share a name.
  ghost predicate NamedInv(cfg: Config, s: System) {
    && OwnersOk(cfg, s)
    && StartsClimb(s)
    && WorkersBegan(s)
  }

  /******* What every step does to the tables *******/

  predicate RowGrows(row: Deployment, row': Deployment) {
    && Rank(row.status) <= Rank(row'.status)
    && (row.status != row'.status ==> Rank(row.status) < Rank(row'.status))
    && (Built(row) ==> Built(row'))
    && row.hasTests == row'.hasTests && SameGroup(row, row')
  }

  // An unfinished command is claimed, refreshed or ended; an ended one never changes again.
  predicate CommandMoves(command: Command, command': Command) {
    || command' == command
    || (&& ActiveStatus(command.status)
        && command.deployment == command'.deployment && command.kind == command'.kind
        && (|| (command'.status == CommandClaimed && command'.active == command.active
                && command'.claimedBy.Some? && command'.claimedAt.Some?)
            || (!ActiveStatus(command'.status) && command' == Ended(command, command'.status))))
  }

  predicate RowsGrow(rows: seq<Deployment>, rows': seq<Deployment>) {
    |rows| <= |rows'| && forall d | 0 <= d < |rows| :: RowGrows(rows[d], rows'[d])
  }

  predicate CommandsMove(commands: seq<Command>, commands': seq<Command>) {
    |commands| <= |commands'| && forall c | 0 <= c < |commands| :: CommandMoves(commands[c], commands'[c])
  }

  predicate Grows(db: Db, db': Db) {
    RowsGrow(db.deployments, db'.deployments) && CommandsMove(db.commands, db'.commands)
  }

  // set_deployment_status climbs, or repeats the status, and never unbuilds an image.
  lemma WithStatusGrows(row: Deployment, status: DeploymentStatus)
    requires WithStatus(row, status).Some?
    ensures RowGrows(row, WithStatus(row, status).value)
  {
  }

  lemma StageRowGrows(stage: Stage, row: Deployment, now: Time, result: Execution)
    requires result.Success? && StageRow(stage, row, now, result).Some?
    ensures RowGrows(row, StageRow(stage, row, now, result).value)
  {
    var heard := Heard(row, now);
    match stage
    case StartClone => WithStatusGrows(heard.(preflightTarget := None), Cloning);
    case StartBuild => WithStatusGrows(heard, Building);
    case StartTests => WithStatusGrows(heard, Testing);
    case StartPush => WithStatusGrows(heard, PushingImage);
    case StartDeploy => WithStatusGrows(heard, Deploying);
    case _ =>
  }

  // The rows after a pipeline step: as they were, released on a cancellation, or moved by a stage.
  lemma AdvanceRows(cfg: Config, s: System, p: ProcessId, e: Execution)
    ensures var rows, rows' := s.db.deployments, ApplyAdvance(cfg, s, p, e).db.deployments;
            || rows' == rows
            || (&& Doing(s, p).Pipeline? && Doing(s, p).deployment < |rows| && e.Success?
                && var Pipeline(d, stage) := Doing(s, p);
                   match CheckClaim(s.db, d, cfg.name(p))
                   case Owned =>
                     && StageRow(stage, rows[d], s.db.now, e).Some?
                     && rows' == rows[d := StageRow(stage, rows[d], s.db.now, e).value]
                   case CancellationRequested => rows' == rows[d := ReleaseClaim(rows[d])]
                   case ClaimLost => false)
    ensures ApplyAdvance(cfg, s, p, e).db.commands == s.db.commands
  {
  }

  lemma AdvanceGrows(cfg: Config, s: System, p: ProcessId, e: Execution)
    ensures Grows(s.db, ApplyAdvance(cfg, s, p, e).db)
  {
    AdvanceRows(cfg, s, p, e);
    if Doing(s, p).Pipeline? && Doing(s, p).deployment < |s.db.deployments| && e.Success? {
      var Pipeline(d, stage) := Doing(s, p);
      if StageRow(stage, s.db.deployments[d], s.db.now, e).Some? {
        StageRowGrows(stage, s.db.deployments[d], s.db.now, e);
      }
    }
  }

  // The database after a command step: as it was, or one of four transactions by the command's owner.
  lemma AdvanceCommandWrites(cfg: Config, s: System, p: ProcessId, e: Execution)
    ensures var db' := ApplyAdvanceCommand(cfg, s, p, e).db;
            || db' == s.db
            || (&& Doing(s, p).Commanding? && Doing(s, p).command < |s.db.commands| && Linked(s.db)
                && var Commanding(c, id, phase) := Doing(s, p);
                   && OwnsCommand(s.db.commands[c], id)
                   && (|| db' == RefreshCommand(s.db, c)
                       || db' == EndCommand(s.db, c, CommandSkipped)
                       || db' == EndCommand(s.db, c, CommandFailed)
                       || (&& phase.Ending? && phase.result.Success?
                           && db' == CompleteCommand(s.db, c, phase.result))))
  {
  }

  lemma CompleteCommandGrows(db: Db, c: Id, result: Execution)
    requires Linked(db) && c < |db.commands| && result.Success? && db.commands[c].status == CommandClaimed
    ensures Grows(db, CompleteCommand(db, c, result))
  {
    StopNeverRefused(db.deployments[db.commands[c].deployment], db.commands[c].kind, result);
  }

  lemma AdvanceCommandGrows(cfg: Config, s: System, p: ProcessId, e: Execution)
    ensures Grows(s.db, ApplyAdvanceCommand(cfg, s, p, e).db)
  {
    AdvanceCommandWrites(cfg, s, p, e);
    if Doing(s, p).Commanding? && Doing(s, p).command < |s.db.commands| && Linked(s.db) {
      var Commanding(c, id, phase) := Doing(s, p);
      if phase.Ending? && phase.result.Success? && OwnsCommand(s.db.commands[c], id) {
        CompleteCommandGrows(s.db, c, phase.result);
      }
    }
  }

  lemma ReconcileGrows(cfg: Config, s: System, d: Id, rule: Rule, rt: Runtime, ex: Executor)
    ensures Grows(s.db, ApplyReconcile(cfg, s, d, rule, rt, ex).db)
  {
  }

  lemma RequestGrows(s: System, r: RequestId, d: Id, kind: CommandKind)
    ensures ApplyLookUp(s, r, d, kind).db == s.db && ApplyLookUpAgain(s, r).db == s.db
    ensures Grows(s.db, ApplyInsert(s, r).db)
  {
  }

  lemma ClaimGrows(cfg: Config, s: System, p: ProcessId, d: Id)
    ensures Grows(s.db, ApplyClaim(cfg, s, p, d).db)
  {
  }

  lemma TakeCommandGrows(cfg: Config, s: System, p: ProcessId, c: Id)
    ensures Grows(s.db, ApplyTakeCommand(cfg, s, p, c).db)
  {
  }

  lemma HeartbeatGrows(cfg: Config, s: System, p: ProcessId)
    ensures Grows(s.db, ApplyHeartbeat(cfg, s, p).db)
    ensures Grows(s.db, ApplyCommandHeartbeat(cfg, s, p).db)
  {
  }

  lemma StepGrows(cfg: Config, s: System, step: Step)
    ensures Grows(s.db, Next(cfg, s, step).db)
  {
    match step
    case Advance(p, e) => AdvanceGrows(cfg, s, p, e);
    case AdvanceCommand(p, e) => AdvanceCommandGrows(cfg, s, p, e);
    case Reconcile(d, rule, rt, ex) => ReconcileGrows(cfg, s, d, rule, rt, ex);
    case LookUp(r, d, kind) => RequestGrows(s, r, d, kind);
    case Insert(r) => RequestGrows(s, r, 0, Stop);
    case LookUpAgain(r) => RequestGrows(s, r, 0, Stop);
    case ClaimPending(p, d) => ClaimGrows(cfg, s, p, d);
    case TakeCommand(p, c) => TakeCommandGrows(cfg, s, p, c);
    case Heartbeat(p) => HeartbeatGrows(cfg, s, p);
    case CommandHeartbeat(p) => HeartbeatGrows(cfg, s, p);
    case _ =>
  }

  // Commands are added by inserting requests only, and only when no command holds the key.
  lemma CommandsAdded(cfg: Config, s: System, step: Step)
    ensures |Next(cfg, s, step).db.commands| == |s.db.commands| ||
            (&& step.Insert? && step.request in s.requests && s.requests[step.request].Inserting?
             && var Inserting(d, kind) := s.requests[step.request];
                && Next(cfg, s, step).db.commands == s.db.commands + [NewCommand(d, kind)]
                && forall c | 0 <= c < |s.db.commands| :: !KeyedFor(s.db.commands[c], d, kind))
  {
    match step
    case Advance(p, e) => AdvanceRows(cfg, s, p, e);
    case AdvanceCommand(p, e) => AdvanceCommandWrites(cfg, s, p, e);
    case _ =>
  }

  // Only claims, pipeline and command steps, repairs and creation write deployment rows.
  lemma RowsFramed(cfg: Config, s: System, step: Step)
    ensures step.Tick? || step.Crash? || step.LookUp? || step.Insert? || step.LookUpAgain?
            || step.TakeCommand? || step.CommandHeartbeat? ==>
              Next(cfg, s, step).db.deployments == s.db.deployments
  {
    match step
    case LookUp(r, d, kind) => RequestGrows(s, r, d, kind);
    case Insert(r) =>
    case LookUpAgain(r) => RequestGrows(s, r, 0, Stop);
    case _ =>
  }

  /******* Rows *******/

  lemma WithStatusOk(row: Deployment, status: DeploymentStatus)
    requires RowOk(row) && WithStatus(row, status).Some? && (status.Deploying? ==> Built(row))
    requires BuildStatusFor(status).Some? || status.Deploying?
    ensures RowOk(WithStatus(row, status).value)
  {
  }

  lemma StageRowOk(stage: Stage, row: Deployment, now: Time, result: Execution)
    requires result.Success? && RowOk(row) && row.claimedBy.Some? && StageFloor(stage, row)
    requires StageRow(stage, row, now, result).Some?
    ensures RowOk(StageRow(stage, row, now, result).value)
    ensures !Ends(stage) ==> StageFloor(NextStage(stage, row.hasTests), StageRow(stage, row, now, result).value)
  {
    var heard := Heard(row, now);
    match stage
    case StartClone => WithStatusOk(heard.(preflightTarget := None), Cloning);
    case StartBuild => WithStatusOk(heard, Building);
    case StartTests => WithStatusOk(heard, Testing);
    case StartPush => WithStatusOk(heard, PushingImage);
    case StartDeploy => WithStatusOk(heard, Deploying);
    case _ =>
  }

  lemma AdvanceKeepsRows(cfg: Config, s: System, p: ProcessId, e: Execution)
    requires RowsOk(s) && WorkerOk(s, p)
    ensures RowsOk(ApplyAdvance(cfg, s, p, e))
  {
    AdvanceRows(cfg, s, p, e);
    if Doing(s, p).Pipeline? && e.Success? {
      var Pipeline(d, stage) := Doing(s, p);
      if CheckClaim(s.db, d, cfg.name(p)).Owned? && StageRow(stage, s.db.deployments[d], s.db.now, e).Some? {
        StageRowOk(stage, s.db.deployments[d], s.db.now, e);
      }
    }
  }

  lemma CompleteCommandKeepsRow(row: Deployment, kind: CommandKind, result: Execution)
    requires RowOk(row) && result.Success? && StoppedRow(row, kind, result).Some?
    requires kind == Cleanup ==> Late(row.status)
    ensures RowOk(StoppedRow(row, kind, result).value)
  {
  }

  lemma AdvanceCommandKeepsRows(cfg: Config, s: System, p: ProcessId, e: Execution)
    requires RowsOk(s) && CommandsOk(s.db)
    ensures RowsOk(ApplyAdvanceCommand(cfg, s, p, e))
  {
    AdvanceCommandWrites(cfg, s, p, e);
    if Doing(s, p).Commanding? && Doing(s, p).command < |s.db.commands| {
      var Commanding(c, id, phase) := Doing(s, p);
      assert CommandOk(s.db, c);
      if phase.Ending? && phase.result.Success? {
        var row := s.db.deployments[s.db.commands[c].deployment];
        StopNeverRefused(row, s.db.commands[c].kind, phase.result);
        CompleteCommandKeepsRow(row, s.db.commands[c].kind, phase.result);
      }
    }
  }

  lemma ReconcileKeepsRows(cfg: Config, s: System, d: Id, rule: Rule, rt: Runtime, ex: Executor)
    requires RowsOk(s)
    ensures RowsOk(ApplyReconcile(cfg, s, d, rule, rt, ex))
  {
  }

  lemma RowsKept(cfg: Config, s: System, step: Step)
    requires RowsOk(s) && WorkersOk(s) && CommandsOk(s.db)
    ensures RowsOk(Next(cfg, s, step))
  {
    match step
    case Advance(p, e) => assert WorkerOk(s, p); AdvanceKeepsRows(cfg, s, p, e);
    case AdvanceCommand(p, e) => AdvanceCommandKeepsRows(cfg, s, p, e);
    case Reconcile(d, rule, rt, ex) => ReconcileKeepsRows(cfg, s, d, rule, rt, ex);
    case _ =>
  }

  // Nothing that happens to a row takes a worker's floor away.
  lemma FloorGrows(stage: Stage, row: Deployment, row': Deployment)
    requires StageFloor(stage, row) && RowGrows(row, row')
    ensures StageFloor(stage, row')
  {
  }

  // The process after its own pipeline step: idle, failing, where it was, or at the next stage.
  lemma AdvanceActivity(cfg: Config, s: System, p: ProcessId, e: Execution, q: ProcessId)
    ensures q != p ==> Doing(ApplyAdvance(cfg, s, p, e), q) == Doing(s, q)
    ensures var a := Doing(ApplyAdvance(cfg, s, p, e), p);
            || (a == Doing(s, p) && ApplyAdvance(cfg, s, p, e).db == s.db)
            || (!Doing(s, p).Idle? && a == Idle)
            || (&& Doing(s, p).Pipeline? && Doing(s, p).deployment < |s.db.deployments|
                && var Pipeline(d, stage) := Doing(s, p);
                   || (a == Pipeline(d, MarkFailed) && ApplyAdvance(cfg, s, p, e).db == s.db)
                   || (&& e.Success? && CheckClaim(s.db, d, cfg.name(p)).Owned? && !Ends(stage)
                       && StageRow(stage, s.db.deployments[d], s.db.now, e).Some?
                       && a == Pipeline(d, NextStage(stage, s.db.deployments[d].hasTests))
                       && ApplyAdvance(cfg, s, p, e).db ==
                            SetRow(s.db, d, StageRow(stage, s.db.deployments[d], s.db.now, e).value)))
  {
    if Doing(s, p).Pipeline? && Doing(s, p).deployment < |s.db.deployments| && e.Success? {
      var Pipeline(d, stage) := Doing(s, p);
      if StageRow(stage, s.db.deployments[d], s.db.now, e).Some? {
        StageRowGrows(stage, s.db.deployments[d], s.db.now, e);
        var row := StageRow(stage, s.db.deployments[d], s.db.now, e).value;
        AfterStageActivity(s.(db := SetRow(s.db, d, row)), p, d, stage, q);
        AfterStageActivity(s.(db := SetRow(s.db, d, row)), p, d, stage, p);
      }
    }
  }

  lemma AfterStageActivity(s: System, p: ProcessId, d: Id, stage: Stage, q: ProcessId)
    requires d < |s.db.deployments|
    ensures AfterStage(s, p, d, stage).db == s.db
    ensures Doing(AfterStage(s, p, d, stage), q) ==
              if q != p then Doing(s, q)
              else if Ends(stage) then Idle
              else Pipeline(d, NextStage(stage, s.db.deployments[d].hasTests))
  {
  }

  // Every other step leaves a process in the pipeline where it was, unless it claims a row.
  lemma OthersActivity(cfg: Config, s: System, step: Step, q: ProcessId)
    requires !step.Advance? && Doing(Next(cfg, s, step), q).Pipeline?
    ensures || Doing(Next(cfg, s, step), q) == Doing(s, q)
            || (&& step.ClaimPending? && step.process == q && Doing(s, q).Idle?
                && step.deployment < |s.db.deployments|
                && DeploymentClaimable(s.db.deployments[step.deployment], s.db.now, cfg.ttl)
                && Doing(Next(cfg, s, step), q) == Pipeline(step.deployment, StartClone)
                && Next(cfg, s, step).db == ClaimDeployment(s.db, step.deployment, cfg.name(q)))
  {
    match step
    case AdvanceCommand(p, e) =>
    case Heartbeat(p) =>
    case _ =>
  }

  lemma WorkersKept(cfg: Config, s: System, step: Step)
    requires RowsOk(s) && WorkersOk(s)
    ensures WorkersOk(Next(cfg, s, step))
  {
    StepGrows(cfg, s, step);
    forall q ensures WorkerOk(Next(cfg, s, step), q) {
      assert WorkerOk(s, q);
      if Doing(Next(cfg, s, step), q).Pipeline? {
        WorkerKept(cfg, s, step, q);
      }
    }
  }

  lemma WorkerKept(cfg: Config, s: System, step: Step, q: ProcessId)
    requires RowsOk(s) && WorkerOk(s, q) && Grows(s.db, Next(cfg, s, step).db)
    requires Doing(Next(cfg, s, step), q).Pipeline?
    ensures WorkerOk(Next(cfg, s, step), q)
  {
    if Doing(Next(cfg, s, step), q) == Doing(s, q) {
      var Pipeline(d, stage) := Doing(s, q);
      FloorGrows(stage, s.db.deployments[d], Next(cfg, s, step).db.deployments[d]);
    } else if step.Advance? {
      AdvanceActivity(cfg, s, step.process, step.execution, q);
      var Pipeline(d, stage) := Doing(s, q);
      if step.execution.Success? && StageRow(stage, s.db.deployments[d], s.db.now, step.execution).Some? {
        StageRowOk(stage, s.db.deployments[d], s.db.now, step.execution);
      }
    } else {
      OthersActivity(cfg, s, step, q);
    }
  }

  /******* Owners *******/

  lemma StageMoves(stage: Stage, row: Deployment, now: Time, result: Execution)
    requires result.Success? && !Ends(stage) && RowOk(row) && StageOk(stage, row)
    requires StageRow(stage, row, now, result).Some?
    ensures StageOk(NextStage(stage, row.hasTests), StageRow(stage, row, now, result).value)
  {
  }

  // A stage never hands the claim to anyone else.
  lemma StageRowClaim(stage: Stage, row: Deployment, now: Time, result: Execution)
    requires result.Success? && StageRow(stage, row, now, result).Some?
    ensures StageRow(stage, row, now, result).value.claimedBy == if Ends(stage) then None else row.claimedBy
  {
  }

  // Rewriting one row keeps a process in order unless it owns the new row at a wrong stage.
  lemma RowWriteKeepsOwner(cfg: Config, s: System, s': System, d: Id, row: Deployment, q: ProcessId)
    requires d < |s.db.deployments| && OwnerOk(cfg, s, q)
    requires s'.db.deployments == s.db.deployments[d := row] && Doing(s', q) == Doing(s, q)
    requires Owns(row, cfg.name(q)) && Doing(s, q).Pipeline? && Doing(s, q).deployment == d ==>
               StageOk(Doing(s, q).stage, row)
    ensures OwnerOk(cfg, s', q)
  {
  }

  lemma AdvanceKeepsOthers(cfg: Config, s: System, p: ProcessId, e: Execution, q: ProcessId)
    requires p != q && DistinctNames(cfg, p, q) && OwnerOk(cfg, s, q)
    ensures OwnerOk(cfg, ApplyAdvance(cfg, s, p, e), q)
  {
    var s' := ApplyAdvance(cfg, s, p, e);
    AdvanceRows(cfg, s, p, e);
    AdvanceActivity(cfg, s, p, e, q);
    if s'.db.deployments != s.db.deployments {
      var Pipeline(d, stage) := Doing(s, p);
      if CheckClaim(s.db, d, cfg.name(p)).Owned? {
        StageRowClaim(stage, s.db.deployments[d], s.db.now, e);
      }
      RowWriteKeepsOwner(cfg, s, s', d, s'.db.deployments[d], q);
    }
  }

  lemma AdvanceKeepsSelf(cfg: Config, s: System, p: ProcessId, e: Execution)
    requires RowsOk(s) && OwnerOk(cfg, s, p)
    ensures OwnerOk(cfg, ApplyAdvance(cfg, s, p, e), p)
  {
    AdvanceActivity(cfg, s, p, e, p);
    if Doing(ApplyAdvance(cfg, s, p, e), p).Pipeline? {
      var Pipeline(d, stage) := Doing(s, p);
      if e.Success? && !Ends(stage) && CheckClaim(s.db, d, cfg.name(p)).Owned?
         && StageRow(stage, s.db.deployments[d], s.db.now, e).Some? {
        StageMoves(stage, s.db.deployments[d], s.db.now, e);
      }
    }
  }

  lemma AdvanceCommandKeepsOwners(cfg: Config, s: System, p: ProcessId, e: Execution, q: ProcessId)
    requires OwnerOk(cfg, s, q)
    ensures OwnerOk(cfg, ApplyAdvanceCommand(cfg, s, p, e), q)
  {
    var s' := ApplyAdvanceCommand(cfg, s, p, e);
    AdvanceCommandWrites(cfg, s, p, e);
    if Doing(s', q).Pipeline? && s'.db.deployments != s.db.deployments {
      var d := s.db.commands[Doing(s, p).command].deployment;
      StopNeverRefused(s.db.deployments[d], s.db.commands[Doing(s, p).command].kind, Doing(s, p).phase.result);
      RowWriteKeepsOwner(cfg, s, s', d, s'.db.deployments[d], q);
    }
  }

  lemma ReconcileKeepsOwners(cfg: Config, s: System, d: Id, rule: Rule, rt: Runtime, ex: Executor, q: ProcessId)
    requires OwnerOk(cfg, s, q)
    ensures OwnerOk(cfg, ApplyReconcile(cfg, s, d, rule, rt, ex), q)
  {
  }

  lemma ClaimKeepsOwners(cfg: Config, s: System, p: ProcessId, d: Id, q: ProcessId)
    requires DistinctNames(cfg, p, q) && OwnerOk(cfg, s, q)
    ensures OwnerOk(cfg, ApplyClaim(cfg, s, p, d), q)
  {
  }

  lemma HeartbeatKeepsOwners(cfg: Config, s: System, p: ProcessId, q: ProcessId)
    requires OwnerOk(cfg, s, q)
    ensures OwnerOk(cfg, ApplyHeartbeat(cfg, s, p), q)
  {
  }

  lemma QuietKeepsOwners(cfg: Config, s: System, step: Step, q: ProcessId)
    requires !step.Advance? && !step.ClaimPending? && !step.Heartbeat? && !step.AdvanceCommand? && !step.Reconcile?
    requires OwnerOk(cfg, s, q)
    ensures OwnerOk(cfg, Next(cfg, s, step), q)
  {
    RowsFramed(cfg, s, step);
    if Doing(Next(cfg, s, step), q).Pipeline? { OthersActivity(cfg, s, step, q); }
  }

  lemma OwnersKept(cfg: Config, s: System, step: Step)
    requires AllDistinct(cfg) && RowsOk(s) && OwnersOk(cfg, s)
    ensures OwnersOk(cfg, Next(cfg, s, step))
  {
    forall q ensures OwnerOk(cfg, Next(cfg, s, step), q) {
      assert OwnerOk(cfg, s, q);
      match step
      case Advance(p, e) =>
        assert DistinctNames(cfg, p, q);
        if p == q { AdvanceKeepsSelf(cfg, s, p, e); } else { AdvanceKeepsOthers(cfg, s, p, e, q); }
      case ClaimPending(p, d) => assert DistinctNames(cfg, p, q); ClaimKeepsOwners(cfg, s, p, d, q);
      case Heartbeat(p) => HeartbeatKeepsOwners(cfg, s, p, q);
      case AdvanceCommand(p, e) => AdvanceCommandKeepsOwners(cfg, s, p, e, q);
      case Reconcile(d, rule, rt, ex) => ReconcileKeepsOwners(cfg, s, d, rule, rt, ex, q);
      case _ => QuietKeepsOwners(cfg, s, step, q);
    }
  }

  /******* Commands and requests *******/

  lemma CommandMovesOk(db: Db, db': Db, c: Id)
    requires c < |db.commands| && CommandOk(db, c) && Grows(db, db')
    ensures CommandOk(db', c)
  {
    var d := db.commands[c].deployment;
    assert RowGrows(db.deployments[d], db'.deployments[d]);
    assert CommandMoves(db.commands[c], db'.commands[c]);
  }

  lemma CommandsKept(cfg: Config, s: System, step: Step)
    requires CommandsOk(s.db) && RequestsOk(s)
    ensures CommandsOk(Next(cfg, s, step).db)
  {
    StepGrows(cfg, s, step);
    CommandsAdded(cfg, s, step);
    var s' := Next(cfg, s, step);
    forall c | 0 <= c < |s'.db.commands| ensures CommandOk(s'.db, c) {
      if c < |s.db.commands| {
        assert CommandOk(s.db, c);
        CommandMovesOk(s.db, s'.db, c);
      } else {
        var Inserting(d, kind) := s.requests[step.request];
        assert RequestOk(s.db, s.requests[step.request]);
        assert RowGrows(s.db.deployments[d], s'.db.deployments[d]);
      }
    }
  }

  lemma KeysKept(cfg: Config, s: System, step: Step)
    requires CommandsOk(s.db) && KeysUnique(s.db)
    ensures KeysUnique(Next(cfg, s, step).db)
  {
    StepGrows(cfg, s, step);
    CommandsAdded(cfg, s, step);
    var db, db' := s.db, Next(cfg, s, step).db;
    forall b, c | 0 <= b < c < |db'.commands| && db'.commands[b].active && db'.commands[c].active
      ensures db'.commands[b].deployment != db'.commands[c].deployment || db'.commands[b].kind != db'.commands[c].kind
    {
      assert CommandOk(db, b) && CommandMoves(db.commands[b], db'.commands[b]);
      if c < |db.commands| {
        assert CommandOk(db, c) && CommandMoves(db.commands[c], db'.commands[c]);
      } else {
        assert !KeyedFor(db.commands[b], db'.commands[c].deployment, db'.commands[c].kind);
      }
    }
  }

  lemma RequestStaysOk(db: Db, db': Db, request: Request)
    requires Grows(db, db') && RequestOk(db, request)
    ensures RequestOk(db', request)
  {
    match request
    case Inserting(d, _) => assert RowGrows(db.deployments[d], db'.deployments[d]);
    case Answered(_, _, c, _) => assert CommandMoves(db.commands[c], db'.commands[c]);
    case _ =>
  }

  lemma LookUpOk(s: System, r: RequestId, d: Id, kind: CommandKind)
    requires RowsOk(s) && r !in s.requests && r in ApplyLookUp(s, r, d, kind).requests
    ensures RequestOk(s.db, ApplyLookUp(s, r, d, kind).requests[r])
  {
    assert RowOk(s.db.deployments[d]);
  }

  lemma InsertOk(s: System, r: RequestId)
    requires r in s.requests && RequestOk(s.db, s.requests[r])
    ensures RequestOk(ApplyInsert(s, r).db, ApplyInsert(s, r).requests[r])
  {
  }

  lemma LookUpAgainOk(s: System, r: RequestId)
    requires r in s.requests && RequestOk(s.db, s.requests[r])
    ensures RequestOk(s.db, ApplyLookUpAgain(s, r).requests[r])
  {
  }

  predicate IsRequestStep(step: Step) {
    step.LookUp? || step.Insert? || step.LookUpAgain?
  }

  // Only the request's own entry changes in a request step, and no entry in any other step.
  lemma RequestsFramed(cfg: Config, s: System, step: Step)
    ensures !IsRequestStep(step) ==> Next(cfg, s, step).requests == s.requests
    ensures IsRequestStep(step) ==>
              && Next(cfg, s, step).activity == s.activity
              && Next(cfg, s, step).history == s.history
              && (forall r | r != step.request ::
                    && (r in Next(cfg, s, step).requests <==> r in s.requests)
                    && (r in s.requests ==> Next(cfg, s, step).requests[r] == s.requests[r]))
  {
    match step
    case Advance(p, e) => AdvanceFramed(cfg, s, p, e);
    case AdvanceCommand(p, e) => AdvanceCommandFramed(cfg, s, p, e);
    case LookUp(r, d, kind) =>
    case Insert(r) =>
    case LookUpAgain(r) =>
    case _ =>
  }

  lemma AdvanceFramed(cfg: Config, s: System, p: ProcessId, e: Execution)
    ensures ApplyAdvance(cfg, s, p, e).requests == s.requests
    ensures var h, h' := s.history, ApplyAdvance(cfg, s, p, e).history;
            h' == h || (|h'| == |h| + 1 && h'[..|h|] == h)
  {
  }

  lemma AdvanceCommandFramed(cfg: Config, s: System, p: ProcessId, e: Execution)
    ensures ApplyAdvanceCommand(cfg, s, p, e).requests == s.requests
    ensures var h, h' := s.history, ApplyAdvanceCommand(cfg, s, p, e).history;
            h' == h || (|h'| == |h| + 1 && h'[..|h|] == h)
  {
  }

  lemma RequestsKept(cfg: Config, s: System, step: Step)
    requires RowsOk(s) && RequestsOk(s)
    ensures RequestsOk(Next(cfg, s, step))
  {
    StepGrows(cfg, s, step);
    RequestsFramed(cfg, s, step);
    var s' := Next(cfg, s, step);
    forall r | r in s'.requests ensures RequestOk(s'.db, s'.requests[r]) {
      if IsRequestStep(step) && r == step.request {
        match step
        case LookUp(_, d, kind) =>
          if r !in s.requests { LookUpOk(s, r, d, kind); }
        case Insert(_) => InsertOk(s, r);
        case LookUpAgain(_) => LookUpAgainOk(s, r);
      } else {
        RequestStaysOk(s.db, s'.db, s.requests[r]);
      }
    }
  }

  lemma ActorsKept(cfg: Config, s: System, step: Step)
    requires ActorsOk(s)
    ensures ActorsOk(Next(cfg, s, step))
  {
    StepGrows(cfg, s, step);
    forall q ensures ActorOk(Next(cfg, s, step), q) {
      assert ActorOk(s, q);
      if Doing(Next(cfg, s, step), q).Commanding? { WasCommanding(cfg, s, step, q); }
    }
  }

  lemma AdvanceCommandActivity(cfg: Config, s: System, p: ProcessId, e: Execution, q: ProcessId)
    ensures q != p ==> Doing(ApplyAdvanceCommand(cfg, s, p, e), q) == Doing(s, q)
    ensures var a := Doing(ApplyAdvanceCommand(cfg, s, p, e), p);
            a.Commanding? ==> Doing(s, p).Commanding? && Doing(s, p).command == a.command
  {
  }

  // A process with a command after a step had it before, or just took it.
  lemma WasCommanding(cfg: Config, s: System, step: Step, q: ProcessId)
    requires Doing(Next(cfg, s, step), q).Commanding?
    ensures var c := Doing(Next(cfg, s, step), q).command;
            || (Doing(s, q).Commanding? && Doing(s, q).command == c)
            || (step == TakeCommand(q, c) && Linked(s.db) && c < |s.db.commands| && CommandClaimable(s.db, c, cfg.ttl))
  {
    match step
    case Advance(p, e) => AdvanceActivity(cfg, s, p, e, q);
    case AdvanceCommand(p, e) => AdvanceCommandActivity(cfg, s, p, e, q);
    case Heartbeat(p) =>
    case CommandHeartbeat(p) =>
    case _ => RequestsFramed(cfg, s, step);
  }

  lemma CreatorsFramed(cfg: Config, s: System, step: Step, r: RequestId, c: Id)
    requires RequestsOk(s)
    ensures CreatedBy(s, r, c) ==> CreatedBy(Next(cfg, s, step), r, c)
    ensures CreatedBy(Next(cfg, s, step), r, c) && !CreatedBy(s, r, c) ==>
              step == Insert(r) && c == |s.db.commands|
    ensures CreatedBy(s, r, c) ==> c < |s.db.commands|
  {
    RequestsFramed(cfg, s, step);
    if r in s.requests { assert RequestOk(s.db, s.requests[r]); }
    match step
    case LookUp(q, d, kind) =>
    case Insert(q) =>
    case LookUpAgain(q) =>
    case _ =>
  }

  lemma OneCreatorKept(cfg: Config, s: System, step: Step)
    requires RequestsOk(s) && OneCreator(s)
    ensures OneCreator(Next(cfg, s, step))
  {
    var s' := Next(cfg, s, step);
    CommandsAdded(cfg, s, step);
    forall c | 0 <= c < |s'.db.commands| ensures HasCreator(s', c) {
      if c < |s.db.commands| {
        assert HasCreator(s, c);
        var r :| CreatedBy(s, r, c);
        CreatorsFramed(cfg, s, step, r, c);
      } else {
        assert CreatedBy(s', step.request, c);
      }
    }
    forall r, q, c | r != q ensures OnlyCreator(s', r, q, c) {
      assert OnlyCreator(s, r, q, c);
      CreatorsFramed(cfg, s, step, r, c);
      CreatorsFramed(cfg, s, step, q, c);
    }
  }

  /******* Orphans *******/

  lemma HasStopGrows(db: Db, db': Db, d: Id)
    requires Grows(db, db') && HasStop(db, d)
    ensures HasStop(db', d)
  {
    var c :| 0 <= c < |db.commands| && db.commands[c].deployment == d && db.commands[c].kind == Stop;
    assert CommandMoves(db.commands[c], db'.commands[c]);
  }

  lemma StageRowOrphan(stage: Stage, row: Deployment, now: Time, result: Execution)
    requires result.Success? && row.claimedAt.Some? && StageRow(stage, row, now, result).Some?
    ensures !Orphaned(StageRow(stage, row, now, result).value)
  {
  }

  // A step that leaves a row orphaned found it so, or acknowledged an active stop.
  lemma AdvanceOrphans(cfg: Config, s: System, p: ProcessId, e: Execution, d: Id)
    requires d < |s.db.deployments| && Orphaned(ApplyAdvance(cfg, s, p, e).db.deployments[d])
    ensures Orphaned(s.db.deployments[d]) || HasStop(s.db, d)
  {
    AdvanceRows(cfg, s, p, e);
    if ApplyAdvance(cfg, s, p, e).db.deployments != s.db.deployments && Doing(s, p).deployment == d {
      if CheckClaim(s.db, d, cfg.name(p)).Owned? {
        StageRowOrphan(Doing(s, p).stage, s.db.deployments[d], s.db.now, e);
      }
    }
  }

  lemma ReconcileOrphans(cfg: Config, s: System, d': Id, rule: Rule, rt: Runtime, ex: Executor, d: Id)
    requires d < |s.db.deployments| && Orphaned(ApplyReconcile(cfg, s, d', rule, rt, ex).db.deployments[d])
    ensures Orphaned(s.db.deployments[d])
  {
  }

  lemma OtherOrphans(cfg: Config, s: System, step: Step, d: Id)
    requires !step.Advance? && !step.Reconcile?
    requires d < |s.db.deployments| && d < |Next(cfg, s, step).db.deployments|
    requires Orphaned(Next(cfg, s, step).db.deployments[d])
    ensures Orphaned(s.db.deployments[d]) || HasStop(s.db, d)
  {
    match step
    case AdvanceCommand(p, e) => AdvanceCommandWrites(cfg, s, p, e);
    case Heartbeat(p) =>
    case _ =>
  }

  lemma OrphansKept(cfg: Config, s: System, step: Step)
    requires OrphansExplained(s)
    ensures OrphansExplained(Next(cfg, s, step))
  {
    StepGrows(cfg, s, step);
    var s' := Next(cfg, s, step);
    forall d | 0 <= d < |s'.db.deployments| && Orphaned(s'.db.deployments[d]) ensures HasStop(s'.db, d) {
      if d < |s.db.deployments| {
        match step
        case Advance(p, e) => AdvanceOrphans(cfg, s, p, e, d);
        case Reconcile(d', rule, rt, ex) => ReconcileOrphans(cfg, s, d', rule, rt, ex, d);
        case _ => OtherOrphans(cfg, s, step, d);
        assert HasStop(s.db, d);
        HasStopGrows(s.db, s'.db, d);
      }
    }
  }

  /******* History *******/

  // History only grows, by at most one entry a step.
  lemma HistoryGrows(cfg: Config, s: System, step: Step)
    ensures var h, h' := s.history, Next(cfg, s, step).history;
            h' == h || (|h'| == |h| + 1 && h'[..|h|] == h)
  {
    match step
    case Advance(p, e) => AdvanceFramed(cfg, s, p, e);
    case AdvanceCommand(p, e) => AdvanceCommandFramed(cfg, s, p, e);
    case LookUp(_, _, _) => RequestsFramed(cfg, s, step);
    case Insert(_) => RequestsFramed(cfg, s, step);
    case LookUpAgain(_) => RequestsFramed(cfg, s, step);
    case _ =>
  }

  // A recorded start is a committed begin_step: who made it, and what it found and left.
  lemma StartRecorded(cfg: Config, s: System, step: Step)
    requires var h' := Next(cfg, s, step).history;
             |h'| == |s.history| + 1 && h'[|s.history|].Started?
    ensures step.Advance? && step.execution.Success?
    ensures var entry := Next(cfg, s, step).history[|s.history|];
            && entry.process == step.process
            && Doing(s, entry.process).Pipeline?
            && entry.deployment == Doing(s, entry.process).deployment < |s.db.deployments|
            && StartedBy(Doing(s, entry.process).stage) == Some(entry.status)
            && CheckClaim(s.db, entry.deployment, cfg.name(entry.process)).Owned?
            && CanTransition(s.db.deployments[entry.deployment].status, entry.status)
            && Next(cfg, s, step).db.deployments[entry.deployment].status == entry.status
  {
    match step
    case Advance(p, e) =>
      var Pipeline(d, stage) := Doing(s, p);
      assert StageTxn(s.db, d, cfg.name(p), stage, e).Committed?;
    case AdvanceCommand(p, e) =>
    case LookUp(_, _, _) => RequestsFramed(cfg, s, step);
    case Insert(_) => RequestsFramed(cfg, s, step);
    case LookUpAgain(_) => RequestsFramed(cfg, s, step);
    case _ =>
  }

  // The status a begin_step moves on from is strictly below the one it starts.
  lemma StartClimbs(stage: Stage, row: Deployment, status: DeploymentStatus)
    requires StageOk(stage, row) && StartedBy(stage) == Some(status) && CanTransition(row.status, status)
    ensures Rank(row.status) < Rank(status) && 1 <= Rank(status)
    ensures row.status.Pending? <==> stage.StartClone?
    ensures stage.StartClone? <==> status == Cloning
  {
  }

  lemma StartsBelowKept(cfg: Config, s: System, step: Step)
    requires StartsBelow(s)
    ensures StartsBelow(Next(cfg, s, step))
  {
    var s' := Next(cfg, s, step);
    var n := |s.history|;
    StepGrows(cfg, s, step);
    HistoryGrows(cfg, s, step);
    assert s'.history[..n] == s.history;
    if |s'.history| == n + 1 && s'.history[n].Started? {
      StartRecorded(cfg, s, step);
    }
    forall i | 0 <= i < |s'.history| ensures StartOk(s', i) {
      if i < n {
        assert StartOk(s, i) && s'.history[i] == s.history[i];
        OldStartOk(s, s', i);
      }
    }
  }

  lemma OldStartOk(s: System, s': System, i: nat)
    requires i < |s.history| && i < |s'.history| && s'.history[i] == s.history[i]
    requires StartOk(s, i) && Grows(s.db, s'.db)
    ensures StartOk(s', i)
  {
    if s.history[i].Started? {
      var d := s.history[i].deployment;
      assert RowGrows(s.db.deployments[d], s'.db.deployments[d]);
    }
  }

  lemma StartsClimbKept(cfg: Config, s: System, step: Step)
    requires OwnersOk(cfg, s) && StartsBelow(s) && StartsClimb(s) && WorkersBegan(s)
    ensures StartsClimb(Next(cfg, s, step))
  {
    var s' := Next(cfg, s, step);
    var n := |s.history|;
    HistoryGrows(cfg, s, step);
    assert s'.history[..n] == s.history;
    if |s'.history| == n + 1 && s'.history[n].Started? {
      NewStartClimbs(cfg, s, step);
    }
    forall i, j | 0 <= i < j < |s'.history| ensures Climbs(s'.history[i], s'.history[j]) {
      assert s'.history[i] == s.history[i];
      if j < n { assert s'.history[j] == s.history[j]; }
    }
  }

  lemma NewStartClimbs(cfg: Config, s: System, step: Step)
    requires OwnersOk(cfg, s) && StartsBelow(s) && StartsClimb(s) && WorkersBegan(s)
    requires var h' := Next(cfg, s, step).history;
             |h'| == |s.history| + 1 && h'[|s.history|].Started?
    ensures forall i | 0 <= i < |s.history| :: Climbs(s.history[i], Next(cfg, s, step).history[|s.history|])
  {
    StartRecorded(cfg, s, step);
    var entry := Next(cfg, s, step).history[|s.history|];
    var p, d := entry.process, entry.deployment;
    var stage := Doing(s, p).stage;
    assert OwnerOk(cfg, s, p) && WorkerBegan(s, p);
    StartClimbs(stage, s.db.deployments[d], entry.status);
    forall i | 0 <= i < |s.history| ensures Climbs(s.history[i], entry) {
      assert StartOk(s, i);
      if !stage.StartClone? && s.history[i].Started? && s.history[i].deployment == d {
        BeganFirst(s, p, d, i);
      }
    }
  }

  // Whoever recorded the first start of d recorded every other one.
  lemma BeganFirst(s: System, p: ProcessId, d: Id, i: nat)
    requires StartsClimb(s) && HasBegun(s, p, d)
    requires i < |s.history| && s.history[i].Started? && s.history[i].deployment == d
    ensures s.history[i].process == p
  {
    var k :| 0 <= k < |s.history| && s.history[k] == Started(d, p, Cloning);
    if i < k { assert Climbs(s.history[i], s.history[k]); }
    if k < i { assert Climbs(s.history[k], s.history[i]); }
  }

  lemma WorkersBeganKept(cfg: Config, s: System, step: Step)
    requires WorkersBegan(s)
    ensures WorkersBegan(Next(cfg, s, step))
  {
    HistoryGrows(cfg, s, step);
    var s' := Next(cfg, s, step);
    forall q ensures WorkerBegan(s', q) {
      assert WorkerBegan(s, q);
      forall entry | entry in s.history ensures entry in s'.history {
        if s'.history != s.history { assert entry in s'.history[..|s.history|]; }
      }
      if Doing(s', q).Pipeline? && Doing(s', q) != Doing(s, q) {
        StageAdvance(cfg, s, step, q);
      }
    }
  }

  // A process moves through the pipeline by claiming, by advancing, or by failing.
  lemma StageAdvance(cfg: Config, s: System, step: Step, q: ProcessId)
    requires Doing(Next(cfg, s, step), q).Pipeline? && Doing(Next(cfg, s, step), q) != Doing(s, q)
    ensures var a := Doing(Next(cfg, s, step), q);
            || a.stage.StartClone?
            || a.stage.MarkFailed?
            || (&& Doing(s, q).Pipeline? && Doing(s, q).deployment == a.deployment
                && (if Doing(s, q).stage.StartClone? then HasBegun(Next(cfg, s, step), q, a.deployment)
                    else !Doing(s, q).stage.MarkFailed?))
  {
    match step
    case Advance(p, e) =>
      if q == p && Doing(s, p).Pipeline? {
        var Pipeline(d, stage) := Doing(s, p);
        if d < |s.db.deployments| && e.Success? && StageTxn(s.db, d, cfg.name(p), stage, e).Committed? {
          var db := StageTxn(s.db, d, cfg.name(p), stage, e).db;
          AfterStageActivity(s.(db := db), p, d, stage, q);
          if stage.StartClone? {
            assert AfterStage(s.(db := db), p, d, stage).history == s.history + [Started(d, p, Cloning)];
          }
        }
      }
    case _ =>
  }

  lemma FinishesKept(cfg: Config, s: System, step: Step)
    requires FinishesOk(s)
    ensures FinishesOk(Next(cfg, s, step))
  {
    var s' := Next(cfg, s, step);
    StepGrows(cfg, s, step);
    HistoryGrows(cfg, s, step);
    if |s'.history| == |s.history| + 1 && s'.history[|s.history|].Finished? {
      FinishRecorded(cfg, s, step);
    }
    FinishesExtend(s, s');
  }

  // Old ends stay as they were, and a new one is of a command that was still active.
  lemma FinishesExtend(s: System, s': System)
    requires FinishesOk(s) && Grows(s.db, s'.db)
    requires s'.history == s.history || (|s'.history| == |s.history| + 1 && s'.history[..|s.history|] == s.history)
    requires |s'.history| == |s.history| + 1 && s'.history[|s.history|].Finished? ==>
               var entry := s'.history[|s.history|];
               && entry.command < |s.db.commands| && s.db.commands[entry.command].status == CommandClaimed
               && s'.db.commands[entry.command].status == entry.outcome && !ActiveStatus(entry.outcome)
    ensures FinishesOk(s')
  {
    var n := |s.history|;
    assert s'.history[..n] == s.history;
    forall i | 0 <= i < |s'.history| ensures FinishOk(s', i) {
      if i < n {
        assert FinishOk(s, i) && s'.history[i] == s.history[i];
        OldFinishOk(s, s', i);
      }
    }
    forall i, j | 0 <= i < j < |s'.history| ensures EndDifferent(s'.history[i], s'.history[j]) {
      assert s'.history[i] == s.history[i] && FinishOk(s, i);
      if j < n { assert s'.history[j] == s.history[j]; }
    }
  }

  lemma OldFinishOk(s: System, s': System, i: nat)
    requires i < |s.history| && i < |s'.history| && s'.history[i] == s.history[i]
    requires FinishOk(s, i) && Grows(s.db, s'.db)
    ensures FinishOk(s', i)
  {
    if s.history[i].Finished? {
      var c := s.history[i].command;
      assert CommandMoves(s.db.commands[c], s'.db.commands[c]);
    }
  }

  // A recorded end is written by a process that goes by the id the command's claim names.
  lemma FinishRecorded(cfg: Config, s: System, step: Step)
    requires var h' := Next(cfg, s, step).history;
             |h'| == |s.history| + 1 && h'[|s.history|].Finished?
    ensures var entry := Next(cfg, s, step).history[|s.history|];
            && entry.command < |s.db.commands|
            && OwnsCommand(s.db.commands[entry.command], entry.holder)
            && step.AdvanceCommand? && step.process == entry.process
            && Doing(s, entry.process).Commanding? && !Doing(s, entry.process).phase.Reading?
            && Doing(s, entry.process).command == entry.command && Doing(s, entry.process).identity == entry.holder
            && entry.command < |Next(cfg, s, step).db.commands|
            && Next(cfg, s, step).db.commands[entry.command] == Ended(s.db.commands[entry.command], entry.outcome)
            && !ActiveStatus(entry.outcome)
  {
    match step
    case AdvanceCommand(p, e) =>
    case Advance(p, e) =>
    case LookUp(_, _, _) => RequestsFramed(cfg, s, step);
    case Insert(_) => RequestsFramed(cfg, s, step);
    case LookUpAgain(_) => RequestsFramed(cfg, s, step);
    case _ =>
  }

  /******* The invariants over runs *******/

  lemma InvHoldsInitially(cfg: Config)
    ensures Inv(Init) && NamedInv(cfg, Init)
  {
  }

  lemma StepKeepsInv(cfg: Config, s: System, step: Step)
    requires Inv(s)
    ensures Inv(Next(cfg, s, step))
  {
    RowsKept(cfg, s, step);
    WorkersKept(cfg, s, step);
    CommandsKept(cfg, s, step);
    KeysKept(cfg, s, step);
    OrphansKept(cfg, s, step);
    ActorsKept(cfg, s, step);
    RequestsKept(cfg, s, step);
    OneCreatorKept(cfg, s, step);
    StartsBelowKept(cfg, s, step);
    FinishesKept(cfg, s, step);
  }

  lemma StepKeepsNamedInv(cfg: Config, s: System, step: Step)
    requires AllDistinct(cfg) && Inv(s) && NamedInv(cfg, s)
    ensures NamedInv(cfg, Next(cfg, s, step))
  {
    OwnersKept(cfg, s, step);
    StartsClimbKept(cfg, s, step);
    WorkersBeganKept(cfg, s, step);
  }

  // Every state of every run satisfies the invariants.
  lemma {:induction false} RunsKeepInv(cfg: Config, steps: seq<Step>)
    ensures Inv(Run(cfg, Init, steps))
    ensures AllDistinct(cfg) ==> NamedInv(cfg, Run(cfg, Init, steps))
  {
    if steps == [] {
      InvHoldsInitially(cfg);
    } else {
      var s, step := Run(cfg, Init, steps[..|steps| - 1]), steps[|steps| - 1];
      RunsKeepInv(cfg, steps[..|steps| - 1]);
      StepKeepsInv(cfg, s, step);
      if AllDistinct(cfg) { StepKeepsNamedInv(cfg, s, step); }
    }
  }

  lemma ReachableInv(cfg: Config, s: System)
    requires Reachable(cfg, s)
    ensures Inv(s)
    ensures AllDistinct(cfg) ==> NamedInv(cfg, s)
  {
    var steps :| Run(cfg, Init, steps) == s;
    RunsKeepInv(cfg, steps);
  }
}
