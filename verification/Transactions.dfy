/**
  Each committed transaction of the workers as a function from the database it reads to the
  database it leaves. worker/processing/claims.py, lifecycle.py, pipeline.py, command_processor.py.
 */
module Transactions {
  import opened Basics
  import opened Lifecycle
  import opened Records

  /******* Deployment claims *******/

  datatype Ownership = Owned | ClaimLost | CancellationRequested

  function CheckClaim(db: Db, d: Id, worker: WorkerName): Ownership
    requires d < |db.deployments|
  {
    if !Owns(db.deployments[d], worker) then ClaimLost
    else if StopActive(db, d) then CancellationRequested
    else Owned
  }

  predicate DeploymentClaimable(row: Deployment, now: Time, ttl: nat) {
    row.status == Pending && Claimable(row.claimedAt, now, ttl)
  }

  // The guarded UPDATE: it is the lock, whatever an earlier candidate read said.
  function ClaimDeployment(db: Db, d: Id, worker: WorkerName): Db
    requires d < |db.deployments|
  {
    SetRow(db, d, db.deployments[d].(claimedBy := Some(worker), claimedAt := Some(db.now)))
  }

  /******* The pipeline *******/

  // What a worker does next on the deployment it claimed.
  datatype Stage =
    | StartClone
    | CloneRepo
    | StartBuild
    | BuildImage
    | StartTests
    | RunTests
    | StartPush
    | TagImage
    | PushImage
    | VerifyImage
    | StartDeploy
    | RecordTarget
    | PreflightDeploy
    | Deploy
    | Finish
    | MarkFailed

  // What the executor reports. StepError is a WorkerExecutionError, Internal any other exception.
  datatype Execution =
    | Success(target: Option<Target>, helm: bool)
    | StepError
    | Internal

  function NextStage(stage: Stage, hasTests: bool): Stage {
    match stage
    case StartClone => CloneRepo
    case CloneRepo => StartBuild
    case StartBuild => BuildImage
    case BuildImage => if hasTests then StartTests else StartPush
    case StartTests => RunTests
    case RunTests => StartPush
    case StartPush => TagImage
    case TagImage => PushImage
    case PushImage => VerifyImage
    case VerifyImage => StartDeploy
    case StartDeploy => RecordTarget
    case RecordTarget => PreflightDeploy
    case PreflightDeploy => Deploy
    case Deploy => Finish
    case Finish => Finish
    case MarkFailed => MarkFailed
  }

  // The stages that begin a step, with the deployment and build statuses they ask for.
  function StartedBy(stage: Stage): Option<DeploymentStatus> {
    match stage
    case StartClone => Some(Cloning)
    case StartBuild => Some(Building)
    case StartTests => Some(Testing)
    case StartPush => Some(PushingImage)
    case StartDeploy => Some(Deploying)
    case _ => None
  }

  function BuildStatusFor(s: DeploymentStatus): Option<BuildStatus> {
    match s
    case Cloning => Some(BuildCloning)
    case Building => Some(BuildBuilding)
    case Testing => Some(BuildTesting)
    case PushingImage => Some(BuildPushing)
    case _ => None
  }

  predicate Ends(stage: Stage) {
    stage.Finish? || stage.MarkFailed?
  }

  // set_deployment_status: None when a model refuses its transition (ValueError).
  function WithStatus(row: Deployment, status: DeploymentStatus): Option<Deployment> {
    if !CanTransition(row.status, status) then None
    else match BuildStatusFor(status)
      case None => Some(row.(status := status))
      case Some(b) =>
        if CanTransitionBuild(row.build, b) then Some(row.(status := status, build := b)) else None
  }

  function Heard(row: Deployment, now: Time): Deployment {
    row.(claimedAt := Some(now))
  }

  // The row a stage leaves when its ownership check passed; None when a transition is refused.
  function StageRow(stage: Stage, row: Deployment, now: Time, result: Execution): Option<Deployment>
    requires result.Success?
  {
    match stage
    case StartClone => WithStatus(Heard(row, now).(preflightTarget := None), Cloning)
    case StartBuild => WithStatus(Heard(row, now), Building)
    case StartTests => WithStatus(Heard(row, now), Testing)
    case StartPush => WithStatus(Heard(row, now), PushingImage)
    case StartDeploy => WithStatus(Heard(row, now), Deploying)
    case PushImage =>
      if CanTransitionBuild(row.build, BuildSucceeded) then
        Some(Heard(row, now).(build := BuildSucceeded))
      else None
    case RecordTarget =>
      Some(if result.target.Some? then
             row.(target := result.target, helm := row.helm || (result.target == Some(Kubernetes) && result.helm))
           else row)
    case PreflightDeploy => Some(Heard(row, now).(preflightTarget := result.target))
    case Deploy =>
      Some(Heard(row, now).(target := if result.target.Some? then result.target else row.target,
                            helm := row.helm || result.helm))
    case Finish =>
      if CanTransition(row.status, Running) then Some(ReleaseClaim(row.(status := Running))) else None
    case MarkFailed =>
      if CanTransition(row.status, Failed) && CanTransitionBuild(row.build, BuildFailed) then
        Some(ReleaseClaim(row.(status := Failed, build := BuildFailed)))
      else None
    case _ => Some(Heard(row, now))
  }

  datatype Txn =
    | Committed(db: Db)
    | Lost
    | Cancelled(db: Db)
    | Refused

  function StageTxn(db: Db, d: Id, worker: WorkerName, stage: Stage, result: Execution): Txn
    requires d < |db.deployments| && result.Success?
  {
    match CheckClaim(db, d, worker)
    case ClaimLost => Lost
    case CancellationRequested => Cancelled(SetRow(db, d, ReleaseClaim(db.deployments[d])))
    case Owned =>
      match StageRow(stage, db.deployments[d], db.now, result)
      case None => Refused
      case Some(row) => Committed(SetRow(db, d, row))
  }

  function HeartbeatTxn(db: Db, d: Id, worker: WorkerName): Txn
    requires d < |db.deployments|
  {
    match CheckClaim(db, d, worker)
    case ClaimLost => Lost
    case CancellationRequested => Cancelled(SetRow(db, d, ReleaseClaim(db.deployments[d])))
    case Owned => Committed(SetRow(db, d, Heard(db.deployments[d], db.now)))
  }

  /******* Commands *******/

  predicate CommandClaimable(db: Db, c: Id, ttl: nat)
    requires Linked(db) && c < |db.commands|
  {
    var command := db.commands[c];
    && ActiveStatus(command.status)
    && Claimable(command.claimedAt, db.now, ttl)
    && Claimable(db.deployments[command.deployment].claimedAt, db.now, ttl)
  }

  function ClaimCommand(db: Db, c: Id, worker: WorkerName): Db
    requires c < |db.commands|
  {
    SetCommand(db, c, db.commands[c].(status := CommandClaimed,
                                      claimedBy := Some(worker), claimedAt := Some(db.now)))
  }

  // The id a worker goes by while it processes a command: it is read back from the row it claimed.
  function ReadBack(command: Command, own: WorkerName): WorkerName {
    if command.claimedBy.Some? && command.claimedBy.value != "" then command.claimedBy.value else own
  }

  function RefreshCommand(db: Db, c: Id): Db
    requires c < |db.commands|
  {
    SetCommand(db, c, db.commands[c].(claimedAt := Some(db.now)))
  }

  function Ended(command: Command, status: CommandStatus): Command {
    command.(status := status, active := false, claimedBy := None, claimedAt := None)
  }

  // The oldest of the newer deployments in the group: the ids after d are scanned in order.
  function NewerOwner(deployments: seq<Deployment>, d: Id, from: Id): (r: Option<Id>)
    requires d < |deployments| && from <= |deployments|
    decreases |deployments| - from
  {
    if from == |deployments| then None
    else if SameGroup(deployments[from], deployments[d]) then Some(from)
    else NewerOwner(deployments, d, from + 1)
  }

  function NewerHelmOwner(deployments: seq<Deployment>, d: Id): Option<Id>
    requires d < |deployments|
  {
    NewerOwner(deployments, d, d + 1)
  }

  predicate SkipsHistorical(db: Db, d: Id)
    requires d < |db.deployments|
  {
    HelmManaged(db.deployments[d]) && NewerHelmOwner(db.deployments, d).Some?
  }

  predicate BuildSettled(b: BuildStatus) {
    b.BuildSucceeded? || b.BuildFailed? || b.BuildCancelled?
  }

  // A completed stop or cleanup. The deployment's claim columns are left as they are.
  function StoppedRow(row: Deployment, kind: CommandKind, result: Execution): Option<Deployment>
    requires result.Success?
  {
    if !CanTransition(row.status, Stopped) then None
    else if kind == Stop && !BuildSettled(row.build) && !CanTransitionBuild(row.build, BuildCancelled) then None
    else Some(row.(status := Stopped,
                   build := if kind == Stop && !BuildSettled(row.build) then BuildCancelled else row.build,
                   target := if result.target.Some? then result.target else row.target,
                   helm := row.helm || result.helm))
  }

  // Every deployment status and every unsettled build status can be stopped, so a stop is never refused.
  lemma StopNeverRefused(row: Deployment, kind: CommandKind, result: Execution)
    requires result.Success?
    ensures StoppedRow(row, kind, result).Some?
  {
  }

  function CompleteCommand(db: Db, c: Id, result: Execution): Db
    requires Linked(db) && c < |db.commands| && result.Success?
  {
    var command := db.commands[c];
    var d := command.deployment;
    StopNeverRefused(db.deployments[d], command.kind, result);
    var row := StoppedRow(db.deployments[d], command.kind, result).value;
    SetCommand(SetRow(db, d, row), c, Ended(command, CommandSucceeded))
  }

  function EndCommand(db: Db, c: Id, status: CommandStatus): Db
    requires c < |db.commands|
  {
    SetCommand(db, c, Ended(db.commands[c], status))
  }

  /******* Creation *******/

  function NewDeployment(project: nat, environment: string, hasTests: bool): Deployment {
    Deployment(project, environment, hasTests, Pending, BuildPending, None, None, None, None, false)
  }

  function NewCommand(d: Id, kind: CommandKind): Command {
    Command(d, kind, CommandPending, true, None, None)
  }
}
