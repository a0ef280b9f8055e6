/**
  The shared database: deployment rows (each with the build created beside it), command rows, and
  the clock every transaction reads. A row's id is its position, so insertion order is both the id
  order and the creation order.
 */
module Records {
  import opened Basics
  import opened Lifecycle

  type Id = nat
  type WorkerName = string
  type Time = int

  datatype Target = Fake | LocalDocker | Kubernetes

  // hasTests: the build carries a test command. helm: some Helm identity was persisted for the row.
  datatype Deployment = Deployment(
    project: nat,
    environment: string,
    hasTests: bool,
    status: DeploymentStatus,
    build: BuildStatus,
    claimedBy: Option<WorkerName>,
    claimedAt: Option<Time>,
    target: Option<Target>,
    preflightTarget: Option<Target>,
    helm: bool)

  datatype CommandKind = Stop | Cleanup

  datatype CommandStatus =
    | CommandPending
    | CommandClaimed
    | CommandSucceeded
    | CommandFailed
    | CommandSkipped

  // active stands for active_key: the column is either "active" or NULL.
  datatype Command = Command(
    deployment: Id,
    kind: CommandKind,
    status: CommandStatus,
    active: bool,
    claimedBy: Option<WorkerName>,
    claimedAt: Option<Time>)

  datatype Db = Db(now: Time, deployments: seq<Deployment>, commands: seq<Command>)

  // Every command refers to an existing deployment (a foreign key).
  predicate Linked(db: Db) {
    forall c | 0 <= c < |db.commands| :: db.commands[c].deployment < |db.deployments|
  }

  // The one strict comparison behind all three staleness tests.
  predicate Stale(claimedAt: Option<Time>, now: Time, ttl: nat) {
    claimedAt.Some? && claimedAt.value < now - ttl
  }

  predicate Claimable(claimedAt: Option<Time>, now: Time, ttl: nat) {
    claimedAt.None? || claimedAt.value < now - ttl
  }

  predicate Owns(row: Deployment, worker: WorkerName) {
    row.claimedBy == Some(worker) && row.claimedAt.Some?
  }

  predicate OwnsCommand(command: Command, worker: WorkerName) {
    command.claimedBy == Some(worker) && command.claimedAt.Some? && command.status == CommandClaimed
  }

  predicate ActiveStatus(s: CommandStatus) {
    s.CommandPending? || s.CommandClaimed?
  }

  predicate IsStopFor(command: Command, d: Id) {
    command.deployment == d && command.kind == Stop && ActiveStatus(command.status) && command.active
  }

  predicate StopActive(db: Db, d: Id) {
    exists c | 0 <= c < |db.commands| :: IsStopFor(db.commands[c], d)
  }

  // Rows that share one Helm release.
  predicate SameGroup(a: Deployment, b: Deployment) {
    a.project == b.project && a.environment == b.environment
  }

  predicate HelmManaged(row: Deployment) {
    row.target == Some(Kubernetes) && row.helm
  }

  function ReleaseClaim(row: Deployment): Deployment {
    row.(claimedBy := None, claimedAt := None)
  }

  function SetRow(db: Db, d: Id, row: Deployment): Db
    requires d < |db.deployments|
  {
    db.(deployments := db.deployments[d := row])
  }

  function SetCommand(db: Db, c: Id, command: Command): Db
    requires c < |db.commands|
  {
    db.(commands := db.commands[c := command])
  }
}
