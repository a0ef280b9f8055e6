/**
  The reconciler's ordered repair rules over one deployment row and the runtime resources an
  executor can see. worker/reconciliation/.
 */
module Repair {
  import opened Basics
  import opened Lifecycle
  import opened Records
  import opened Transactions

  datatype Resource = DeploymentResource | ServiceResource | IngressResource

  // Containers and manifest resources are named per deployment, Helm releases per (project, environment).
  datatype Runtime = Runtime(
    containers: set<Id>,
    manifests: set<(Id, Resource)>,
    releases: set<(nat, string)>)

  // Whether the executor can be built, answers its status probe, and succeeds in its stop.
  datatype Executor = Executor(builds: bool, probes: bool, stops: bool)

  datatype Rule =
    | StaleClaim
    | MissingTarget
    | MissingContainer
    | MissingRelease
    | MissingResource
    | LeftoverRelease
    | LeftoverResource
    | LeftoverContainer

  const RuleOrder: seq<Rule> := [StaleClaim, MissingTarget, MissingContainer, MissingRelease,
                                 MissingResource, LeftoverRelease, LeftoverResource, LeftoverContainer]

  // Unchanged is a rule that returned False, perhaps after a stop that failed, Raised an escaping
  // exception, Repaired a counted change.
  datatype Outcome =
    | Unchanged(stopCalled: bool)
    | Raised
    | Repaired(row: Deployment, rt: Runtime, stopCalled: bool)

  function Release(row: Deployment): (nat, string) {
    (row.project, row.environment)
  }

  function Manifest(d: Id): set<(Id, Resource)> {
    {(d, DeploymentResource), (d, ServiceResource), (d, IngressResource)}
  }

  function FailedRow(row: Deployment): Option<Deployment> {
    if CanTransition(row.status, Failed) && CanTransitionBuild(row.build, BuildFailed) then
      Some(ReleaseClaim(row.(status := Failed, build := BuildFailed)))
    else None
  }

  function MarkedFailed(row: Deployment, rt: Runtime): Outcome {
    match FailedRow(row)
    case None => Raised
    case Some(failed) => Repaired(failed, rt, false)
  }

  // executor.stop: it removes exactly what it names for this row's kind of workload.
  function Stopping(row: Deployment, d: Id, rt: Runtime): Runtime {
    if HelmManaged(row) then rt.(releases := rt.releases - {Release(row)})
    else if row.target == Some(Kubernetes) then rt.(manifests := rt.manifests - Manifest(d))
    else rt.(containers := rt.containers - {d})
  }

  function StopLeftover(row: Deployment, d: Id, rt: Runtime, ex: Executor): Outcome {
    if ex.stops then Repaired(row, Stopping(row, d, rt), true) else Unchanged(true)
  }

  const Nothing: Outcome := Unchanged(false)

  predicate CallsStop(outcome: Outcome) {
    (outcome.Unchanged? || outcome.Repaired?) && outcome.stopCalled
  }

  // The rows for which a rule builds an executor. It does so outside its error handling.
  predicate Asks(rule: Rule, rows: seq<Deployment>, d: Id)
    requires d < |rows|
  {
    var row := rows[d];
    var over := row.status.Failed? || row.status.Stopped?;
    match rule
    case StaleClaim => false
    case MissingTarget => false
    case MissingContainer => row.status == Running && row.target == Some(LocalDocker)
    case MissingRelease => row.status == Running && HelmManaged(row)
    case MissingResource => row.status == Running && row.target == Some(Kubernetes) && !row.helm
    case LeftoverRelease => HelmManaged(row) && over && NewerHelmOwner(rows, d).None?
    case LeftoverResource => row.target == Some(Kubernetes) && over && !row.helm
    case LeftoverContainer => row.status == Failed && row.target == Some(LocalDocker)
  }

  function ApplyRule(rule: Rule, ttl: nat, now: Time, rows: seq<Deployment>, d: Id, rt: Runtime,
                     ex: Executor): Outcome
    requires d < |rows|
  {
    var row := rows[d];
    if Asks(rule, rows, d) && !ex.builds then Raised
    else if Asks(rule, rows, d) && !ex.probes then Nothing
    else match rule
      case StaleClaim =>
        if !Stale(row.claimedAt, now, ttl) then Nothing
        else if InProgress(row.status) then MarkedFailed(row, rt)
        else Repaired(ReleaseClaim(row), rt, false)
      case MissingTarget =>
        if row.target.Some? || row.preflightTarget.None? then Nothing
        else Repaired(row.(target := row.preflightTarget), rt, false)
      case MissingContainer =>
        if !Asks(rule, rows, d) || d in rt.containers then Nothing else MarkedFailed(row, rt)
      case MissingRelease =>
        if !Asks(rule, rows, d) || Release(row) in rt.releases then Nothing else MarkedFailed(row, rt)
      case MissingResource =>
        if !Asks(rule, rows, d) then Nothing
        else if (d, DeploymentResource) in rt.manifests && (d, ServiceResource) in rt.manifests then Nothing
        else MarkedFailed(row, rt)
      case LeftoverRelease =>
        if !Asks(rule, rows, d) || Release(row) !in rt.releases then Nothing else StopLeftover(row, d, rt, ex)
      case LeftoverResource =>
        if !Asks(rule, rows, d) || Manifest(d) !! rt.manifests then Nothing else StopLeftover(row, d, rt, ex)
      case LeftoverContainer =>
        if !Asks(rule, rows, d) || d !in rt.containers then Nothing else StopLeftover(row, d, rt, ex)
  }

  // On a row whose two statuses are coupled a rule raises exactly when it asks for an executor that
  // cannot be built: no model refuses what a rule wants of it.
  lemma CoupledRowsRaise(rule: Rule, ttl: nat, now: Time, rows: seq<Deployment>, d: Id, rt: Runtime, ex: Executor)
    requires d < |rows| && Coupled(rows[d].status, rows[d].build)
    ensures ApplyRule(rule, ttl, now, rows, d, rt, ex).Raised? <==> Asks(rule, rows, d) && !ex.builds
  {
  }
}
