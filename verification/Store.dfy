/**
  The transactions as the workers run them: rows fetched, checked, updated in place, committed or
  rolled back. Each method is tied to the function of Transactions that the protocol is built from,
  so what is proved of runs is proved of these bodies.
 */
module Store {
  import opened Basics
  import opened Lifecycle
  import opened Records
  import opened Transactions
  import opened Protocol
  import opened PipelineRun
  import opened PipelineOrder
  import opened StepValues

  // How a pipeline transaction ended.
  datatype Ending = Done | LostClaim | Acknowledged | Rejected

  class Database {
    const ttl: nat
    var now: Time
    var deployments: seq<Deployment>
    var commands: seq<Command>

    ghost function State(): Db
      reads this
    {
      Db(now, deployments, commands)
    }

    constructor (ttl: nat)
      ensures this.ttl == ttl && State() == Db(0, [], [])
    {
      this.ttl := ttl;
      now, deployments, commands := 0, [], [];
    }

    /******* worker/processing/claims.py *******/

    predicate AsksToStop(command: Command, d: Id) {
      && command.deployment == d && command.kind == Stop && command.active
      && (command.status == CommandPending || command.status == CommandClaimed)
    }

    method EnsureClaimOwned(d: Id, worker: WorkerName) returns (o: Ownership)
      requires d < |deployments|
      ensures o == CheckClaim(State(), d, worker)
      ensures o.ClaimLost? <==> deployments[d].claimedBy != Some(worker) || deployments[d].claimedAt.None?
      ensures o.Owned? ==> forall c | 0 <= c < |commands| :: !AsksToStop(commands[c], d)
      ensures o.CancellationRequested? ==> exists c | 0 <= c < |commands| :: AsksToStop(commands[c], d)
    {
      var claimedBy, claimedAt := deployments[d].claimedBy, deployments[d].claimedAt;
      if claimedBy != Some(worker) || claimedAt.None? {
        return ClaimLost;
      }
      var cancelled := false;
      for c := 0 to |commands|
        invariant cancelled <==> exists k | 0 <= k < c :: IsStopFor(commands[k], d)
      {
        if IsStopFor(commands[c], d) {
          cancelled := true;
        }
      }
      return if cancelled then CancellationRequested else Owned;
    }

    method RefreshClaim(d: Id, worker: WorkerName) returns (o: Ownership)
      requires d < |deployments|
      modifies this`deployments
      ensures o == CheckClaim(old(State()), d, worker)
      ensures deployments == if o.Owned? then old(deployments)[d := old(deployments)[d].(claimedAt := Some(now))]
                             else old(deployments)
    {
      o := EnsureClaimOwned(d, worker);
      if o.Owned? && deployments[d].claimedBy == Some(worker) && deployments[d].claimedAt.Some? {
        deployments := deployments[d := deployments[d].(claimedAt := Some(now))];
      }
    }

    method ReleaseDeploymentClaim(d: Id)
      requires d < |deployments|
      modifies this`deployments
      ensures deployments == old(deployments)[d := ReleaseClaim(old(deployments)[d])]
    {
      deployments := deployments[d := deployments[d].(claimedBy := None, claimedAt := None)];
    }

    // The candidates may come from an earlier read: the guard alone decides. The first candidate
    // that is claimable now is taken, nothing else changes, and None means that none of them was.
    method ClaimFirst(candidates: seq<Id>, worker: WorkerName) returns (r: Option<Id>)
      requires forall i | 0 <= i < |candidates| :: candidates[i] < |deployments|
      modifies this`deployments
      ensures r.Some? ==>
                exists i | 0 <= i < |candidates| ::
                  && candidates[i] == r.value
                  && DeploymentClaimable(old(deployments)[r.value], now, ttl)
                  && (forall k | 0 <= k < i :: !DeploymentClaimable(old(deployments)[candidates[k]], now, ttl))
                  && State() == ClaimDeployment(old(State()), r.value, worker)
      ensures r.None? ==>
                && State() == old(State())
                && forall i | 0 <= i < |candidates| :: !DeploymentClaimable(deployments[candidates[i]], now, ttl)
    {
      for i := 0 to |candidates|
        invariant deployments == old(deployments)
        invariant forall k | 0 <= k < i :: !DeploymentClaimable(deployments[candidates[k]], now, ttl)
      {
        var d := candidates[i];
        var row := deployments[d];
        if row.status == Pending && (row.claimedAt.None? || row.claimedAt.value < now - ttl) {
          deployments := deployments[d := row.(claimedAt := Some(now), claimedBy := Some(worker))];
          return Some(d);
        }
      }
      return None;
    }

    // The oldest claimable deployment, or None exactly when no deployment is claimable.
    method ClaimNextPendingDeployment(worker: WorkerName) returns (r: Option<Id>)
      modifies this`deployments
      ensures r.Some? ==>
                && r.value < |old(deployments)|
                && DeploymentClaimable(old(deployments)[r.value], now, ttl)
                && (forall d | 0 <= d < r.value :: !DeploymentClaimable(old(deployments)[d], now, ttl))
                && State() == ClaimDeployment(old(State()), r.value, worker)
      ensures r.None? ==>
                && State() == old(State())
                && forall d | 0 <= d < |deployments| :: !DeploymentClaimable(deployments[d], now, ttl)
    {
      var candidates: seq<Id> := [];
      for d := 0 to |deployments|
        invariant forall i | 0 <= i < |candidates| :: candidates[i] < d
        invariant forall i, j | 0 <= i < j < |candidates| :: candidates[i] < candidates[j]
        invariant forall k | 0 <= k < d && deployments[k].status == Pending :: k in candidates
      {
        if deployments[d].status == Pending {
          candidates := candidates + [d];
        }
      }
      r := ClaimFirst(candidates, worker);
    }

    /******* worker/processing/lifecycle.py *******/

    // False stands for the ValueError of a refused transition, True for a flushed update.
    method SetDeploymentStatus(d: Id, status: DeploymentStatus) returns (ok: bool)
      requires d < |deployments|
      modifies this`deployments
      ensures ok <==> WithStatus(old(deployments)[d], status).Some?
      ensures ok ==> deployments == old(deployments)[d := WithStatus(old(deployments)[d], status).value]
    {
      if !CanTransition(deployments[d].status, status) {
        return false;
      }
      deployments := deployments[d := deployments[d].(status := status)];
      var buildStatus := BuildStatusFor(status);
      if buildStatus.Some? {
        if !CanTransitionBuild(deployments[d].build, buildStatus.value) {
          return false;
        }
        deployments := deployments[d := deployments[d].(build := buildStatus.value)];
      }
      return true;
    }

    method Acknowledge(d: Id)
      requires d < |deployments|
      modifies this`deployments
      ensures State() == SetRow(old(State()), d, ReleaseClaim(old(deployments)[d]))
    {
      ReleaseDeploymentClaim(d);
    }

    // One pipeline transaction with its error exits: a lost claim or a refused transition rolls
    // back, an active stop releases the claim.
    method RunStage(d: Id, worker: WorkerName, stage: Stage, result: Execution) returns (e: Ending)
      requires d < |deployments| && result.Success?
      modifies this`deployments
      ensures match StageTxn(old(State()), d, worker, stage, result)
              case Committed(db) => e == Done && State() == db
              case Cancelled(db) => e == Acknowledged && State() == db
              case Lost => e == LostClaim && State() == old(State())
              case Refused => e == Rejected && State() == old(State())
    {
      var saved := deployments;
      var owned := EnsureClaimOwned(d, worker);
      if owned.Owned? && !stage.RecordTarget? {
        owned := RefreshClaim(d, worker);
      }
      if owned.ClaimLost? {
        return LostClaim;
      }
      if owned.CancellationRequested? {
        Acknowledge(d);
        return Acknowledged;
      }
      var ok := true;
      match stage {
        case StartClone =>
          deployments := deployments[d := deployments[d].(preflightTarget := None)];
          ok := SetDeploymentStatus(d, Cloning);
        case StartBuild => ok := SetDeploymentStatus(d, Building);
        case StartTests => ok := SetDeploymentStatus(d, Testing);
        case StartPush => ok := SetDeploymentStatus(d, PushingImage);
        case StartDeploy => ok := SetDeploymentStatus(d, Deploying);
        case PushImage =>
          ok := CanTransitionBuild(deployments[d].build, BuildSucceeded);
          if ok { deployments := deployments[d := deployments[d].(build := BuildSucceeded)]; }
        case RecordTarget =>
          if result.target.Some? {
            var helm := deployments[d].helm || (result.target == Some(Kubernetes) && result.helm);
            deployments := deployments[d := deployments[d].(target := result.target, helm := helm)];
          }
        case PreflightDeploy =>
          deployments := deployments[d := deployments[d].(preflightTarget := result.target)];
        case Deploy =>
          if result.target.Some? {
            deployments := deployments[d := deployments[d].(target := result.target)];
          }
          if result.helm {
            deployments := deployments[d := deployments[d].(helm := true)];
          }
        case Finish =>
          ok := CanTransition(deployments[d].status, Running);
          if ok {
            deployments := deployments[d := deployments[d].(status := Running)];
            ReleaseDeploymentClaim(d);
          }
        case MarkFailed =>
          ok := MarkDeploymentFailed(d);
        case _ =>
      }
      if !ok {
        deployments := saved;
        return Rejected;
      }
      return Done;
    }

    // The part of mark_failed behind its ownership check: both models must accept.
    method MarkDeploymentFailed(d: Id) returns (ok: bool)
      requires d < |deployments|
      modifies this`deployments
      ensures ok <==> CanTransition(old(deployments)[d].status, Failed)
                      && CanTransitionBuild(old(deployments)[d].build, BuildFailed)
      ensures ok ==> deployments == old(deployments)[d :=
                ReleaseClaim(old(deployments)[d].(status := Failed, build := BuildFailed))]
    {
      if !CanTransition(deployments[d].status, Failed) {
        return false;
      }
      deployments := deployments[d := deployments[d].(status := Failed)];
      if !CanTransitionBuild(deployments[d].build, BuildFailed) {
        return false;
      }
      deployments := deployments[d := deployments[d].(build := BuildFailed)];
      ReleaseDeploymentClaim(d);
      return true;
    }

    /******* worker/processing/pipeline.py *******/

    method Fail(d: Id, worker: WorkerName)
      requires d < |deployments|
      modifies this`deployments
      ensures State() == FailedDb(old(State()), d, worker)
      ensures |deployments| == |old(deployments)|
    {
      var _ := RunStage(d, worker, MarkFailed, Success(None, false));
    }

    // The worker stands before a stage on its way to the database goal.
    ghost predicate Heading(goal: Db, d: Id, worker: WorkerName, stage: Stage, reports: Reports)
      reads this
    {
      d < |deployments| && !stage.MarkFailed? && goal == ProcessedFrom(State(), d, worker, stage, reports)
    }

    // One stage with the exception exits around it: go says that the next stage follows.
    method Perform(d: Id, worker: WorkerName, stage: Stage, reports: Reports, ghost goal: Db)
      returns (go: bool)
      requires Heading(goal, d, worker, stage, reports)
      modifies this`deployments
      ensures go ==> d < |deployments| && !Ends(stage)
      ensures go ==> Heading(goal, d, worker, NextStage(stage, deployments[d].hasTests), reports)
      ensures !go ==> State() == goal
    {
      if !reports.Of(stage).Success? {
        Fail(d, worker);
        return false;
      }
      var ending := RunStage(d, worker, stage, reports.Of(stage));
      if ending.Rejected? {
        Fail(d, worker);
      }
      return ending.Done? && !Ends(stage);
    }

    // The whole pipeline on one claimed deployment. Tests are skipped without a test command.
    method ProcessDeployment(d: Id, worker: WorkerName, reports: Reports)
      requires d < |deployments|
      modifies this`deployments
      ensures State() == ProcessedFrom(old(State()), d, worker, StartClone, reports)
      ensures |deployments| == |old(deployments)|
      ensures ReadyFor(old(State()), d, worker, StartClone) ==>
                (deployments[d].status == Running <==>
                   forall stage | stage in Route(old(deployments)[d].hasTests) :: reports.Of(stage).Success?)
    {
      if ReadyFor(State(), d, worker, StartClone) { RunsIfAllSucceed(State(), d, worker, reports); }
      ProcessedKeepsLength(State(), d, worker, StartClone, reports);
      ghost var goal := ProcessedFrom(State(), d, worker, StartClone, reports);
      var go := CloneAndBuild(d, worker, reports, goal);
      if !go { return; }
      go := BuildAndTest(d, worker, reports, goal);
      if !go { return; }
      go := Push(d, worker, reports, goal);
      if !go { return; }
      go := Verify(d, worker, reports, goal);
      if !go { return; }
      go := Prepare(d, worker, reports, goal);
      if !go { return; }
      DeployAndFinish(d, worker, reports, goal);
    }

    method CloneAndBuild(d: Id, worker: WorkerName, reports: Reports, ghost goal: Db) returns (go: bool)
      requires Heading(goal, d, worker, StartClone, reports)
      modifies this`deployments
      ensures go ==> Heading(goal, d, worker, BuildImage, reports)
      ensures !go ==> State() == goal
    {
      go := Perform(d, worker, StartClone, reports, goal);
      if !go { return; }
      go := Perform(d, worker, CloneRepo, reports, goal);
      if !go { return; }
      go := Perform(d, worker, StartBuild, reports, goal);
    }

    method BuildAndTest(d: Id, worker: WorkerName, reports: Reports, ghost goal: Db) returns (go: bool)
      requires Heading(goal, d, worker, BuildImage, reports)
      modifies this`deployments
      ensures go ==> Heading(goal, d, worker, StartPush, reports)
      ensures !go ==> State() == goal
    {
      go := Perform(d, worker, BuildImage, reports, goal);
      if !go || !deployments[d].hasTests { return; }
      go := Perform(d, worker, StartTests, reports, goal);
      if !go { return; }
      go := Perform(d, worker, RunTests, reports, goal);
    }

    method Push(d: Id, worker: WorkerName, reports: Reports, ghost goal: Db) returns (go: bool)
      requires Heading(goal, d, worker, StartPush, reports)
      modifies this`deployments
      ensures go ==> Heading(goal, d, worker, VerifyImage, reports)
      ensures !go ==> State() == goal
    {
      go := Perform(d, worker, StartPush, reports, goal);
      if !go { return; }
      go := Perform(d, worker, TagImage, reports, goal);
      if !go { return; }
      go := Perform(d, worker, PushImage, reports, goal);
    }

    method Verify(d: Id, worker: WorkerName, reports: Reports, ghost goal: Db) returns (go: bool)
      requires Heading(goal, d, worker, VerifyImage, reports)
      modifies this`deployments
      ensures go ==> Heading(goal, d, worker, StartDeploy, reports)
      ensures !go ==> State() == goal
    {
      go := Perform(d, worker, VerifyImage, reports, goal);
    }

    method Prepare(d: Id, worker: WorkerName, reports: Reports, ghost goal: Db) returns (go: bool)
      requires Heading(goal, d, worker, StartDeploy, reports)
      modifies this`deployments
      ensures go ==> Heading(goal, d, worker, PreflightDeploy, reports)
      ensures !go ==> State() == goal
    {
      go := Perform(d, worker, StartDeploy, reports, goal);
      if !go { return; }
      assert Heading(goal, d, worker, RecordTarget, reports);
      go := Perform(d, worker, RecordTarget, reports, goal);
    }

    method DeployAndFinish(d: Id, worker: WorkerName, reports: Reports, ghost goal: Db)
      requires Heading(goal, d, worker, PreflightDeploy, reports)
      modifies this`deployments
      ensures State() == goal
    {
      var go := Perform(d, worker, PreflightDeploy, reports, goal);
      if !go { return; }
      go := Perform(d, worker, Deploy, reports, goal);
      if !go { return; }
      go := Perform(d, worker, Finish, reports, goal);
    }

    /******* worker/processing/command_processor.py *******/

    // The oldest claimable command, or None exactly when no command is claimable.
    method ClaimNextPendingCommand(worker: WorkerName) returns (r: Option<Id>)
      requires Linked(State())
      modifies this`commands
      ensures Linked(State())
      ensures r.Some? ==>
                && r.value < |old(commands)|
                && CommandClaimable(old(State()), r.value, ttl)
                && (forall c | 0 <= c < r.value :: !CommandClaimable(old(State()), c, ttl))
                && State() == ClaimCommand(old(State()), r.value, worker)
      ensures r.None? ==>
                && State() == old(State())
                && forall c | 0 <= c < |commands| :: !CommandClaimable(State(), c, ttl)
    {
      for c := 0 to |commands|
        invariant commands == old(commands)
        invariant forall k | 0 <= k < c :: !CommandClaimable(State(), k, ttl)
      {
        var command := commands[c];
        var owner := deployments[command.deployment].claimedAt;
        if (command.status == CommandPending || command.status == CommandClaimed)
           && (command.claimedAt.None? || command.claimedAt.value < now - ttl)
           && (owner.None? || owner.value < now - ttl) {
          commands := commands[c := command.(status := CommandClaimed,
                                             claimedBy := Some(worker), claimedAt := Some(now))];
          return Some(c);
        }
      }
      return None;
    }

    method RefreshCommandClaim(c: Id, worker: WorkerName) returns (owned: bool)
      requires c < |commands|
      modifies this`commands
      ensures owned <==> OwnsCommand(old(commands)[c], worker)
      ensures State() == if owned then RefreshCommand(old(State()), c) else old(State())
    {
      var command := commands[c];
      owned := command.claimedBy == Some(worker) && command.claimedAt.Some? && command.status == CommandClaimed;
      if owned {
        commands := commands[c := command.(claimedAt := Some(now))];
      }
    }

    // The skip check of process_deployment_command: it ends the command only for its claim holder.
    method SkipHistoricalHelmCommand(c: Id, worker: WorkerName) returns (skips: bool, owned: bool)
      requires Linked(State()) && c < |commands|
      modifies this`commands
      ensures skips <==> Superseded(old(deployments), old(commands)[c].deployment)
      ensures skips <==> SkipsHistorical(old(State()), old(commands)[c].deployment)
      ensures owned <==> OwnsCommand(old(commands)[c], worker)
      ensures State() == if skips && owned then EndCommand(old(State()), c, CommandSkipped) else old(State())
    {
      var d := commands[c].deployment;
      SupersededIsSkipped(State(), d);
      owned := OwnsCommand(commands[c], worker);
      skips := false;
      if deployments[d].target == Some(Kubernetes) && deployments[d].helm {
        var newer := NewerHelmOwner(deployments, d);
        if newer.Some? {
          skips := true;
          var refreshed := RefreshCommandClaim(c, worker);
          if refreshed {
            commands := commands[c := commands[c].(status := CommandSkipped, active := false,
                                                   claimedBy := None, claimedAt := None)];
          }
        }
      }
    }

    // After executor.stop succeeded: deployment, build and command change together or not at all.
    method FinishStopped(c: Id, worker: WorkerName, result: Execution) returns (owned: bool)
      requires Linked(State()) && c < |commands| && result.Success?
      modifies this`commands, this`deployments
      ensures owned <==> OwnsCommand(old(commands)[c], worker)
      ensures State() == if owned then CompleteCommand(old(State()), c, result) else old(State())
      ensures var command := old(commands)[c];
              owned ==> deployments == old(deployments)[command.deployment :=
                AfterStop(old(deployments)[command.deployment], command.kind, result.target, result.helm)]
    {
      CompletionStops(State(), c, result);
      owned := RefreshCommandClaim(c, worker);
      if owned {
        var d, kind := commands[c].deployment, commands[c].kind;
        deployments := deployments[d := deployments[d].(status := Stopped)];
        if kind == Stop && !BuildSettled(deployments[d].build) {
          deployments := deployments[d := deployments[d].(build := BuildCancelled)];
        }
        if result.target.Some? {
          deployments := deployments[d := deployments[d].(target := result.target)];
        }
        if result.helm {
          deployments := deployments[d := deployments[d].(helm := true)];
        }
        commands := commands[c := commands[c].(status := CommandSucceeded, active := false,
                                               claimedBy := None, claimedAt := None)];
      }
    }

    method FinishFailed(c: Id, worker: WorkerName) returns (owned: bool)
      requires c < |commands|
      modifies this`commands
      ensures owned <==> OwnsCommand(old(commands)[c], worker)
      ensures State() == if owned then EndCommand(old(State()), c, CommandFailed) else old(State())
    {
      owned := RefreshCommandClaim(c, worker);
      if owned {
        commands := commands[c := commands[c].(status := CommandFailed, active := false,
                                               claimedBy := None, claimedAt := None)];
      }
    }

    /******* worker/work_items.py *******/

    // A pending deployment is taken only when no command was claimable.
    method ClaimNextWorkItem(worker: WorkerName) returns (command: Option<Id>, deployment: Option<Id>)
      requires Linked(State())
      modifies this`commands, this`deployments
      ensures command.None? || deployment.None?
      ensures command.Some? ==> command.value < |old(commands)| && CommandClaimable(old(State()), command.value, ttl)
                                && State() == ClaimCommand(old(State()), command.value, worker)
      ensures deployment.Some? ==>
                && (forall c | 0 <= c < |old(commands)| :: !CommandClaimable(old(State()), c, ttl))
                && deployment.value < |old(deployments)|
                && DeploymentClaimable(old(deployments)[deployment.value], now, ttl)
                && State() == ClaimDeployment(old(State()), deployment.value, worker)
      ensures command.None? && deployment.None? ==>
                && State() == old(State())
                && (forall c | 0 <= c < |commands| :: !CommandClaimable(State(), c, ttl))
                && (forall d | 0 <= d < |deployments| :: !DeploymentClaimable(deployments[d], now, ttl))
    {
      deployment := None;
      command := ClaimNextPendingCommand(worker);
      if command.None? {
        deployment := ClaimNextPendingDeployment(worker);
      }
    }

    /******* control_plane/application/command_requests.py *******/

    // Lookup and insert without interference: the first active command, or a new one.
    method RequestDeploymentCommand(d: Id, kind: CommandKind) returns (c: Id, created: bool)
      requires d < |deployments|
      requires forall k | 0 <= k < |commands| :: commands[k].active <==> ActiveStatus(commands[k].status)
      modifies this`commands
      ensures c < |commands| && ActiveFor(commands[c], d, kind)
      ensures created <==> forall k | 0 <= k < |old(commands)| :: !ActiveFor(old(commands)[k], d, kind)
      ensures !created ==> commands == old(commands) && forall k | 0 <= k < c :: !ActiveFor(commands[k], d, kind)
      ensures created ==> commands == old(commands) + [NewCommand(d, kind)] && c == |old(commands)|
    {
      for k := 0 to |commands|
        invariant forall j | 0 <= j < k :: !ActiveFor(commands[j], d, kind)
      {
        if commands[k].deployment == d && commands[k].kind == kind
           && (commands[k].status == CommandPending || commands[k].status == CommandClaimed) {
          return k, false;
        }
      }
      commands := commands + [Command(d, kind, CommandPending, true, None, None)];
      return |commands| - 1, true;
    }
  }
}
