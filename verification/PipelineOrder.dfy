/**
  The order of the pipeline: the stages of process_deployment as an explicit list, what it takes for a
  deployment to run, and the stages a process passes through in any run. worker/processing/pipeline.py.
 */
module PipelineOrder {
  import opened Lifecycle
  import opened Records
  import opened Transactions
  import opened Protocol
  import opened ProtocolInvariants
  import opened PipelineRun

  // Tests are begun and run exactly for a deployment with a test command.
  function Route(hasTests: bool): seq<Stage> {
    [StartClone, CloneRepo, StartBuild, BuildImage]
    + (if hasTests then [StartTests, RunTests] else [])
    + [StartPush, TagImage, PushImage, VerifyImage, StartDeploy, RecordTarget, PreflightDeploy, Deploy, Finish]
  }

  lemma RouteFollows(hasTests: bool, i: nat)
    requires i < |Route(hasTests)|
    ensures !Route(hasTests)[i].MarkFailed? && (Ends(Route(hasTests)[i]) <==> i == |Route(hasTests)| - 1)
    ensures i < |Route(hasTests)| - 1 ==> NextStage(Route(hasTests)[i], hasTests) == Route(hasTests)[i + 1]
  {
  }

  lemma RouteIsSimple(hasTests: bool, i: nat, j: nat)
    requires i < j < |Route(hasTests)|
    ensures Route(hasTests)[i] != Route(hasTests)[j]
  {
  }

  /******* One worker, left alone *******/

  predicate Follows(route: seq<Stage>, hasTests: bool) {
    forall i | 0 <= i < |route| ::
      && !route[i].MarkFailed? && (route[i].Finish? <==> i == |route| - 1)
      && (i < |route| - 1 ==> NextStage(route[i], hasTests) == route[i + 1])
  }

  lemma {:induction false} SucceedFrom(route: seq<Stage>, hasTests: bool, i: nat, reports: Reports)
    requires Follows(route, hasTests) && i < |route|
    ensures AllSucceed(route[i], hasTests, reports) <==> forall k | i <= k < |route| :: reports.Of(route[k]).Success?
    decreases |route| - i
  {
    if i < |route| - 1 {
      SucceedFrom(route, hasTests, i + 1, reports);
    }
  }

  // An undisturbed deployment ends running, with its build succeeded, if and only if the executor reports
  // success for every stage of the route; otherwise both end failed. The claim is released either way.
  lemma RunsIfAllSucceed(db: Db, d: Id, worker: WorkerName, reports: Reports)
    requires ReadyFor(db, d, worker, StartClone)
    ensures |ProcessedFrom(db, d, worker, StartClone, reports).deployments| == |db.deployments|
    ensures var row := ProcessedFrom(db, d, worker, StartClone, reports).deployments[d];
            var route := Route(db.deployments[d].hasTests);
            && row.claimedBy.None? && row.claimedAt.None?
            && if forall k | 0 <= k < |route| :: reports.Of(route[k]).Success? then
                 row.status == Running && row.build == BuildSucceeded
               else row.status == Failed && row.build == BuildFailed
  {
    UndisturbedPipelineSettles(db, d, worker, StartClone, reports);
    var hasTests := db.deployments[d].hasTests;
    forall i | 0 <= i < |Route(hasTests)| {
      RouteFollows(hasTests, i);
    }
    SucceedFrom(Route(hasTests), hasTests, 0, reports);
  }

  /******* Any run *******/

  // The stages a process has stood at since it last took up a deployment, in order.
  function Trail(cfg: Config, steps: seq<Step>, p: ProcessId): seq<Stage> {
    if steps == [] then []
    else
      var n := |steps| - 1;
      var before, after := Doing(Run(cfg, Init, steps[..n]), p), Doing(Run(cfg, Init, steps), p);
      if !after.Pipeline? then Trail(cfg, steps[..n], p)
      else if !before.Pipeline? then [after.stage]
      else if after.stage == before.stage then Trail(cfg, steps[..n], p)
      else Trail(cfg, steps[..n], p) + [after.stage]
  }

  // The trail follows the route up to where the process stands; one that failed left it somewhere.
  predicate OnRoute(trail: seq<Stage>, stage: Stage, hasTests: bool) {
    && trail != [] && trail[|trail| - 1] == stage
    && if stage.MarkFailed? then 1 < |trail| && trail[..|trail| - 1] <= Route(hasTests) else trail <= Route(hasTests)
  }

  predicate TrailOk(s: System, p: ProcessId, trail: seq<Stage>) {
    Doing(s, p).Pipeline? ==>
      && Doing(s, p).deployment < |s.db.deployments|
      && OnRoute(trail, Doing(s, p).stage, s.db.deployments[Doing(s, p).deployment].hasTests)
  }

  lemma RouteGoesOn(trail: seq<Stage>, stage: Stage, hasTests: bool)
    requires OnRoute(trail, stage, hasTests) && !Ends(stage)
    ensures OnRoute(trail + [NextStage(stage, hasTests)], NextStage(stage, hasTests), hasTests)
    ensures NextStage(stage, hasTests) != stage
  {
    var i := |trail| - 1;
    assert Route(hasTests)[i] == stage;
    RouteFollows(hasTests, i);
    RouteFollows(hasTests, i + 1);
    RouteIsSimple(hasTests, i, i + 1);
  }

  lemma RouteIsLeft(trail: seq<Stage>, stage: Stage, hasTests: bool)
    requires OnRoute(trail, stage, hasTests) && !stage.MarkFailed?
    ensures OnRoute(trail + [MarkFailed], MarkFailed, hasTests)
  {
    assert (trail + [MarkFailed])[..|trail|] == trail;
  }

  // A process leaves a stage for the next one only when the stage's report is a success and the process
  // still holds the claim, and it never passes a failed stage.
  lemma MovesOnBySuccess(cfg: Config, s: System, step: Step, p: ProcessId)
    requires Doing(s, p).Pipeline? && Doing(Next(cfg, s, step), p).Pipeline?
    requires Doing(Next(cfg, s, step), p) != Doing(s, p) && !Doing(Next(cfg, s, step), p).stage.MarkFailed?
    ensures var Pipeline(d, stage) := Doing(s, p);
            && Doing(Next(cfg, s, step), p).deployment == d && d < |s.db.deployments|
            && step.Advance? && step.process == p && step.execution.Success? && !Ends(stage)
            && Owns(s.db.deployments[d], cfg.name(p)) && !StopActive(s.db, d)
            && Doing(Next(cfg, s, step), p).stage == NextStage(stage, s.db.deployments[d].hasTests)
  {
    if step.Advance? {
      AdvanceActivity(cfg, s, step.process, step.execution, p);
    } else {
      OthersActivity(cfg, s, step, p);
    }
  }

  lemma StepKeepsTrail(cfg: Config, s: System, step: Step, p: ProcessId, trail: seq<Stage>, trail': seq<Stage>)
    requires TrailOk(s, p, trail)
    requires var before, after := Doing(s, p), Doing(Next(cfg, s, step), p);
             trail' == if !after.Pipeline? then trail
                       else if !before.Pipeline? then [after.stage]
                       else if after.stage == before.stage then trail
                       else trail + [after.stage]
    ensures TrailOk(Next(cfg, s, step), p, trail')
  {
    var before, after := Doing(s, p), Doing(Next(cfg, s, step), p);
    StepGrows(cfg, s, step);
    if after.Pipeline? {
      if step.Advance? {
        AdvanceActivity(cfg, s, step.process, step.execution, p);
      } else {
        OthersActivity(cfg, s, step, p);
      }
      if before.Pipeline? && after != before {
        var hasTests := s.db.deployments[before.deployment].hasTests;
        if after.stage.MarkFailed? {
          RouteIsLeft(trail, before.stage, hasTests);
        } else {
          MovesOnBySuccess(cfg, s, step, p);
          RouteGoesOn(trail, before.stage, hasTests);
        }
      }
    }
  }

  // In every run the stages a process passes through are a prefix of the route of its deployment, up to
  // where it stands, or up to where it failed.
  lemma {:induction false} TrailsFollowRoute(cfg: Config, steps: seq<Step>, p: ProcessId)
    ensures TrailOk(Run(cfg, Init, steps), p, Trail(cfg, steps, p))
  {
    if steps != [] {
      var n := |steps| - 1;
      TrailsFollowRoute(cfg, steps[..n], p);
      StepKeepsTrail(cfg, Run(cfg, Init, steps[..n]), steps[n], p, Trail(cfg, steps[..n], p), Trail(cfg, steps, p));
    }
  }

  lemma RunningByFinish(cfg: Config, s: System, step: Step, d: Id)
    requires d < |s.db.deployments| && s.db.deployments[d].status != Running
    requires d < |Next(cfg, s, step).db.deployments| && Next(cfg, s, step).db.deployments[d].status == Running
    ensures step.Advance? && step.execution.Success? && Doing(s, step.process) == Pipeline(d, Finish)
  {
    match step
    case Advance(p, e) =>
      AdvanceRows(cfg, s, p, e);
      FinishRuns(Doing(s, p).stage, s.db.deployments[d], s.db.now, e);
    case AdvanceCommand(p, e) => AdvanceCommandWrites(cfg, s, p, e);
    case Reconcile(d', rule, rt, ex) =>
    case ClaimPending(p, d') =>
    case Heartbeat(p) =>
    case Create(_, _, _) =>
    case _ => RowsFramed(cfg, s, step);
  }

  lemma FinishRuns(stage: Stage, row: Deployment, now: Time, e: Execution)
    requires e.Success? && row.status != Running && StageRow(stage, row, now, e).Some?
    requires StageRow(stage, row, now, e).value.status == Running
    ensures stage.Finish?
  {
  }

  // Whoever brings a deployment to running has passed its whole route, tests included if it has any.
  lemma RunningMeansWholeRoute(cfg: Config, steps: seq<Step>, step: Step, d: Id)
    requires var s := Run(cfg, Init, steps);
             && d < |s.db.deployments| && s.db.deployments[d].status != Running
             && d < |Next(cfg, s, step).db.deployments| && Next(cfg, s, step).db.deployments[d].status == Running
    ensures step.Advance? && step.execution.Success?
    ensures Trail(cfg, steps, step.process) == Route(Run(cfg, Init, steps).db.deployments[d].hasTests)
  {
    var s := Run(cfg, Init, steps);
    RunningByFinish(cfg, s, step, d);
    TrailsFollowRoute(cfg, steps, step.process);
    var trail, route := Trail(cfg, steps, step.process), Route(s.db.deployments[d].hasTests);
    RouteFollows(s.db.deployments[d].hasTests, |trail| - 1);
  }
}
