/**
  One worker taking one deployment through the whole pipeline: what the sequence of transactions of
  process_deployment leaves behind, and that it is a run of the protocol.
  worker/processing/pipeline.py.
 */
module PipelineRun {
  import opened Basics
  import opened Lifecycle
  import opened Records
  import opened Transactions
  import opened Protocol
  import opened ProtocolInvariants

  // What the executor will report for each stage; a stage without a report raises.
  datatype Reports = Reports(byStage: map<Stage, Execution>) {
    function Of(stage: Stage): Execution {
      if stage in byStage then byStage[stage] else Internal
    }
  }

  function Remaining(stage: Stage): nat {
    match stage
    case StartClone => 15
    case CloneRepo => 14
    case StartBuild => 13
    case BuildImage => 12
    case StartTests => 11
    case RunTests => 10
    case StartPush => 9
    case TagImage => 8
    case PushImage => 7
    case VerifyImage => 6
    case StartDeploy => 5
    case RecordTarget => 4
    case PreflightDeploy => 3
    case Deploy => 2
    case Finish => 1
    case MarkFailed => 0
  }

  // The database after mark_failed, whichever way it ends.
  function FailedDb(db: Db, d: Id, worker: WorkerName): Db
    requires d < |db.deployments|
  {
    match StageTxn(db, d, worker, MarkFailed, Success(None, false))
    case Committed(db') => db'
    case Cancelled(db') => db'
    case _ => db
  }

  // The database when the worker is through, from one stage on; reports is what the executor says.
  function ProcessedFrom(db: Db, d: Id, worker: WorkerName, stage: Stage, reports: Reports): (r: Db)
    requires d < |db.deployments| && !stage.MarkFailed?
    decreases Remaining(stage), |db.deployments|
  {
    if !reports.Of(stage).Success? then FailedDb(db, d, worker)
    else match StageTxn(db, d, worker, stage, reports.Of(stage))
      case Lost => db
      case Cancelled(db') => db'
      case Refused => FailedDb(db, d, worker)
      case Committed(db') =>
        if Ends(stage) then db'
        else ProcessedFrom(db', d, worker, NextStage(stage, db'.deployments[d].hasTests), reports)
  }

  /******* Left alone, a pipeline finishes or fails *******/

  // Every report from a stage on that the pipeline will ask for.
  predicate AllSucceed(stage: Stage, hasTests: bool, reports: Reports)
    requires !stage.MarkFailed?
    decreases Remaining(stage)
  {
    reports.Of(stage).Success? && (stage.Finish? || AllSucceed(NextStage(stage, hasTests), hasTests, reports))
  }

  predicate Settled(row: Deployment, ok: bool) {
    && row.claimedBy.None? && row.claimedAt.None?
    && (if ok then row.status == Running && row.build == BuildSucceeded
        else row.status == Failed && row.build == BuildFailed)
  }

  predicate ReadyFor(db: Db, d: Id, worker: WorkerName, stage: Stage) {
    && d < |db.deployments| && Owns(db.deployments[d], worker) && !StopActive(db, d)
    && RowOk(db.deployments[d]) && db.deployments[d].status != Stopped && StageOk(stage, db.deployments[d])
  }

  lemma StopActiveFramed(db: Db, d: Id, row: Deployment)
    requires d < |db.deployments|
    ensures StopActive(SetRow(db, d, row), d) == StopActive(db, d)
  {
  }

  lemma FailsWhenReady(db: Db, d: Id, worker: WorkerName, stage: Stage)
    requires ReadyFor(db, d, worker, stage) && !stage.MarkFailed?
    ensures var db' := FailedDb(db, d, worker);
            db' == SetRow(db, d, db'.deployments[d]) && Settled(db'.deployments[d], false)
  {
  }

  // A stage whose executor succeeds is accepted, and leaves the row ready for the next one.
  lemma StageAccepted(db: Db, d: Id, worker: WorkerName, stage: Stage, e: Execution)
    requires ReadyFor(db, d, worker, stage) && !stage.MarkFailed? && e.Success?
    ensures StageRow(stage, db.deployments[d], db.now, e).Some?
    ensures var row := StageRow(stage, db.deployments[d], db.now, e).value;
            && StageTxn(db, d, worker, stage, e) == Committed(SetRow(db, d, row))
            && row.hasTests == db.deployments[d].hasTests
            && (if Ends(stage) then Settled(row, true)
                else ReadyFor(SetRow(db, d, row), d, worker, NextStage(stage, row.hasTests)))
  {
    StageWorks(stage, db.deployments[d], db.now, e);
    var row := StageRow(stage, db.deployments[d], db.now, e).value;
    StageRowGrows(stage, db.deployments[d], db.now, e);
    StageRowClaim(stage, db.deployments[d], db.now, e);
    StopActiveFramed(db, d, row);
    if !Ends(stage) { StageMoves(stage, db.deployments[d], db.now, e); }
  }

  lemma StageWorks(stage: Stage, row: Deployment, now: Time, e: Execution)
    requires RowOk(row) && StageOk(stage, row) && row.status != Stopped && !stage.MarkFailed? && e.Success?
    requires row.claimedBy.Some?
    ensures StageRow(stage, row, now, e).Some?
    ensures var row' := StageRow(stage, row, now, e).value;
            && RowOk(row') && row'.status != Stopped
            && (!Ends(stage) ==> row'.claimedAt.Some?)
            && (Ends(stage) ==> Settled(row', true))
  {
  }

  // Undisturbed, the worker leaves its deployment running if every report is a success and failed
  // otherwise, build included, releases its claim, and touches nothing else.
  lemma {:induction false} UndisturbedPipelineSettles(db: Db, d: Id, worker: WorkerName, stage: Stage, reports: Reports)
    requires ReadyFor(db, d, worker, stage) && !stage.MarkFailed?
    ensures var db' := ProcessedFrom(db, d, worker, stage, reports);
            && db'.commands == db.commands && db'.now == db.now && |db'.deployments| == |db.deployments|
            && (forall k | 0 <= k < |db.deployments| && k != d :: db'.deployments[k] == db.deployments[k])
            && Settled(db'.deployments[d], AllSucceed(stage, db.deployments[d].hasTests, reports))
    decreases Remaining(stage)
  {
    if !reports.Of(stage).Success? {
      FailsWhenReady(db, d, worker, stage);
    } else {
      StageAccepted(db, d, worker, stage, reports.Of(stage));
      if !stage.Finish? {
        var row := StageRow(stage, db.deployments[d], db.now, reports.Of(stage)).value;
        UndisturbedPipelineSettles(SetRow(db, d, row), d, worker, NextStage(stage, row.hasTests), reports);
      }
    }
  }

  lemma {:induction false} ProcessedKeepsLength(db: Db, d: Id, worker: WorkerName, stage: Stage, reports: Reports)
    requires d < |db.deployments| && !stage.MarkFailed?
    ensures |ProcessedFrom(db, d, worker, stage, reports).deployments| == |db.deployments|
    decreases Remaining(stage)
  {
    if reports.Of(stage).Success? && StageTxn(db, d, worker, stage, reports.Of(stage)).Committed? && !Ends(stage) {
      var db' := StageTxn(db, d, worker, stage, reports.Of(stage)).db;
      ProcessedKeepsLength(db', d, worker, NextStage(stage, db'.deployments[d].hasTests), reports);
    }
  }

  // A worker that no longer owns the deployment, or that finds an active stop, writes no status.
  lemma DisownedPipelineStops(db: Db, d: Id, worker: WorkerName, stage: Stage, reports: Reports)
    requires d < |db.deployments| && !stage.MarkFailed? && CheckClaim(db, d, worker) != Owned
    ensures ProcessedFrom(db, d, worker, stage, reports) ==
              if CheckClaim(db, d, worker).ClaimLost? then db
              else SetRow(db, d, ReleaseClaim(db.deployments[d]))
  {
  }

  /******* The protocol runs it *******/

  // The steps of one process, each with the report of its stage, until it is idle.
  ghost function Script(cfg: Config, s: System, p: ProcessId, reports: Reports, fuel: nat): seq<Step>
    decreases fuel
  {
    match Doing(s, p)
    case Pipeline(_, stage) =>
      if fuel == 0 then []
      else
        var step := Advance(p, if stage.MarkFailed? then Success(None, false) else reports.Of(stage));
        [step] + Script(cfg, Next(cfg, s, step), p, reports, fuel - 1)
    case _ => []
  }

  lemma {:induction false} RunFirst(cfg: Config, s: System, step: Step, rest: seq<Step>)
    ensures Run(cfg, s, [step] + rest) == Run(cfg, Next(cfg, s, step), rest)
  {
    var steps := [step] + rest;
    if rest == [] {
      assert steps[..0] == [];
      assert Run(cfg, s, steps[..0]) == s;
    } else {
      assert steps[..|steps| - 1] == [step] + rest[..|rest| - 1];
      RunFirst(cfg, s, step, rest[..|rest| - 1]);
    }
  }

  ghost function Finished(cfg: Config, s: System, p: ProcessId, reports: Reports, fuel: nat): System {
    Run(cfg, s, Script(cfg, s, p, reports, fuel))
  }

  lemma FinishedIdle(cfg: Config, s: System, p: ProcessId, reports: Reports, fuel: nat)
    requires Doing(s, p).Idle?
    ensures Finished(cfg, s, p, reports, fuel) == s
  {
    assert Script(cfg, s, p, reports, fuel) == [];
  }

  lemma FinishedUnfolds(cfg: Config, s: System, p: ProcessId, d: Id, stage: Stage, reports: Reports, fuel: nat)
    requires Doing(s, p) == Pipeline(d, stage) && fuel > 0
    ensures var s1 := Next(cfg, s, Advance(p, if stage.MarkFailed? then Success(None, false) else reports.Of(stage)));
            Finished(cfg, s, p, reports, fuel) == Finished(cfg, s1, p, reports, fuel - 1)
  {
    var step := Advance(p, if stage.MarkFailed? then Success(None, false) else reports.Of(stage));
    RunFirst(cfg, s, step, Script(cfg, Next(cfg, s, step), p, reports, fuel - 1));
  }

  lemma FailingRuns(cfg: Config, s: System, p: ProcessId, d: Id, reports: Reports, fuel: nat)
    requires Doing(s, p) == Pipeline(d, MarkFailed) && d < |s.db.deployments| && fuel >= 1
    ensures var s' := Finished(cfg, s, p, reports, fuel);
            s'.db == FailedDb(s.db, d, cfg.name(p)) && Doing(s', p).Idle?
  {
    var s1 := Next(cfg, s, Advance(p, Success(None, false)));
    FinishedUnfolds(cfg, s, p, d, MarkFailed, reports, fuel);
    FailingEnds(cfg, s, p, d);
    FinishedIdle(cfg, s1, p, reports, fuel - 1);
  }

  lemma FailingEnds(cfg: Config, s: System, p: ProcessId, d: Id)
    requires Doing(s, p) == Pipeline(d, MarkFailed) && d < |s.db.deployments|
    ensures var s1 := Next(cfg, s, Advance(p, Success(None, false)));
            s1.db == FailedDb(s.db, d, cfg.name(p)) && Doing(s1, p).Idle?
  {
  }

  // What one step at a stage does: the process fails, stops, or goes on to the next stage.
  predicate Stepped(db: Db, db1: Db, a: Activity, d: Id, worker: WorkerName, stage: Stage, e: Execution)
    requires d < |db.deployments|
  {
    if !e.Success? then db1 == db && a == Pipeline(d, MarkFailed)
    else match StageTxn(db, d, worker, stage, e)
      case Lost => db1 == db && a == Idle
      case Cancelled(db') => db1 == db' && a == Idle
      case Refused => db1 == db && a == Pipeline(d, MarkFailed)
      case Committed(db') =>
        db1 == db' && a == if Ends(stage) then Idle else Pipeline(d, NextStage(stage, db'.deployments[d].hasTests))
  }

  lemma StageAdvances(cfg: Config, s: System, p: ProcessId, d: Id, stage: Stage, e: Execution)
    requires Doing(s, p) == Pipeline(d, stage) && d < |s.db.deployments| && !stage.MarkFailed?
    ensures var s1 := Next(cfg, s, Advance(p, e));
            Stepped(s.db, s1.db, Doing(s1, p), d, cfg.name(p), stage, e)
  {
    if e.Success? && StageTxn(s.db, d, cfg.name(p), stage, e).Committed? {
      var db := StageTxn(s.db, d, cfg.name(p), stage, e).db;
      AfterStageActivity(s.(db := db), p, d, stage, p);
    }
  }

  function ProcessedAfter(db: Db, a: Activity, d: Id, worker: WorkerName, reports: Reports): Db
    requires a.Pipeline? ==> d < |db.deployments|
  {
    if !a.Pipeline? then db
    else if a.stage.MarkFailed? then FailedDb(db, d, worker)
    else ProcessedFrom(db, d, worker, a.stage, reports)
  }

  lemma ProcessedSteps(db: Db, db1: Db, a: Activity, d: Id, worker: WorkerName, stage: Stage, reports: Reports)
    requires d < |db.deployments| && !stage.MarkFailed? && Stepped(db, db1, a, d, worker, stage, reports.Of(stage))
    ensures |db1.deployments| == |db.deployments| && (a.Idle? || (a.Pipeline? && a.deployment == d))
    ensures a.Pipeline? ==> Remaining(a.stage) < Remaining(stage)
    ensures ProcessedFrom(db, d, worker, stage, reports) == ProcessedAfter(db1, a, d, worker, reports)
  {
  }

  // process_deployment without interference is the run of the protocol in which only its process
  // moves: the same database at the end, and the process idle again.
  lemma {:induction false} ProcessedIsARun(cfg: Config, s: System, p: ProcessId, d: Id, stage: Stage,
                                           reports: Reports, fuel: nat)
    requires Doing(s, p) == Pipeline(d, stage) && d < |s.db.deployments| && !stage.MarkFailed?
    requires fuel > Remaining(stage)
    ensures Finished(cfg, s, p, reports, fuel).db == ProcessedFrom(s.db, d, cfg.name(p), stage, reports)
    ensures Doing(Finished(cfg, s, p, reports, fuel), p).Idle?
    decreases Remaining(stage), 1
  {
    FinishedUnfolds(cfg, s, p, d, stage, reports, fuel);
    StageAdvances(cfg, s, p, d, stage, reports.Of(stage));
    var s1 := Next(cfg, s, Advance(p, reports.Of(stage)));
    ProcessedSteps(s.db, s1.db, Doing(s1, p), d, cfg.name(p), stage, reports);
    RestIsARun(cfg, s1, p, d, stage, reports, fuel - 1);
  }

  lemma {:induction false} RestIsARun(cfg: Config, s1: System, p: ProcessId, d: Id, stage: Stage,
                                      reports: Reports, fuel: nat)
    requires var a := Doing(s1, p);
             a.Idle? || (a.Pipeline? && a.deployment == d && Remaining(a.stage) < Remaining(stage))
    requires d < |s1.db.deployments| && fuel >= Remaining(stage)
    ensures Finished(cfg, s1, p, reports, fuel).db == ProcessedAfter(s1.db, Doing(s1, p), d, cfg.name(p), reports)
    ensures Doing(Finished(cfg, s1, p, reports, fuel), p).Idle?
    decreases Remaining(stage), 0
  {
    match Doing(s1, p)
    case Idle => FinishedIdle(cfg, s1, p, reports, fuel);
    case Pipeline(_, next) =>
      if next.MarkFailed? {
        FailingRuns(cfg, s1, p, d, reports, fuel);
      } else {
        ProcessedIsARun(cfg, s1, p, d, next, reports, fuel);
      }
    case _ =>
  }
}
