/** What the protocol guarantees over whole runs. */
module ProtocolTheorems {
  import opened Basics
  import opened Lifecycle
  import opened Records
  import opened Transactions
  import opened Repair
  import opened Protocol
  import opened ProtocolInvariants

  /******* At most one start of each stage, all by one process *******/

  predicate StartsOnce(s: System) {
    forall i, j | 0 <= i < j < |s.history| && s.history[i].Started? && s.history[j].Started?
                  && s.history[i].deployment == s.history[j].deployment ::
      s.history[i].status != s.history[j].status && s.history[i].process == s.history[j].process
  }

  lemma ClimbingStartsOnce(s: System)
    requires StartsClimb(s)
    ensures StartsOnce(s)
  {
    forall i, j | 0 <= i < j < |s.history| && s.history[i].Started? && s.history[j].Started?
                  && s.history[i].deployment == s.history[j].deployment
      ensures s.history[i].status != s.history[j].status && s.history[i].process == s.history[j].process
    {
      assert Climbs(s.history[i], s.history[j]);
    }
  }

  // A process takes over a pending deployment that is free or whose claim is stale.
  lemma TakeOver(cfg: Config, s: System, p: ProcessId) returns (s': System)
    requires Reachable(cfg, s) && |s.db.deployments| == 1 && Doing(s, p).Idle?
    requires DeploymentClaimable(s.db.deployments[0], s.db.now, cfg.ttl)
    ensures Reachable(cfg, s') && s'.history == s.history && s'.db.commands == s.db.commands
    ensures s'.db.now == s.db.now && s'.requests == s.requests
    ensures s'.db.deployments == [s.db.deployments[0].(claimedBy := Some(cfg.name(p)), claimedAt := Some(s.db.now))]
    ensures s'.activity == s.activity[p := Pipeline(0, StartClone)]
  {
    s' := Next(cfg, s, ClaimPending(p, 0));
    NextReachable(cfg, s, ClaimPending(p, 0));
  }

  lemma BeginCloning(cfg: Config, s: System, p: ProcessId) returns (s': System)
    requires Reachable(cfg, s) && |s.db.deployments| == 1 && s.db.commands == []
    requires Doing(s, p) == Pipeline(0, StartClone) && Owns(s.db.deployments[0], cfg.name(p))
    requires var row := s.db.deployments[0];
             (row.status.Pending? && row.build.BuildPending?) || (row.status.Cloning? && row.build.BuildCloning?)
    ensures Reachable(cfg, s') && s'.db.commands == [] && |s'.db.deployments| == 1 && s'.requests == s.requests
    ensures s'.history == s.history + [Started(0, p, Cloning)]
    ensures s'.activity == s.activity[p := Pipeline(0, CloneRepo)]
    ensures var row := s'.db.deployments[0];
            row.status.Cloning? && row.build.BuildCloning? && row.claimedAt.Some?
            && row.claimedBy == s.db.deployments[0].claimedBy && row.target == s.db.deployments[0].target
  {
    var step := Advance(p, Success(None, false));
    s' := Next(cfg, s, step);
    NextReachable(cfg, s, step);
    assert CheckClaim(s.db, 0, cfg.name(p)).Owned?;
  }

  lemma OnePendingDeployment(cfg: Config) returns (s: System)
    ensures Reachable(cfg, s) && s.db == Db(0, [NewDeployment(0, "production", false)], [])
    ensures s.activity == map[] && s.requests == map[] && s.history == []
  {
    InitReachable(cfg);
    NextReachable(cfg, Init, Create(0, "production", false));
    s := Next(cfg, Init, Create(0, "production", false));
  }

  lemma Wait(cfg: Config, s: System, elapsed: nat) returns (s': System)
    requires Reachable(cfg, s)
    ensures Reachable(cfg, s') && s' == s.(db := s.db.(now := s.db.now + elapsed))
  {
    NextReachable(cfg, s, Tick(elapsed));
    s' := Next(cfg, s, Tick(elapsed));
  }

  // Two processes with one name: the second takes over the first one's stale pending claim, and
  // then both of them pass the ownership check and begin cloning.
  lemma SharedNameStartsTwice(cfg: Config, p: ProcessId, q: ProcessId) returns (s: System)
    requires p != q && cfg.name(p) == cfg.name(q)
    ensures Reachable(cfg, s) && !StartsOnce(s)
  {
    s := OnePendingDeployment(cfg);
    s := TakeOver(cfg, s, p);
    s := Wait(cfg, s, cfg.ttl + 1);
    s := TakeOver(cfg, s, q);
    s := BeginCloning(cfg, s, p);
    s := BeginCloning(cfg, s, q);
    assert s.history[0] == Started(0, p, Cloning) && s.history[1] == Started(0, q, Cloning);
  }

  // Every run starts each stage of each deployment at most once, and from one process, exactly when
  // no two processes share a worker id.
  lemma AtMostOncePipeline(cfg: Config)
    ensures AllDistinct(cfg) <==> forall s | Reachable(cfg, s) :: StartsOnce(s)
  {
    if AllDistinct(cfg) {
      forall s | Reachable(cfg, s) ensures StartsOnce(s) {
        ReachableInv(cfg, s);
        ClimbingStartsOnce(s);
      }
    } else {
      var p, q :| !DistinctNames(cfg, p, q);
      var s := SharedNameStartsTwice(cfg, p, q);
    }
  }

  /******* Coupling *******/

  // The stages whose transaction moves a status, and the one row on which they are refused.
  predicate Refuses(stage: Stage, row: Deployment) {
    && row.status == Stopped
    && (StartedBy(stage).Some? || Ends(stage) || (stage.PushImage? && row.build != BuildSucceeded))
  }

  // In every run the two statuses of a deployment stay coupled.
  lemma StatusesStayCoupled(cfg: Config, s: System, d: Id)
    requires Reachable(cfg, s) && d < |s.db.deployments|
    ensures Coupled(s.db.deployments[d].status, s.db.deployments[d].build)
  {
    ReachableInv(cfg, s);
    assert RowOk(s.db.deployments[d]);
  }

  // An owner's transaction is refused exactly because a command stopped the deployment: the build
  // never refuses what the deployment accepts.
  predicate RefusedRightly(cfg: Config, s: System, p: ProcessId, result: Execution)
    requires result.Success? && Doing(s, p).Pipeline?
  {
    var Pipeline(d, stage) := Doing(s, p);
    && d < |s.db.deployments|
    && (CheckClaim(s.db, d, cfg.name(p)).Owned? ==>
          (StageTxn(s.db, d, cfg.name(p), stage, result).Refused? <==> Refuses(stage, s.db.deployments[d])))
  }

  lemma DistinctAreRefusedRightly(cfg: Config, s: System, p: ProcessId, result: Execution)
    requires AllDistinct(cfg) && Reachable(cfg, s) && result.Success? && Doing(s, p).Pipeline?
    ensures RefusedRightly(cfg, s, p, result)
  {
    ReachableInv(cfg, s);
    assert OwnerOk(cfg, s, p);
    assert RowOk(s.db.deployments[Doing(s, p).deployment]);
  }

  predicate CloningUnder(s: System, worker: WorkerName) {
    && |s.db.deployments| == 1
    && s.db.deployments[0].status.Cloning?
    && s.db.deployments[0].claimedBy == Some(worker)
    && s.db.deployments[0].claimedAt.Some?
  }

  lemma FinishCloning(cfg: Config, s: System, p: ProcessId) returns (s': System)
    requires Reachable(cfg, s) && CloningUnder(s, cfg.name(p)) && s.db.deployments[0].build.BuildCloning?
    requires s.db.commands == [] && Doing(s, p) == Pipeline(0, CloneRepo)
    ensures Reachable(cfg, s') && s'.db.commands == [] && s'.activity == s.activity[p := Pipeline(0, StartBuild)]
    ensures CloningUnder(s', cfg.name(p)) && s'.db.deployments[0].build.BuildCloning?
  {
    var step := Advance(p, Success(None, false));
    assert CheckClaim(s.db, 0, cfg.name(p)).Owned?;
    NextReachable(cfg, s, step);
    s' := Next(cfg, s, step);
  }

  lemma BeginBuilding(cfg: Config, s: System, p: ProcessId) returns (s': System)
    requires Reachable(cfg, s) && CloningUnder(s, cfg.name(p)) && s.db.deployments[0].build.BuildCloning?
    requires s.db.commands == [] && Doing(s, p) == Pipeline(0, StartBuild)
    ensures Reachable(cfg, s') && s'.db.commands == [] && s'.activity == s.activity[p := Pipeline(0, BuildImage)]
    ensures |s'.db.deployments| == 1 && s'.db.deployments[0].status.Building? && Owns(s'.db.deployments[0], cfg.name(p))
  {
    var step := Advance(p, Success(None, false));
    assert CheckClaim(s.db, 0, cfg.name(p)).Owned?;
    NextReachable(cfg, s, step);
    s' := Next(cfg, s, step);
  }

  // With a shared name the slower of two workers is refused although nothing was stopped.
  lemma SharedNameIsRefused(cfg: Config, p: ProcessId, q: ProcessId) returns (s: System)
    requires p != q && cfg.name(p) == cfg.name(q)
    ensures Reachable(cfg, s) && Doing(s, q).Pipeline? && !RefusedRightly(cfg, s, q, Success(None, false))
  {
    s := OnePendingDeployment(cfg);
    s := TakeOver(cfg, s, p);
    s := Wait(cfg, s, cfg.ttl + 1);
    s := TakeOver(cfg, s, q);
    s := BeginCloning(cfg, s, p);
    s := FinishCloning(cfg, s, p);
    s := BeginBuilding(cfg, s, p);
    assert Doing(s, q) == Pipeline(0, StartClone);
    assert CheckClaim(s.db, 0, cfg.name(q)).Owned?;
  }

  // In every run an owner is refused exactly when its deployment was stopped, if and only if no two
  // processes share a worker id.
  lemma RefusedExactlyWhenStopped(cfg: Config)
    ensures AllDistinct(cfg) <==>
              forall s, p, result: Execution | Reachable(cfg, s) && result.Success? && Doing(s, p).Pipeline? ::
                RefusedRightly(cfg, s, p, result)
  {
    if AllDistinct(cfg) {
      forall s, p, result: Execution | Reachable(cfg, s) && result.Success? && Doing(s, p).Pipeline?
        ensures RefusedRightly(cfg, s, p, result)
      {
        DistinctAreRefusedRightly(cfg, s, p, result);
      }
    } else {
      var p, q :| !DistinctNames(cfg, p, q);
      var s := SharedNameIsRefused(cfg, p, q);
    }
  }

  // The number of status changes a run makes on one deployment.
  function StatusChanges(cfg: Config, s: System, steps: seq<Step>, d: Id): nat {
    if steps == [] then 0
    else
      var before := Run(cfg, s, steps[..|steps| - 1]).db.deployments;
      var after := Run(cfg, s, steps).db.deployments;
      StatusChanges(cfg, s, steps[..|steps| - 1], d)
      + if d < |before| && d < |after| && before[d].status != after[d].status then 1 else 0
  }

  lemma {:induction false} StatusChangesClimb(cfg: Config, steps: seq<Step>, d: Id)
    ensures var rows := Run(cfg, Init, steps).db.deployments;
            StatusChanges(cfg, Init, steps, d) <= if d < |rows| then Rank(rows[d].status) else 0
  {
    if steps != [] {
      var earlier := steps[..|steps| - 1];
      StatusChangesClimb(cfg, earlier, d);
      var before := Run(cfg, Init, earlier);
      StepGrows(cfg, before, steps[|steps| - 1]);
      if d < |before.db.deployments| {
        assert RowGrows(before.db.deployments[d], Run(cfg, Init, steps).db.deployments[d]);
      }
    }
  }

  // Under any naming and any interleaving a deployment changes status at most eight times.
  lemma AtMostEightStatusChanges(cfg: Config, steps: seq<Step>, d: Id)
    ensures StatusChanges(cfg, Init, steps, d) <= 8
  {
    StatusChangesClimb(cfg, steps, d);
  }

  /******* Fencing *******/

  predicate SameStatuses(s: System, s': System, d: Id) {
    && d < |s.db.deployments| && d < |s'.db.deployments|
    && s.db.deployments[d].status == s'.db.deployments[d].status
    && s.db.deployments[d].build == s'.db.deployments[d].build
  }

  predicate IsPipelineStep(step: Step) {
    step.Advance? || step.Heartbeat? || step.ClaimPending?
  }

  // A worker changes a status only as the recorded owner and only while no stop is active.
  lemma PipelineIsFenced(cfg: Config, s: System, step: Step, d: Id)
    requires IsPipelineStep(step) && d < |s.db.deployments|
    requires !SameStatuses(s, Next(cfg, s, step), d)
    ensures Doing(s, step.process).Pipeline? && Doing(s, step.process).deployment == d
    ensures Owns(s.db.deployments[d], cfg.name(step.process)) && !StopActive(s.db, d)
  {
    StepGrows(cfg, s, step);
  }

  predicate StopEnded(s: System, c: Id) {
    c < |s.db.commands| && !IsStopFor(s.db.commands[c], s.db.commands[c].deployment)
  }

  // Once a stop is requested the pipeline is frozen until that stop ends: every step in between
  // that changes a status is a command's or the reconciler's.
  lemma StopFreezesPipeline(cfg: Config, s: System, steps: seq<Step>, c: Id, step: Step)
    requires c < |s.db.commands| && s.db.commands[c].deployment < |s.db.deployments|
    requires IsStopFor(s.db.commands[c], s.db.commands[c].deployment)
    requires var mid := Run(cfg, s, steps); !StopEnded(mid, c)
    requires IsPipelineStep(step)
    ensures SameStatuses(Run(cfg, s, steps), Next(cfg, Run(cfg, s, steps), step), s.db.commands[c].deployment)
  {
    RunGrows(cfg, s, steps);
    var mid := Run(cfg, s, steps);
    var d := s.db.commands[c].deployment;
    assert CommandMoves(s.db.commands[c], mid.db.commands[c]);
    assert IsStopFor(mid.db.commands[c], d);
    if !SameStatuses(mid, Next(cfg, mid, step), d) {
      PipelineIsFenced(cfg, mid, step, d);
      assert StopActive(mid.db, d);
      assert false;
    }
  }

  predicate Persists(s: System, s': System) {
    && |s.db.deployments| <= |s'.db.deployments|
    && |s.db.commands| <= |s'.db.commands|
    && (forall c | 0 <= c < |s.db.commands| :: CommandMoves(s.db.commands[c], s'.db.commands[c]))
  }

  lemma {:induction false} RunGrows(cfg: Config, s: System, steps: seq<Step>)
    ensures Persists(s, Run(cfg, s, steps))
  {
    if steps != [] {
      RunGrows(cfg, s, steps[..|steps| - 1]);
      var mid := Run(cfg, s, steps[..|steps| - 1]);
      StepGrows(cfg, mid, steps[|steps| - 1]);
      forall c | 0 <= c < |s.db.commands|
        ensures CommandMoves(s.db.commands[c], Run(cfg, s, steps).db.commands[c])
      {
        assert CommandMoves(s.db.commands[c], mid.db.commands[c]);
        assert CommandMoves(mid.db.commands[c], Run(cfg, s, steps).db.commands[c]);
      }
    }
  }

  /******* Commands *******/

  // Under racing requests there is at most one active command per deployment and kind, and
  // active_key is set exactly on unfinished commands.
  lemma CommandsAreUnique(cfg: Config, s: System, b: Id, c: Id)
    requires Reachable(cfg, s) && b < |s.db.commands| && c < |s.db.commands|
    ensures s.db.commands[c].active <==> ActiveStatus(s.db.commands[c].status)
    ensures var x, y := s.db.commands[b], s.db.commands[c];
            ActiveFor(x, y.deployment, y.kind) && ActiveStatus(y.status) ==> b == c
  {
    ReachableInv(cfg, s);
    assert CommandOk(s.db, b) && CommandOk(s.db, c);
  }

  // Exactly one requester is told that it created a given command.
  lemma ExactlyOneCreator(cfg: Config, s: System, c: Id)
    requires Reachable(cfg, s) && c < |s.db.commands|
    ensures exists r :: CreatedBy(s, r, c) && forall q :: CreatedBy(s, q, c) ==> q == r
  {
    ReachableInv(cfg, s);
    assert HasCreator(s, c);
    var r :| CreatedBy(s, r, c);
    forall q | CreatedBy(s, q, c) ensures q == r {
      assert OnlyCreator(s, q, r, c);
    }
  }

  // What a request knows when it moves on.
  predicate AnsweredRightly(s: System, s': System, r: RequestId)
    requires r in s'.requests
  {
    match s'.requests[r]
    case Answered(d, kind, c, created) =>
      && c < |s'.db.commands| && ActiveFor(s'.db.commands[c], d, kind) && s'.db.commands[c].active
      && (created <==> c == |s.db.commands|)
    case Inserting(d, kind) =>
      forall c | 0 <= c < |s.db.commands| :: !ActiveFor(s.db.commands[c], d, kind)
    case Conflicted(d, kind) =>
      exists c :: 0 <= c < |s.db.commands| && ActiveFor(s.db.commands[c], d, kind)
    case Abandoned =>
      r in s.requests && s.requests[r].Conflicted?
      && forall c | 0 <= c < |s.db.commands| ::
           !ActiveFor(s.db.commands[c], s.requests[r].deployment, s.requests[r].kind)
  }

  lemma KeyedIsActive(db: Db)
    requires CommandsOk(db)
    ensures forall c, d, kind | 0 <= c < |db.commands| ::
              KeyedFor(db.commands[c], d, kind) <==> ActiveFor(db.commands[c], d, kind)
  {
    forall c, d, kind | 0 <= c < |db.commands|
      ensures KeyedFor(db.commands[c], d, kind) <==> ActiveFor(db.commands[c], d, kind)
    {
      assert CommandOk(db, c);
    }
  }

  lemma LookUpAnswers(s: System, r: RequestId, d: Id, kind: CommandKind)
    requires CommandsOk(s.db) && r !in s.requests && r in ApplyLookUp(s, r, d, kind).requests
    ensures AnsweredRightly(s, ApplyLookUp(s, r, d, kind), r)
  {
    KeyedIsActive(s.db);
  }

  lemma InsertAnswers(s: System, r: RequestId)
    requires CommandsOk(s.db) && r in s.requests && s.requests[r].Inserting?
    ensures AnsweredRightly(s, ApplyInsert(s, r), r)
  {
    KeyedIsActive(s.db);
    var Inserting(d, kind) := s.requests[r];
    match FirstKeyed(s.db.commands, d, kind, 0)
    case Some(c) => assert ActiveFor(s.db.commands[c], d, kind);
    case None =>
  }

  lemma LookUpAgainAnswers(s: System, r: RequestId)
    requires CommandsOk(s.db) && r in s.requests && s.requests[r].Conflicted?
    ensures AnsweredRightly(s, ApplyLookUpAgain(s, r), r)
  {
    KeyedIsActive(s.db);
  }

  // Whatever race decided it, an answered request was given the command active for what it asked;
  // it inserts only after finding none, and is abandoned only when that command has already ended.
  lemma RequestsAreAnsweredRightly(cfg: Config, s: System, step: Step)
    requires Reachable(cfg, s) && IsRequestStep(step)
    requires Next(cfg, s, step).requests != s.requests
    ensures step.request in Next(cfg, s, step).requests
    ensures AnsweredRightly(s, Next(cfg, s, step), step.request)
  {
    ReachableInv(cfg, s);
    match step
    case LookUp(r, d, kind) => LookUpAnswers(s, r, d, kind);
    case Insert(r) => InsertAnswers(s, r);
    case LookUpAgain(r) => LookUpAgainAnswers(s, r);
  }

  // Each command is ended at most once in a run, and the status it was given is the one it keeps.
  lemma SingleCompletion(cfg: Config, s: System, i: nat, j: nat)
    requires Reachable(cfg, s)
    requires i < |s.history| && j < |s.history| && s.history[i].Finished? && s.history[j].Finished?
    ensures s.history[i].command == s.history[j].command ==> i == j
    ensures s.history[i].command < |s.db.commands|
    ensures s.db.commands[s.history[i].command].status == s.history[i].outcome
    ensures !ActiveStatus(s.history[i].outcome)
  {
    ReachableInv(cfg, s);
    assert FinishOk(s, i);
    if i < j { assert EndDifferent(s.history[i], s.history[j]); }
    if j < i { assert EndDifferent(s.history[j], s.history[i]); }
  }

  /******* Shared Helm releases *******/

  lemma NewerOwnerIsNext(deployments: seq<Deployment>, d: Id, from: Id)
    requires d < |deployments| && from <= |deployments|
    ensures var r := NewerOwner(deployments, d, from);
            && (r.Some? ==> from <= r.value < |deployments| && SameGroup(deployments[r.value], deployments[d])
                            && forall k | from <= k < r.value :: !SameGroup(deployments[k], deployments[d]))
            && (r.None? ==> forall k | from <= k < |deployments| :: !SameGroup(deployments[k], deployments[d]))
    decreases |deployments| - from
  {
  }

  predicate Newest(deployments: seq<Deployment>, d: Id)
    requires d < |deployments|
  {
    forall k | d < k < |deployments| :: !SameGroup(deployments[k], deployments[d])
  }

  lemma NewestIff(deployments: seq<Deployment>, d: Id)
    requires d < |deployments|
    ensures NewerHelmOwner(deployments, d).None? <==> Newest(deployments, d)
  {
    NewerOwnerIsNext(deployments, d, d + 1);
  }

  // The owner found is the newest of the group exactly when the group has only one newer member.
  lemma OwnerIsNewestIff(deployments: seq<Deployment>, d: Id)
    requires d < |deployments| && NewerHelmOwner(deployments, d).Some?
    ensures NewerHelmOwner(deployments, d).value < |deployments|
    ensures Newest(deployments, NewerHelmOwner(deployments, d).value) <==>
              forall a, b | d < a < b < |deployments| ::
                !(SameGroup(deployments[a], deployments[d]) && SameGroup(deployments[b], deployments[d]))
  {
    NewerOwnerIsNext(deployments, d, d + 1);
    var next := NewerHelmOwner(deployments, d).value;
    if !Newest(deployments, next) {
      var k :| next < k < |deployments| && SameGroup(deployments[k], deployments[next]);
      assert SameGroup(deployments[k], deployments[d]);
    } else {
      forall a, b | d < a < b < |deployments|
        ensures !(SameGroup(deployments[a], deployments[d]) && SameGroup(deployments[b], deployments[d]))
      {
        assert SameGroup(deployments[b], deployments[d]) ==> SameGroup(deployments[b], deployments[next]);
      }
    }
  }

  // Of three deployments of one group the first is told the second, which the third has replaced.
  lemma SecondOfThreeIsFound(row: Deployment)
    ensures var group := [row, row, row];
            NewerHelmOwner(group, 0) == Some(1) && !Newest(group, 1)
  {
    var group := [row, row, row];
    assert SameGroup(group[1], group[0]) && SameGroup(group[2], group[1]);
  }

  // Exactly one member of the group of d has no newer owner.
  lemma OneReleaseOwner(deployments: seq<Deployment>, d: Id)
    requires d < |deployments|
    ensures exists o: Id :: o < |deployments| && SameGroup(deployments[o], deployments[d])
                        && NewerHelmOwner(deployments, o).None?
    ensures forall a: Id, b: Id | a < |deployments| && b < |deployments|
                    && SameGroup(deployments[a], deployments[d]) && SameGroup(deployments[b], deployments[d])
                    && NewerHelmOwner(deployments, a).None? && NewerHelmOwner(deployments, b).None? :: a == b
    decreases |deployments| - d
  {
    forall a: Id, b: Id | a < |deployments| && b < |deployments|
                  && SameGroup(deployments[a], deployments[d]) && SameGroup(deployments[b], deployments[d])
                  && NewerHelmOwner(deployments, a).None? && NewerHelmOwner(deployments, b).None?
      ensures a == b
    {
      assert SameGroup(deployments[a], deployments[b]) && SameGroup(deployments[b], deployments[a]);
      NewestIff(deployments, a);
      NewestIff(deployments, b);
    }
    NewerOwnerIsNext(deployments, d, d + 1);
    match NewerHelmOwner(deployments, d)
    case None =>
    case Some(next) => OneReleaseOwner(deployments, next);
  }

  // A stop reaches a Helm-managed workload, by command or by repair, only from the newest deployment
  // of its project and environment.
  lemma StopsRespectReleaseOwner(cfg: Config, s: System, step: Step)
    requires var h' := Next(cfg, s, step).history;
             |h'| == |s.history| + 1 && h'[|s.history|].StopCalled?
    ensures var d := Next(cfg, s, step).history[|s.history|].deployment;
            d < |s.db.deployments| && (HelmManaged(s.db.deployments[d]) ==> Newest(s.db.deployments, d))
  {
    var d := Next(cfg, s, step).history[|s.history|].deployment;
    if d < |s.db.deployments| {
      NewestIff(s.db.deployments, d);
    }
  }

  /******* Orphans *******/

  // In every run, work in progress without an owner has a stop command in its history.
  lemma NoUnexplainedOrphan(cfg: Config, s: System, d: Id)
    requires Reachable(cfg, s) && d < |s.db.deployments|
    requires InProgress(s.db.deployments[d].status) && s.db.deployments[d].claimedAt.None?
    ensures exists c | 0 <= c < |s.db.commands| :: s.db.commands[c].deployment == d && s.db.commands[c].kind == Stop
  {
    ReachableInv(cfg, s);
    assert Orphaned(s.db.deployments[d]);
    assert HasStop(s.db, d);
  }

  // The repair rules touch work in progress exactly when its claim is stale, or when its target can
  // be recovered from preflight; in the latter case its status stays as it is.
  lemma OnlyStaleWorkIsRepaired(rule: Rule, ttl: nat, now: Time, rows: seq<Deployment>, d: Id, rt: Runtime, ex: Executor)
    requires d < |rows| && RowOk(rows[d]) && InProgress(rows[d].status)
    ensures var outcome := ApplyRule(rule, ttl, now, rows, d, rt, ex);
            (outcome.Repaired? && outcome.row.status != rows[d].status) <==>
              (rule.StaleClaim? && Stale(rows[d].claimedAt, now, ttl))
    ensures var outcome := ApplyRule(rule, ttl, now, rows, d, rt, ex);
            outcome.Repaired? && outcome.row.status != rows[d].status ==>
              outcome.row.status == Failed && outcome.row.build == BuildFailed && outcome.row.claimedAt.None?
  {
  }
}
