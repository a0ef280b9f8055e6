/**
  Work that a stop left behind: in progress, unclaimed and with no active command. Exactly which step
  strands it, exactly which step frees it, and what every run that strands it has recorded.
 */
module StrandedWork {
  import opened Basics
  import opened Records
  import opened Transactions
  import opened Repair
  import opened Protocol
  import opened ProtocolInvariants
  import opened ProtocolTheorems

  predicate Quiet(command: Command) {
    !ActiveStatus(command.status) && !command.active
  }

  predicate Stranded(s: System, d: Id) {
    && d < |s.db.deployments| && Orphaned(s.db.deployments[d])
    && forall c | 0 <= c < |s.db.commands| && s.db.commands[c].deployment == d :: Quiet(s.db.commands[c])
  }

  /******* What frees it *******/

  // The step inserts a command, of either kind, for d.
  predicate InsertsFor(s: System, step: Step, d: Id) {
    && step.Insert? && step.request in s.requests && s.requests[step.request].Inserting?
    && s.requests[step.request].deployment == d
  }

  lemma AdvanceKeepsStranded(cfg: Config, s: System, p: ProcessId, e: Execution, d: Id)
    requires Stranded(s, d)
    ensures Stranded(ApplyAdvance(cfg, s, p, e), d)
  {
    match Doing(s, p)
    case Pipeline(d', stage) =>
      if d' == d && e.Success? { assert CheckClaim(s.db, d, cfg.name(p)).ClaimLost?; }
    case _ =>
  }

  lemma AdvanceCommandKeepsStranded(cfg: Config, s: System, p: ProcessId, e: Execution, d: Id)
    requires Stranded(s, d)
    ensures Stranded(ApplyAdvanceCommand(cfg, s, p, e), d)
  {
    AdvanceCommandWrites(cfg, s, p, e);
  }

  lemma ReconcileKeepsStranded(cfg: Config, s: System, d': Id, rule: Rule, rt: Runtime, ex: Executor, d: Id)
    requires Stranded(s, d)
    ensures Stranded(ApplyReconcile(cfg, s, d', rule, rt, ex), d)
  {
  }

  lemma InsertFrees(s: System, r: RequestId, d: Id)
    requires Stranded(s, d)
    ensures Stranded(ApplyInsert(s, r), d) <==> !InsertsFor(s, Insert(r), d)
  {
    if InsertsFor(s, Insert(r), d) {
      var kind := s.requests[r].kind;
      assert FirstKeyed(s.db.commands, d, kind, 0).None?;
      assert ApplyInsert(s, r).db.commands[|s.db.commands|] == NewCommand(d, kind);
    }
  }

  // No worker, no repair rule and no passage of time moves stranded work: only a new command for that
  // very deployment does, and any such command does.
  lemma StrandedUntilAskedAgain(cfg: Config, s: System, step: Step, d: Id)
    requires Stranded(s, d)
    ensures Stranded(Next(cfg, s, step), d) <==> !InsertsFor(s, step, d)
  {
    match step
    case Advance(p, e) => AdvanceKeepsStranded(cfg, s, p, e, d);
    case AdvanceCommand(p, e) => AdvanceCommandKeepsStranded(cfg, s, p, e, d);
    case Reconcile(d', rule, rt, ex) => ReconcileKeepsStranded(cfg, s, d', rule, rt, ex, d);
    case Insert(r) => InsertFrees(s, r, d);
    case LookUp(r, d', kind) => RequestGrows(s, r, d', kind);
    case LookUpAgain(r) => RequestGrows(s, r, 0, Stop);
    case _ =>
  }

  /******* What strands it *******/

  predicate OnlyActive(db: Db, c: Id, d: Id) {
    forall b | 0 <= b < |db.commands| && db.commands[b].deployment == d && ActiveStatus(db.commands[b].status) :: b == c
  }

  // The step ends c without a stop having succeeded: its executor failed, or it is skipped.
  predicate EndsWithoutStop(cfg: Config, s: System, step: Step, c: Id) {
    && step.AdvanceCommand? && Doing(s, step.process).Commanding? && Doing(s, step.process).command == c
    && c < |s.db.commands| && s.db.commands[c].deployment < |s.db.deployments|
    && OwnsCommand(s.db.commands[c], Doing(s, step.process).identity)
    && match Doing(s, step.process).phase
       case Ending(result) => !result.Success?
       case Checking => SkipsHistorical(s.db, s.db.commands[c].deployment)
       case _ => false
  }

  // It does so to the only active command of a deployment whose pipeline had let go of it.
  predicate Strands(cfg: Config, s: System, step: Step, d: Id) {
    && d < |s.db.deployments| && Orphaned(s.db.deployments[d])
    && step.AdvanceCommand? && Doing(s, step.process).Commanding?
    && var c := Doing(s, step.process).command;
       EndsWithoutStop(cfg, s, step, c) && s.db.commands[c].deployment == d && OnlyActive(s.db, c, d)
  }

  lemma EndsWithoutStopWrites(cfg: Config, s: System, step: Step, c: Id)
    requires CommandsOk(s.db) && EndsWithoutStop(cfg, s, step, c)
    ensures var db' := Next(cfg, s, step).db;
            db' == EndCommand(s.db, c, CommandFailed) || db' == EndCommand(s.db, c, CommandSkipped)
    ensures var h' := Next(cfg, s, step).history;
            |h'| == |s.history| + 1 && h'[|s.history|].Finished? && h'[|s.history|].command == c
            && (h'[|s.history|].outcome.CommandFailed? || h'[|s.history|].outcome.CommandSkipped?)
  {
    forall k | 0 <= k < |s.db.commands| ensures s.db.commands[k].deployment < |s.db.deployments| {
      assert CommandOk(s.db, k);
    }
  }

  lemma StrandsIsEnough(cfg: Config, s: System, step: Step, d: Id)
    requires CommandsOk(s.db) && Strands(cfg, s, step, d)
    ensures Stranded(Next(cfg, s, step), d)
  {
    var c := Doing(s, step.process).command;
    EndsWithoutStopWrites(cfg, s, step, c);
    forall b | 0 <= b < |s.db.commands| && b != c && s.db.commands[b].deployment == d ensures Quiet(s.db.commands[b]) {
      assert CommandOk(s.db, b);
    }
  }

  // Some command of d is still active before the step.
  lemma ActiveBefore(s: System, d: Id) returns (c: Id)
    requires CommandsOk(s.db) && d < |s.db.deployments| && Orphaned(s.db.deployments[d]) && !Stranded(s, d)
    ensures c < |s.db.commands| && s.db.commands[c].deployment == d && ActiveStatus(s.db.commands[c].status)
  {
    c :| 0 <= c < |s.db.commands| && s.db.commands[c].deployment == d && !Quiet(s.db.commands[c]);
    assert CommandOk(s.db, c);
  }

  // A row that comes out of a step orphaned went in so, or an active stop is what the step observed.
  lemma OrphanedBefore(cfg: Config, s: System, step: Step, d: Id)
    requires Stranded(Next(cfg, s, step), d)
    ensures d < |s.db.deployments| && Orphaned(s.db.deployments[d])
  {
    StepGrows(cfg, s, step);
    match step
    case Advance(p, e) => AdvanceOrphaned(cfg, s, p, e, d);
    case Reconcile(d', rule, rt, ex) => ReconcileOrphans(cfg, s, d', rule, rt, ex, d);
    case Heartbeat(p) => HeartbeatOrphaned(cfg, s, p, d);
    case AdvanceCommand(p, e) => AdvanceCommandWrites(cfg, s, p, e);
    case ClaimPending(p, d') => ClaimOrphaned(cfg, s, p, d', d);
    case Create(_, _, _) =>
    case _ => RowsFramed(cfg, s, step);
  }

  lemma ClaimOrphaned(cfg: Config, s: System, p: ProcessId, d': Id, d: Id)
    requires Stranded(ApplyClaim(cfg, s, p, d'), d)
    ensures d < |s.db.deployments| && Orphaned(s.db.deployments[d])
  {
  }

  lemma StopNotQuiet(db: Db, d: Id)
    requires StopActive(db, d)
    ensures exists c :: 0 <= c < |db.commands| && db.commands[c].deployment == d && !Quiet(db.commands[c])
  {
    var c :| 0 <= c < |db.commands| && IsStopFor(db.commands[c], d);
    assert !Quiet(db.commands[c]);
  }

  lemma AdvanceOrphaned(cfg: Config, s: System, p: ProcessId, e: Execution, d: Id)
    requires d < |s.db.deployments| && Stranded(ApplyAdvance(cfg, s, p, e), d)
    ensures Orphaned(s.db.deployments[d])
  {
    AdvanceRows(cfg, s, p, e);
    if ApplyAdvance(cfg, s, p, e).db.deployments != s.db.deployments && Doing(s, p).deployment == d {
      match CheckClaim(s.db, d, cfg.name(p))
      case Owned => StageRowOrphan(Doing(s, p).stage, s.db.deployments[d], s.db.now, e);
      case _ => StopNotQuiet(s.db, d);
    }
  }

  lemma HeartbeatOrphaned(cfg: Config, s: System, p: ProcessId, d: Id)
    requires d < |s.db.deployments| && Stranded(ApplyHeartbeat(cfg, s, p), d)
    ensures Orphaned(s.db.deployments[d])
  {
    if Doing(s, p).Pipeline? && Doing(s, p).deployment == d && CheckClaim(s.db, d, cfg.name(p)).CancellationRequested? {
      StopNotQuiet(s.db, d);
    }
  }

  // The active command can only have been ended, and a success would have stopped the deployment.
  lemma EndedByStep(cfg: Config, s: System, step: Step, d: Id, c: Id)
    requires CommandsOk(s.db) && Stranded(Next(cfg, s, step), d) && Orphaned(s.db.deployments[d])
    requires d < |s.db.deployments|
    requires c < |s.db.commands| && s.db.commands[c].deployment == d && ActiveStatus(s.db.commands[c].status)
    ensures EndsWithoutStop(cfg, s, step, c)
  {
    StepGrows(cfg, s, step);
    assert CommandMoves(s.db.commands[c], Next(cfg, s, step).db.commands[c]);
    assert CommandOk(s.db, c);
    match step
    case AdvanceCommand(p, e) => AdvanceCommandWrites(cfg, s, p, e);
    case _ => OnlyCommandStepsEnd(cfg, s, step, c);
  }

  lemma OnlyCommandStepsEnd(cfg: Config, s: System, step: Step, c: Id)
    requires !step.AdvanceCommand? && c < |s.db.commands| && ActiveStatus(s.db.commands[c].status)
    ensures c < |Next(cfg, s, step).db.commands| && ActiveStatus(Next(cfg, s, step).db.commands[c].status)
  {
    StepGrows(cfg, s, step);
    match step
    case Advance(p, e) => AdvanceRows(cfg, s, p, e);
    case LookUp(r, d', kind) => RequestGrows(s, r, d', kind);
    case LookUpAgain(r) => RequestGrows(s, r, 0, Stop);
    case _ =>
  }

  // Exactly what strands work, under any naming: ending the only active command of an unclaimed
  // deployment in progress by a failed executor or by the historical skip.
  lemma StrandedExactlyBy(cfg: Config, s: System, step: Step, d: Id)
    requires Inv(s) && !Stranded(s, d)
    ensures Stranded(Next(cfg, s, step), d) <==> Strands(cfg, s, step, d)
  {
    if Strands(cfg, s, step, d) {
      StrandsIsEnough(cfg, s, step, d);
    }
    if Stranded(Next(cfg, s, step), d) {
      OrphanedBefore(cfg, s, step, d);
      var c := ActiveBefore(s, d);
      EndedByStep(cfg, s, step, d, c);
      forall b | 0 <= b < |s.db.commands| && s.db.commands[b].deployment == d && ActiveStatus(s.db.commands[b].status)
        ensures b == c
      {
        EndedByStep(cfg, s, step, d, b);
      }
    }
  }

  /******* Over runs *******/

  predicate EndedWithoutStop(s: System, d: Id, i: nat)
    requires i < |s.history|
  {
    && s.history[i].Finished? && (s.history[i].outcome.CommandFailed? || s.history[i].outcome.CommandSkipped?)
    && s.history[i].command < |s.db.commands| && s.db.commands[s.history[i].command].deployment == d
  }

  predicate HasUnstoppedEnd(s: System, d: Id) {
    exists i | 0 <= i < |s.history| :: EndedWithoutStop(s, d, i)
  }

  lemma EndsStay(cfg: Config, s: System, step: Step, d: Id)
    requires HasUnstoppedEnd(s, d)
    ensures HasUnstoppedEnd(Next(cfg, s, step), d)
  {
    var i :| 0 <= i < |s.history| && EndedWithoutStop(s, d, i);
    var s' := Next(cfg, s, step);
    StepGrows(cfg, s, step);
    HistoryGrows(cfg, s, step);
    assert s'.history[..|s.history|][i] == s.history[i];
    assert CommandMoves(s.db.commands[s.history[i].command], s'.db.commands[s.history[i].command]);
    assert EndedWithoutStop(s', d, i);
  }

  lemma {:induction false} StrandedRuns(cfg: Config, steps: seq<Step>, d: Id)
    ensures Stranded(Run(cfg, Init, steps), d) ==> HasUnstoppedEnd(Run(cfg, Init, steps), d)
  {
    if steps != [] {
      var s, step := Run(cfg, Init, steps[..|steps| - 1]), steps[|steps| - 1];
      StrandedRuns(cfg, steps[..|steps| - 1], d);
      RunsKeepInv(cfg, steps[..|steps| - 1]);
      if HasUnstoppedEnd(s, d) {
        EndsStay(cfg, s, step, d);
      } else if Stranded(Next(cfg, s, step), d) {
        StrandedExactlyBy(cfg, s, step, d);
        var c := Doing(s, step.process).command;
        EndsWithoutStopWrites(cfg, s, step, c);
        assert EndedWithoutStop(Next(cfg, s, step), d, |s.history|);
      }
    }
  }

  // In every run stranded work has a command that failed or was skipped; where no command of a
  // deployment ever ended so, it is never stranded.
  lemma StrandedHasFailedEnd(cfg: Config, s: System, d: Id)
    requires Reachable(cfg, s) && Stranded(s, d)
    ensures exists i | 0 <= i < |s.history| ::
              && s.history[i].Finished? && (s.history[i].outcome.CommandFailed? || s.history[i].outcome.CommandSkipped?)
              && s.history[i].command < |s.db.commands| && s.db.commands[s.history[i].command].deployment == d
  {
    var steps :| Run(cfg, Init, steps) == s;
    StrandedRuns(cfg, steps, d);
    var i :| 0 <= i < |s.history| && EndedWithoutStop(s, d, i);
    assert s.history[i].Finished?;
  }

  /******* It happens *******/

  lemma AskToStop(cfg: Config, s: System, r: RequestId) returns (s': System)
    requires Reachable(cfg, s) && |s.db.deployments| == 1 && s.db.commands == [] && r !in s.requests
    ensures Reachable(cfg, s') && s'.db == s.db.(commands := [NewCommand(0, Stop)]) && s'.activity == s.activity
  {
    NextReachable(cfg, s, LookUp(r, 0, Stop));
    var mid := Next(cfg, s, LookUp(r, 0, Stop));
    assert FirstActive(s.db.commands, 0, Stop, 0).None?;
    assert mid.requests[r] == Inserting(0, Stop);
    NextReachable(cfg, mid, Insert(r));
    s' := Next(cfg, mid, Insert(r));
  }

  // The worker observes the stop, releases its claim and leaves the deployment cloning.
  lemma Acknowledge(cfg: Config, s: System, p: ProcessId) returns (s': System)
    requires Reachable(cfg, s) && CloningUnder(s, cfg.name(p)) && Doing(s, p) == Pipeline(0, CloneRepo)
    requires s.db.commands == [NewCommand(0, Stop)]
    ensures Reachable(cfg, s') && |s'.db.deployments| == 1 && s'.db.commands == s.db.commands
    ensures Orphaned(s'.db.deployments[0]) && s'.db.deployments[0].target == s.db.deployments[0].target
    ensures Doing(s', p) == Idle
  {
    assert IsStopFor(s.db.commands[0], 0);
    assert CheckClaim(s.db, 0, cfg.name(p)).CancellationRequested?;
    NextReachable(cfg, s, Heartbeat(p));
    s' := Next(cfg, s, Heartbeat(p));
  }

  lemma TakeStop(cfg: Config, s: System, p: ProcessId) returns (s': System)
    requires Reachable(cfg, s) && |s.db.deployments| == 1 && s.db.deployments[0].claimedAt.None?
    requires |s.db.commands| == 1 && Doing(s, p) == Idle
    requires var command := s.db.commands[0];
             command.deployment == 0 && ActiveStatus(command.status) && Claimable(command.claimedAt, s.db.now, cfg.ttl)
    ensures Reachable(cfg, s') && s'.db == ClaimCommand(s.db, 0, cfg.name(p))
    ensures s'.activity == s.activity[p := Commanding(0, cfg.name(p), Reading)]
    ensures s'.history == s.history + [Taken(0, p)]
  {
    NextReachable(cfg, s, TakeCommand(p, 0));
    assert Linked(s.db) && CommandClaimable(s.db, 0, cfg.ttl);
    s' := Next(cfg, s, TakeCommand(p, 0));
  }

  predicate OneClaimed(s: System, holder: WorkerName) {
    && |s.db.deployments| == 1 && s.db.deployments[0].target.None?
    && |s.db.commands| == 1 && s.db.commands[0].deployment == 0 && OwnsCommand(s.db.commands[0], holder)
  }

  lemma AdoptAndBegin(cfg: Config, s: System, p: ProcessId, holder: WorkerName) returns (s': System)
    requires Reachable(cfg, s) && OneClaimed(s, holder) && Doing(s, p) == Commanding(0, cfg.name(p), Reading)
    requires holder != "" || cfg.name(p) == ""
    ensures Reachable(cfg, s') && OneClaimed(s', holder) && s'.db.deployments == s.db.deployments
    ensures Doing(s', p) == Commanding(0, holder, Checking)
    ensures s'.history == s.history + [Adopted(0, p, holder)]
  {
    var step := AdvanceCommand(p, Internal);
    NextReachable(cfg, s, step);
    var mid := Next(cfg, s, step);
    assert Doing(mid, p) == Commanding(0, holder, Starting);
    NextReachable(cfg, mid, step);
    s' := Next(cfg, mid, step);
  }

  lemma FailCommand(cfg: Config, s: System, p: ProcessId, holder: WorkerName) returns (s': System)
    requires Reachable(cfg, s) && OneClaimed(s, holder) && Doing(s, p) == Commanding(0, holder, Checking)
    ensures Reachable(cfg, s') && s'.db.deployments == s.db.deployments
    ensures |s'.db.commands| == 1 && Quiet(s'.db.commands[0])
    ensures s'.history == s.history + [StopCalled(0), Finished(0, p, CommandFailed, holder)]
  {
    NextReachable(cfg, s, AdvanceCommand(p, StepError));
    var mid := Next(cfg, s, AdvanceCommand(p, StepError));
    assert Doing(mid, p) == Commanding(0, holder, Ending(StepError));
    NextReachable(cfg, mid, AdvanceCommand(p, Internal));
    s' := Next(cfg, mid, AdvanceCommand(p, Internal));
  }

  // A stop that interrupts a pipeline and then fails strands it: the deployment stays in progress
  // with no owner and no active command.
  lemma FailedStopStrands(cfg: Config, p: ProcessId, r: RequestId) returns (s: System)
    ensures Reachable(cfg, s) && Stranded(s, 0)
  {
    s := OnePendingDeployment(cfg);
    s := TakeOver(cfg, s, p);
    s := BeginCloning(cfg, s, p);
    s := AskToStop(cfg, s, r);
    s := Acknowledge(cfg, s, p);
    s := TakeStop(cfg, s, p);
    s := AdoptAndBegin(cfg, s, p, cfg.name(p));
    s := FailCommand(cfg, s, p, cfg.name(p));
  }
}
