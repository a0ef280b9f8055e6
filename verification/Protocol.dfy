/**
  The leased-work protocol as a transition system: workers, the reconciler and API requests
  interleave their committed transactions over one database. A step that is not enabled leaves the
  system as it is, so every sequence of steps is a run.
 */
module Protocol {
  import opened Basics
  import opened Lifecycle
  import opened Records
  import opened Transactions
  import opened Repair

  type ProcessId = nat
  type RequestId = nat

  // name gives the worker id each process was configured with; nothing forces two of them to differ.
  datatype Config = Config(ttl: nat, name: ProcessId -> WorkerName)

  predicate DistinctNames(cfg: Config, p: ProcessId, q: ProcessId) {
    cfg.name(p) == cfg.name(q) ==> p == q
  }

  ghost predicate AllDistinct(cfg: Config) {
    forall p, q :: DistinctNames(cfg, p, q)
  }

  // Reading lies between the commit of a claim and the read of the row that yields the identity.
  datatype Phase = Reading | Starting | Checking | Ending(result: Execution)

  datatype Activity =
    | Idle
    | Pipeline(deployment: Id, stage: Stage)
    | Commanding(command: Id, identity: WorkerName, phase: Phase)

  // An API request between its lookup and its answer. Abandoned is the re-raised IntegrityError.
  datatype Request =
    | Inserting(deployment: Id, kind: CommandKind)
    | Conflicted(deployment: Id, kind: CommandKind)
    | Answered(deployment: Id, kind: CommandKind, command: Id, created: bool)
    | Abandoned

  // What was committed, and by whom. History only grows and no step reads it. The holder of an end is
  // the worker the command's claim named when it was written.
  datatype Entry =
    | Started(deployment: Id, process: ProcessId, status: DeploymentStatus)
    | Taken(command: Id, process: ProcessId)
    | Adopted(command: Id, process: ProcessId, identity: WorkerName)
    | Finished(command: Id, process: ProcessId, outcome: CommandStatus, holder: WorkerName)
    | StopCalled(deployment: Id)

  datatype System = System(
    db: Db,
    activity: map<ProcessId, Activity>,
    requests: map<RequestId, Request>,
    history: seq<Entry>)

  datatype Step =
    | Tick(elapsed: nat)
    | Create(project: nat, environment: string, hasTests: bool)
    | ClaimPending(process: ProcessId, deployment: Id)
    | Advance(process: ProcessId, execution: Execution)
    | Heartbeat(process: ProcessId)
    | Crash(process: ProcessId)
    | LookUp(request: RequestId, deployment: Id, kind: CommandKind)
    | Insert(request: RequestId)
    | LookUpAgain(request: RequestId)
    | TakeCommand(process: ProcessId, command: Id)
    | AdvanceCommand(process: ProcessId, execution: Execution)
    | CommandHeartbeat(process: ProcessId)
    | Reconcile(deployment: Id, rule: Rule, rt: Runtime, ex: Executor)

  function Doing(s: System, p: ProcessId): Activity {
    if p in s.activity then s.activity[p] else Idle
  }

  function Become(s: System, p: ProcessId, a: Activity): System {
    s.(activity := s.activity[p := a])
  }

  const Init: System := System(Db(0, [], []), map[], map[], [])

  /******* Deployments *******/

  function ApplyClaim(cfg: Config, s: System, p: ProcessId, d: Id): System {
    if Doing(s, p).Idle? && d < |s.db.deployments|
       && DeploymentClaimable(s.db.deployments[d], s.db.now, cfg.ttl) then
      Become(s, p, Pipeline(d, StartClone)).(db := ClaimDeployment(s.db, d, cfg.name(p)))
    else s
  }

  function AfterStage(s: System, p: ProcessId, d: Id, stage: Stage): System
    requires d < |s.db.deployments|
  {
    if Ends(stage) then Become(s, p, Idle)
    else
      var s' := Become(s, p, Pipeline(d, NextStage(stage, s.db.deployments[d].hasTests)));
      match StartedBy(stage)
      case None => s'
      case Some(status) => s'.(history := s.history + [Started(d, p, status)])
  }

  // A refused transition is an internal error, handled by mark_failed; refused there, it ends the process.
  function ApplyStage(cfg: Config, s: System, p: ProcessId, d: Id, stage: Stage, result: Execution): System
    requires d < |s.db.deployments| && result.Success?
  {
    match StageTxn(s.db, d, cfg.name(p), stage, result)
    case Lost => Become(s, p, Idle)
    case Cancelled(db) => Become(s, p, Idle).(db := db)
    case Refused => Become(s, p, if stage == MarkFailed then Idle else Pipeline(d, MarkFailed))
    case Committed(db) => AfterStage(s.(db := db), p, d, stage)
  }

  function ApplyAdvance(cfg: Config, s: System, p: ProcessId, e: Execution): System {
    match Doing(s, p)
    case Pipeline(d, stage) =>
      if d >= |s.db.deployments| then s
      else if e.Success? then ApplyStage(cfg, s, p, d, stage, e)
      else Become(s, p, if stage == MarkFailed then Idle else Pipeline(d, MarkFailed))
    case _ => s
  }

  function ApplyHeartbeat(cfg: Config, s: System, p: ProcessId): System {
    match Doing(s, p)
    case Pipeline(d, stage) =>
      if d >= |s.db.deployments| then s
      else (
        match HeartbeatTxn(s.db, d, cfg.name(p))
        case Committed(db) => s.(db := db)
        case Cancelled(db) => Become(s, p, Idle).(db := db)
        case _ => Become(s, p, Idle))
    case _ => s
  }

  /******* Command requests *******/

  predicate ActiveFor(command: Command, d: Id, kind: CommandKind) {
    command.deployment == d && command.kind == kind && ActiveStatus(command.status)
  }

  predicate KeyedFor(command: Command, d: Id, kind: CommandKind) {
    command.deployment == d && command.kind == kind && command.active
  }

  function FirstActive(commands: seq<Command>, d: Id, kind: CommandKind, from: nat): (r: Option<Id>)
    requires from <= |commands|
    ensures r.Some? ==> from <= r.value < |commands| && ActiveFor(commands[r.value], d, kind)
    ensures r.None? ==> forall c | from <= c < |commands| :: !ActiveFor(commands[c], d, kind)
    decreases |commands| - from
  {
    if from == |commands| then None
    else if ActiveFor(commands[from], d, kind) then Some(from)
    else FirstActive(commands, d, kind, from + 1)
  }

  function FirstKeyed(commands: seq<Command>, d: Id, kind: CommandKind, from: nat): (r: Option<Id>)
    requires from <= |commands|
    ensures r.Some? ==> from <= r.value < |commands| && KeyedFor(commands[r.value], d, kind)
    ensures r.None? ==> forall c | from <= c < |commands| :: !KeyedFor(commands[c], d, kind)
    decreases |commands| - from
  {
    if from == |commands| then None
    else if KeyedFor(commands[from], d, kind) then Some(from)
    else FirstKeyed(commands, d, kind, from + 1)
  }

  // Any deployment may be stopped; cleanup is offered for Kubernetes deployments only.
  predicate MayRequest(db: Db, d: Id, kind: CommandKind) {
    d < |db.deployments| && (kind == Cleanup ==> db.deployments[d].target == Some(Kubernetes))
  }

  function ApplyLookUp(s: System, r: RequestId, d: Id, kind: CommandKind): System {
    if r in s.requests || !MayRequest(s.db, d, kind) then s
    else match FirstActive(s.db.commands, d, kind, 0)
      case Some(c) => s.(requests := s.requests[r := Answered(d, kind, c, false)])
      case None => s.(requests := s.requests[r := Inserting(d, kind)])
  }

  // The unique constraint on (deployment, kind, active_key) decides between racing inserts.
  function ApplyInsert(s: System, r: RequestId): System {
    if r !in s.requests || !s.requests[r].Inserting? then s
    else
      var Inserting(d, kind) := s.requests[r];
      if FirstKeyed(s.db.commands, d, kind, 0).Some? then
        s.(requests := s.requests[r := Conflicted(d, kind)])
      else
        s.(requests := s.requests[r := Answered(d, kind, |s.db.commands|, true)],
           db := s.db.(commands := s.db.commands + [NewCommand(d, kind)]))
  }

  function ApplyLookUpAgain(s: System, r: RequestId): System {
    if r !in s.requests || !s.requests[r].Conflicted? then s
    else
      var Conflicted(d, kind) := s.requests[r];
      match FirstKeyed(s.db.commands, d, kind, 0)
      case Some(c) => s.(requests := s.requests[r := Answered(d, kind, c, false)])
      case None => s.(requests := s.requests[r := Abandoned])
  }

  /******* Commands *******/

  function ApplyTakeCommand(cfg: Config, s: System, p: ProcessId, c: Id): System {
    if Doing(s, p).Idle? && Linked(s.db) && c < |s.db.commands| && CommandClaimable(s.db, c, cfg.ttl) then
      Become(s, p, Commanding(c, cfg.name(p), Reading)).(
        db := ClaimCommand(s.db, c, cfg.name(p)), history := s.history + [Taken(c, p)])
    else s
  }

  function EndProcess(s: System, p: ProcessId, c: Id, holder: WorkerName, db: Db, status: CommandStatus): System {
    Become(s, p, Idle).(db := db, history := s.history + [Finished(c, p, status, holder)])
  }

  function ApplyAdvanceCommand(cfg: Config, s: System, p: ProcessId, e: Execution): System {
    match Doing(s, p)
    case Commanding(c, id, phase) =>
      if !Linked(s.db) || c >= |s.db.commands| then s
      else
        var owned := OwnsCommand(s.db.commands[c], id);
        var d := s.db.commands[c].deployment;
        (match phase
         case Reading =>
           var read := ReadBack(s.db.commands[c], cfg.name(p));
           Become(s, p, Commanding(c, read, Starting)).(history := s.history + [Adopted(c, p, read)])
         case Starting =>
           if !owned then Become(s, p, Idle)
           else Become(s, p, Commanding(c, id, Checking)).(db := RefreshCommand(s.db, c))
         case Checking =>
           if !SkipsHistorical(s.db, d) then
             Become(s, p, Commanding(c, id, Ending(e))).(history := s.history + [StopCalled(d)])
           else if !owned then Become(s, p, Idle)
           else EndProcess(s, p, c, id, EndCommand(s.db, c, CommandSkipped), CommandSkipped)
         case Ending(result) =>
           if !owned then Become(s, p, Idle)
           else if result.Success? then
             EndProcess(s, p, c, id, CompleteCommand(s.db, c, result), CommandSucceeded)
           else EndProcess(s, p, c, id, EndCommand(s.db, c, CommandFailed), CommandFailed))
    case _ => s
  }

  // A lost command claim surfaces inside executor.stop and abandons the command. The heartbeat is
  // attached after the identity was read.
  function ApplyCommandHeartbeat(cfg: Config, s: System, p: ProcessId): System {
    match Doing(s, p)
    case Commanding(c, id, phase) =>
      if c >= |s.db.commands| || phase.Reading? then s
      else if OwnsCommand(s.db.commands[c], id) then s.(db := RefreshCommand(s.db, c))
      else Become(s, p, Idle)
    case _ => s
  }

  /******* The reconciler *******/

  function ApplyReconcile(cfg: Config, s: System, d: Id, rule: Rule, rt: Runtime, ex: Executor): System {
    if d >= |s.db.deployments| then s
    else
      var outcome := ApplyRule(rule, cfg.ttl, s.db.now, s.db.deployments, d, rt, ex);
      s.(db := if outcome.Repaired? then SetRow(s.db, d, outcome.row) else s.db,
         history := if CallsStop(outcome) then s.history + [StopCalled(d)] else s.history)
  }

  /******* Steps and runs *******/

  function Next(cfg: Config, s: System, step: Step): System {
    match step
    case Tick(elapsed) => s.(db := s.db.(now := s.db.now + elapsed))
    case Create(project, environment, hasTests) =>
      s.(db := s.db.(deployments := s.db.deployments + [NewDeployment(project, environment, hasTests)]))
    case ClaimPending(p, d) => ApplyClaim(cfg, s, p, d)
    case Advance(p, e) => ApplyAdvance(cfg, s, p, e)
    case Heartbeat(p) => ApplyHeartbeat(cfg, s, p)
    case Crash(p) => Become(s, p, Idle)
    case LookUp(r, d, kind) => ApplyLookUp(s, r, d, kind)
    case Insert(r) => ApplyInsert(s, r)
    case LookUpAgain(r) => ApplyLookUpAgain(s, r)
    case TakeCommand(p, c) => ApplyTakeCommand(cfg, s, p, c)
    case AdvanceCommand(p, e) => ApplyAdvanceCommand(cfg, s, p, e)
    case CommandHeartbeat(p) => ApplyCommandHeartbeat(cfg, s, p)
    case Reconcile(d, rule, rt, ex) => ApplyReconcile(cfg, s, d, rule, rt, ex)
  }

  function Run(cfg: Config, s: System, steps: seq<Step>): System {
    if steps == [] then s else Next(cfg, Run(cfg, s, steps[..|steps| - 1]), steps[|steps| - 1])
  }

  // The states of all runs.
  ghost predicate Reachable(cfg: Config, s: System) {
    exists steps :: Run(cfg, Init, steps) == s
  }

  lemma InitReachable(cfg: Config)
    ensures Reachable(cfg, Init)
  {
    assert Run(cfg, Init, []) == Init;
  }

  lemma NextReachable(cfg: Config, s: System, step: Step)
    requires Reachable(cfg, s)
    ensures Reachable(cfg, Next(cfg, s, step))
  {
    var steps :| Run(cfg, Init, steps) == s;
    assert (steps + [step])[..|steps|] == steps;
    assert Run(cfg, Init, steps + [step]) == Next(cfg, s, step);
  }
}
