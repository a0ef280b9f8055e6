/**
  Who writes the end of a command. A worker goes by the id it reads back from the row after its claim
  was committed, so a command taken by another worker in between is ended in that worker's name.
  worker/processing/command_processor.py.
 */
module CommandWriters {
  import opened Basics
  import opened Records
  import opened Transactions
  import opened Protocol
  import opened ProtocolInvariants
  import opened ProtocolTheorems
  import opened StrandedWork

  /******* What the history says *******/

  predicate Takes(entry: Entry, c: Id) {
    entry.Taken? && entry.command == c
  }

  // p claims a command or reads one back.
  predicate Engages(entry: Entry, p: ProcessId) {
    (entry.Taken? || entry.Adopted?) && entry.process == p
  }

  predicate Untaken(h: seq<Entry>, c: Id, from: nat, to: nat) {
    forall k | from <= k < to && k < |h| :: !Takes(h[k], c)
  }

  predicate Unengaged(h: seq<Entry>, p: ProcessId, from: nat, to: nat) {
    forall k | from <= k < to && k < |h| :: !Engages(h[k], p)
  }

  // p's latest claim is of c, at t, and it has not read the row back yet.
  predicate ClaimedAt(h: seq<Entry>, c: Id, p: ProcessId, t: nat) {
    t < |h| && h[t] == Taken(c, p) && Unengaged(h, p, t + 1, |h|)
  }

  // p's latest claim is of c, at t, and at r it read id back from the row.
  predicate ReadAt(h: seq<Entry>, c: Id, p: ProcessId, id: WorkerName, t: nat, r: nat) {
    && t < r < |h| && h[t] == Taken(c, p) && h[r] == Adopted(c, p, id)
    && Unengaged(h, p, t + 1, r) && Unengaged(h, p, r + 1, |h|)
  }

  // The id read back is p's own exactly when nobody took the command between claim and read-back.
  predicate Earned(cfg: Config, h: seq<Entry>, c: Id, p: ProcessId, id: WorkerName, t: nat, r: nat) {
    id == cfg.name(p) <==> Untaken(h, c, t + 1, r)
  }

  /******* Invariants *******/

  predicate LastTake(h: seq<Entry>, c: Id, t: nat) {
    t < |h| && Takes(h[t], c) && Untaken(h, c, t + 1, |h|)
  }

  predicate NamedAt(cfg: Config, s: System, c: Id, t: nat)
    requires c < |s.db.commands|
  {
    LastTake(s.history, c, t) && s.db.commands[c].claimedBy == Some(cfg.name(s.history[t].process))
  }

  // A claimed command names whoever took it last.
  predicate ClaimNamed(cfg: Config, s: System, c: Id)
    requires c < |s.db.commands|
  {
    s.db.commands[c].status == CommandClaimed ==> exists t | 0 <= t < |s.history| :: NamedAt(cfg, s, c, t)
  }

  ghost predicate ClaimsNamed(cfg: Config, s: System) {
    forall c | 0 <= c < |s.db.commands| :: ClaimNamed(cfg, s, c)
  }

  // The id was earned, or it is p's own by default and the command is not claimed in p's name.
  predicate ReadRightly(cfg: Config, s: System, c: Id, p: ProcessId, id: WorkerName, t: nat, r: nat)
    requires c < |s.db.commands|
  {
    && ReadAt(s.history, c, p, id, t, r)
    && (Earned(cfg, s.history, c, p, id, t, r)
        || (id == cfg.name(p) && s.db.commands[c].claimedBy != Some(cfg.name(p))))
  }

  predicate ActorRecorded(cfg: Config, s: System, p: ProcessId) {
    Doing(s, p).Commanding? ==>
      var Commanding(c, id, phase) := Doing(s, p);
      && c < |s.db.commands|
      && if phase.Reading? then exists t | 0 <= t < |s.history| :: ClaimedAt(s.history, c, p, t)
         else exists t, r | 0 <= t < |s.history| && 0 <= r < |s.history| :: ReadRightly(cfg, s, c, p, id, t, r)
  }

  ghost predicate ActorsRecorded(cfg: Config, s: System) {
    forall p :: ActorRecorded(cfg, s, p)
  }

  predicate EndEarned(cfg: Config, h: seq<Entry>, i: nat)
    requires i < |h|
  {
    h[i].Finished? ==>
      var Finished(c, p, _, holder) := h[i];
      exists t, r | 0 <= t < i && 0 <= r < i :: ReadAt(h[..i], c, p, holder, t, r) && Earned(cfg, h[..i], c, p, holder, t, r)
  }

  predicate EndsEarned(cfg: Config, s: System) {
    forall i | 0 <= i < |s.history| :: EndEarned(cfg, s.history, i)
  }

  ghost predicate WritersInv(cfg: Config, s: System) {
    ClaimsNamed(cfg, s) && ActorsRecorded(cfg, s) && EndsEarned(cfg, s)
  }

  /******* What a step adds *******/

  // The claim column of a command changes by its end, or by a process that takes the command.
  lemma ClaimWrites(cfg: Config, s: System, step: Step, c: Id)
    requires CommandsOk(s.db) && c < |s.db.commands|
    ensures c < |Next(cfg, s, step).db.commands|
    ensures var command, command' := s.db.commands[c], Next(cfg, s, step).db.commands[c];
            || (command'.claimedBy == command.claimedBy && command'.status == command.status)
            || (command'.claimedBy.None? && !ActiveStatus(command'.status))
            || (&& step.TakeCommand? && step.command == c && Doing(s, step.process).Idle?
                && command'.claimedBy == Some(cfg.name(step.process))
                && Next(cfg, s, step).history == s.history + [Taken(c, step.process)])
  {
    StepGrows(cfg, s, step);
    assert CommandOk(s.db, c);
    match step
    case Advance(p, e) => AdvanceRows(cfg, s, p, e);
    case AdvanceCommand(p, e) => AdvanceCommandWrites(cfg, s, p, e);
    case LookUp(r, d, kind) => RequestGrows(s, r, d, kind);
    case LookUpAgain(r) => RequestGrows(s, r, 0, Stop);
    case _ =>
  }

  // Taking and reading back are recorded, by the process that does it, and by no other step.
  lemma EngagementRecorded(cfg: Config, s: System, step: Step)
    requires var h' := Next(cfg, s, step).history;
             |h'| == |s.history| + 1 && (h'[|s.history|].Taken? || h'[|s.history|].Adopted?)
    ensures var entry := Next(cfg, s, step).history[|s.history|];
            if entry.Taken? then
              step == TakeCommand(entry.process, entry.command) && Doing(s, entry.process).Idle?
              && Doing(Next(cfg, s, step), entry.process) == Commanding(entry.command, cfg.name(entry.process), Reading)
            else
              step.AdvanceCommand? && step.process == entry.process && Doing(s, entry.process).Commanding?
              && Doing(s, entry.process).phase.Reading? && Doing(s, entry.process).command == entry.command
  {
    match step
    case Advance(p, e) => AdvanceHistory(cfg, s, p, e);
    case LookUp(_, _, _) => RequestsFramed(cfg, s, step);
    case Insert(_) => RequestsFramed(cfg, s, step);
    case LookUpAgain(_) => RequestsFramed(cfg, s, step);
    case _ =>
  }

  lemma AdvanceHistory(cfg: Config, s: System, p: ProcessId, e: Execution)
    ensures var h' := ApplyAdvance(cfg, s, p, e).history;
            h' == s.history || (|h'| == |s.history| + 1 && h'[|s.history|].Started?)
  {
  }

  /******* Claims *******/

  lemma ClaimNamedKept(cfg: Config, s: System, step: Step, c: Id)
    requires CommandsOk(s.db) && ClaimsNamed(cfg, s) && c < |Next(cfg, s, step).db.commands|
    ensures ClaimNamed(cfg, Next(cfg, s, step), c)
  {
    var s' := Next(cfg, s, step);
    var n := |s.history|;
    HistoryGrows(cfg, s, step);
    CommandsAdded(cfg, s, step);
    if c < |s.db.commands| && s'.db.commands[c].status == CommandClaimed {
      ClaimWrites(cfg, s, step, c);
      if s'.db.commands[c].claimedBy == s.db.commands[c].claimedBy && s.db.commands[c].status == CommandClaimed
         && !(|s'.history| == n + 1 && Takes(s'.history[n], c)) {
        assert ClaimNamed(cfg, s, c);
        var t :| 0 <= t < n && NamedAt(cfg, s, c, t);
        TakeStays(s.history, s'.history, c, t);
        assert NamedAt(cfg, s', c, t);
      } else {
        TakenNow(cfg, s, step, c);
        assert NamedAt(cfg, s', c, n);
      }
    }
  }

  lemma TakeStays(h: seq<Entry>, h': seq<Entry>, c: Id, t: nat)
    requires h' == h || (|h'| == |h| + 1 && h'[..|h|] == h && !Takes(h'[|h|], c))
    requires LastTake(h, c, t)
    ensures LastTake(h', c, t) && h'[t] == h[t]
  {
    forall k | 0 <= k < |h| ensures h'[k] == h[k] {
      assert h'[..|h|][k] == h'[k];
    }
  }

  lemma TakenNow(cfg: Config, s: System, step: Step, c: Id)
    requires CommandsOk(s.db) && c < |s.db.commands| && Next(cfg, s, step).db.commands[c].status == CommandClaimed
    requires var s' := Next(cfg, s, step);
             !(s'.db.commands[c].claimedBy == s.db.commands[c].claimedBy && s.db.commands[c].status == CommandClaimed
               && !(|s'.history| == |s.history| + 1 && Takes(s'.history[|s.history|], c)))
    ensures step.TakeCommand? && step.command == c
    ensures Next(cfg, s, step).history == s.history + [Taken(c, step.process)]
    ensures Next(cfg, s, step).db.commands[c].claimedBy == Some(cfg.name(step.process))
  {
    ClaimWrites(cfg, s, step, c);
    if |Next(cfg, s, step).history| == |s.history| + 1 && Takes(Next(cfg, s, step).history[|s.history|], c) {
      EngagementRecorded(cfg, s, step);
    }
  }

  /******* Processes *******/

  predicate Extends(h: seq<Entry>, h': seq<Entry>) {
    h' == h || (|h'| == |h| + 1 && h'[..|h|] == h)
  }

  lemma ExtendsAt(h: seq<Entry>, h': seq<Entry>)
    requires Extends(h, h')
    ensures forall k | 0 <= k < |h| :: h'[k] == h[k]
  {
    forall k | 0 <= k < |h| ensures h'[k] == h[k] {
      assert h'[..|h|][k] == h'[k];
    }
  }

  lemma UntakenStays(h: seq<Entry>, h': seq<Entry>, c: Id, from: nat, to: nat)
    requires Extends(h, h') && to <= |h|
    ensures Untaken(h', c, from, to) <==> Untaken(h, c, from, to)
  {
    ExtendsAt(h, h');
    forall k | from <= k < to ensures Takes(h'[k], c) <==> Takes(h[k], c) {}
  }

  lemma ClaimStays(h: seq<Entry>, h': seq<Entry>, c: Id, p: ProcessId, t: nat)
    requires Extends(h, h') && (|h'| == |h| + 1 ==> !Engages(h'[|h|], p)) && ClaimedAt(h, c, p, t)
    ensures ClaimedAt(h', c, p, t)
  {
    ExtendsAt(h, h');
  }

  lemma ReadStays(cfg: Config, h: seq<Entry>, h': seq<Entry>, c: Id, p: ProcessId, id: WorkerName, t: nat, r: nat)
    requires Extends(h, h') && (|h'| == |h| + 1 ==> !Engages(h'[|h|], p)) && ReadAt(h, c, p, id, t, r)
    ensures ReadAt(h', c, p, id, t, r) && Earned(cfg, h', c, p, id, t, r) == Earned(cfg, h, c, p, id, t, r)
  {
    ExtendsAt(h, h');
    UntakenStays(h, h', c, t + 1, r);
  }

  predicate SameEngagement(a: Activity, b: Activity) {
    a.Commanding? && b.Commanding? && a.command == b.command && a.identity == b.identity
    && (a.phase.Reading? <==> b.phase.Reading?)
  }

  // A process that neither takes nor reads back in this step keeps its record.
  lemma RecordStays(cfg: Config, s: System, step: Step, p: ProcessId)
    requires AllDistinct(cfg) && CommandsOk(s.db) && ActorRecorded(cfg, s, p)
    requires SameEngagement(Doing(s, p), Doing(Next(cfg, s, step), p))
    requires var h' := Next(cfg, s, step).history; |h'| == |s.history| + 1 ==> !Engages(h'[|s.history|], p)
    ensures ActorRecorded(cfg, Next(cfg, s, step), p)
  {
    var s' := Next(cfg, s, step);
    var Commanding(c, id, phase) := Doing(s, p);
    HistoryGrows(cfg, s, step);
    ClaimWrites(cfg, s, step, c);
    if phase.Reading? {
      var t :| 0 <= t < |s.history| && ClaimedAt(s.history, c, p, t);
      ClaimStays(s.history, s'.history, c, p, t);
    } else {
      var t, r :| 0 <= t < |s.history| && 0 <= r < |s.history| && ReadRightly(cfg, s, c, p, id, t, r);
      ReadStays(cfg, s.history, s'.history, c, p, id, t, r);
      if step.TakeCommand? { assert DistinctNames(cfg, p, step.process); }
      assert ReadRightly(cfg, s', c, p, id, t, r);
    }
  }

  // Reading back: whoever took the command last is the one the row names.
  lemma ReadBackRecorded(cfg: Config, s: System, p: ProcessId, c: Id, t: nat)
    requires AllDistinct(cfg) && CommandsOk(s.db) && ClaimsNamed(cfg, s) && c < |s.db.commands|
    requires ClaimedAt(s.history, c, p, t)
    ensures var id := ReadBack(s.db.commands[c], cfg.name(p));
            var h' := s.history + [Adopted(c, p, id)];
            ReadAt(h', c, p, id, t, |s.history|)
            && (Earned(cfg, h', c, p, id, t, |s.history|)
                || (id == cfg.name(p) && s.db.commands[c].claimedBy != Some(cfg.name(p))))
  {
    var id := ReadBack(s.db.commands[c], cfg.name(p));
    var h' := s.history + [Adopted(c, p, id)];
    UntakenStays(s.history, h', c, t + 1, |s.history|);
    assert CommandOk(s.db, c) && ClaimNamed(cfg, s, c);
    if s.db.commands[c].claimedBy.Some? {
      var k :| 0 <= k < |s.history| && NamedAt(cfg, s, c, k);
      assert DistinctNames(cfg, p, s.history[k].process);
      if k == t {
        assert Untaken(s.history, c, t + 1, |s.history|);
      } else {
        assert k > t && !Engages(s.history[k], p);
        assert Takes(s.history[k], c) && !Untaken(s.history, c, t + 1, |s.history|);
      }
    }
  }

  lemma ActorRecordedKept(cfg: Config, s: System, step: Step, p: ProcessId)
    requires AllDistinct(cfg) && Inv(s) && WritersInv(cfg, s)
    ensures ActorRecorded(cfg, Next(cfg, s, step), p)
  {
    var s' := Next(cfg, s, step);
    var n := |s.history|;
    HistoryGrows(cfg, s, step);
    assert ActorRecorded(cfg, s, p);
    if Doing(s', p).Commanding? {
      WasCommanding(cfg, s, step, p);
      if |s'.history| == n + 1 && Engages(s'.history[n], p) {
        EngagementRecorded(cfg, s, step);
        if s'.history[n].Taken? {
          StepGrows(cfg, s, step);
          assert ClaimedAt(s'.history, step.command, p, n);
        } else {
          ReadRecorded(cfg, s, p, step.execution);
        }
      } else {
        SameIdentity(cfg, s, step, p);
        RecordStays(cfg, s, step, p);
      }
    }
  }

  lemma ReadRecorded(cfg: Config, s: System, p: ProcessId, e: Execution)
    requires AllDistinct(cfg) && CommandsOk(s.db) && ClaimsNamed(cfg, s) && ActorRecorded(cfg, s, p)
    requires Doing(s, p).Commanding? && Doing(s, p).phase.Reading?
    requires ApplyAdvanceCommand(cfg, s, p, e).history != s.history
    ensures ActorRecorded(cfg, ApplyAdvanceCommand(cfg, s, p, e), p)
  {
    var c := Doing(s, p).command;
    var t :| 0 <= t < |s.history| && ClaimedAt(s.history, c, p, t);
    ReadBackRecorded(cfg, s, p, c, t);
    var id := ReadBack(s.db.commands[c], cfg.name(p));
    assert ReadRightly(cfg, ApplyAdvanceCommand(cfg, s, p, e), c, p, id, t, |s.history|);
  }

  lemma AdvanceCommandIdentity(cfg: Config, s: System, q: ProcessId, e: Execution, p: ProcessId)
    requires Doing(ApplyAdvanceCommand(cfg, s, q, e), p).Commanding?
    requires var h' := ApplyAdvanceCommand(cfg, s, q, e).history;
             !(|h'| == |s.history| + 1 && Engages(h'[|s.history|], p))
    ensures SameEngagement(Doing(s, p), Doing(ApplyAdvanceCommand(cfg, s, q, e), p))
  {
  }

  // Between engagements a process keeps its command and its id.
  lemma SameIdentity(cfg: Config, s: System, step: Step, p: ProcessId)
    requires Doing(Next(cfg, s, step), p).Commanding?
    requires var h' := Next(cfg, s, step).history; !(|h'| == |s.history| + 1 && Engages(h'[|s.history|], p))
    ensures SameEngagement(Doing(s, p), Doing(Next(cfg, s, step), p))
  {
    match step
    case Advance(q, e) => AdvanceActivity(cfg, s, q, e, p);
    case AdvanceCommand(q, e) => AdvanceCommandIdentity(cfg, s, q, e, p);
    case LookUp(_, _, _) => RequestsFramed(cfg, s, step);
    case Insert(_) => RequestsFramed(cfg, s, step);
    case LookUpAgain(_) => RequestsFramed(cfg, s, step);
    case _ =>
  }

  /******* Ends *******/

  lemma EndsEarnedKept(cfg: Config, s: System, step: Step)
    requires AllDistinct(cfg) && Inv(s) && WritersInv(cfg, s)
    ensures EndsEarned(cfg, Next(cfg, s, step))
  {
    var h, h' := s.history, Next(cfg, s, step).history;
    HistoryGrows(cfg, s, step);
    forall i | 0 <= i < |h'| ensures EndEarned(cfg, h', i) {
      if i < |h| {
        ExtendsAt(h, h');
        assert EndEarned(cfg, h, i) && h'[..i] == h[..i];
      } else if h'[i].Finished? {
        assert h'[..i] == h;
        FinishRecorded(cfg, s, step);
        EndEarnedNow(cfg, s, h'[i].process, h'[i].holder);
      }
    }
  }

  // Whoever owns the command by the id it goes by earned that id.
  lemma EndEarnedNow(cfg: Config, s: System, p: ProcessId, holder: WorkerName)
    requires ActorsRecorded(cfg, s) && Doing(s, p).Commanding? && !Doing(s, p).phase.Reading?
    requires Doing(s, p).identity == holder && Doing(s, p).command < |s.db.commands|
    requires OwnsCommand(s.db.commands[Doing(s, p).command], holder)
    ensures var c := Doing(s, p).command;
            exists t, r | 0 <= t < |s.history| && 0 <= r < |s.history| ::
              ReadAt(s.history, c, p, holder, t, r) && Earned(cfg, s.history, c, p, holder, t, r)
  {
    assert ActorRecorded(cfg, s, p);
    var t, r :| 0 <= t < |s.history| && 0 <= r < |s.history| && ReadRightly(cfg, s, Doing(s, p).command, p, holder, t, r);
    assert ReadAt(s.history, Doing(s, p).command, p, holder, t, r);
  }

  lemma {:induction false} RunsKeepWriters(cfg: Config, steps: seq<Step>)
    requires AllDistinct(cfg)
    ensures WritersInv(cfg, Run(cfg, Init, steps))
  {
    if steps != [] {
      var s, step := Run(cfg, Init, steps[..|steps| - 1]), steps[|steps| - 1];
      RunsKeepWriters(cfg, steps[..|steps| - 1]);
      RunsKeepInv(cfg, steps[..|steps| - 1]);
      forall c | 0 <= c < |Next(cfg, s, step).db.commands| ensures ClaimNamed(cfg, Next(cfg, s, step), c) {
        ClaimNamedKept(cfg, s, step, c);
      }
      forall p ensures ActorRecorded(cfg, Next(cfg, s, step), p) {
        ActorRecordedKept(cfg, s, step, p);
      }
      EndsEarnedKept(cfg, s, step);
    }
  }

  // In every run with distinct worker ids, behind every recorded end of a command c by a process p lie
  // p's last claim of c, at t, and its last read of the row, at r. The worker that the claim named at
  // the end is p itself exactly when nobody took c between t and r.
  lemma WriterIsClaimant(cfg: Config, s: System, i: nat)
    requires AllDistinct(cfg) && Reachable(cfg, s) && i < |s.history| && s.history[i].Finished?
    ensures var Finished(c, p, _, holder) := s.history[i];
            exists t, r | 0 <= t < i && 0 <= r < i ::
              ReadAt(s.history[..i], c, p, holder, t, r) && (holder == cfg.name(p) <==> Untaken(s.history, c, t + 1, r))
  {
    var steps :| Run(cfg, Init, steps) == s;
    RunsKeepWriters(cfg, steps);
    assert EndEarned(cfg, s.history, i);
    var Finished(c, p, _, holder) := s.history[i];
    var h := s.history[..i];
    var t, r :| 0 <= t < i && 0 <= r < i && ReadAt(h, c, p, holder, t, r) && Earned(cfg, h, c, p, holder, t, r);
    forall k | t + 1 <= k < r ensures Takes(h[k], c) <==> Takes(s.history[k], c) {}
    assert Untaken(h, c, t + 1, r) <==> Untaken(s.history, c, t + 1, r);
  }

  /******* It happens *******/

  // p takes a stop, is slow to read it back, q takes over the stale claim, and p ends it as q.
  lemma EndedInAnothersName(cfg: Config, p: ProcessId, q: ProcessId, r: RequestId) returns (s: System)
    requires p != q && cfg.name(q) != "" && cfg.name(p) != cfg.name(q)
    ensures Reachable(cfg, s)
    ensures exists i | 0 <= i < |s.history| ::
              s.history[i].Finished? && s.history[i].process == p && s.history[i].holder == cfg.name(q)
  {
    s := OnePendingDeployment(cfg);
    s := AskToStop(cfg, s, r);
    s := TakeStop(cfg, s, p);
    s := Wait(cfg, s, cfg.ttl + 1);
    s := TakeStop(cfg, s, q);
    s := AdoptAndBegin(cfg, s, p, cfg.name(q));
    s := FailCommand(cfg, s, p, cfg.name(q));
    assert s.history[|s.history| - 1] == Finished(0, p, CommandFailed, cfg.name(q));
  }
}
