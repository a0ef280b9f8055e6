/**
  The reconciler: one pass applies the ordered rules to every deployment. Each counted change
  lowers a measure, and two passes reach a state a third leaves alone, whatever the executors can do.
 */
module Reconciler {
  import opened Basics
  import opened Lifecycle
  import opened Records
  import opened Transactions
  import opened Repair
  import opened ProtocolInvariants
  import opened ProtocolTheorems

  datatype World = World(rows: seq<Deployment>, rt: Runtime)

  // Where a pass stands: escaped means that an exception ended the current deployment's rules.
  datatype Pass = Pass(world: World, changes: nat, escaped: bool)

  const Working: Executor := Executor(true, true, true)

  // The clock of a pass and what each deployment's executor can do; those past the list work.
  datatype Setting = Setting(ttl: nat, now: Time, executors: seq<Executor>) {
    function Ex(d: Id): Executor {
      if d < |executors| then executors[d] else Working
    }
  }

  function Apply(rule: Rule, on: Setting, w: World, d: Id): Outcome
    requires d < |w.rows|
  {
    ApplyRule(rule, on.ttl, on.now, w.rows, d, w.rt, on.Ex(d))
  }

  function After(rule: Rule, on: Setting, w: World, d: Id): World
    requires d < |w.rows|
  {
    match Apply(rule, on, w, d)
    case Repaired(row, rt, _) => World(w.rows[d := row], rt)
    case _ => w
  }

  function Then(rule: Rule, on: Setting, p: Pass, d: Id): (r: Pass)
    requires d < |p.world.rows|
    ensures |r.world.rows| == |p.world.rows|
  {
    if p.escaped then p
    else match Apply(rule, on, p.world, d)
      case Unchanged(_) => p
      case Raised => p.(escaped := true)
      case Repaired(_, _, _) => p.(world := After(rule, on, p.world, d), changes := p.changes + 1)
  }

  // Then, from what a rule made of the world and how it ended.
  lemma ThenFromOutcome(rule: Rule, on: Setting, p: Pass, d: Id)
    requires d < |p.world.rows| && !p.escaped
    ensures var o := Apply(rule, on, p.world, d);
            Then(rule, on, p, d) == Pass(After(rule, on, p.world, d),
                                         if o.Repaired? then p.changes + 1 else p.changes, o.Raised?)
  {
  }

  // The first k rules of the order, applied to deployment d.
  function RulesUpTo(on: Setting, w: World, d: Id, k: nat): (r: Pass)
    requires d < |w.rows| && k <= |RuleOrder|
    ensures |r.world.rows| == |w.rows|
  {
    if k == 0 then Pass(w, 0, false) else Then(RuleOrder[k - 1], on, RulesUpTo(on, w, d, k - 1), d)
  }

  function ReconcileOne(on: Setting, w: World, d: Id): (r: Pass)
    requires d < |w.rows|
    ensures |r.world.rows| == |w.rows|
  {
    RulesUpTo(on, w, d, |RuleOrder|)
  }

  // The first k deployments of a pass. An escaped exception forgets that deployment's count.
  function PassOver(on: Setting, w: World, k: nat): (r: (World, nat))
    requires k <= |w.rows|
    ensures |r.0.rows| == |w.rows|
  {
    if k == 0 then (w, 0)
    else
      var (mid, total) := PassOver(on, w, k - 1);
      var p := ReconcileOne(on, mid, k - 1);
      (p.world, if p.escaped then total else total + p.changes)
  }

  function FullPass(on: Setting, w: World): (World, nat) {
    PassOver(on, w, |w.rows|)
  }

  /******* Every counted change lowers a measure *******/

  function RowMeasure(row: Deployment, now: Time, ttl: nat): nat {
    (8 - Rank(row.status))
    + (if Stale(row.claimedAt, now, ttl) then 1 else 0)
    + (if row.target.None? && row.preflightTarget.Some? then 1 else 0)
  }

  function RowsMeasure(rows: seq<Deployment>, now: Time, ttl: nat): nat {
    if rows == [] then 0
    else RowsMeasure(rows[..|rows| - 1], now, ttl) + RowMeasure(rows[|rows| - 1], now, ttl)
  }

  function Measure(w: World, now: Time, ttl: nat): nat {
    RowsMeasure(w.rows, now, ttl) + |w.rt.containers| + |w.rt.manifests| + |w.rt.releases|
  }

  lemma {:induction false} RowsMeasureUpdate(rows: seq<Deployment>, d: Id, row: Deployment, now: Time, ttl: nat)
    requires d < |rows|
    ensures RowsMeasure(rows[d := row], now, ttl) + RowMeasure(rows[d], now, ttl)
         == RowsMeasure(rows, now, ttl) + RowMeasure(row, now, ttl)
  {
    var n := |rows| - 1;
    if d == n {
      assert rows[d := row][..n] == rows[..n];
    } else {
      assert rows[d := row][..n] == rows[..n][d := row];
      RowsMeasureUpdate(rows[..n], d, row, now, ttl);
    }
  }

  lemma RemovalShrinks<T>(a: set<T>, b: set<T>)
    ensures |a - b| <= |a|
    ensures !(a !! b) ==> |a - b| < |a|
  {
    var common := a * b;
    assert a == (a - b) + common && (a - b) !! common;
    assert |a| == |a - b| + |common|;
    if !(a !! b) {
      assert common != {};
    }
  }

  lemma StopShrinks(row: Deployment, d: Id, rt: Runtime)
    ensures var rt' := Stopping(row, d, rt);
            |rt'.containers| + |rt'.manifests| + |rt'.releases| <= |rt.containers| + |rt.manifests| + |rt.releases|
    ensures var rt' := Stopping(row, d, rt);
            (HelmManaged(row) && Release(row) in rt.releases)
            || (row.target == Some(Kubernetes) && !row.helm && !(Manifest(d) !! rt.manifests))
            || (row.target == Some(LocalDocker) && d in rt.containers) ==>
              |rt'.containers| + |rt'.manifests| + |rt'.releases| < |rt.containers| + |rt.manifests| + |rt.releases|
  {
    RemovalShrinks(rt.releases, {Release(row)});
    RemovalShrinks(rt.manifests, Manifest(d));
    RemovalShrinks(rt.containers, {d});
    if d in rt.containers { assert d in rt.containers * {d}; }
    if Release(row) in rt.releases { assert Release(row) in rt.releases * {Release(row)}; }
  }

  // What a repair does to the row and to the runtime, rule by rule.
  lemma RepairProgress(rule: Rule, on: Setting, w: World, d: Id)
    requires d < |w.rows| && Apply(rule, on, w, d).Repaired?
    ensures var Repaired(row, rt, stopCalled) := Apply(rule, on, w, d);
            if stopCalled then
              row == w.rows[d] && rt == Stopping(row, d, w.rt)
              && ((HelmManaged(row) && Release(row) in w.rt.releases)
                  || (row.target == Some(Kubernetes) && !row.helm && !(Manifest(d) !! w.rt.manifests))
                  || (row.target == Some(LocalDocker) && d in w.rt.containers))
            else
              rt == w.rt && RowMeasure(row, on.now, on.ttl) < RowMeasure(w.rows[d], on.now, on.ttl)
  {
  }

  // Any executor, any rows: a counted change strictly lowers the measure, and a rule that counts
  // nothing changes no row and no resource.
  lemma CountedChangesDecrease(rule: Rule, on: Setting, p: Pass, d: Id)
    requires d < |p.world.rows|
    ensures var p' := Then(rule, on, p, d);
            if p'.changes > p.changes then
              p'.changes == p.changes + 1
              && Measure(p'.world, on.now, on.ttl) < Measure(p.world, on.now, on.ttl)
            else p'.changes == p.changes && p'.world == p.world
  {
    if !p.escaped && Apply(rule, on, p.world, d).Repaired? {
      RepairProgress(rule, on, p.world, d);
      var Repaired(row, rt, _) := Apply(rule, on, p.world, d);
      RowsMeasureUpdate(p.world.rows, d, row, on.now, on.ttl);
      StopShrinks(row, d, p.world.rt);
    }
  }

  /******* One call settles its deployment *******/

  function Position(rule: Rule): nat {
    match rule
    case StaleClaim => 0
    case MissingTarget => 1
    case MissingContainer => 2
    case MissingRelease => 3
    case MissingResource => 4
    case LeftoverRelease => 5
    case LeftoverResource => 6
    case LeftoverContainer => 7
  }

  // The rule changes nothing: it returns False or raises.
  predicate Idle(rule: Rule, on: Setting, w: World, d: Id)
    requires d < |w.rows|
  {
    !Apply(rule, on, w, d).Repaired?
  }

  // The rules before position k have nothing to do.
  predicate IdleUpTo(k: nat, on: Setting, w: World, d: Id)
    requires d < |w.rows|
  {
    forall rule: Rule | Position(rule) < k :: Idle(rule, on, w, d)
  }

  predicate Quiet(on: Setting, w: World, d: Id)
    requires d < |w.rows|
  {
    IdleUpTo(8, on, w, d)
  }

  // The release of d's group, when d is what keeps it from being live.
  predicate RemovesRelease(rows: seq<Deployment>, d: Id)
    requires d < |rows|
  {
    HelmManaged(rows[d]) && (rows[d].status.Failed? || rows[d].status.Stopped?) && NewerHelmOwner(rows, d).None?
  }

  // What reconciling d may touch: its own row, its own resources, and its group's release if it owns it.
  predicate Local(w: World, w': World, d: Id)
    requires d < |w.rows|
  {
    && |w'.rows| == |w.rows|
    && (forall i | 0 <= i < |w.rows| && i != d :: w'.rows[i] == w.rows[i])
    && SameGroup(w.rows[d], w'.rows[d])
    && w.rt.containers - {d} <= w'.rt.containers <= w.rt.containers
    && w.rt.manifests - Manifest(d) <= w'.rt.manifests <= w.rt.manifests
    && (w'.rt.releases == w.rt.releases
        || (w'.rt.releases == w.rt.releases - {Release(w.rows[d])} && RemovesRelease(w'.rows, d)))
    && (RemovesRelease(w.rows, d) ==> RemovesRelease(w'.rows, d))
  }

  lemma OwnersDependOnGroups(rows: seq<Deployment>, rows': seq<Deployment>, d: Id)
    requires |rows| == |rows'| && d < |rows|
    requires forall i | 0 <= i < |rows| :: SameGroup(rows[i], rows'[i])
    ensures NewerHelmOwner(rows, d).None? <==> NewerHelmOwner(rows', d).None?
  {
    NewestIff(rows, d);
    NewestIff(rows', d);
    if NewerHelmOwner(rows, d).None? {
      forall k | d < k < |rows| ensures !SameGroup(rows'[k], rows'[d]) {
        assert !SameGroup(rows[k], rows[d]);
      }
    } else {
      var k :| d < k < |rows| && SameGroup(rows[k], rows[d]);
      assert SameGroup(rows'[k], rows'[d]);
    }
  }

  // Running one rule leaves it, and any earlier rule, with nothing more to do.
  lemma RuleSettles(rule: Rule, on: Setting, w: World, d: Id, earlier: Rule)
    requires d < |w.rows| && RowOk(w.rows[d])
    requires earlier == rule || (Position(earlier) < Position(rule) && Idle(earlier, on, w, d))
    ensures Idle(earlier, on, After(rule, on, w, d), d)
  {
    CoupledRowsRaise(rule, on.ttl, on.now, w.rows, d, w.rt, on.Ex(d));
    var w' := After(rule, on, w, d);
    forall i | 0 <= i < |w.rows| ensures SameGroup(w.rows[i], w'.rows[i]) {}
    OwnersDependOnGroups(w.rows, w'.rows, d);
  }

  lemma RuleIsLocal(rule: Rule, on: Setting, w: World, d: Id)
    requires d < |w.rows| && RowOk(w.rows[d])
    ensures Local(w, After(rule, on, w, d), d) && RowOk(After(rule, on, w, d).rows[d])
  {
    var w' := After(rule, on, w, d);
    forall i | 0 <= i < |w.rows| ensures SameGroup(w.rows[i], w'.rows[i]) {}
    OwnersDependOnGroups(w.rows, w'.rows, d);
  }

  // A rule that comes after an exception would have raised as well, so skipping it loses nothing.
  lemma ThenIsAfter(rule: Rule, on: Setting, p: Pass, d: Id)
    requires d < |p.world.rows| && Coupled(p.world.rows[d].status, p.world.rows[d].build)
    requires p.escaped ==> !on.Ex(d).builds && Position(rule) >= 2
    ensures Then(rule, on, p, d).world == After(rule, on, p.world, d)
    ensures Then(rule, on, p, d).escaped ==> !on.Ex(d).builds && Position(rule) >= 2
  {
    CoupledRowsRaise(rule, on.ttl, on.now, p.world.rows, d, p.world.rt, on.Ex(d));
  }

  lemma ThenSettles(rule: Rule, on: Setting, p: Pass, d: Id)
    requires d < |p.world.rows| && (p.escaped ==> !on.Ex(d).builds && Position(rule) >= 2)
    requires RowOk(p.world.rows[d]) && IdleUpTo(Position(rule), on, p.world, d)
    ensures var p' := Then(rule, on, p, d);
            && (p'.escaped ==> !on.Ex(d).builds && Position(rule) >= 2) && RowOk(p'.world.rows[d])
            && IdleUpTo(Position(rule) + 1, on, p'.world, d)
            && Local(p.world, p'.world, d)
  {
    ThenIsAfter(rule, on, p, d);
    RuleIsLocal(rule, on, p.world, d);
    forall earlier: Rule | Position(earlier) < Position(rule) + 1
      ensures Idle(earlier, on, After(rule, on, p.world, d), d)
    {
      assert Position(earlier) < Position(rule) ==> Idle(earlier, on, p.world, d);
      RuleSettles(rule, on, p.world, d, earlier);
    }
  }

  lemma LocalTransitive(w: World, mid: World, w': World, d: Id)
    requires d < |w.rows| && Local(w, mid, d) && Local(mid, w', d)
    ensures Local(w, w', d)
  {
  }

  predicate Progress(on: Setting, w: World, p: Pass, d: Id, k: nat)
    requires d < |w.rows|
  {
    && |p.world.rows| == |w.rows| && (p.escaped ==> !on.Ex(d).builds && k > 2) && RowOk(p.world.rows[d])
    && IdleUpTo(k, on, p.world, d) && Local(w, p.world, d)
  }

  lemma OrderedByPosition(k: nat)
    requires k < |RuleOrder|
    ensures Position(RuleOrder[k]) == k
  {
  }

  lemma {:induction false} RulesProgress(on: Setting, w: World, d: Id, k: nat)
    requires d < |w.rows| && RowOk(w.rows[d]) && k <= |RuleOrder|
    ensures Progress(on, w, RulesUpTo(on, w, d, k), d, k)
  {
    if k > 0 {
      RulesProgress(on, w, d, k - 1);
      OrderedByPosition(k - 1);
      var p := RulesUpTo(on, w, d, k - 1);
      ThenSettles(RuleOrder[k - 1], on, p, d);
      LocalTransitive(w, p.world, Then(RuleOrder[k - 1], on, p, d).world, d);
    }
  }

  // One call of reconcile_deployment leaves every rule of its deployment with nothing more to do and
  // touches only what belongs to that deployment; on a coupled row it raises only when the executor
  // cannot be built.
  lemma ReconcileSettles(on: Setting, w: World, d: Id)
    requires d < |w.rows| && RowOk(w.rows[d])
    ensures var p := ReconcileOne(on, w, d);
            && RowOk(p.world.rows[d]) && Quiet(on, p.world, d) && Local(w, p.world, d)
            && (p.escaped ==> !on.Ex(d).builds)
  {
    RulesProgress(on, w, d, |RuleOrder|);
  }

  lemma {:induction false} QuietRulesChangeNothing(on: Setting, w: World, d: Id, k: nat)
    requires d < |w.rows| && Quiet(on, w, d) && k <= |RuleOrder|
    ensures RulesUpTo(on, w, d, k).world == w && RulesUpTo(on, w, d, k).changes == 0
  {
    if k > 0 {
      QuietRulesChangeNothing(on, w, d, k - 1);
      OrderedByPosition(k - 1);
      assert Idle(RuleOrder[k - 1], on, w, d);
    }
  }

  lemma QuietChangesNothing(on: Setting, w: World, d: Id)
    requires d < |w.rows| && Quiet(on, w, d)
    ensures ReconcileOne(on, w, d).world == w && ReconcileOne(on, w, d).changes == 0
  {
    QuietRulesChangeNothing(on, w, d, |RuleOrder|);
  }

  lemma {:induction false} StaleWorkFails(on: Setting, w: World, d: Id, k: nat)
    requires d < |w.rows| && RowOk(w.rows[d]) && 1 <= k <= |RuleOrder|
    requires InProgress(w.rows[d].status) && Stale(w.rows[d].claimedAt, on.now, on.ttl)
    ensures Recovered(RulesUpTo(on, w, d, k).world.rows[d])
  {
    if k == 1 {
      assert RulesUpTo(on, w, d, 0) == Pass(w, 0, false);
      assert RuleOrder[0] == StaleClaim;
    } else {
      StaleWorkFails(on, w, d, k - 1);
      FailedStaysFailed(RuleOrder[k - 1], on, RulesUpTo(on, w, d, k - 1), d);
    }
  }

  // A stale claim on work in progress: after one call it is failed, its build failed, its claim gone,
  // whatever the executor does.
  lemma StaleWorkIsFailed(on: Setting, w: World, d: Id)
    requires d < |w.rows| && RowOk(w.rows[d])
    requires InProgress(w.rows[d].status) && Stale(w.rows[d].claimedAt, on.now, on.ttl)
    ensures var row := ReconcileOne(on, w, d).world.rows[d];
            row.status == Failed && row.build == BuildFailed && row.claimedAt.None? && row.claimedBy.None?
  {
    StaleWorkFails(on, w, d, |RuleOrder|);
  }

  predicate Recovered(row: Deployment) {
    row.status == Failed && row.build == BuildFailed && row.claimedAt.None? && row.claimedBy.None?
  }

  lemma FailedStaysFailed(rule: Rule, on: Setting, p: Pass, d: Id)
    requires d < |p.world.rows| && Recovered(p.world.rows[d])
    ensures Recovered(Then(rule, on, p, d).world.rows[d])
  {
  }

  /******* Two passes suffice *******/

  // A running Helm deployment whose executor can tell that its release was removed on behalf of a newer
  // deployment.
  predicate Bereft(on: Setting, w: World, d: Id)
    requires d < |w.rows|
  {
    && w.rows[d].status.Running? && HelmManaged(w.rows[d]) && Release(w.rows[d]) !in w.rt.releases
    && NewerHelmOwner(w.rows, d).Some? && !Stale(w.rows[d].claimedAt, on.now, on.ttl)
    && on.Ex(d).builds && on.Ex(d).probes
  }

  predicate AllOk(rows: seq<Deployment>) {
    forall d | 0 <= d < |rows| :: RowOk(rows[d])
  }

  predicate Calm(on: Setting, w: World, d: Id)
    requires d < |w.rows|
  {
    Quiet(on, w, d) || Bereft(on, w, d)
  }

  // Reconciling k takes at most another deployment's release away.
  lemma OtherRuleIdle(rule: Rule, on: Setting, w: World, w': World, k: Id, d: Id)
    requires k < |w.rows| && d < |w.rows| && d != k && Local(w, w', k)
    requires Idle(rule, on, w, d)
    ensures Idle(rule, on, w', d) || (rule.MissingRelease? && Release(w.rows[d]) in w.rt.releases - w'.rt.releases)
  {
    forall i | 0 <= i < |w.rows| ensures SameGroup(w.rows[i], w'.rows[i]) {}
    OwnersDependOnGroups(w.rows, w'.rows, d);
    assert Manifest(d) !! Manifest(k);
    assert Manifest(d) * w.rt.manifests == Manifest(d) * w'.rt.manifests;
    assert forall x | x in Manifest(d) :: x in w.rt.manifests <==> x in w'.rt.manifests;
    assert d in w.rt.containers <==> d in w'.rt.containers;
  }

  // Only the newest deployment of a group removes the group's release, so whoever loses it is older.
  lemma LosesToNewer(w: World, w': World, k: Id, d: Id)
    requires k < |w.rows| && d < |w.rows| && d != k && Local(w, w', k)
    requires Release(w.rows[d]) in w.rt.releases - w'.rt.releases
    ensures NewerHelmOwner(w'.rows, d).Some? && Release(w'.rows[d]) !in w'.rt.releases
  {
    assert SameGroup(w'.rows[k], w'.rows[d]) && SameGroup(w'.rows[d], w'.rows[k]);
    NewestIff(w'.rows, k);
    NewestIff(w'.rows, d);
  }

  lemma OthersStayCalm(on: Setting, w: World, w': World, k: Id, d: Id)
    requires k < |w.rows| && d < |w.rows| && d != k && Local(w, w', k)
    requires Calm(on, w, d)
    ensures Calm(on, w', d)
    ensures w'.rt.releases == w.rt.releases && Quiet(on, w, d) ==> Quiet(on, w', d)
  {
    if Quiet(on, w, d) {
      forall rule: Rule | !rule.MissingRelease? || Release(w.rows[d]) !in w.rt.releases - w'.rt.releases
        ensures Idle(rule, on, w', d)
      {
        assert Position(rule) < 8;
        OtherRuleIdle(rule, on, w, w', k, d);
      }
      if !Idle(MissingRelease, on, w', d) {
        LosesToNewer(w, w', k, d);
        assert Idle(StaleClaim, on, w, d);
      }
    } else {
      forall i | 0 <= i < |w.rows| ensures SameGroup(w.rows[i], w'.rows[i]) {}
      OwnersDependOnGroups(w.rows, w'.rows, d);
    }
  }

  lemma {:induction false} FirstPass(on: Setting, w: World, k: nat)
    requires k <= |w.rows| && AllOk(w.rows)
    ensures var mid := PassOver(on, w, k).0;
            && AllOk(mid.rows)
            && forall d | 0 <= d < k :: Calm(on, mid, d)
  {
    if k > 0 {
      FirstPass(on, w, k - 1);
      var mid := PassOver(on, w, k - 1).0;
      ReconcileSettles(on, mid, k - 1);
      var w' := ReconcileOne(on, mid, k - 1).world;
      forall d | 0 <= d < k - 1 ensures Calm(on, w', d) {
        OthersStayCalm(on, mid, w', k - 1, d);
      }
    }
  }

  // A bereft deployment only loses its running status: it owns no release to remove.
  lemma BereftFails(on: Setting, w: World, d: Id)
    requires d < |w.rows| && RowOk(w.rows[d]) && Bereft(on, w, d)
    ensures ReconcileOne(on, w, d).world.rt.releases == w.rt.releases
  {
    ReconcileSettles(on, w, d);
    var w' := ReconcileOne(on, w, d).world;
    forall i | 0 <= i < |w.rows| ensures SameGroup(w.rows[i], w'.rows[i]) {}
    OwnersDependOnGroups(w.rows, w'.rows, d);
  }

  lemma {:induction false} SecondPass(on: Setting, w: World, k: nat)
    requires k <= |w.rows| && AllOk(w.rows)
    requires forall d | 0 <= d < |w.rows| :: Calm(on, w, d)
    ensures var mid := PassOver(on, w, k).0;
            && AllOk(mid.rows)
            && (forall d | 0 <= d < k :: Quiet(on, mid, d))
            && (forall d | k <= d < |w.rows| :: Calm(on, mid, d))
  {
    if k > 0 {
      SecondPass(on, w, k - 1);
      var mid := PassOver(on, w, k - 1).0;
      ReconcileSettles(on, mid, k - 1);
      var w' := ReconcileOne(on, mid, k - 1).world;
      assert Calm(on, mid, k - 1);
      if Quiet(on, mid, k - 1) { QuietChangesNothing(on, mid, k - 1); } else { BereftFails(on, mid, k - 1); }
      forall d | 0 <= d < |w.rows| && d != k - 1
        ensures Quiet(on, w', d) || (d >= k && Calm(on, w', d))
      {
        OthersStayCalm(on, mid, w', k - 1, d);
      }
    }
  }

  lemma {:induction false} QuietPass(on: Setting, w: World, k: nat)
    requires k <= |w.rows| && forall d | 0 <= d < |w.rows| :: Quiet(on, w, d)
    ensures PassOver(on, w, k) == (w, 0)
  {
    if k > 0 {
      QuietPass(on, w, k - 1);
      QuietChangesNothing(on, w, k - 1);
    }
  }

  // With a fixed clock, coupled rows, no other actor and executors of constant behaviour, whatever each of
  // them fails at and whatever the starting rows and resources: after two full passes a third changes
  // nothing and reports zero.
  lemma TwoPassesConverge(on: Setting, w: World)
    requires AllOk(w.rows)
    ensures var w2 := FullPass(on, FullPass(on, w).0).0;
            FullPass(on, w2) == (w2, 0)
  {
    FirstPass(on, w, |w.rows|);
    var w1 := FullPass(on, w).0;
    SecondPass(on, w1, |w1.rows|);
    var w2 := FullPass(on, w1).0;
    QuietPass(on, w2, |w2.rows|);
  }

  /******* Two passes are needed *******/

  // An older deployment runs on a release that a newer, failed one still owns.
  function SharedRelease(): World {
    var older := Deployment(0, "production", false, Running, BuildSucceeded, None, None, Some(Kubernetes), None, true);
    var newer := older.(status := Failed, build := BuildFailed);
    World([older, newer], Runtime({}, {}, {(0, "production")}))
  }

  // The first pass removes the release for the newer row, which strands the older one until the second.
  lemma OnePassIsNotEnough(ttl: nat)
    ensures var on := Setting(ttl, 0, []);
            var first := FullPass(on, SharedRelease());
            AllOk(SharedRelease().rows) && first.1 == 1 && FullPass(on, first.0).1 == 1
  {
    var on := Setting(ttl, 0, []);
    var w := SharedRelease();
    var gone := Runtime({}, {}, {});
    assert w.rt.releases - {Release(w.rows[1])} == {};
    var w1 := World(w.rows, gone);
    var lost := w.rows[1];
    var w2 := World([lost, w.rows[1]], gone);
    assert NewerHelmOwner(w.rows, 0) == Some(1) && NewerHelmOwner(w.rows, 1) == None;
    OnlyRuleActs(on, w, 1, 5, w1);
    QuietShared(on, w, 0);
    assert PassOver(on, w, 0) == (w, 0);
    assert PassOver(on, w, 1) == (w, 0);
    assert FullPass(on, w) == (w1, 1);
    assert w1.rows[0 := lost] == w2.rows;
    assert NewerHelmOwner(w2.rows, 0) == Some(1) && NewerHelmOwner(w2.rows, 1) == None;
    OnlyRuleActs(on, w1, 0, 3, w2);
    QuietShared(on, w2, 1);
    assert PassOver(on, w1, 0) == (w1, 0);
    assert PassOver(on, w1, 1) == (w2, 1);
  }

  lemma QuietShared(on: Setting, w: World, d: Id)
    requires d < |w.rows| && on.Ex(d) == Working && RowOk(w.rows[d])
    requires HelmManaged(w.rows[d]) && w.rows[d].claimedAt.None?
    requires if w.rows[d].status.Running? then Release(w.rows[d]) in w.rt.releases
             else Release(w.rows[d]) !in w.rt.releases
    ensures ReconcileOne(on, w, d) == Pass(w, 0, false)
  {
    forall rule: Rule ensures Idle(rule, on, w, d) {}
    QuietChangesNothing(on, w, d);
    ReconcileSettles(on, w, d);
  }

  // When rule k alone has something to do, before and after it, one call makes exactly its change.
  lemma OnlyRuleActs(on: Setting, w: World, d: Id, k: nat, w': World)
    requires d < |w.rows| && k < |RuleOrder| && |w'.rows| == |w.rows| && on.Ex(d).builds
    requires RowOk(w.rows[d]) && RowOk(w'.rows[d])
    requires forall j | 0 <= j < k :: Idle(RuleOrder[j], on, w, d)
    requires Apply(RuleOrder[k], on, w, d).Repaired? && After(RuleOrder[k], on, w, d) == w'
    requires forall j | k < j < |RuleOrder| :: Idle(RuleOrder[j], on, w', d)
    ensures ReconcileOne(on, w, d) == Pass(w', 1, false)
  {
    for j := 0 to k
      invariant RulesUpTo(on, w, d, j) == Pass(w, 0, false)
    {
      assert Idle(RuleOrder[j], on, w, d);
      CoupledRowsRaise(RuleOrder[j], on.ttl, on.now, w.rows, d, w.rt, on.Ex(d));
    }
    assert RulesUpTo(on, w, d, k + 1) == Pass(w', 1, false);
    for j := k + 1 to |RuleOrder|
      invariant RulesUpTo(on, w, d, j) == Pass(w', 1, false)
    {
      assert Idle(RuleOrder[j], on, w', d);
      CoupledRowsRaise(RuleOrder[j], on.ttl, on.now, w'.rows, d, w'.rt, on.Ex(d));
    }
  }
}
