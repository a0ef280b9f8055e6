/**
  When one reconciler pass is enough: exactly what a pass does to the shared Helm releases, and the
  condition on the starting rows and resources under which the second pass has nothing to report.
  worker/reconciliation/.
 */
module OnePass {
  import opened Basics
  import opened Lifecycle
  import opened Records
  import opened Transactions
  import opened Repair
  import opened ProtocolInvariants
  import opened ProtocolTheorems
  import opened Reconciler

  /******* What the rules make of one row *******/

  // The row after the first two rules: stale claims and missing targets.
  function Cleared(on: Setting, row: Deployment): Deployment {
    if !Stale(row.claimedAt, on.now, on.ttl) then row
    else if InProgress(row.status) then ReleaseClaim(row.(status := Failed, build := BuildFailed))
    else ReleaseClaim(row)
  }

  function Targeted(row: Deployment): Deployment {
    if row.target.None? && row.preflightTarget.Some? then row.(target := row.preflightTarget) else row
  }

  function Refreshed(on: Setting, row: Deployment): Deployment {
    Targeted(Cleared(on, row))
  }

  // Helm-managed once its target has been recovered.
  predicate HelmAfter(row: Deployment) {
    HelmManaged(Targeted(row))
  }

  predicate Over(row: Deployment) {
    row.status.Failed? || row.status.Stopped?
  }

  lemma TwoRules(on: Setting, w: World, d: Id)
    requires d < |w.rows| && RowOk(w.rows[d])
    ensures RulesUpTo(on, w, d, 2).world == World(w.rows[d := Refreshed(on, w.rows[d])], w.rt)
    ensures !RulesUpTo(on, w, d, 2).escaped
  {
    assert RulesUpTo(on, w, d, 0) == Pass(w, 0, false);
    var p1 := RulesUpTo(on, w, d, 1);
    assert RuleOrder[0] == StaleClaim && RuleOrder[1] == MissingTarget;
    assert p1.world == World(w.rows[d := Cleared(on, w.rows[d])], w.rt) && !p1.escaped by {
      assert w.rows[d := w.rows[d]] == w.rows;
    }
    var cleared := Cleared(on, w.rows[d]);
    assert w.rows[d := cleared][d := Targeted(cleared)] == w.rows[d := Targeted(cleared)];
  }

  // The executor answers when it is asked what is live, and it can also stop it.
  predicate Sees(on: Setting, d: Id) {
    on.Ex(d).builds && on.Ex(d).probes
  }

  predicate Acts(on: Setting, d: Id) {
    Sees(on, d) && on.Ex(d).stops
  }

  // Rules three to five leave a row or fail a running one; a Helm-managed row depends on its release.
  predicate Checked(before: Deployment, after: Deployment, live: bool) {
    && after.target == before.target && after.helm == before.helm && SameGroup(after, before)
    && (after == before || (before.status.Running? && after.status.Failed?))
    && (HelmManaged(before) && live ==> after == before)
  }

  // Only row d may differ, and nothing of the runtime.
  predicate OnlyRow(w: World, w': World, d: Id) {
    && |w'.rows| == |w.rows| && w'.rt == w.rt
    && forall i | 0 <= i < |w.rows| && i != d :: w'.rows[i] == w.rows[i]
  }

  lemma OneCheck(on: Setting, w: World, d: Id, rule: Rule)
    requires d < |w.rows| && RowOk(w.rows[d])
    requires rule.MissingContainer? || rule.MissingRelease? || rule.MissingResource?
    ensures OnlyRow(w, After(rule, on, w, d), d)
    ensures Checked(w.rows[d], After(rule, on, w, d).rows[d], Release(w.rows[d]) in w.rt.releases)
    ensures rule.MissingRelease? && Sees(on, d) && HelmManaged(w.rows[d]) && Release(w.rows[d]) !in w.rt.releases ==>
              !After(rule, on, w, d).rows[d].status.Running?
  {
  }

  lemma NextRule(on: Setting, w: World, d: Id, k: nat)
    requires d < |w.rows| && RowOk(w.rows[d]) && k < |RuleOrder|
    ensures RulesUpTo(on, w, d, k + 1).world == After(RuleOrder[k], on, RulesUpTo(on, w, d, k).world, d)
    ensures RowOk(RulesUpTo(on, w, d, k).world.rows[d])
  {
    RulesProgress(on, w, d, k);
    ThenIsAfter(RuleOrder[k], on, RulesUpTo(on, w, d, k), d);
  }

  lemma RefreshedGroup(on: Setting, row: Deployment)
    ensures Release(Refreshed(on, row)) == Release(row) && (HelmManaged(Refreshed(on, row)) <==> HelmAfter(row))
  {
  }

  lemma FiveRules(on: Setting, w: World, d: Id)
    requires d < |w.rows| && RowOk(w.rows[d])
    ensures var w5 := RulesUpTo(on, w, d, 5).world;
            && OnlyRow(w, w5, d)
            && Checked(Refreshed(on, w.rows[d]), w5.rows[d], Release(w.rows[d]) in w.rt.releases)
            && (Sees(on, d) && HelmAfter(w.rows[d]) && Release(w.rows[d]) !in w.rt.releases ==>
                  !w5.rows[d].status.Running?)
  {
    TwoRules(on, w, d);
    RefreshedGroup(on, w.rows[d]);
    NextRule(on, w, d, 2);
    NextRule(on, w, d, 3);
    NextRule(on, w, d, 4);
    ThreeChecks(on, RulesUpTo(on, w, d, 2).world, RulesUpTo(on, w, d, 3).world, RulesUpTo(on, w, d, 4).world,
                RulesUpTo(on, w, d, 5).world, d);
  }

  lemma ThreeChecks(on: Setting, w2: World, w3: World, w4: World, w5: World, d: Id)
    requires d < |w2.rows| && RowOk(w2.rows[d])
    requires w3 == After(MissingContainer, on, w2, d)
    requires d < |w3.rows| && RowOk(w3.rows[d]) && w4 == After(MissingRelease, on, w3, d)
    requires d < |w4.rows| && RowOk(w4.rows[d]) && w5 == After(MissingResource, on, w4, d)
    ensures OnlyRow(w2, w5, d) && Checked(w2.rows[d], w5.rows[d], Release(w2.rows[d]) in w2.rt.releases)
    ensures Sees(on, d) && HelmManaged(w2.rows[d]) && Release(w2.rows[d]) !in w2.rt.releases ==>
              !w5.rows[d].status.Running?
  {
    OneCheck(on, w2, d, MissingContainer);
    OneCheck(on, w3, d, MissingRelease);
    OneCheck(on, w4, d, MissingResource);
    ChecksCompose(w2.rows[d], w3.rows[d], w4.rows[d], w5.rows[d], Release(w2.rows[d]) in w2.rt.releases);
  }

  lemma ChecksCompose(a: Deployment, b: Deployment, c: Deployment, e: Deployment, live: bool)
    requires Checked(a, b, live) && Checked(b, c, live) && Checked(c, e, live)
    ensures Checked(a, e, live)
    ensures !c.status.Running? ==> !e.status.Running?
  {
  }

  // The last three rules only remove resources, and only one of them a release.
  lemma LeftoverRules(on: Setting, w: World, d: Id, rule: Rule)
    requires d < |w.rows| && RowOk(w.rows[d]) && Position(rule) >= 5
    ensures After(rule, on, w, d).rows == w.rows
    ensures After(rule, on, w, d).rt.releases ==
              if rule.LeftoverRelease? && Acts(on, d) && RemovesRelease(w.rows, d) then
                w.rt.releases - {Release(w.rows[d])}
              else w.rt.releases
  {
    assert w.rows[d := w.rows[d]] == w.rows;
  }

  lemma WholeCall(on: Setting, w: World, d: Id)
    requires d < |w.rows| && RowOk(w.rows[d])
    ensures var w5, w8 := RulesUpTo(on, w, d, 5).world, ReconcileOne(on, w, d).world;
            && w8.rows == w5.rows
            && w8.rt.releases == if Acts(on, d) && RemovesRelease(w5.rows, d) then
                                   w5.rt.releases - {Release(w5.rows[d])}
                                 else w5.rt.releases
  {
    NextRule(on, w, d, 5);
    NextRule(on, w, d, 6);
    NextRule(on, w, d, 7);
    ThreeLeftovers(on, RulesUpTo(on, w, d, 5).world, RulesUpTo(on, w, d, 6).world, RulesUpTo(on, w, d, 7).world,
                   ReconcileOne(on, w, d).world, d);
  }

  lemma ThreeLeftovers(on: Setting, w5: World, w6: World, w7: World, w8: World, d: Id)
    requires d < |w5.rows| && RowOk(w5.rows[d]) && w6 == After(LeftoverRelease, on, w5, d)
    requires d < |w6.rows| && RowOk(w6.rows[d]) && w7 == After(LeftoverResource, on, w6, d)
    requires d < |w7.rows| && RowOk(w7.rows[d]) && w8 == After(LeftoverContainer, on, w7, d)
    ensures w8.rows == w5.rows
    ensures w8.rt.releases == if Acts(on, d) && RemovesRelease(w5.rows, d) then w5.rt.releases - {Release(w5.rows[d])}
                              else w5.rt.releases
  {
    LeftoverRules(on, w5, d, LeftoverRelease);
    LeftoverRules(on, w6, d, LeftoverResource);
    LeftoverRules(on, w7, d, LeftoverContainer);
  }

  /******* When a pass reports zero *******/

  lemma {:induction false} UncountedRulesIdle(on: Setting, w: World, d: Id, k: nat)
    requires d < |w.rows| && k <= |RuleOrder|
    requires RulesUpTo(on, w, d, k).changes == 0 && !RulesUpTo(on, w, d, k).escaped
    ensures RulesUpTo(on, w, d, k) == Pass(w, 0, false) && IdleUpTo(k, on, w, d)
  {
    if k > 0 {
      UncountedRulesIdle(on, w, d, k - 1);
      OrderedByPosition(k - 1);
      forall rule: Rule | Position(rule) < k ensures Idle(rule, on, w, d) {
        if Position(rule) == k - 1 { SamePosition(rule, RuleOrder[k - 1]); }
      }
    }
  }

  lemma SamePosition(a: Rule, b: Rule)
    requires Position(a) == Position(b)
    ensures a == b
  {
  }

  // The rule builds an executor once the claim and the target are repaired.
  predicate WillAsk(rule: Rule, on: Setting, rows: seq<Deployment>, d: Id)
    requires d < |rows|
  {
    Asks(rule, rows[d := Refreshed(on, rows[d])], d)
  }

  // A deployment whose executor cannot be built although some rule will ask for it: its call raises and
  // what it changed is not counted.
  predicate Escapes(on: Setting, rows: seq<Deployment>, d: Id)
    requires d < |rows|
  {
    !on.Ex(d).builds && exists rule: Rule :: WillAsk(rule, on, rows, d)
  }

  lemma UnbuiltRule(next: Rule, on: Setting, p: Pass, d: Id)
    requires d < |p.world.rows| && Coupled(p.world.rows[d].status, p.world.rows[d].build)
    requires !on.Ex(d).builds && Position(next) >= 2
    ensures Then(next, on, p, d) == p.(escaped := p.escaped || Asks(next, p.world.rows, d))
  {
    CoupledRowsRaise(next, on.ttl, on.now, p.world.rows, d, p.world.rt, on.Ex(d));
  }

  lemma RefreshedOk(on: Setting, row: Deployment)
    requires RowOk(row)
    ensures RowOk(Refreshed(on, row))
  {
  }

  lemma {:induction false} UnbuiltRules(on: Setting, w: World, d: Id, k: nat)
    requires d < |w.rows| && RowOk(w.rows[d]) && !on.Ex(d).builds && 2 <= k <= |RuleOrder|
    ensures RulesUpTo(on, w, d, k).world == World(w.rows[d := Refreshed(on, w.rows[d])], w.rt)
    ensures RulesUpTo(on, w, d, k).escaped <==> exists rule: Rule :: Position(rule) < k && WillAsk(rule, on, w.rows, d)
  {
    if k == 2 {
      TwoRules(on, w, d);
    } else {
      UnbuiltRules(on, w, d, k - 1);
      OrderedByPosition(k - 1);
      RefreshedOk(on, w.rows[d]);
      var next := RuleOrder[k - 1];
      UnbuiltRule(next, on, RulesUpTo(on, w, d, k - 1), d);
      assert WillAsk(next, on, w.rows, d) <==> Asks(next, w.rows[d := Refreshed(on, w.rows[d])], d);
      forall rule: Rule | Position(rule) < k && rule != next ensures Position(rule) < k - 1 {
        if Position(rule) == k - 1 { SamePosition(rule, next); }
      }
    }
  }

  lemma EscapesExactly(on: Setting, w: World, d: Id)
    requires d < |w.rows| && RowOk(w.rows[d])
    ensures ReconcileOne(on, w, d).escaped <==> Escapes(on, w.rows, d)
    ensures Escapes(on, w.rows, d) ==>
              ReconcileOne(on, w, d).world == World(w.rows[d := Refreshed(on, w.rows[d])], w.rt)
  {
    if on.Ex(d).builds {
      ReconcileSettles(on, w, d);
    } else {
      UnbuiltRules(on, w, d, |RuleOrder|);
      forall rule: Rule ensures Position(rule) < |RuleOrder| {}
    }
  }

  // The call of one deployment adds nothing to the count.
  predicate Silent(on: Setting, w: World, d: Id)
    requires d < |w.rows|
  {
    Quiet(on, w, d) || Escapes(on, w.rows, d)
  }

  lemma SilentCalls(on: Setting, w: World, d: Id)
    requires d < |w.rows| && RowOk(w.rows[d])
    ensures ReconcileOne(on, w, d).escaped || ReconcileOne(on, w, d).changes == 0 <==> Silent(on, w, d)
    ensures Silent(on, w, d) ==> OnlyRow(w, ReconcileOne(on, w, d).world, d)
                                 && SameGroup(w.rows[d], ReconcileOne(on, w, d).world.rows[d])
  {
    EscapesExactly(on, w, d);
    var p := ReconcileOne(on, w, d);
    if !p.escaped && p.changes == 0 { UncountedRulesIdle(on, w, d, |RuleOrder|); }
    if Quiet(on, w, d) { QuietChangesNothing(on, w, d); }
  }

  // Whether a deployment is silent does not depend on another row's claim, status or target.
  lemma SilentElsewhere(on: Setting, w: World, w': World, k: Id, d: Id)
    requires k < |w.rows| && d < |w.rows| && d != k && OnlyRow(w, w', k) && SameGroup(w.rows[k], w'.rows[k])
    ensures Silent(on, w', d) <==> Silent(on, w, d)
  {
    var row := Refreshed(on, w.rows[d]);
    forall i | 0 <= i < |w.rows| ensures SameGroup(w.rows[i], w'.rows[i]) {}
    OwnersDependOnGroups(w.rows, w'.rows, d);
    OwnersDependOnGroups(w.rows[d := row], w'.rows[d := row], d);
    forall rule: Rule ensures Idle(rule, on, w', d) <==> Idle(rule, on, w, d) {}
    forall rule: Rule ensures WillAsk(rule, on, w'.rows, d) <==> WillAsk(rule, on, w.rows, d) {}
  }

  predicate SilentBelow(on: Setting, w: World, k: nat)
    requires k <= |w.rows|
  {
    forall d | 0 <= d < k :: Silent(on, w, d)
  }

  predicate AlikeFrom(on: Setting, w: World, w': World, k: nat)
    requires |w'.rows| == |w.rows|
  {
    forall d | k <= d < |w.rows| :: Silent(on, w', d) <==> Silent(on, w, d)
  }

  lemma {:induction false} SilentPass(on: Setting, w: World, k: nat)
    requires k <= |w.rows| && AllOk(w.rows)
    ensures PassOver(on, w, k).1 == 0 <==> SilentBelow(on, w, k)
    ensures PassOver(on, w, k).1 == 0 ==> AlikeFrom(on, w, PassOver(on, w, k).0, k)
  {
    if k > 0 {
      SilentPass(on, w, k - 1);
      PassStep(on, w, k);
      var (mid, total) := PassOver(on, w, k - 1);
      assert RowOk(mid.rows[k - 1]) by { FirstPass(on, w, k - 1); }
      SilentStep(on, mid, k - 1);
      SilentSum(on, w, mid, k - 1, total, ReconcileOne(on, mid, k - 1));
    }
  }

  lemma SilentSum(on: Setting, w: World, mid: World, k: nat, total: nat, p: Pass)
    requires k < |w.rows| == |mid.rows| == |p.world.rows|
    requires (total == 0 <==> SilentBelow(on, w, k)) && (total == 0 ==> AlikeFrom(on, w, mid, k))
    requires p.escaped || p.changes == 0 <==> Silent(on, mid, k)
    requires Silent(on, mid, k) ==> AlikeFrom(on, mid, p.world, k + 1)
    ensures var total' := if p.escaped then total else total + p.changes;
            && (total' == 0 <==> SilentBelow(on, w, k + 1))
            && (total' == 0 ==> AlikeFrom(on, w, p.world, k + 1))
  {
  }

  lemma SilentStep(on: Setting, mid: World, k: nat)
    requires k < |mid.rows| && RowOk(mid.rows[k])
    ensures var p := ReconcileOne(on, mid, k);
            && (p.escaped || p.changes == 0 <==> Silent(on, mid, k))
            && (Silent(on, mid, k) ==> AlikeFrom(on, mid, p.world, k + 1))
  {
    SilentCalls(on, mid, k);
    if Silent(on, mid, k) {
      var w' := ReconcileOne(on, mid, k).world;
      forall d | k < d < |mid.rows| ensures Silent(on, w', d) <==> Silent(on, mid, d) {
        SilentElsewhere(on, mid, w', k, d);
      }
    }
  }

  // A pass reports zero exactly when every deployment has nothing to do or raises before its changes
  // are counted; with executors that can be built, exactly when there is nothing to do.
  lemma ZeroIffSilent(on: Setting, w: World)
    requires AllOk(w.rows)
    ensures FullPass(on, w).1 == 0 <==> forall d | 0 <= d < |w.rows| :: Silent(on, w, d)
    ensures (forall d | 0 <= d < |w.rows| :: on.Ex(d).builds) ==>
              (FullPass(on, w).1 == 0 <==> forall d | 0 <= d < |w.rows| :: Quiet(on, w, d))
  {
    SilentPass(on, w, |w.rows|);
    assert forall d | 0 <= d < |w.rows| && on.Ex(d).builds :: Silent(on, w, d) <==> Quiet(on, w, d);
  }

  // The second pass reports zero exactly when the first left no running deployment bereft of a shared
  // release.
  lemma SecondReportsZero(on: Setting, w: World)
    requires AllOk(w.rows)
    ensures FullPass(on, FullPass(on, w).0).1 == 0 <==>
              forall d | 0 <= d < |w.rows| :: !Bereft(on, FullPass(on, w).0, d)
  {
    FirstPass(on, w, |w.rows|);
    var w1 := FullPass(on, w).0;
    ZeroIffSilent(on, w1);
    forall d | 0 <= d < |w1.rows| ensures Silent(on, w1, d) <==> !Bereft(on, w1, d) {
      assert Calm(on, w1, d);
      if Bereft(on, w1, d) { assert !Idle(MissingRelease, on, w1, d) && Position(MissingRelease) < 8; }
    }
  }

  /******* One call *******/

  // The newest deployment of its group, Helm-managed, failed, stopped or about to be failed, and with an
  // executor that can stop it.
  predicate Removes(on: Setting, rows: seq<Deployment>, d: Id)
    requires d < |rows|
  {
    && Acts(on, d) && HelmAfter(rows[d]) && NewerHelmOwner(rows, d).None?
    && (Over(rows[d]) || (InProgress(rows[d].status) && Stale(rows[d].claimedAt, on.now, on.ttl)))
  }

  lemma CallReleases(on: Setting, w: World, d: Id)
    requires d < |w.rows| && RowOk(w.rows[d])
    ensures ReconcileOne(on, w, d).world.rt.releases ==
              if Removes(on, w.rows, d) then w.rt.releases - {Release(w.rows[d])} else w.rt.releases
  {
    FiveRules(on, w, d);
    WholeCall(on, w, d);
    var w5 := RulesUpTo(on, w, d, 5).world;
    forall i | 0 <= i < |w.rows| ensures SameGroup(w.rows[i], w5.rows[i]) {}
    OwnersDependOnGroups(w.rows, w5.rows, d);
    CheckedRow(on, w.rows[d], w5.rows[d], Release(w.rows[d]) in w.rt.releases);
  }

  // What the checks leave, in terms of the row before the call.
  lemma CheckedRow(on: Setting, row: Deployment, row': Deployment, live: bool)
    requires RowOk(row) && Checked(Refreshed(on, row), row', live)
    ensures (HelmManaged(row') <==> HelmAfter(row)) && SameGroup(row', row)
    ensures row.status.Running? && HelmAfter(row) && live ==> row'.status.Running?
    ensures row'.status.Running? ==> row.status.Running?
    ensures row'.status.Running? ==> !Stale(row'.claimedAt, on.now, on.ttl)
    ensures HelmAfter(row) && live ==>
              (Over(row') <==> Over(row) || (InProgress(row.status) && Stale(row.claimedAt, on.now, on.ttl)))
    ensures Over(row) || (InProgress(row.status) && Stale(row.claimedAt, on.now, on.ttl)) ==> Over(row')
  {
  }

  lemma CallRow(on: Setting, w: World, d: Id)
    requires d < |w.rows| && RowOk(w.rows[d])
    ensures var row, row' := w.rows[d], ReconcileOne(on, w, d).world.rows[d];
            && (HelmManaged(row') <==> HelmAfter(row)) && SameGroup(row', row)
            && (row.status.Running? && HelmAfter(row) && Release(row) in w.rt.releases ==> row'.status.Running?)
            && (row'.status.Running? ==> row.status.Running?)
            && (row'.status.Running? && Sees(on, d) && HelmAfter(row) ==> Release(row) in w.rt.releases)
            && (row'.status.Running? ==> !Stale(row'.claimedAt, on.now, on.ttl))
  {
    FiveRules(on, w, d);
    WholeCall(on, w, d);
    CheckedRow(on, w.rows[d], RulesUpTo(on, w, d, 5).world.rows[d], Release(w.rows[d]) in w.rt.releases);
  }

  lemma CallIsLocal(on: Setting, w: World, d: Id)
    requires d < |w.rows| && RowOk(w.rows[d])
    ensures var w' := ReconcileOne(on, w, d).world;
            && |w'.rows| == |w.rows| && RowOk(w'.rows[d]) && SameGroup(w.rows[d], w'.rows[d])
            && forall i | 0 <= i < |w.rows| && i != d :: w'.rows[i] == w.rows[i]
  {
    ReconcileSettles(on, w, d);
  }

  /******* One pass *******/

  // Some deployment before position k removes the release.
  predicate Removed(on: Setting, rows: seq<Deployment>, k: nat, release: (nat, string))
    requires k <= |rows|
  {
    exists o | 0 <= o < k :: Removes(on, rows, o) && Release(rows[o]) == release
  }

  ghost predicate Midway(on: Setting, w: World, k: nat, mid: World)
    requires k <= |w.rows|
  {
    && |mid.rows| == |w.rows| && AllOk(mid.rows)
    && (forall i | k <= i < |w.rows| :: mid.rows[i] == w.rows[i])
    && (forall i | 0 <= i < |w.rows| :: SameGroup(w.rows[i], mid.rows[i]))
    && (forall release :: release in mid.rt.releases <==> release in w.rt.releases && !Removed(on, w.rows, k, release))
  }

  lemma MidwayStep(on: Setting, w: World, k: nat, mid: World)
    requires k < |w.rows| && Midway(on, w, k, mid)
    ensures Midway(on, w, k + 1, ReconcileOne(on, mid, k).world)
  {
    var w' := ReconcileOne(on, mid, k).world;
    CallIsLocal(on, mid, k);
    CallReleases(on, mid, k);
    OwnersDependOnGroups(w.rows, mid.rows, k);
    assert Removes(on, mid.rows, k) <==> Removes(on, w.rows, k);
    forall i | 0 <= i < |w.rows| ensures SameGroup(w.rows[i], w'.rows[i]) {
      assert SameGroup(w.rows[i], mid.rows[i]);
    }
    forall release
      ensures Removed(on, w.rows, k + 1, release) <==>
                Removed(on, w.rows, k, release) || (Removes(on, w.rows, k) && Release(w.rows[k]) == release)
    {
      if Removed(on, w.rows, k, release) {
        var o :| 0 <= o < k && Removes(on, w.rows, o) && Release(w.rows[o]) == release;
      }
    }
  }

  lemma {:induction false} PassIsMidway(on: Setting, w: World, k: nat)
    requires k <= |w.rows| && AllOk(w.rows)
    ensures Midway(on, w, k, PassOver(on, w, k).0)
  {
    if k == 0 {
      forall i | 0 <= i < |w.rows| ensures SameGroup(w.rows[i], w.rows[i]) {}
    } else {
      PassIsMidway(on, w, k - 1);
      MidwayStep(on, w, k - 1, PassOver(on, w, k - 1).0);
    }
  }

  lemma PassStep(on: Setting, w: World, k: nat)
    requires 0 < k <= |w.rows|
    ensures var (mid, total) := PassOver(on, w, k - 1);
            var p := ReconcileOne(on, mid, k - 1);
            PassOver(on, w, k) == (p.world, if p.escaped then total else total + p.changes)
  {
  }

  // A row is as its own call left it.
  lemma {:induction false} RowAfterPass(on: Setting, w: World, d: Id, k: nat)
    requires d < k <= |w.rows| && AllOk(w.rows)
    ensures PassOver(on, w, k).0.rows[d] == PassOver(on, w, d + 1).0.rows[d]
  {
    if d < k - 1 {
      RowAfterPass(on, w, d, k - 1);
      RowKept(on, w, d, k);
    }
  }

  lemma RowKept(on: Setting, w: World, d: Id, k: nat)
    requires d < k - 1 < |w.rows| && AllOk(w.rows)
    ensures PassOver(on, w, k).0.rows[d] == PassOver(on, w, k - 1).0.rows[d]
  {
    assert AllOk(PassOver(on, w, k - 1).0.rows) by { FirstPass(on, w, k - 1); }
    PassStep(on, w, k);
    CallIsLocal(on, PassOver(on, w, k - 1).0, k - 1);
  }

  /******* When one pass is enough *******/

  // An older deployment runs, as its executor can tell, on the live release that the newest of its group removes.
  predicate LosesRelease(on: Setting, w: World, d: Id, o: Id)
    requires d < |w.rows| && o < |w.rows|
  {
    && w.rows[d].status.Running? && HelmAfter(w.rows[d]) && Release(w.rows[d]) in w.rt.releases && Sees(on, d)
    && Removes(on, w.rows, o) && SameGroup(w.rows[d], w.rows[o])
  }

  // A removal before d's turn would be by a newest deployment of d's group, which d is not.
  lemma NotRemovedBefore(on: Setting, w: World, d: Id, o: Id)
    requires d < |w.rows| && o < |w.rows| && LosesRelease(on, w, d, o)
    ensures d < o && !Removed(on, w.rows, d, Release(w.rows[d])) && NewerHelmOwner(w.rows, d).Some?
  {
    NewestIff(w.rows, o);
    NewestIff(w.rows, d);
    assert SameGroup(w.rows[o], w.rows[d]);
    forall x | 0 <= x < d && Removes(on, w.rows, x) ensures Release(w.rows[x]) != Release(w.rows[d]) {
      NewestIff(w.rows, x);
      assert !SameGroup(w.rows[d], w.rows[x]);
    }
  }

  lemma LoserIsBereft(on: Setting, w: World, d: Id, o: Id)
    requires AllOk(w.rows) && d < |w.rows| && o < |w.rows| && LosesRelease(on, w, d, o)
    ensures Bereft(on, FullPass(on, w).0, d)
  {
    var mid, w1 := PassOver(on, w, d).0, FullPass(on, w).0;
    NotRemovedBefore(on, w, d, o);
    PassIsMidway(on, w, d);
    PassIsMidway(on, w, |w.rows|);
    RowAfterPass(on, w, d, |w.rows|);
    PassStep(on, w, d + 1);
    CallRow(on, mid, d);
    OwnersDependOnGroups(w.rows, w1.rows, d);
    assert Removed(on, w.rows, |w.rows|, Release(w.rows[d]));
  }

  lemma BereftLost(on: Setting, w: World, d: Id)
    requires AllOk(w.rows) && d < |w.rows| && Bereft(on, FullPass(on, w).0, d)
    ensures exists o | 0 <= o < |w.rows| :: LosesRelease(on, w, d, o)
  {
    var mid := PassOver(on, w, d).0;
    PassIsMidway(on, w, d);
    PassIsMidway(on, w, |w.rows|);
    RowAfterPass(on, w, d, |w.rows|);
    PassStep(on, w, d + 1);
    CallRow(on, mid, d);
    assert SameGroup(w.rows[d], FullPass(on, w).0.rows[d]);
    assert Removed(on, w.rows, |w.rows|, Release(w.rows[d]));
    var o :| 0 <= o < |w.rows| && Removes(on, w.rows, o) && Release(w.rows[o]) == Release(w.rows[d]);
    assert LosesRelease(on, w, d, o);
  }

  // With a fixed clock, coupled rows, no other actor and executors of constant behaviour the second pass
  // reports zero exactly when no running deployment that its executor can see, Helm-managed once targets
  // are recovered, has a live release while the newest of its group is Helm-managed, failed, stopped, or
  // in progress under a stale claim, and can be stopped by its executor.
  lemma OnePassIsEnough(on: Setting, w: World)
    requires AllOk(w.rows)
    ensures FullPass(on, FullPass(on, w).0).1 == 0 <==>
              forall d, o | 0 <= d < |w.rows| && 0 <= o < |w.rows| :: !LosesRelease(on, w, d, o)
  {
    SecondReportsZero(on, w);
    if d, o :| 0 <= d < |w.rows| && 0 <= o < |w.rows| && LosesRelease(on, w, d, o) {
      LoserIsBereft(on, w, d, o);
    } else {
      forall d | 0 <= d < |w.rows| ensures !Bereft(on, FullPass(on, w).0, d) {
        if Bereft(on, FullPass(on, w).0, d) { BereftLost(on, w, d); }
      }
    }
  }
}
