/**
  What reconciliation achieves, in rows and resources: the exact world after one call and after one pass,
  and what holds of a deployment that has been left quiet. worker/reconciliation/.
 */
module PassResult {
  import opened Basics
  import opened Lifecycle
  import opened Records
  import opened Transactions
  import opened Repair
  import opened ProtocolInvariants
  import opened ProtocolTheorems
  import opened Reconciler
  import opened OnePass

  /******* What a deployment needs and what it leaves behind *******/

  // The resources a running deployment needs are live.
  predicate Present(row: Deployment, d: Id, rt: Runtime) {
    && (row.target == Some(LocalDocker) ==> d in rt.containers)
    && (row.target == Some(Kubernetes) && !row.helm ==>
          (d, DeploymentResource) in rt.manifests && (d, ServiceResource) in rt.manifests)
    && (row.target == Some(Kubernetes) && row.helm ==> (row.project, row.environment) in rt.releases)
  }

  // No later deployment has the same project and environment.
  predicate LastOfGroup(rows: seq<Deployment>, d: Id)
    requires d < |rows|
  {
    forall k | d < k < |rows| :: rows[k].project != rows[d].project || rows[k].environment != rows[d].environment
  }

  // A deployment that is over has left nothing of its own behind.
  predicate Clean(rows: seq<Deployment>, d: Id, rt: Runtime)
    requires d < |rows|
  {
    var row := rows[d];
    && (row.status == Failed && row.target == Some(LocalDocker) ==> d !in rt.containers)
    && ((row.status == Failed || row.status == Stopped) && row.target == Some(Kubernetes) && !row.helm ==>
          (d, DeploymentResource) !in rt.manifests && (d, ServiceResource) !in rt.manifests
          && (d, IngressResource) !in rt.manifests)
    && ((row.status == Failed || row.status == Stopped) && row.target == Some(Kubernetes) && row.helm
        && LastOfGroup(rows, d) ==>
          (row.project, row.environment) !in rt.releases)
  }

  lemma LastHasNoOwner(rows: seq<Deployment>, d: Id)
    requires d < |rows|
    ensures NewerHelmOwner(rows, d).None? <==> LastOfGroup(rows, d)
  {
    NewestIff(rows, d);
    if LastOfGroup(rows, d) {
      forall k | d < k < |rows| ensures !SameGroup(rows[k], rows[d]) {}
    }
    if Newest(rows, d) {
      forall k | d < k < |rows|
        ensures rows[k].project != rows[d].project || rows[k].environment != rows[d].environment
      {
        assert !SameGroup(rows[k], rows[d]);
      }
    }
  }

  // Once no rule changes anything: no claim is older than the TTL, no known target is missing, and as far
  // as the executor can tell a running deployment has its resources; as far as it can stop them, one that
  // is over has none.
  lemma QuietMeans(on: Setting, w: World, d: Id)
    requires d < |w.rows| && Quiet(on, w, d) && RowOk(w.rows[d])
    ensures w.rows[d].claimedAt.Some? ==> on.now - w.rows[d].claimedAt.value <= on.ttl
    ensures w.rows[d].target.None? ==> w.rows[d].preflightTarget.None?
    ensures w.rows[d].status == Running && Sees(on, d) ==> Present(w.rows[d], d, w.rt)
    ensures Acts(on, d) ==> Clean(w.rows, d, w.rt)
  {
    LastHasNoOwner(w.rows, d);
    forall rule: Rule ensures Position(rule) < 8 && Idle(rule, on, w, d) {}
    assert Idle(StaleClaim, on, w, d) && Idle(MissingTarget, on, w, d);
    assert Idle(MissingContainer, on, w, d) && Idle(MissingRelease, on, w, d) && Idle(MissingResource, on, w, d);
    assert Idle(LeftoverContainer, on, w, d) && Idle(LeftoverRelease, on, w, d) && Idle(LeftoverResource, on, w, d);
  }

  /******* One call *******/

  function FailedNow(row: Deployment): Deployment {
    row.(status := Failed, build := BuildFailed, claimedBy := None, claimedAt := None)
  }

  // The row after a call: its stale claim and missing target repaired, and failed if it is running and
  // the executor misses something it needs.
  function RowAfter(on: Setting, w: World, d: Id): Deployment
    requires d < |w.rows|
  {
    var row := Refreshed(on, w.rows[d]);
    if row.status == Running && Sees(on, d) && !Present(row, d, w.rt) then FailedNow(row) else row
  }

  // What a call stops if the executor can: everything a deployment that is over may have left behind.
  function StoppedBy(on: Setting, rows: seq<Deployment>, d: Id): Runtime
    requires d < |rows|
  {
    var row := rows[d];
    var over := row.status == Failed || row.status == Stopped;
    if !Acts(on, d) then Runtime({}, {}, {})
    else Runtime(
      if row.status == Failed && row.target == Some(LocalDocker) then {d} else {},
      if over && row.target == Some(Kubernetes) && !row.helm then
        {(d, DeploymentResource), (d, ServiceResource), (d, IngressResource)}
      else {},
      if over && row.target == Some(Kubernetes) && row.helm && LastOfGroup(rows, d) then
        {(row.project, row.environment)}
      else {})
  }

  function Without(rt: Runtime, gone: Runtime): Runtime {
    Runtime(rt.containers - gone.containers, rt.manifests - gone.manifests, rt.releases - gone.releases)
  }

  predicate Concerns(rule: Rule, row: Deployment) {
    match rule
    case MissingContainer => row.target == Some(LocalDocker)
    case MissingRelease => row.target == Some(Kubernetes) && row.helm
    case MissingResource => row.target == Some(Kubernetes) && !row.helm
    case _ => false
  }

  lemma CheckIsExact(rule: Rule, on: Setting, w: World, d: Id)
    requires d < |w.rows| && RowOk(w.rows[d])
    requires rule.MissingContainer? || rule.MissingRelease? || rule.MissingResource?
    ensures var row := w.rows[d];
            After(rule, on, w, d) == World(w.rows[d :=
              if Concerns(rule, row) && row.status == Running && Sees(on, d) && !Present(row, d, w.rt) then
                FailedNow(row) else row], w.rt)
  {
    assert w.rows[d := w.rows[d]] == w.rows;
  }

  lemma ChecksAreExact(on: Setting, w2: World, w3: World, w4: World, w5: World, d: Id)
    requires d < |w2.rows| && RowOk(w2.rows[d]) && w3 == After(MissingContainer, on, w2, d)
    requires d < |w3.rows| && RowOk(w3.rows[d]) && w4 == After(MissingRelease, on, w3, d)
    requires d < |w4.rows| && RowOk(w4.rows[d]) && w5 == After(MissingResource, on, w4, d)
    ensures var row := w2.rows[d];
            w5 == World(w2.rows[d := if row.status == Running && Sees(on, d) && !Present(row, d, w2.rt) then
                                       FailedNow(row) else row], w2.rt)
  {
    CheckIsExact(MissingContainer, on, w2, d);
    CheckIsExact(MissingRelease, on, w3, d);
    CheckIsExact(MissingResource, on, w4, d);
    assert w4.rows == w2.rows[d := w4.rows[d]];
  }

  lemma StopIsExact(rule: Rule, on: Setting, w: World, d: Id)
    requires d < |w.rows| && Position(rule) >= 5
    ensures After(rule, on, w, d).rows == w.rows
    ensures var rt, rt', all := w.rt, After(rule, on, w, d).rt, Without(w.rt, StoppedBy(on, w.rows, d));
            && rt'.containers == (if rule.LeftoverContainer? then all.containers else rt.containers)
            && rt'.manifests == (if rule.LeftoverResource? then all.manifests else rt.manifests)
            && rt'.releases == (if rule.LeftoverRelease? then all.releases else rt.releases)
  {
    LastHasNoOwner(w.rows, d);
    assert w.rows[d := w.rows[d]] == w.rows;
  }

  lemma StopsAreExact(on: Setting, w5: World, w6: World, w7: World, w8: World, d: Id)
    requires d < |w5.rows| && RowOk(w5.rows[d]) && w6 == After(LeftoverRelease, on, w5, d)
    requires d < |w6.rows| && RowOk(w6.rows[d]) && w7 == After(LeftoverResource, on, w6, d)
    requires d < |w7.rows| && RowOk(w7.rows[d]) && w8 == After(LeftoverContainer, on, w7, d)
    ensures w8 == World(w5.rows, Without(w5.rt, StoppedBy(on, w5.rows, d)))
  {
    StopIsExact(LeftoverRelease, on, w5, d);
    StopIsExact(LeftoverResource, on, w6, d);
    StopIsExact(LeftoverContainer, on, w7, d);
  }

  // One call, in values: only its own row changes, to RowAfter, and only what StoppedBy names is gone.
  lemma CallIsExact(on: Setting, w: World, d: Id)
    requires d < |w.rows| && RowOk(w.rows[d])
    ensures var rows := w.rows[d := RowAfter(on, w, d)];
            ReconcileOne(on, w, d).world == World(rows, Without(w.rt, StoppedBy(on, rows, d)))
  {
    CallChecks(on, w, d);
    NextRule(on, w, d, 5);
    NextRule(on, w, d, 6);
    NextRule(on, w, d, 7);
    StopsAreExact(on, RulesUpTo(on, w, d, 5).world, RulesUpTo(on, w, d, 6).world, RulesUpTo(on, w, d, 7).world,
                  ReconcileOne(on, w, d).world, d);
  }

  lemma CallChecks(on: Setting, w: World, d: Id)
    requires d < |w.rows| && RowOk(w.rows[d])
    ensures RulesUpTo(on, w, d, 5).world == World(w.rows[d := RowAfter(on, w, d)], w.rt)
  {
    TwoRules(on, w, d);
    NextRule(on, w, d, 2);
    NextRule(on, w, d, 3);
    NextRule(on, w, d, 4);
    ChecksAreExact(on, RulesUpTo(on, w, d, 2).world, RulesUpTo(on, w, d, 3).world, RulesUpTo(on, w, d, 4).world,
                   RulesUpTo(on, w, d, 5).world, d);
    var row := Refreshed(on, w.rows[d]);
    assert w.rows[d := row][d := RowAfter(on, w, d)] == w.rows[d := RowAfter(on, w, d)];
  }

  // A running deployment stays running, build included, exactly when its executor finds the resources of
  // its recovered target, or cannot tell. What is not running never becomes so.
  lemma CallKeepsRunning(on: Setting, w: World, d: Id)
    requires d < |w.rows| && RowOk(w.rows[d])
    ensures |ReconcileOne(on, w, d).world.rows| == |w.rows|
    ensures KeptRunning(on, w, d, ReconcileOne(on, w, d).world.rows[d])
  {
    CallIsExact(on, w, d);
    RowKeepsRunning(on, w, d);
  }

  predicate KeptRunning(on: Setting, w: World, d: Id, row': Deployment)
    requires d < |w.rows|
  {
    var row := w.rows[d];
    var known := row.(target := if row.target.Some? then row.target else row.preflightTarget);
    && (row'.status == Running <==> row.status == Running && (Sees(on, d) ==> Present(known, d, w.rt)))
    && (row'.status == Running ==> row'.build == row.build && row'.target == known.target)
    && (row.status == Running && row'.status != Running ==> row' == FailedNow(known))
  }

  lemma RowKeepsRunning(on: Setting, w: World, d: Id)
    requires d < |w.rows| && RowOk(w.rows[d])
    ensures KeptRunning(on, w, d, RowAfter(on, w, d))
  {
    RefreshedRunning(on, w.rows[d]);
  }

  lemma RefreshedRunning(on: Setting, row: Deployment)
    requires RowOk(row)
    ensures Refreshed(on, row).status == Running <==> row.status == Running
    ensures row.status == Running ==>
              var kept := Refreshed(on, row);
              kept == row.(target := if row.target.Some? then row.target else row.preflightTarget,
                           claimedBy := kept.claimedBy, claimedAt := kept.claimedAt)
  {
  }

  /******* One pass *******/

  // The first k deployments have been called: each row is what its call makes of it, and a resource is
  // live if it was and none of them has stopped it.
  ghost predicate Reached(on: Setting, w: World, k: nat, mid: World)
    requires k <= |w.rows|
  {
    && |mid.rows| == |w.rows| && AllOk(mid.rows)
    && (forall i | 0 <= i < |w.rows| :: mid.rows[i] == if i < k then RowAfter(on, w, i) else w.rows[i])
    && (forall x :: x in mid.rt.containers <==> x in w.rt.containers && !StopsContainer(on, mid.rows, k, x))
    && (forall x :: x in mid.rt.manifests <==> x in w.rt.manifests && !StopsManifest(on, mid.rows, k, x))
    && (forall x :: x in mid.rt.releases <==> x in w.rt.releases && !StopsRelease(on, mid.rows, k, x))
  }

  predicate StopsContainer(on: Setting, rows: seq<Deployment>, k: nat, x: Id)
    requires k <= |rows|
  {
    exists c | 0 <= c < k :: x in StoppedBy(on, rows, c).containers
  }

  predicate StopsManifest(on: Setting, rows: seq<Deployment>, k: nat, x: (Id, Resource))
    requires k <= |rows|
  {
    exists c | 0 <= c < k :: x in StoppedBy(on, rows, c).manifests
  }

  predicate StopsRelease(on: Setting, rows: seq<Deployment>, k: nat, x: (nat, string))
    requires k <= |rows|
  {
    exists c | 0 <= c < k :: x in StoppedBy(on, rows, c).releases
  }

  // What was stopped before a deployment's turn is not what it needs.
  lemma TurnFindsStart(on: Setting, w: World, k: nat, mid: World)
    requires k < |w.rows| && AllOk(w.rows) && Reached(on, w, k, mid)
    ensures RowAfter(on, mid, k) == RowAfter(on, w, k)
  {
    var row := Refreshed(on, w.rows[k]);
    RefreshedGroup(on, w.rows[k]);
    assert mid.rows[k] == w.rows[k];
    assert !StopsContainer(on, mid.rows, k, k);
    forall r: Resource ensures !StopsManifest(on, mid.rows, k, (k, r)) {}
    forall c | 0 <= c < k ensures (row.project, row.environment) !in StoppedBy(on, mid.rows, c).releases {
      assert mid.rows[k].project == row.project && mid.rows[k].environment == row.environment;
    }
    assert !StopsRelease(on, mid.rows, k, (row.project, row.environment));
  }

  lemma StopsStay(on: Setting, rows: seq<Deployment>, k: Id, row: Deployment, c: Id)
    requires k < |rows| && c < |rows| && c != k
    requires row.project == rows[k].project && row.environment == rows[k].environment
    ensures StoppedBy(on, rows[k := row], c) == StoppedBy(on, rows, c)
  {
    var rows' := rows[k := row];
    forall i | 0 <= i < |rows|
      ensures rows'[i].project == rows[i].project && rows'[i].environment == rows[i].environment
    {
    }
    assert LastOfGroup(rows', c) <==> LastOfGroup(rows, c);
  }

  lemma RowAfterFacts(on: Setting, w: World, d: Id)
    requires d < |w.rows| && RowOk(w.rows[d])
    ensures RowOk(RowAfter(on, w, d))
    ensures RowAfter(on, w, d).project == w.rows[d].project && RowAfter(on, w, d).environment == w.rows[d].environment
  {
    RefreshedOk(on, w.rows[d]);
    RefreshedGroup(on, w.rows[d]);
    FailedOk(Refreshed(on, w.rows[d]));
  }

  lemma FailedOk(row: Deployment)
    ensures RowOk(FailedNow(row))
  {
  }

  lemma StopsExtend(on: Setting, rows: seq<Deployment>, k: nat, row: Deployment)
    requires k < |rows| && row.project == rows[k].project && row.environment == rows[k].environment
    ensures var rows' := rows[k := row];
            && (forall x :: StopsContainer(on, rows', k + 1, x) <==>
                  StopsContainer(on, rows, k, x) || x in StoppedBy(on, rows', k).containers)
            && (forall x :: StopsManifest(on, rows', k + 1, x) <==>
                  StopsManifest(on, rows, k, x) || x in StoppedBy(on, rows', k).manifests)
            && (forall x :: StopsRelease(on, rows', k + 1, x) <==>
                  StopsRelease(on, rows, k, x) || x in StoppedBy(on, rows', k).releases)
  {
    var rows' := rows[k := row];
    forall c | 0 <= c < k ensures StoppedBy(on, rows', c) == StoppedBy(on, rows, c) {
      StopsStay(on, rows, k, row, c);
    }
    forall x | StopsContainer(on, rows, k, x) ensures StopsContainer(on, rows', k + 1, x) {
      var c :| 0 <= c < k && x in StoppedBy(on, rows, c).containers;
      assert x in StoppedBy(on, rows', c).containers;
    }
    forall x | StopsManifest(on, rows, k, x) ensures StopsManifest(on, rows', k + 1, x) {
      var c :| 0 <= c < k && x in StoppedBy(on, rows, c).manifests;
      assert x in StoppedBy(on, rows', c).manifests;
    }
    forall x | StopsRelease(on, rows, k, x) ensures StopsRelease(on, rows', k + 1, x) {
      var c :| 0 <= c < k && x in StoppedBy(on, rows, c).releases;
      assert x in StoppedBy(on, rows', c).releases;
    }
  }

  lemma ReachedStep(on: Setting, w: World, k: nat, mid: World)
    requires k < |w.rows| && AllOk(w.rows) && Reached(on, w, k, mid)
    ensures Reached(on, w, k + 1, ReconcileOne(on, mid, k).world)
  {
    TurnFindsStart(on, w, k, mid);
    CallIsExact(on, mid, k);
    RowAfterFacts(on, mid, k);
    StopsExtend(on, mid.rows, k, RowAfter(on, mid, k));
  }

  lemma {:induction false} PassReaches(on: Setting, w: World, k: nat)
    requires k <= |w.rows| && AllOk(w.rows)
    ensures Reached(on, w, k, PassOver(on, w, k).0)
  {
    if k > 0 {
      PassReaches(on, w, k - 1);
      PassStep(on, w, k);
      ReachedStep(on, w, k - 1, PassOver(on, w, k - 1).0);
    }
  }

  // A full pass, in values: every row is what its own call makes of the starting world, and exactly the
  // resources are gone that some deployment, as the pass leaves it, has no more use for.
  lemma PassIsExact(on: Setting, w: World)
    requires AllOk(w.rows)
    ensures var w1 := FullPass(on, w).0;
            && |w1.rows| == |w.rows|
            && (forall d | 0 <= d < |w.rows| :: w1.rows[d] == RowAfter(on, w, d) && KeptRunning(on, w, d, w1.rows[d]))
            && (forall x :: x in w1.rt.containers <==>
                  x in w.rt.containers && forall d | 0 <= d < |w.rows| :: x !in StoppedBy(on, w1.rows, d).containers)
            && (forall x :: x in w1.rt.manifests <==>
                  x in w.rt.manifests && forall d | 0 <= d < |w.rows| :: x !in StoppedBy(on, w1.rows, d).manifests)
            && (forall x :: x in w1.rt.releases <==>
                  x in w.rt.releases && forall d | 0 <= d < |w.rows| :: x !in StoppedBy(on, w1.rows, d).releases)
  {
    PassReaches(on, w, |w.rows|);
    forall d | 0 <= d < |w.rows| ensures KeptRunning(on, w, d, RowAfter(on, w, d)) {
      RowKeepsRunning(on, w, d);
    }
  }

  // After one pass no deployment that is over has left anything an executor could stop, and the running
  // ones have what their executors can see they need, except the releases the pass itself removed for
  // newer deployments. After two passes there is no exception.
  lemma PassesRepair(on: Setting, w: World)
    requires AllOk(w.rows)
    ensures var w1 := FullPass(on, w).0;
            forall d | 0 <= d < |w1.rows| ::
              && (Acts(on, d) ==> Clean(w1.rows, d, w1.rt))
              && (w1.rows[d].status == Running && Sees(on, d) ==>
                    Present(w1.rows[d], d, w1.rt)
                    || (w1.rows[d].target == Some(Kubernetes) && w1.rows[d].helm && !LastOfGroup(w1.rows, d)))
    ensures var w2 := FullPass(on, FullPass(on, w).0).0;
            forall d | 0 <= d < |w2.rows| ::
              && (Acts(on, d) ==> Clean(w2.rows, d, w2.rt))
              && (w2.rows[d].status == Running && Sees(on, d) ==> Present(w2.rows[d], d, w2.rt))
  {
    FirstPass(on, w, |w.rows|);
    var w1 := FullPass(on, w).0;
    forall d | 0 <= d < |w1.rows|
      ensures Acts(on, d) ==> Clean(w1.rows, d, w1.rt)
      ensures w1.rows[d].status == Running && Sees(on, d) ==>
                Present(w1.rows[d], d, w1.rt)
                || (w1.rows[d].target == Some(Kubernetes) && w1.rows[d].helm && !LastOfGroup(w1.rows, d))
    {
      assert Calm(on, w1, d);
      if Quiet(on, w1, d) { QuietMeans(on, w1, d); } else { LastHasNoOwner(w1.rows, d); }
    }
    SecondPass(on, w1, |w1.rows|);
    var w2 := FullPass(on, w1).0;
    forall d | 0 <= d < |w2.rows|
      ensures Acts(on, d) ==> Clean(w2.rows, d, w2.rt)
      ensures w2.rows[d].status == Running && Sees(on, d) ==> Present(w2.rows[d], d, w2.rt)
    {
      QuietMeans(on, w2, d);
    }
  }
}
