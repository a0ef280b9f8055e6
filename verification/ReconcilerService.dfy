/**
  The reconciler as it runs: handlers that read a row and an executor, write the row in place, and
  report whether they changed anything, under a counter. Tied to the functions of Reconciler.
 */
module ReconcilerService {
  import opened Basics
  import opened Lifecycle
  import opened Records
  import opened Transactions
  import opened Repair
  import opened Reconciler
  import opened OnePass
  import opened PassResult

  // What a handler returns: False, True, or the exception that escapes it.
  datatype Verdict = Kept | Changed | Escaped

  class Service {
    const on: Setting
    var rows: seq<Deployment>
    var rt: Runtime
    ghost var calls: seq<Id>  // the deployments for which executor.stop was called

    constructor (on: Setting, rows: seq<Deployment>, rt: Runtime)
      ensures this.on == on && this.rows == rows && this.rt == rt && calls == []
    {
      this.on, this.rows, this.rt, calls := on, rows, rt, [];
    }

    ghost function Current(): World
      reads this
    {
      World(rows, rt)
    }

    // The state, the verdict and the call of stop, successful or not, that a handler owes for one rule.
    ghost predicate Obeys(rule: Rule, before: World, called: seq<Id>, d: Id, v: Verdict)
      requires d < |before.rows|
      reads this
    {
      var outcome := Apply(rule, on, before, d);
      && Current() == After(rule, on, before, d)
      && (v.Kept? <==> outcome.Unchanged?)
      && (v.Escaped? <==> outcome.Raised?)
      && calls == if CallsStop(outcome) then called + [d] else called
    }

    // What a check of a running deployment owes: it fails the row exactly when its executor sees that
    // something it needs is gone, and the build does not refuse.
    ghost predicate Checks(rule: Rule, before: World, d: Id, v: Verdict)
      requires d < |before.rows|
      reads this
    {
      var row := before.rows[d];
      && (v.Changed? <==> && Concerns(rule, row) && row.status == Running && Sees(on, d)
                          && !Present(row, d, before.rt) && CanTransitionBuild(row.build, BuildFailed))
      && rt == before.rt && rows == if v.Changed? then before.rows[d := FailedNow(row)] else before.rows
    }

    // What a cleanup owes: it calls stop exactly when its executor sees something left over, and has
    // changed something exactly when that stop succeeds.
    ghost predicate Cleans(over: bool, left: bool, called: seq<Id>, d: Id, v: Verdict)
      reads this
    {
      && calls == (if over && Sees(on, d) && left then called + [d] else called)
      && (v.Changed? <==> over && Acts(on, d) && left)
    }

    method Fail(d: Id) returns (v: Verdict)
      requires d < |rows|
      modifies this`rows
      ensures v.Escaped? <==> FailedRow(old(rows)[d]).None?
      ensures v.Escaped? ==> rows == old(rows)
      ensures !v.Escaped? ==> v.Changed? && rows == old(rows)[d := FailedRow(old(rows)[d]).value]
    {
      if !CanTransition(rows[d].status, Failed) || !CanTransitionBuild(rows[d].build, BuildFailed) {
        return Escaped;
      }
      rows := rows[d := rows[d].(status := Failed, build := BuildFailed)];
      rows := rows[d := rows[d].(claimedAt := None, claimedBy := None)];
      return Changed;
    }

    method StopWorkload(d: Id) returns (v: Verdict)
      requires d < |rows|
      modifies this`rt, this`calls
      ensures calls == old(calls) + [d]
      ensures v == if on.Ex(d).stops then Changed else Kept
      ensures rt == if on.Ex(d).stops then Stopping(rows[d], d, old(rt)) else old(rt)
    {
      calls := calls + [d];
      if !on.Ex(d).stops {
        return Kept;
      }
      var row := rows[d];
      if row.target == Some(Kubernetes) && row.helm {
        rt := rt.(releases := rt.releases - {Release(row)});
      } else if row.target == Some(Kubernetes) {
        rt := rt.(manifests := rt.manifests - Manifest(d));
      } else {
        rt := rt.(containers := rt.containers - {d});
      }
      return Changed;
    }

    method ReconcileStaleClaim(d: Id) returns (v: Verdict)
      requires d < |rows|
      modifies this`rows
      ensures Obeys(StaleClaim, old(Current()), old(calls), d, v)
      ensures v.Changed? ==> rows == old(rows)[d := Cleared(on, old(rows)[d])]
      ensures !v.Changed? ==> rows == old(rows)
    {
      var claimedAt := rows[d].claimedAt;
      if claimedAt.None? || claimedAt.value >= on.now - on.ttl {
        return Kept;
      }
      if InProgress(rows[d].status) {
        v := Fail(d);
      } else {
        rows := rows[d := rows[d].(claimedAt := None, claimedBy := None)];
        v := Changed;
      }
    }

    method ReconcileMissingDeployTarget(d: Id) returns (v: Verdict)
      requires d < |rows|
      modifies this`rows
      ensures Obeys(MissingTarget, old(Current()), old(calls), d, v)
      ensures rows == old(rows)[d := Targeted(old(rows)[d])]
    {
      if rows[d].target.Some? || rows[d].preflightTarget.None? {
        return Kept;
      }
      rows := rows[d := rows[d].(target := rows[d].preflightTarget)];
      return Changed;
    }

    method ReconcileRunningMissingContainer(d: Id) returns (v: Verdict)
      requires d < |rows|
      modifies this`rows
      ensures Obeys(MissingContainer, old(Current()), old(calls), d, v)
      ensures Checks(MissingContainer, old(Current()), d, v)
    {
      if rows[d].status != Running || rows[d].target != Some(LocalDocker) {
        return Kept;
      }
      if !on.Ex(d).builds {
        return Escaped;
      }
      if !on.Ex(d).probes || d in rt.containers {
        return Kept;
      }
      v := Fail(d);
    }

    method ReconcileRunningMissingHelmRelease(d: Id) returns (v: Verdict)
      requires d < |rows|
      modifies this`rows
      ensures Obeys(MissingRelease, old(Current()), old(calls), d, v)
      ensures Checks(MissingRelease, old(Current()), d, v)
    {
      if rows[d].status != Running || rows[d].target != Some(Kubernetes) || !rows[d].helm {
        return Kept;
      }
      if !on.Ex(d).builds {
        return Escaped;
      }
      if !on.Ex(d).probes || Release(rows[d]) in rt.releases {
        return Kept;
      }
      v := Fail(d);
    }

    method ReconcileRunningMissingKubernetesResource(d: Id) returns (v: Verdict)
      requires d < |rows|
      modifies this`rows
      ensures Obeys(MissingResource, old(Current()), old(calls), d, v)
      ensures Checks(MissingResource, old(Current()), d, v)
    {
      if rows[d].status != Running || rows[d].target != Some(Kubernetes) || rows[d].helm {
        return Kept;
      }
      if !on.Ex(d).builds {
        return Escaped;
      }
      if !on.Ex(d).probes {
        return Kept;
      }
      var missing: seq<Resource> := [];
      if (d, DeploymentResource) !in rt.manifests {
        missing := missing + [DeploymentResource];
      }
      if (d, ServiceResource) !in rt.manifests {
        missing := missing + [ServiceResource];
      }
      if missing == [] {
        return Kept;
      }
      v := Fail(d);
    }

    method ReconcileHelmNonrunningRelease(d: Id) returns (v: Verdict)
      requires d < |rows|
      modifies this`rt, this`calls
      ensures Obeys(LeftoverRelease, old(Current()), old(calls), d, v)
      ensures Cleans((rows[d].status == Failed || rows[d].status == Stopped)
                     && rows[d].target == Some(Kubernetes) && rows[d].helm && LastOfGroup(rows, d),
                     (rows[d].project, rows[d].environment) in old(rt).releases, old(calls), d, v)
      ensures rt == old(rt).(releases := old(rt).releases - StoppedBy(on, rows, d).releases)
    {
      if rows[d].target != Some(Kubernetes) || !(rows[d].status == Failed || rows[d].status == Stopped)
         || !rows[d].helm {
        return Kept;
      }
      LastHasNoOwner(rows, d);
      var newer := NewerHelmOwner(rows, d);
      if newer.Some? {
        return Kept;
      }
      if !on.Ex(d).builds {
        return Escaped;
      }
      if !on.Ex(d).probes || Release(rows[d]) !in rt.releases {
        return Kept;
      }
      v := StopWorkload(d);
      assert rows[d := rows[d]] == rows;
    }

    method ReconcileKubernetesNonrunningResources(d: Id) returns (v: Verdict)
      requires d < |rows|
      modifies this`rt, this`calls
      ensures Obeys(LeftoverResource, old(Current()), old(calls), d, v)
      ensures Cleans((rows[d].status == Failed || rows[d].status == Stopped)
                     && rows[d].target == Some(Kubernetes) && !rows[d].helm,
                     (d, DeploymentResource) in old(rt).manifests || (d, ServiceResource) in old(rt).manifests
                     || (d, IngressResource) in old(rt).manifests, old(calls), d, v)
      ensures rt == old(rt).(manifests := old(rt).manifests - StoppedBy(on, rows, d).manifests)
    {
      if rows[d].target != Some(Kubernetes) || !(rows[d].status == Failed || rows[d].status == Stopped)
         || rows[d].helm {
        return Kept;
      }
      if !on.Ex(d).builds {
        return Escaped;
      }
      if !on.Ex(d).probes {
        return Kept;
      }
      var leftovers: seq<Resource> := [];
      if (d, DeploymentResource) in rt.manifests {
        leftovers := leftovers + [DeploymentResource];
      }
      if (d, ServiceResource) in rt.manifests {
        leftovers := leftovers + [ServiceResource];
      }
      if (d, IngressResource) in rt.manifests {
        leftovers := leftovers + [IngressResource];
      }
      assert leftovers == [] <==> Manifest(d) !! rt.manifests;
      if leftovers == [] {
        return Kept;
      }
      v := StopWorkload(d);
      assert rows[d := rows[d]] == rows;
    }

    method ReconcileFailedArtifacts(d: Id) returns (v: Verdict)
      requires d < |rows|
      modifies this`rt, this`calls
      ensures Obeys(LeftoverContainer, old(Current()), old(calls), d, v)
      ensures Cleans(rows[d].status == Failed && rows[d].target == Some(LocalDocker),
                     d in old(rt).containers, old(calls), d, v)
      ensures rt == old(rt).(containers := old(rt).containers - StoppedBy(on, rows, d).containers)
    {
      if rows[d].status != Failed || rows[d].target != Some(LocalDocker) {
        return Kept;
      }
      if !on.Ex(d).builds {
        return Escaped;
      }
      if !on.Ex(d).probes || d !in rt.containers {
        return Kept;
      }
      v := StopWorkload(d);
      assert rows[d := rows[d]] == rows;
    }

    method RunHandler(rule: Rule, d: Id) returns (v: Verdict)
      requires d < |rows|
      modifies this`rows, this`rt, this`calls
      ensures Obeys(rule, old(Current()), old(calls), d, v)
    {
      match rule
      case StaleClaim => v := ReconcileStaleClaim(d);
      case MissingTarget => v := ReconcileMissingDeployTarget(d);
      case MissingContainer => v := ReconcileRunningMissingContainer(d);
      case MissingRelease => v := ReconcileRunningMissingHelmRelease(d);
      case MissingResource => v := ReconcileRunningMissingKubernetesResource(d);
      case LeftoverRelease => v := ReconcileHelmNonrunningRelease(d);
      case LeftoverResource => v := ReconcileKubernetesNonrunningResources(d);
      case LeftoverContainer => v := ReconcileFailedArtifacts(d);
    }

    // The rules in order under a counter; an exception leaves the rest of them unrun.
    method ReconcileDeployment(d: Id) returns (changes: nat, escaped: bool)
      requires d < |rows|
      modifies this`rows, this`rt, this`calls
      ensures |rows| == |old(rows)|
      ensures Pass(Current(), changes, escaped) == ReconcileOne(on, old(Current()), d)
    {
      changes, escaped := 0, false;
      ghost var before := Current();
      for i := 0 to |RuleOrder|
        invariant |rows| == |old(rows)|
        invariant Pass(Current(), changes, escaped) == RulesUpTo(on, before, d, i)
      {
        if !escaped {
          ThenFromOutcome(RuleOrder[i], on, Pass(Current(), changes, escaped), d);
          var v := RunHandler(RuleOrder[i], d);
          if v.Changed? {
            changes := changes + 1;
          }
          escaped := v.Escaped?;
        }
      }
    }

    method ReconcileDeployments() returns (total: nat)
      modifies this`rows, this`rt, this`calls
      ensures |rows| == |old(rows)|
      ensures (Current(), total) == FullPass(on, old(Current()))
    {
      total := 0;
      ghost var before := Current();
      for d := 0 to |rows|
        invariant |rows| == |before.rows|
        invariant (Current(), total) == PassOver(on, before, d)
      {
        var changes, escaped := ReconcileDeployment(d);
        if !escaped {
          total := total + changes;
        }
      }
    }
  }
}
