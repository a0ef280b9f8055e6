/**
  Deployment snapshots and exact historical retries.
  control_plane/deployment_spec.py and control_plane/application/deployments/orchestration.py.
 */
module RetryChains {
  import opened Basics
  import opened Strings
  import ImageReference

  // A JSON value. Data stands for lists and objects.
  datatype Value = Null | Number(n: int) | Text(s: string) | Data(text: string)

  type Spec = map<string, Value>

  // The stored JSON: nothing usable, or an object with a version and perhaps a project object.
  datatype Snapshot = Absent | Stored(version: Value, project: Option<Spec>)

  datatype Project = Project(id: nat, name: string, settings: Spec)

  datatype Build = Build(
    commit: Option<string>,
    testCommand: Option<string>,
    registry: Option<string>,
    imageName: Option<string>,
    imageTag: Option<string>,
    imageRef: Option<string>)

  // source is the deployment a retry was made from.
  datatype Deployment = Deployment(
    projectId: nat, environment: string, snapshot: Snapshot, build: Build, source: Option<nat>)

  datatype RetryError = SpecificationUnavailable | SpecificationIncomplete | AnotherProject | CommitUnavailable

  const SpecVersion := Number(1)

  const SpecFields := {
    "id", "name", "repo_url", "branch", "git_auth_type", "git_secret_ref", "dockerfile_path",
    "build_context", "port", "healthcheck_path", "env_vars", "cpu", "memory", "runtime"}

  // Deployment-wide facts: the registry prefix, when one is configured, and the character tables.
  datatype Config = Config(prefix: Option<string>, unicode: ImageReference.Unicode)

  /******* Snapshots *******/

  function Attribute(p: Project, field: string): Value {
    if field == "id" then Number(p.id)
    else if field == "name" then Text(p.name)
    else if field in p.settings then p.settings[field]
    else Null
  }

  function CreateSnapshot(p: Project, branch: Option<Value>): Snapshot {
    var spec := map field | field in SpecFields :: Attribute(p, field);
    Stored(SpecVersion, Some(if branch.Some? then spec["branch" := branch.value] else spec))
  }

  function CopySnapshot(d: Deployment, projectId: nat): Result<Snapshot, RetryError> {
    if d.snapshot.Absent? || d.snapshot.version != SpecVersion then Err(SpecificationUnavailable)
    else if d.snapshot.project.None? || !(SpecFields <= d.snapshot.project.value.Keys) then Err(SpecificationIncomplete)
    else if d.snapshot.project.value["id"] != Number(projectId) || d.projectId != projectId then Err(AnotherProject)
    else Ok(d.snapshot)
  }

  // What the worker builds and runs: the snapshot if there is one, else the live project.
  datatype View = Frozen(spec: Spec) | Live(project: Project)

  // A snapshot object of the current version, complete or not and whatever its id.
  predicate Usable(snapshot: Snapshot) {
    snapshot.Stored? && snapshot.version == SpecVersion && snapshot.project.Some?
  }

  function ProjectForDeployment(d: Deployment, live: Project): View {
    if Usable(d.snapshot) then
      Frozen(d.snapshot.project.value)
    else Live(live)
  }

  /******* Creation *******/

  predicate Given(s: Option<string>) {
    s.Some? && s.value != ""
  }

  function ImageNameFor(cfg: Config, p: Project, imageName: Option<string>): string {
    if Given(imageName) then imageName.value
    else ImageReference.SanitizeImageComponent(p.name, cfg.unicode)
  }

  function NewBuild(cfg: Config, p: Project, commit: string, test: Option<string>, imageName: Option<string>): Build {
    var name := ImageNameFor(cfg, p, imageName);
    var tag := ImageReference.SanitizeImageComponent(Cut(commit, 12), cfg.unicode);
    Build(Some(commit), test, cfg.prefix, Some(name), Some(tag),
          Some(if Given(cfg.prefix) then cfg.prefix.value + "/" + name + ":" + tag else name + ":" + tag))
  }

  function NewDeployment(cfg: Config, p: Project, branch: Value, commit: string, test: Option<string>,
                         environment: string, imageName: Option<string>, snapshot: Option<Snapshot>,
                         source: Option<nat>): Deployment {
    Deployment(p.id, environment, if snapshot.Some? then snapshot.value else CreateSnapshot(p, Some(branch)),
               NewBuild(cfg, p, commit, test, imageName), source)
  }

  function TrimmedCommit(d: Deployment): string {
    if d.build.commit.Some? then Strip(d.build.commit.value, IsSpace) else ""
  }

  function HistoricalRetry(cfg: Config, p: Project, original: Deployment, index: nat): Result<Deployment, RetryError> {
    match CopySnapshot(original, p.id)
    case Err(e) => Err(e)
    case Ok(snapshot) =>
      if TrimmedCommit(original) == "" then Err(CommitUnavailable)
      else Ok(NewDeployment(cfg, p, snapshot.project.value["branch"], TrimmedCommit(original),
                            original.build.testCommand, original.environment, original.build.imageName,
                            Some(snapshot), Some(index)))
  }

  /******* One retry *******/

  // A snapshot of the current version, complete, and of the deployment's own project.
  predicate Snapshotted(d: Deployment) {
    && d.snapshot.Stored? && d.snapshot.version == SpecVersion && d.snapshot.project.Some?
    && SpecFields <= d.snapshot.project.value.Keys
    && d.snapshot.project.value["id"] == Number(d.projectId)
  }

  predicate Retryable(d: Deployment) {
    Snapshotted(d) && TrimmedCommit(d) != ""
  }

  // The execution inputs of b are those of a, with the commit trimmed.
  predicate SameInputs(a: Deployment, b: Deployment) {
    && b.snapshot == a.snapshot && b.projectId == a.projectId
    && TrimmedCommit(b) == TrimmedCommit(a)
    && b.build.testCommand == a.build.testCommand
    && b.environment == a.environment
    && (Given(a.build.imageName) ==> b.build.imageName == a.build.imageName)
  }

  lemma SanitizedGiven(value: string, u: ImageReference.Unicode)
    ensures ImageReference.SanitizeImageComponent(value, u) != ""
  {
  }

  // A retry succeeds exactly from a retryable deployment of the project it is asked for, and is then
  // retryable itself with the same inputs, whatever the project has become.
  lemma RetryIsExact(cfg: Config, p: Project, original: Deployment, index: nat)
    ensures HistoricalRetry(cfg, p, original, index).Ok? <==> Retryable(original) && original.projectId == p.id
    ensures HistoricalRetry(cfg, p, original, index).Ok? ==>
              var d := HistoricalRetry(cfg, p, original, index).value;
              && Retryable(d) && SameInputs(original, d) && d.source == Some(index)
              && d.build.commit == Some(TrimmedCommit(original)) && Given(d.build.imageName)
  {
    if HistoricalRetry(cfg, p, original, index).Ok? {
      StripTwice(original.build.commit.value, IsSpace);
      SanitizedGiven(p.name, cfg.unicode);
    }
  }

  /******* Runs *******/

  datatype System = System(projects: seq<Project>, deployments: seq<Deployment>)

  // Report is a worker storing the image it built; nothing else of a deployment changes later.
  datatype Step =
    | EditProject(project: nat, name: string, settings: Spec)
    | Deploy(project: nat, branch: Value, commit: string, test: Option<string>, environment: string)
    | Retry(project: nat, original: nat)
    | Report(deployment: nat, tag: Option<string>, ref: Option<string>)

  function Next(cfg: Config, s: System, step: Step): System {
    match step
    case EditProject(i, name, settings) =>
      if i < |s.projects| then s.(projects := s.projects[i := s.projects[i].(name := name, settings := settings)]) else s
    case Deploy(i, branch, commit, test, environment) =>
      if i >= |s.projects| then s
      else s.(deployments := s.deployments
                + [NewDeployment(cfg, s.projects[i], branch, commit, test, environment, None, None, None)])
    case Retry(i, o) =>
      if i >= |s.projects| || o >= |s.deployments| then s
      else (
        match HistoricalRetry(cfg, s.projects[i], s.deployments[o], o)
        case Err(_) => s
        case Ok(d) => s.(deployments := s.deployments + [d]))
    case Report(i, tag, ref) =>
      if i >= |s.deployments| then s
      else
        var d := s.deployments[i];
        s.(deployments := s.deployments[i := d.(build := d.build.(
             imageTag := if Given(tag) then tag else d.build.imageTag,
             imageRef := if Given(ref) then ref else d.build.imageRef))])
  }

  function Run(cfg: Config, s: System, steps: seq<Step>): System {
    if steps == [] then s else Next(cfg, Run(cfg, s, steps[..|steps| - 1]), steps[|steps| - 1])
  }

  // Everything of a deployment but the image it reports.
  predicate SameRecord(a: Deployment, b: Deployment) {
    b == a.(build := a.build.(imageTag := b.build.imageTag, imageRef := b.build.imageRef))
  }

  predicate RecordsKept(s: System, s': System) {
    && |s.deployments| <= |s'.deployments| && |s.projects| == |s'.projects|
    && (forall i | 0 <= i < |s.deployments| :: SameRecord(s.deployments[i], s'.deployments[i]))
    && (forall i | 0 <= i < |s.projects| :: s'.projects[i].id == s.projects[i].id)
  }

  lemma {:induction false} RunsKeepRecords(cfg: Config, s: System, steps: seq<Step>)
    ensures RecordsKept(s, Run(cfg, s, steps))
  {
    if steps != [] {
      RunsKeepRecords(cfg, s, steps[..|steps| - 1]);
      var mid, s' := Run(cfg, s, steps[..|steps| - 1]), Run(cfg, s, steps);
      StepKeepsRecords(cfg, mid, steps[|steps| - 1]);
      forall i | 0 <= i < |s.deployments| ensures SameRecord(s.deployments[i], s'.deployments[i]) {
        assert SameRecord(s.deployments[i], mid.deployments[i]) && SameRecord(mid.deployments[i], s'.deployments[i]);
      }
    }
  }

  lemma StepKeepsRecords(cfg: Config, s: System, step: Step)
    ensures RecordsKept(s, Next(cfg, s, step))
  {
  }

  // Whatever is edited, deployed, retried or reported later, and whatever the live project has become, a
  // deployment with a usable snapshot is built from that snapshot; the others follow the live project.
  lemma {:induction false} SnapshotsAreFrozen(cfg: Config, s: System, steps: seq<Step>, d: nat, live: Project)
    requires d < |s.deployments|
    ensures d < |Run(cfg, s, steps).deployments|
    ensures ProjectForDeployment(Run(cfg, s, steps).deployments[d], live)
         == if Usable(s.deployments[d].snapshot) then Frozen(s.deployments[d].snapshot.project.value) else Live(live)
  {
    RunsKeepRecords(cfg, s, steps);
    assert SameRecord(s.deployments[d], Run(cfg, s, steps).deployments[d]);
  }

  /******* What creation writes *******/

  // The snapshot of a deploy: version 1 and exactly the fourteen fields, each with the project's own
  // value, null where it has none, except that the branch is the requested one.
  predicate SnapshotOf(snapshot: Snapshot, p: Project, branch: Value) {
    && snapshot.Stored? && snapshot.version == Number(1) && snapshot.project.Some?
    && var spec := snapshot.project.value;
       && spec.Keys == SpecFields
       && spec["id"] == Number(p.id) && spec["name"] == Text(p.name) && spec["branch"] == branch
       && forall field | field in SpecFields - {"id", "name", "branch"} ::
            spec[field] == if field in p.settings then p.settings[field] else Null
  }

  lemma SnapshotWrites(p: Project, branch: Value)
    ensures SnapshotOf(CreateSnapshot(p, Some(branch)), p, branch)
  {
    assert SpecFields + {"branch"} == SpecFields;
  }

  // A new build: its image has the given name, or else one after the project, and a tag after the start of
  // the commit, below the registry prefix if there is one.
  predicate BuildOf(build: Build, cfg: Config, p: Project, commit: string, test: Option<string>,
                    image: Option<string>) {
    var name := if image in {None, Some("")} then ImageReference.SanitizeImageComponent(p.name, cfg.unicode)
                else image.value;
    var tag := ImageReference.SanitizeImageComponent(Cut(commit, 12), cfg.unicode);
    && build.commit == Some(commit) && build.testCommand == test && build.registry == cfg.prefix
    && build.imageName == Some(name) && build.imageTag == Some(tag)
    && build.imageRef ==
         if cfg.prefix in {None, Some("")} then Some(name + ":" + tag)
         else Some(cfg.prefix.value + "/" + name + ":" + tag)
  }

  lemma BuildWrites(cfg: Config, p: Project, commit: string, test: Option<string>, image: Option<string>)
    ensures BuildOf(NewBuild(cfg, p, commit, test, image), cfg, p, commit, test, image)
  {
  }

  // A deploy appends one row with the settings and branch of the moment, the commit, the tests and the
  // environment asked for.
  lemma DeployWrites(cfg: Config, s: System, i: nat, branch: Value, commit: string, test: Option<string>,
                     environment: string)
    requires i < |s.projects|
    ensures var s' := Next(cfg, s, Deploy(i, branch, commit, test, environment));
            && s'.projects == s.projects && |s'.deployments| == |s.deployments| + 1
            && s'.deployments[..|s.deployments|] == s.deployments
            && var row := s'.deployments[|s.deployments|];
               && row.projectId == s.projects[i].id && row.environment == environment && row.source == None
               && SnapshotOf(row.snapshot, s.projects[i], branch)
               && BuildOf(row.build, cfg, s.projects[i], commit, test, None)
  {
    SnapshotWrites(s.projects[i], branch);
    BuildWrites(cfg, s.projects[i], commit, test, None);
  }

  // A retry appends one row with the original's snapshot, environment, tests, image name and trimmed
  // commit, or nothing.
  lemma RetryWrites(cfg: Config, s: System, i: nat, o: nat)
    requires i < |s.projects| && o < |s.deployments|
    ensures var s', original := Next(cfg, s, Retry(i, o)), s.deployments[o];
            if Retryable(original) && original.projectId == s.projects[i].id then
              && s'.projects == s.projects && |s'.deployments| == |s.deployments| + 1
              && s'.deployments[..|s.deployments|] == s.deployments
              && var row := s'.deployments[|s.deployments|];
                 && row.projectId == original.projectId && row.environment == original.environment
                 && row.source == Some(o) && row.snapshot == original.snapshot
                 && BuildOf(row.build, cfg, s.projects[i], Strip(original.build.commit.value, IsSpace),
                            original.build.testCommand, original.build.imageName)
            else s' == s
  {
    var original := s.deployments[o];
    RetryIsExact(cfg, s.projects[i], original, o);
    BuildWrites(cfg, s.projects[i], TrimmedCommit(original), original.build.testCommand, original.build.imageName);
  }

  // A report overwrites the image tag and reference it names, and nothing else.
  lemma ReportWrites(cfg: Config, s: System, i: nat, tag: Option<string>, ref: Option<string>)
    requires i < |s.deployments|
    ensures var build, s' := s.deployments[i].build, Next(cfg, s, Report(i, tag, ref));
            s' == s.(deployments := s.deployments[i := s.deployments[i].(build := build.(
              imageTag := if tag in {None, Some("")} then build.imageTag else tag,
              imageRef := if ref in {None, Some("")} then build.imageRef else ref))])
  {
  }

  /******* Chains *******/

  // Retries made during the run link back to what they were made from.
  predicate RetryOk(s: System, d: nat)
    requires d < |s.deployments|
  {
    s.deployments[d].source.Some? ==>
      var o := s.deployments[d].source.value;
      o < d && SameInputs(s.deployments[o], s.deployments[d]) && Retryable(s.deployments[d])
  }

  // Every deployment from position first on was made by the run.
  predicate RetriesOk(s: System, first: nat) {
    forall d | first <= d < |s.deployments| :: RetryOk(s, d)
  }

  lemma StepKeepsRetries(cfg: Config, s: System, step: Step, first: nat)
    requires RetriesOk(s, first) && first <= |s.deployments|
    ensures RetriesOk(Next(cfg, s, step), first)
  {
    var s' := Next(cfg, s, step);
    StepKeepsRecords(cfg, s, step);
    forall d | first <= d < |s'.deployments| ensures RetryOk(s', d) {
      if d < |s.deployments| {
        assert RetryOk(s, d) && SameRecord(s.deployments[d], s'.deployments[d]);
        if s.deployments[d].source.Some? {
          var o := s.deployments[d].source.value;
          assert SameRecord(s.deployments[o], s'.deployments[o]);
        }
      } else if step.Retry? {
        RetryIsExact(cfg, s.projects[step.project], s.deployments[step.original], step.original);
      }
    }
  }

  lemma {:induction false} RunsKeepRetries(cfg: Config, s: System, steps: seq<Step>)
    ensures RetriesOk(Run(cfg, s, steps), |s.deployments|)
  {
    if steps != [] {
      RunsKeepRetries(cfg, s, steps[..|steps| - 1]);
      RunsKeepRecords(cfg, s, steps[..|steps| - 1]);
      StepKeepsRetries(cfg, Run(cfg, s, steps[..|steps| - 1]), steps[|steps| - 1], |s.deployments|);
    }
  }

  // Each deployment of the chain is a retry, made by the run, of the one before it.
  predicate IsChain(s: System, chain: seq<nat>, first: nat) {
    && chain != []
    && (forall k | 0 <= k < |chain| :: chain[k] < |s.deployments|)
    && (forall k | 0 < k < |chain| :: first <= chain[k] && s.deployments[chain[k]].source == Some(chain[k - 1]))
  }

  // However many retries, and whatever was edited or deployed in between, the end of a chain has the
  // snapshot, trimmed commit, test command, environment and image name of its root.
  lemma {:induction false} ChainsAreExact(cfg: Config, s: System, steps: seq<Step>, chain: seq<nat>)
    requires IsChain(Run(cfg, s, steps), chain, |s.deployments|)
    ensures var rows := Run(cfg, s, steps).deployments; SameInputs(rows[chain[0]], rows[chain[|chain| - 1]])
  {
    if |chain| > 1 {
      var n := |chain| - 1;
      ChainsAreExact(cfg, s, steps, chain[..n]);
      RunsKeepRetries(cfg, s, steps);
      assert RetryOk(Run(cfg, s, steps), chain[n]);
    }
  }

  // A chain from a snapshotted root never gets stuck: its end can be retried, for the root's own
  // project, exactly when the root's commit is not blank, and never for another project.
  lemma ChainsCanGoOn(cfg: Config, s: System, steps: seq<Step>, chain: seq<nat>, p: nat)
    requires IsChain(Run(cfg, s, steps), chain, |s.deployments|)
    requires p < |Run(cfg, s, steps).projects|
    requires Snapshotted(Run(cfg, s, steps).deployments[chain[0]])
    ensures var s' := Run(cfg, s, steps);
            var root := s'.deployments[chain[0]];
            (|Next(cfg, s', Retry(p, chain[|chain| - 1])).deployments| == |s'.deployments| + 1)
            <==> s'.projects[p].id == root.projectId && TrimmedCommit(root) != ""
  {
    ChainsAreExact(cfg, s, steps, chain);
    var s' := Run(cfg, s, steps);
    var last := chain[|chain| - 1];
    RetryIsExact(cfg, s'.projects[p], s'.deployments[last], last);
  }

  // Every deployment a run creates is snapshotted: roots made by Deploy and links made by Retry.
  lemma {:induction false} CreatedAreSnapshotted(cfg: Config, s: System, steps: seq<Step>)
    ensures forall d | |s.deployments| <= d < |Run(cfg, s, steps).deployments| ::
              Snapshotted(Run(cfg, s, steps).deployments[d])
  {
    if steps != [] {
      CreatedAreSnapshotted(cfg, s, steps[..|steps| - 1]);
      RunsKeepRecords(cfg, s, steps[..|steps| - 1]);
      var mid, s' := Run(cfg, s, steps[..|steps| - 1]), Run(cfg, s, steps);
      StepKeepsRecords(cfg, mid, steps[|steps| - 1]);
      forall d | |s.deployments| <= d < |s'.deployments| ensures Snapshotted(s'.deployments[d]) {
        if d < |mid.deployments| {
          assert SameRecord(mid.deployments[d], s'.deployments[d]);
        } else if steps[|steps| - 1].Retry? {
          var Retry(i, o) := steps[|steps| - 1];
          RetryIsExact(cfg, mid.projects[i], mid.deployments[o], o);
        }
      }
    }
  }

  /******* The record-creating functions *******/

  class Records {
    var projects: seq<Project>
    var deployments: seq<Deployment>

    constructor (projects: seq<Project>, deployments: seq<Deployment>)
      ensures State() == System(projects, deployments)
    {
      this.projects, this.deployments := projects, deployments;
    }

    ghost function State(): System
      reads this
    {
      System(projects, deployments)
    }

    method CreateRequestedDeployment(cfg: Config, p: Project, branch: Value, commit: string, test: Option<string>,
                                     environment: string, imageName: Option<string>, snapshot: Option<Snapshot>,
                                     source: Option<nat>)
      returns (id: nat)
      modifies this`deployments
      ensures id == |old(deployments)|
      ensures deployments == old(deployments)
                + [NewDeployment(cfg, p, branch, commit, test, environment, imageName, snapshot, source)]
    {
      var name := if Given(imageName) then imageName.value
                  else ImageReference.SanitizeImageComponent(p.name, cfg.unicode);
      var tag := ImageReference.SanitizeImageComponent(Cut(commit, 12), cfg.unicode);
      var ref := if Given(cfg.prefix) then cfg.prefix.value + "/" + name + ":" + tag else name + ":" + tag;
      var build := Build(Some(commit), test, cfg.prefix, Some(name), Some(tag), Some(ref));
      var spec := if snapshot.Some? then snapshot.value else CreateSnapshot(p, Some(branch));
      id := |deployments|;
      deployments := deployments + [Deployment(p.id, environment, spec, build, source)];
    }

    method CreateUserFacingDeployment(cfg: Config, p: nat, branch: Value, commit: string, test: Option<string>,
                                      environment: string)
      returns (id: nat)
      requires p < |projects|
      modifies this`deployments
      ensures State() == Next(cfg, old(State()), Deploy(p, branch, commit, test, environment))
      ensures id == |old(deployments)| < |deployments|
    {
      id := CreateRequestedDeployment(cfg, projects[p], branch, commit, test, environment, None, None, None);
    }

    method CreateHistoricalRetry(cfg: Config, p: nat, original: nat) returns (r: Result<nat, RetryError>)
      requires p < |projects| && original < |deployments|
      modifies this`deployments
      ensures State() == Next(cfg, old(State()), Retry(p, original))
      ensures r.Ok? <==> Retryable(old(deployments)[original]) && old(deployments)[original].projectId == projects[p].id
      ensures r.Ok? ==> r.value == |old(deployments)| && |deployments| == r.value + 1
      ensures r.Err? ==> deployments == old(deployments)
    {
      RetryIsExact(cfg, projects[p], deployments[original], original);
      var copied := CopySnapshot(deployments[original], projects[p].id);
      if copied.Err? {
        return Err(copied.error);
      }
      var build := deployments[original].build;
      var commit := Strip(if build.commit.Some? then build.commit.value else "", IsSpace);
      if commit == "" {
        return Err(CommitUnavailable);
      }
      var id := CreateRequestedDeployment(cfg, projects[p], copied.value.project.value["branch"], commit,
                                          build.testCommand, deployments[original].environment, build.imageName,
                                          Some(copied.value), Some(original));
      return Ok(id);
    }
  }
}
