/**
  GitHub deliveries under races. A handler reads the projects, looks its delivery id up, and
  commits; other handlers and project edits may run between those three moments.
  control_plane/api/webhooks.py.
 */
module Webhooks {
  import opened Basics
  import opened Strings

  // Repository URLs are already in normal form; pushes is trigger == "github_push".
  datatype Project = Project(pushes: bool, repository: string, branch: string)

  datatype EventKind = Ping | Push | OtherEvent

  // A signed event; deleted is the payload's own flag. A missing or empty delivery id gives no
  // idempotency key.
  datatype Event = Event(
    kind: EventKind,
    id: Option<string>,
    repository: Option<string>,
    branch: Option<string>,
    commit: Option<string>,
    deleted: bool)

  datatype Reason =
    | UnsupportedEvent
    | UnsupportedRef
    | BranchDeleted
    | UnmatchedRepository
    | BranchMismatch
    | PlatformNotReady

  // What is deployed of a project.
  datatype Head = Head(branch: string, commit: string)

  // What the handler will try to commit: nothing at all, an ignored delivery, or a fan-out.
  datatype Plan = Reply | Ignore(reason: Reason) | FanOut(projects: seq<nat>, head: Head)

  datatype DeliveryStatus = Received | Accepted | Ignored

  // fanout records the projects whose deployments were committed with the row.
  datatype Delivery = Delivery(id: string, status: DeliveryStatus, reason: Option<Reason>, fanout: seq<nat>)

  datatype Deployed = Deployed(project: nat, delivery: Option<string>, head: Head)

  datatype Tables = Tables(deliveries: seq<Delivery>, deployments: seq<Deployed>)

  predicate Matches(p: Project, repository: string, branch: string) {
    p.pushes && p.repository == repository && p.branch == branch
  }

  function MatchingUpTo(projects: seq<Project>, repository: string, branch: string, k: nat): seq<nat>
    requires k <= |projects|
  {
    if k == 0 then []
    else
      MatchingUpTo(projects, repository, branch, k - 1)
      + if Matches(projects[k - 1], repository, branch) then [k - 1] else []
  }

  function MatchingProjects(projects: seq<Project>, repository: string, branch: string): seq<nat> {
    MatchingUpTo(projects, repository, branch, |projects|)
  }

  predicate Complete(e: Event) {
    && e.repository.Some? && e.repository.value != ""
    && e.branch.Some? && e.branch.value != ""
    && e.commit.Some? && e.commit.value != ""
  }

  predicate Zero(c: char) {
    c == '0'
  }

  predicate HexDigit(c: char) {
    Digit(c) || 'a' <= c <= 'f' || 'A' <= c <= 'F'
  }

  // A push of zeros deletes its branch, flag or no flag.
  predicate Deletes(e: Event) {
    e.deleted || (e.commit.Some? && e.commit.value != "" && All(e.commit.value, Zero))
  }

  // [0-9a-fA-F]{40} or {64}
  predicate FullSha(s: string) {
    (|s| == 40 || |s| == 64) && All(s, HexDigit)
  }

  function LowerHex(c: char): char {
    if 'A' <= c <= 'F' then 'a' + (c - 'A') else c
  }

  function LowerSha(s: string): string {
    seq(|s|, i requires 0 <= i < |s| => LowerHex(s[i]))
  }

  // The branches of github_webhook up to the reservation. A malformed commit answers 400.
  function Decide(e: Event, projects: seq<Project>): Plan {
    if e.kind.Ping? then Reply
    else if !e.kind.Push? then Ignore(UnsupportedEvent)
    else if !Complete(e) then Ignore(UnsupportedRef)
    else if Deletes(e) then Ignore(BranchDeleted)
    else if !FullSha(e.commit.value) then Reply
    else if forall i | 0 <= i < |projects| :: !projects[i].pushes || projects[i].repository != e.repository.value then
      Ignore(UnmatchedRepository)
    else
      var matching := MatchingProjects(projects, e.repository.value, e.branch.value);
      if matching == [] then Ignore(BranchMismatch) else FanOut(matching, Head(e.branch.value, LowerSha(e.commit.value)))
  }

  predicate Known(t: Tables, id: string) {
    exists i | 0 <= i < |t.deliveries| :: t.deliveries[i].id == id
  }

  function Deployments(projects: seq<nat>, id: Option<string>, head: Head): seq<Deployed> {
    seq(|projects|, i requires 0 <= i < |projects| => Deployed(projects[i], id, head))
  }

  // The committed transaction: insert and fan-out land together, a known id commits nothing.
  function Commit(t: Tables, id: Option<string>, plan: Plan, ready: bool): Tables {
    if plan.Reply? || (id.Some? && Known(t, id.value)) then t
    else
      var fires := plan.FanOut? && ready;
      var deployments := if fires then Deployments(plan.projects, id, plan.head) else [];
      var reason := if fires then None else if plan.Ignore? then Some(plan.reason) else Some(PlatformNotReady);
      Tables(
        if id.None? then t.deliveries
        else t.deliveries + [Delivery(id.value, if fires then Accepted else Ignored, reason,
                                      if fires then plan.projects else [])],
        t.deployments + deployments)
  }

  /******* Runs *******/

  // seen is the project table as the handler read it.
  datatype Handler =
    | Reserving(event: Event, seen: seq<Project>, plan: Plan)
    | Committing(event: Event, seen: seq<Project>, plan: Plan)
    | Finished

  datatype System = System(projects: seq<Project>, tables: Tables, handlers: map<nat, Handler>)

  datatype Step =
    | EditProject(project: nat, to: Project)
    | AddProject(added: Project)
    | Receive(handler: nat, event: Event)
    | LookUp(handler: nat)
    | Finish(handler: nat, ready: bool)
    | Fail(handler: nat)

  const Init: System := System([], Tables([], []), map[])

  function EventId(e: Event): Option<string> {
    if e.id.Some? && e.id.value != "" then e.id else None
  }

  function Next(s: System, step: Step): System {
    match step
    case EditProject(i, to) => if i < |s.projects| then s.(projects := s.projects[i := to]) else s
    case AddProject(p) => s.(projects := s.projects + [p])
    case Receive(h, e) =>
      if h in s.handlers then s
      else s.(handlers := s.handlers[h := Reserving(e, s.projects, Decide(e, s.projects))])
    case LookUp(h) =>
      if h !in s.handlers || !s.handlers[h].Reserving? then s
      else
        var Reserving(e, seen, plan) := s.handlers[h];
        var id := EventId(e);
        s.(handlers := s.handlers[h := if id.Some? && Known(s.tables, id.value) then Finished
                                       else Committing(e, seen, plan)])
    case Finish(h, ready) =>
      if h !in s.handlers || !s.handlers[h].Committing? then s
      else
        var Committing(e, _, plan) := s.handlers[h];
        s.(tables := Commit(s.tables, EventId(e), plan, ready), handlers := s.handlers[h := Finished])
    case Fail(h) => s.(handlers := s.handlers[h := Finished])
  }

  function Run(steps: seq<Step>): System {
    if steps == [] then Init else Next(Run(steps[..|steps| - 1]), steps[|steps| - 1])
  }

  /******* Invariant *******/

  // The projects deployed for one delivery id, in the order their rows were inserted.
  function DeployedFor(deployments: seq<Deployed>, id: string): seq<nat> {
    if deployments == [] then []
    else
      var last := deployments[|deployments| - 1];
      DeployedFor(deployments[..|deployments| - 1], id) + if last.delivery == Some(id) then [last.project] else []
  }

  predicate DeliveryOk(t: Tables, i: nat)
    requires i < |t.deliveries|
  {
    && !t.deliveries[i].status.Received?
    && (t.deliveries[i].status.Ignored? ==> t.deliveries[i].fanout == [])
    && DeployedFor(t.deployments, t.deliveries[i].id) == t.deliveries[i].fanout
  }

  predicate DeploymentsKnown(t: Tables) {
    forall k | 0 <= k < |t.deployments| && t.deployments[k].delivery.Some? :: Known(t, t.deployments[k].delivery.value)
  }

  predicate TablesOk(t: Tables) {
    && (forall i, j | 0 <= i < j < |t.deliveries| :: t.deliveries[i].id != t.deliveries[j].id)
    && (forall i | 0 <= i < |t.deliveries| :: DeliveryOk(t, i))
    && DeploymentsKnown(t)
  }

  lemma {:induction false} DeployedForAppend(a: seq<Deployed>, b: seq<Deployed>, id: string)
    ensures DeployedFor(a + b, id) == DeployedFor(a, id) + DeployedFor(b, id)
  {
    if b == [] {
      assert a + b == a;
    } else {
      var n := |b| - 1;
      assert (a + b)[..|a + b| - 1] == a + b[..n];
      DeployedForAppend(a, b[..n], id);
    }
  }

  lemma {:induction false} DeployedForFan(projects: seq<nat>, id: Option<string>, head: Head, other: string)
    ensures DeployedFor(Deployments(projects, id, head), other) == if id == Some(other) then projects else []
  {
    if projects == [] {
      assert Deployments(projects, id, head) == [];
    } else {
      var n := |projects| - 1;
      assert Deployments(projects, id, head)[..n] == Deployments(projects[..n], id, head);
      DeployedForFan(projects[..n], id, head, other);
      assert projects == projects[..n] + [projects[n]];
    }
  }

  lemma {:induction false} UnknownHasNone(t: Tables, id: string, k: nat)
    requires DeploymentsKnown(t) && !Known(t, id) && k <= |t.deployments|
    ensures DeployedFor(t.deployments[..k], id) == []
  {
    if k > 0 {
      assert t.deployments[..k][..k - 1] == t.deployments[..k - 1];
      UnknownHasNone(t, id, k - 1);
    }
  }

  predicate Inserts(t: Tables, id: Option<string>, plan: Plan) {
    !plan.Reply? && !(id.Some? && Known(t, id.value))
  }

  function Added(t: Tables, id: Option<string>, plan: Plan, ready: bool): seq<nat> {
    if Inserts(t, id, plan) && plan.FanOut? && ready then plan.projects else []
  }

  // A commit adds its fan-out to the deployments of its own id and nothing to any other id.
  lemma CommitAdds(t: Tables, id: Option<string>, plan: Plan, ready: bool, key: string)
    ensures DeployedFor(Commit(t, id, plan, ready).deployments, key)
         == DeployedFor(t.deployments, key) + if id == Some(key) then Added(t, id, plan, ready) else []
  {
    var head := if plan.FanOut? then plan.head else Head("", "");
    var fan := Deployments(Added(t, id, plan, ready), id, head);
    assert Commit(t, id, plan, ready).deployments == t.deployments + fan;
    DeployedForAppend(t.deployments, fan, key);
    DeployedForFan(Added(t, id, plan, ready), id, head, key);
  }

  lemma NoneBefore(t: Tables, id: string)
    requires DeploymentsKnown(t) && !Known(t, id)
    ensures DeployedFor(t.deployments, id) == []
  {
    UnknownHasNone(t, id, |t.deployments|);
    assert t.deployments[..|t.deployments|] == t.deployments;
  }

  lemma CommitKeepsDelivery(t: Tables, id: Option<string>, plan: Plan, ready: bool, i: nat)
    requires TablesOk(t) && Inserts(t, id, plan) && i < |Commit(t, id, plan, ready).deliveries|
    ensures DeliveryOk(Commit(t, id, plan, ready), i)
  {
    var key := Commit(t, id, plan, ready).deliveries[i].id;
    CommitAdds(t, id, plan, ready, key);
    if i < |t.deliveries| {
      assert DeliveryOk(t, i);
    } else {
      NoneBefore(t, key);
    }
  }

  lemma CommitKeepsKnown(t: Tables, id: Option<string>, plan: Plan, ready: bool)
    requires DeploymentsKnown(t)
    ensures DeploymentsKnown(Commit(t, id, plan, ready))
  {
    var t' := Commit(t, id, plan, ready);
    forall k | 0 <= k < |t'.deployments| && t'.deployments[k].delivery.Some?
      ensures Known(t', t'.deployments[k].delivery.value)
    {
      if k < |t.deployments| {
        assert Known(t, t.deployments[k].delivery.value);
        var i :| 0 <= i < |t.deliveries| && t.deliveries[i].id == t.deployments[k].delivery.value;
        assert t'.deliveries[i].id == t'.deployments[k].delivery.value;
      } else {
        assert t'.deliveries[|t.deliveries|].id == t'.deployments[k].delivery.value;
      }
    }
  }

  lemma CommitKeepsTables(t: Tables, id: Option<string>, plan: Plan, ready: bool)
    requires TablesOk(t)
    ensures TablesOk(Commit(t, id, plan, ready))
  {
    if Inserts(t, id, plan) {
      CommitKeepsKnown(t, id, plan, ready);
      forall i | 0 <= i < |Commit(t, id, plan, ready).deliveries|
        ensures DeliveryOk(Commit(t, id, plan, ready), i)
      {
        CommitKeepsDelivery(t, id, plan, ready, i);
      }
    }
  }

  predicate HandlerOk(h: Handler) {
    match h
    case Reserving(e, seen, plan) => plan == Decide(e, seen)
    case Committing(e, seen, plan) => plan == Decide(e, seen)
    case Finished => true
  }

  predicate Inv(s: System) {
    TablesOk(s.tables) && forall h | h in s.handlers :: HandlerOk(s.handlers[h])
  }

  lemma {:induction false} RunsKeepInv(steps: seq<Step>)
    ensures Inv(Run(steps))
  {
    if steps != [] {
      var n := |steps| - 1;
      RunsKeepInv(steps[..n]);
      var s := Run(steps[..n]);
      match steps[n]
      case Finish(h, ready) =>
        if h in s.handlers && s.handlers[h].Committing? {
          CommitKeepsTables(s.tables, EventId(s.handlers[h].event), s.handlers[h].plan, ready);
        }
      case _ =>
    }
  }

  /******* What runs guarantee *******/

  predicate ExactlyMatching(projects: seq<Project>, repository: string, branch: string, k: nat, m: seq<nat>)
    requires k <= |projects|
  {
    && (forall i | 0 <= i < |m| :: m[i] < k && Matches(projects[m[i]], repository, branch))
    && (forall i, j | 0 <= i < j < |m| :: m[i] < m[j])
    && (forall p | 0 <= p < k && Matches(projects[p], repository, branch) :: p in m)
  }

  // Every matching project once, in order, and no other.
  lemma {:induction false} MatchingIsExact(projects: seq<Project>, repository: string, branch: string, k: nat)
    requires k <= |projects|
    ensures ExactlyMatching(projects, repository, branch, k, MatchingUpTo(projects, repository, branch, k))
  {
    if k > 0 {
      MatchingIsExact(projects, repository, branch, k - 1);
    }
  }

  // Whatever the interleaving: a delivery id has at most one row, no committed row is left received,
  // the deployments carrying the id are exactly the row's fan-out, and an id without a row has none.
  lemma DeliveriesAreExactlyOnce(steps: seq<Step>, i: nat, id: string)
    requires i < |Run(steps).tables.deliveries| && Run(steps).tables.deliveries[i].id == id
    ensures var t := Run(steps).tables;
            && (forall j | 0 <= j < |t.deliveries| && t.deliveries[j].id == id :: j == i)
            && (t.deliveries[i].status.Accepted? || t.deliveries[i].status.Ignored?)
            && DeployedFor(t.deployments, id) == t.deliveries[i].fanout
            && (t.deliveries[i].status.Ignored? ==> DeployedFor(t.deployments, id) == [])
  {
    RunsKeepInv(steps);
    assert DeliveryOk(Run(steps).tables, i);
  }

  lemma UnknownIdsDeployNothing(steps: seq<Step>, id: string)
    requires !Known(Run(steps).tables, id)
    ensures DeployedFor(Run(steps).tables.deployments, id) == []
  {
    RunsKeepInv(steps);
    NoneBefore(Run(steps).tables, id);
  }

  lemma OnlyFinishCommits(s: System, step: Step)
    requires Next(s, step).tables != s.tables
    ensures step.Finish? && step.handler in s.handlers && s.handlers[step.handler].Committing?
    ensures var Committing(e, _, plan) := s.handlers[step.handler];
            Next(s, step).tables == Commit(s.tables, EventId(e), plan, step.ready)
  {
  }

  // A step adds deployments for a delivery id only when the id has no row yet, and then adds exactly
  // one per project that matched in the table its handler read; once the id has a row, it never gains
  // another deployment.
  lemma FanOutIsComplete(steps: seq<Step>, step: Step, id: string)
    requires id != ""
    requires var s := Run(steps);
             DeployedFor(Next(s, step).tables.deployments, id) != DeployedFor(s.tables.deployments, id)
    ensures var s := Run(steps);
            && !Known(s.tables, id) && Known(Next(s, step).tables, id)
            && step.Finish? && step.handler in s.handlers && s.handlers[step.handler].Committing?
            && var Committing(e, seen, plan) := s.handlers[step.handler];
               && e.id == Some(id) && e.kind.Push? && e.repository.Some? && e.branch.Some?
               && DeployedFor(Next(s, step).tables.deployments, id)
                  == MatchingProjects(seen, e.repository.value, e.branch.value) != []
  {
    RunsKeepInv(steps);
    var s := Run(steps);
    OnlyFinishCommits(s, step);
    var Committing(e, seen, plan) := s.handlers[step.handler];
    assert HandlerOk(s.handlers[step.handler]);
    DecideFans(e, seen);
    CommitFansOut(s.tables, EventId(e), plan, step.ready, id);
  }

  lemma DecideFans(e: Event, seen: seq<Project>)
    ensures Decide(e, seen).FanOut? ==>
              && e.kind.Push? && e.repository.Some? && e.branch.Some?
              && Decide(e, seen).projects == MatchingProjects(seen, e.repository.value, e.branch.value) != []
  {
  }

  lemma CommitFansOut(t: Tables, eventId: Option<string>, plan: Plan, ready: bool, id: string)
    requires TablesOk(t)
    requires DeployedFor(Commit(t, eventId, plan, ready).deployments, id) != DeployedFor(t.deployments, id)
    ensures !Known(t, id) && Known(Commit(t, eventId, plan, ready), id) && eventId == Some(id) && plan.FanOut?
    ensures DeployedFor(Commit(t, eventId, plan, ready).deployments, id) == plan.projects
  {
    CommitAdds(t, eventId, plan, ready, id);
    NoneBefore(t, id);
    assert Commit(t, eventId, plan, ready).deliveries[|t.deliveries|].id == id;
  }

  /******* Which deliveries deploy *******/

  predicate RepositoryKnown(e: Event, seen: seq<Project>) {
    exists i | 0 <= i < |seen| :: seen[i].pushes && Some(seen[i].repository) == e.repository
  }

  // Project i is deployed by pushes to the event's branch of its repository.
  predicate Wants(e: Event, seen: seq<Project>, i: nat)
    requires i < |seen|
  {
    seen[i].pushes && Some(seen[i].repository) == e.repository && Some(seen[i].branch) == e.branch
  }

  predicate PushOf(e: Event, repository: string, branch: string, commit: string) {
    && e.kind == Push && e.repository == Some(repository) && e.branch == Some(branch) && e.commit == Some(commit)
    && repository != "" && branch != "" && commit != ""
  }

  // A push to a wanted branch, not its deletion, with a full commit id.
  predicate Deploys(e: Event, seen: seq<Project>) {
    && e.repository.Some? && e.branch.Some? && e.commit.Some?
    && PushOf(e, e.repository.value, e.branch.value, e.commit.value)
    && !e.deleted && Nonzero(e.commit.value)
    && FullSha(e.commit.value)
    && Wanted(e, seen)
  }

  // Pings, and pushes with a malformed commit, are answered without a delivery row.
  predicate LeavesNoRow(e: Event) {
    || e.kind == Ping
    || (&& e.repository.Some? && e.branch.Some? && e.commit.Some?
        && PushOf(e, e.repository.value, e.branch.value, e.commit.value)
        && !e.deleted && Nonzero(e.commit.value)
        && !FullSha(e.commit.value))
  }

  predicate Wanted(e: Event, seen: seq<Project>) {
    exists i | 0 <= i < |seen| :: Wants(e, seen, i)
  }

  // A commit id that is not all zeros.
  predicate Nonzero(commit: string) {
    exists k | 0 <= k < |commit| :: commit[k] != '0'
  }

  lemma ZerosDelete(e: Event)
    requires Complete(e)
    ensures Deletes(e) <==> e.deleted || !Nonzero(e.commit.value)
  {
    assert All(e.commit.value, Zero) <==> !Nonzero(e.commit.value);
  }

  predicate AllWanted(e: Event, seen: seq<Project>, projects: seq<nat>) {
    && (forall j | 0 <= j < |projects| :: projects[j] < |seen| && Wants(e, seen, projects[j]))
    && (forall i | 0 <= i < |seen| && Wants(e, seen, i) :: i in projects)
    && (forall j, k | 0 <= j < k < |projects| :: projects[j] < projects[k])
  }

  lemma MatchingIsWanted(e: Event, seen: seq<Project>)
    requires Complete(e)
    ensures var matching := MatchingProjects(seen, e.repository.value, e.branch.value);
            AllWanted(e, seen, matching) && (matching != [] <==> Wanted(e, seen))
    ensures Wanted(e, seen) ==> RepositoryKnown(e, seen)
    ensures RepositoryKnown(e, seen) <==>
              exists i | 0 <= i < |seen| :: seen[i].pushes && seen[i].repository == e.repository.value
  {
    MatchingIsExact(seen, e.repository.value, e.branch.value, |seen|);
    var matching := MatchingProjects(seen, e.repository.value, e.branch.value);
    ExactIsWanted(e, seen, matching);
  }

  lemma ExactIsWanted(e: Event, seen: seq<Project>, matching: seq<nat>)
    requires Complete(e) && ExactlyMatching(seen, e.repository.value, e.branch.value, |seen|, matching)
    ensures AllWanted(e, seen, matching) && (matching != [] <==> Wanted(e, seen))
  {
    forall i | 0 <= i < |seen| ensures Wants(e, seen, i) <==> Matches(seen[i], e.repository.value, e.branch.value) {}
    if matching != [] { assert Wants(e, seen, matching[0]); }
  }

  lemma DecideDeploys(e: Event, seen: seq<Project>)
    ensures Decide(e, seen).FanOut? <==> Deploys(e, seen)
    ensures Decide(e, seen).Reply? <==> LeavesNoRow(e)
    ensures Decide(e, seen).FanOut? ==>
              var FanOut(projects, head) := Decide(e, seen);
              head == Head(e.branch.value, LowerSha(e.commit.value)) && AllWanted(e, seen, projects)
  {
    if e.kind.Push? && Complete(e) {
      ZerosDelete(e);
      MatchingIsWanted(e, seen);
    }
  }

  // The same commit id in lower case.
  predicate Lowered(a: string, b: string) {
    |a| == |b| && forall k | 0 <= k < |a| ::
      b[k] as int == a[k] as int + if 'A' <= a[k] <= 'F' then 32 else 0
  }

  // One deployment for each wanting project, in order, of the pushed branch and commit.
  predicate FansOut(e: Event, seen: seq<Project>, added: seq<Deployed>)
    requires e.branch.Some? && e.commit.Some?
  {
    && (forall j | 0 <= j < |added| ::
          && added[j].project < |seen| && Wants(e, seen, added[j].project)
          && added[j].delivery == (if e.id == Some("") then None else e.id)
          && added[j].head.branch == e.branch.value && Lowered(e.commit.value, added[j].head.commit))
    && (forall i | 0 <= i < |seen| && Wants(e, seen, i) :: exists j | 0 <= j < |added| :: added[j].project == i)
    && (forall j, k | 0 <= j < k < |added| :: added[j].project < added[k].project)
  }

  // When a handler comes to commit, in any run: a delivery whose id has a row changes nothing. Any other
  // adds deployments if and only if it is a push that deploys and the platform is ready, and then exactly
  // its fan-out. It leaves a row exactly when it has an id and is neither a ping nor malformed, accepted
  // if it deploys and otherwise ignored.
  lemma FinishDeploys(steps: seq<Step>, h: nat, ready: bool)
    requires h in Run(steps).handlers && Run(steps).handlers[h].Committing?
    ensures var s := Run(steps);
            var Committing(e, seen, _), t, t' := s.handlers[h], s.tables, Next(s, Finish(h, ready)).tables;
            var fires := Deploys(e, seen) && ready;
            var keyed := e.id.Some? && e.id.value != "";
            if keyed && Known(t, e.id.value) then t' == t
            else
              && (if fires then
                    && t.deployments < t'.deployments && t'.deployments[..|t.deployments|] == t.deployments
                    && FansOut(e, seen, t'.deployments[|t.deployments|..])
                  else t'.deployments == t.deployments)
              && (if !keyed || LeavesNoRow(e) then t'.deliveries == t.deliveries
                  else
                    && |t'.deliveries| == |t.deliveries| + 1 && t'.deliveries[..|t.deliveries|] == t.deliveries
                    && var row := t'.deliveries[|t.deliveries|];
                       && row.id == e.id.value && row.status == (if fires then Accepted else Ignored)
                       && RowExplained(e, seen, fires, row.reason))
  {
    RunsKeepInv(steps);
    var s := Run(steps);
    var Committing(e, seen, plan) := s.handlers[h];
    assert HandlerOk(s.handlers[h]);
    DecideDeploys(e, seen);
    DecideExplains(e, seen);
    if Deploys(e, seen) { FanIsExact(e, seen, plan.projects, plan.head); }
    var t, t' := s.tables, Next(s, Finish(h, ready)).tables;
    if t' != t && Deploys(e, seen) && ready {
      var added := Deployments(plan.projects, EventId(e), plan.head);
      assert t'.deployments == t.deployments + added;
      assert t'.deployments[|t.deployments|..] == added && t'.deployments[..|t.deployments|] == t.deployments;
    }
  }

  lemma FanIsExact(e: Event, seen: seq<Project>, projects: seq<nat>, head: Head)
    requires Deploys(e, seen) && AllWanted(e, seen, projects)
    requires head == Head(e.branch.value, LowerSha(e.commit.value))
    ensures var added := Deployments(projects, EventId(e), head); added != [] && FansOut(e, seen, added)
  {
    var added := Deployments(projects, EventId(e), head);
    var i :| 0 <= i < |seen| && Wants(e, seen, i);
    assert i in projects;
    forall i | 0 <= i < |seen| && Wants(e, seen, i) ensures exists j | 0 <= j < |added| :: added[j].project == i {
      var j :| 0 <= j < |projects| && projects[j] == i;
      assert added[j].project == i;
    }
  }

  // A delivery handled without interference reaches its commit with the projects of the moment, unless its
  // id has a row.
  lemma UndisturbedDelivery(steps: seq<Step>, h: nat, e: Event)
    requires h !in Run(steps).handlers
    ensures var s := Run(steps);
            var s' := Run(steps + [Receive(h, e), LookUp(h)]);
            && s'.tables == s.tables && s'.projects == s.projects && h in s'.handlers
            && if e.id.Some? && e.id.value != "" && Known(s.tables, e.id.value) then s'.handlers[h].Finished?
               else s'.handlers[h].Committing? && s'.handlers[h].event == e && s'.handlers[h].seen == s.projects
  {
    var one, two := steps + [Receive(h, e)], steps + [Receive(h, e), LookUp(h)];
    assert one[..|steps|] == steps && two[..|steps| + 1] == one;
  }

  // Why a row was ignored: the first of the reasons that applies.
  predicate RowExplained(e: Event, seen: seq<Project>, fires: bool, reason: Option<Reason>) {
    if fires then reason == None
    else if e.kind != Push then reason == Some(UnsupportedEvent)
    else if e.repository in {None, Some("")} || e.branch in {None, Some("")} || e.commit in {None, Some("")} then
      reason == Some(UnsupportedRef)
    else if e.deleted || !Nonzero(e.commit.value) then
      reason == Some(BranchDeleted)
    else if !RepositoryKnown(e, seen) then reason == Some(UnmatchedRepository)
    else if !Wanted(e, seen) then reason == Some(BranchMismatch)
    else reason == Some(PlatformNotReady)
  }

  lemma DecideExplains(e: Event, seen: seq<Project>)
    ensures var plan := Decide(e, seen);
            && (plan.Ignore? ==> RowExplained(e, seen, false, Some(plan.reason)))
            && (plan.FanOut? ==> RowExplained(e, seen, false, Some(PlatformNotReady)))
  {
    DecideDeploys(e, seen);
    if e.kind.Push? && Complete(e) {
      ZerosDelete(e);
      MatchingIsWanted(e, seen);
    }
  }

  /******* The handler's transaction *******/

  class DeliveryStore {
    var deliveries: seq<Delivery>
    var deployments: seq<Deployed>

    constructor ()
      ensures deliveries == [] && deployments == []
    {
      deliveries, deployments := [], [];
    }

    ghost function Current(): Tables
      reads this
    {
      Tables(deliveries, deployments)
    }

    // Inserts a received row, unless the id is absent or the unique constraint refuses it.
    method ReserveDeliveryId(id: Option<string>) returns (reserved: bool, duplicate: bool)
      modifies this`deliveries
      ensures duplicate <==> id.Some? && Known(old(Current()), id.value)
      ensures reserved <==> id.Some? && !duplicate
      ensures deliveries == old(deliveries) + if reserved then [Delivery(id.value, Received, None, [])] else []
    {
      reserved, duplicate := false, false;
      if id.None? {
        return;
      }
      for i := 0 to |deliveries|
        invariant deliveries == old(deliveries)
        invariant forall k | 0 <= k < i :: deliveries[k].id != id.value
      {
        if deliveries[i].id == id.value {
          duplicate := true;
          return;
        }
      }
      deliveries := deliveries + [Delivery(id.value, Received, None, [])];
      reserved := true;
    }

    // reserve_delivery_id, then either the ignored mark or one deployment per project and the
    // accepted mark, all in one transaction.
    method Handle(id: Option<string>, plan: Plan, ready: bool)
      modifies this
      ensures Current() == Commit(old(Current()), id, plan, ready)
    {
      if plan.Reply? {
        return;
      }
      var reserved, duplicate := ReserveDeliveryId(id);
      if duplicate {
        return;
      }
      if plan.Ignore? || !ready {
        if reserved {
          deliveries := deliveries[|deliveries| - 1 :=
            deliveries[|deliveries| - 1].(status := Ignored,
                                          reason := Some(if plan.Ignore? then plan.reason else PlatformNotReady))];
        }
        return;
      }
      for i := 0 to |plan.projects|
        invariant deliveries == old(deliveries) + if reserved then [Delivery(id.value, Received, None, [])] else []
        invariant deployments == old(deployments) + Deployments(plan.projects[..i], id, plan.head)
      {
        deployments := deployments + [Deployed(plan.projects[i], id, plan.head)];
        assert Deployments(plan.projects[..i + 1], id, plan.head)
            == Deployments(plan.projects[..i], id, plan.head) + [Deployed(plan.projects[i], id, plan.head)];
      }
      assert plan.projects[..|plan.projects|] == plan.projects;
      if reserved {
        deliveries := deliveries[|deliveries| - 1 :=
          deliveries[|deliveries| - 1].(status := Accepted, fanout := plan.projects)];
      }
    }
  }
}
