# AutoDeploy: a verified model

AutoDeploy is a small deployment platform. An API records deployments, builds and commands in one
database; workers claim them and drive clone, build, test, push and deploy; a reconciler repairs what
crashed workers and vanished runtime resources leave behind. Nothing coordinates the processes except
guarded updates of `(status, claimed_by, claimed_at)`, a heartbeat, a TTL and two unique constraints.

This project models that core in Dafny 4.11 and proves what it guarantees. `dafny verify
dfyconfig.toml` checks everything.

## How the model is built

**The leased-work protocol.** `Lifecycle` and `Records` hold the two status graphs and the rows.
`Transactions` gives every committed transaction as a function from the database it reads to the one
it leaves. `Protocol` interleaves them: a state is the rows, the clock, what each process and each API
request is doing, and a history that no step reads; a step is one transaction of one actor, the passing
of time, or a crash; a step that is not enabled changes nothing, so every list of steps is a run.
`ProtocolInvariants` proves what each step keeps, in two parts: `Inv` holds whatever the workers are
called, `NamedInv` needs distinct worker ids. `ProtocolTheorems`, `Lease`, `StrandedWork` and
`CommandWriters` state the results over whole runs. `StepValues` says column by column what each step
writes, and `Punctuality` that refreshes within the TTL keep claims fresh. `PipelineRun` follows one worker
from claim to end and shows that this is a run of the protocol; `PipelineOrder` gives the stages as a list
and what it takes to run. `Store` is the imperative side: a `Database` whose rows the
methods fetch, check and update in place, each method proved equal to the transaction function it stands for.

**The reconciler.** `Repair` has the eight rules, `Reconciler` the passes, the termination measure and
convergence, `OnePass` the exact condition for converging in one pass, `PassResult` the exact rows and
resources a call and a pass leave, `ReconcilerService` the handlers and loops that update rows in place.

**The rest of the core.** `Webhooks` (deliveries under races), `Heartbeats` (executions and retries as
functions of what the processes do, and what they leave unrefreshed, in microseconds), `CommandRunner`
(the poll, retry and probe loops), `AlphabeticId` and `Names` (Kubernetes names), `ImageReference` (tag,
pin, verify, recompose), `Environment` (accepted variables through two renderers and preflight) and
`RetryChains` (snapshots and historical retries). `Strings` and `Basics` are shared vocabulary.

## What the proofs found

- **Worker ids must differ.** The pipeline runs at most once, and its owner is refused only after a
  stop, exactly when no two workers share an id. `.env.example:38` ships
  `CONTROL_PLANE_WORKER_ID=worker-1`; the default in `control_plane/config.py:160` is distinct per
  process. Coupling, command uniqueness, single completion and orphan explanation hold under any naming,
  and so does exclusion in runs where claims are refreshed in time.
- **A failed stop strands work.** `docs/reliability.md:12` promises that interrupted work becomes an
  explicit failed record. It does not when the stop that interrupted it ends without having stopped it:
  the deployment stays in progress, unclaimed and without an active command. Exactly one kind of step
  does this, ending the only active command of such a deployment by a failed executor or by the skip for
  a newer Helm owner, and exactly one kind undoes it, a new command for that deployment. Where no command
  of a deployment ends so, its work is never stranded.
- **A slow worker may end a command in another's name.** A worker takes its id from the row it reads
  after its claim was committed (`worker/processing/command_processor.py:180`). If the claim goes stale
  before that and another worker takes the command, the first goes by the other's id and passes every
  ownership check. With distinct ids the writer of an end is the recorded claimant exactly when nobody
  took the command between its claim and its read-back. A command is still ended only once.
- **Two reconciler passes, not one.** Removing a shared Helm release strands an older running row until
  the next pass. Whatever the executors fail at, two passes are enough. One pass is enough exactly when no
  running Helm-managed deployment whose executor answers has a live release while the newest of its group
  is Helm-managed, failed, stopped, or in progress under a stale claim, and has an executor that stops it.
- **A pass may report zero although it repaired something.** The handlers build the executor outside their
  error handling. If it cannot be built, the exception ends the deployment's rules and its count is lost. A
  pass reports zero exactly when every deployment has nothing to do or raises so.
- **Release names.** They tell projects apart exactly while the environment slug has at most 33
  characters. They tell the environments of one project apart exactly while project slug, environment
  slug and id stay within 46 characters together, or there are no names or no environments longer than
  two characters, or names have at most two characters and environments at most 44. Beyond that two
  environments share one release.
- **The heartbeat cannot be switched off.** `allow_heartbeat=False` passes no callback, and the fallback
  in `worker/execution/command_runner.py:227` then uses the runner's own.
- **A healthy worker may lose its claim.** `docs/reliability.md:11` promises that healthy workers retain
  ownership, and `control_plane/config.py:59-66` only asks that the refresh interval be less than the TTL.
  But each attempt restarts the refresh timer and no back-off pause refreshes. With an interval of 200 s, a
  TTL of 300 s and one retry, two attempts that exit with 1 after 200 s leave the claim unrefreshed for
  401 s. For a positive interval, whatever the processes do, a command of n attempts keeps its claim fresh if
  and only if the TTL covers n times one attempt's gap plus the pauses between the attempts; one attempt's gap
  is the interval rounded up to the 500 ms polls, or the time of the last poll if that is sooner. With an
  interval of zero the gap, at most 500 ms, counts once. The defaults leave at most 61 s.
- `newer_helm_workload_owner_id` is documented as the newest owner (`worker/helm/ownership.py:24`) but
  returns the next newer id: of three deployments of one group, the first is told the second. It returns the
  newest exactly when the group has only one newer member. Whether it returns one at all is what callers use,
  and that is exact.

## Model

| member | source | states |
|---|---|---|
| Transactions.StopNeverRefused | worker/processing/command_processor.py:213-216 | From every pair of statuses a completed stop or cleanup is accepted by both the deployment and the build. |
| ProtocolInvariants.AdvanceRows | worker/processing/pipeline.py:57-348 | A pipeline step either leaves all rows alone, or writes its own row as the owner with no active stop, or releases that row's claim because a stop is active; it never writes commands. |
| ProtocolInvariants.AdvanceCommandWrites | worker/processing/command_processor.py:178-339 | A command step changes the database only while the claim names the id its process goes by, and then in one of four ways. |
| ProtocolInvariants.StepGrows | control_plane/models/platform_deployment.py:25-35 | Under any naming, every step moves statuses strictly up the order or not at all, keeps an image built once it is built, and never changes a command that has ended. |
| ProtocolInvariants.CommandsAdded | control_plane/application/command_requests.py:35-51 | Commands appear only through an inserting request, one at a time, and only when no command holds the key. |
| ProtocolInvariants.StageRowOk | worker/processing/lifecycle.py:157-168 | Whatever stage commits, the two statuses stay coupled and the next stage finds what it needs, even for a worker that has lost its claim in the meantime. |
| ProtocolInvariants.StageMoves | worker/processing/pipeline.py:58-303 | For the owner of the claim each committed stage leads to the status the following stage starts from. |
| ProtocolInvariants.RowsKept | worker/processing/lifecycle.py:157-168 | Every step keeps the coupling of statuses, claim columns set together, and targets only on rows that reached deploying. |
| ProtocolInvariants.WorkersKept | worker/processing/pipeline.py:160-176 | Every step keeps, for every worker, that past the push its image is built or the row moved on, and past the start of deploying the row never goes back. |
| ProtocolInvariants.OwnersKept | worker/processing/claims.py:83-150 | With distinct ids, every step keeps that a recorded owner at a stage sees that stage's status, or stopped. |
| ProtocolInvariants.CommandsKept | control_plane/models/deployment_command.py:14-21 | Every step keeps active_key set exactly on pending and claimed commands, claim columns set exactly on claimed ones, and cleanups only on deployments past pushing. |
| ProtocolInvariants.KeysKept | control_plane/models/deployment_command.py:14-21 | Every step keeps at most one keyed command per deployment and type. |
| ProtocolInvariants.RequestsKept | control_plane/application/command_requests.py:15-66 | Every step keeps each answered request pointing at an existing command for what it asked. |
| ProtocolInvariants.OneCreatorKept | control_plane/application/command_requests.py:66-66 | Every step keeps exactly one requester told that it created each command. |
| ProtocolInvariants.OrphansKept | worker/processing/claims.py:171-186 | Every step keeps that work in progress without a claim has a stop command in its history. |
| ProtocolInvariants.StartRecorded | worker/processing/lifecycle.py:221-225 | A recorded stage start is a committed begin_step of the recorded owner while no stop is active, accepted by the deployment, which then has that status. |
| ProtocolInvariants.StartsBelowKept | worker/processing/lifecycle.py:221-225 | Under any naming, every step keeps that a deployment has not fallen behind any start recorded for it. |
| ProtocolInvariants.StartsClimbKept | worker/processing/lifecycle.py:221-225 | With distinct ids, every step keeps that the starts recorded for one deployment climb strictly and come from one process. |
| ProtocolInvariants.FinishRecorded | worker/processing/command_processor.py:212-338 | A recorded end of a command is written by a process going by the id its claim names, that id is recorded, and the command is left ended, keyless and unclaimed. |
| ProtocolInvariants.FinishesKept | worker/processing/command_processor.py:212-338 | Every step keeps that no command has two recorded ends and that the recorded outcome is its status. |
| ProtocolInvariants.RunsKeepInv | worker/processing/pipeline.py:38-348 | Every state of every run satisfies the invariants, the named part whenever worker ids are distinct. |
| ProtocolTheorems.SharedNameStartsTwice | worker/processing/claims.py:205-267 | Two processes with one id reach a run in which both begin cloning the same deployment. |
| ProtocolTheorems.AtMostOncePipeline | worker/processing/claims.py:205-267 | In all runs every stage of every deployment is started at most once and all by one process, if and only if no two processes share an id. |
| ProtocolTheorems.StatusesStayCoupled | worker/processing/lifecycle.py:157-190 | In every run, under any naming, the build status is one that goes with the deployment status. |
| ProtocolTheorems.SharedNameIsRefused | worker/processing/lifecycle.py:157-168 | Two processes with one id reach a run in which an owner is refused although nothing was stopped. |
| ProtocolTheorems.RefusedExactlyWhenStopped | worker/processing/lifecycle.py:157-190 | In all runs an owner's transaction is refused exactly when a command stopped the deployment and the stage would move a status, so a build never refuses what its deployment accepts, if and only if no two processes share an id. |
| ProtocolTheorems.AtMostEightStatusChanges | control_plane/models/platform_deployment.py:25-35 | Every run changes the status of one deployment at most eight times. |
| ProtocolTheorems.PipelineIsFenced | worker/processing/claims.py:83-150 | A worker step changes a status or build status only as the recorded owner and only while no stop is active. |
| ProtocolTheorems.StopFreezesPipeline | worker/processing/pipeline.py:304-307 | From the moment a stop exists until it ends, however the run goes on, no worker step changes a status of its deployment. |
| ProtocolTheorems.CommandsAreUnique | control_plane/models/deployment_command.py:14-21 | In every run there is at most one active command per deployment and type, and active_key is set exactly on unfinished commands. |
| ProtocolTheorems.ExactlyOneCreator | control_plane/application/command_requests.py:31-66 | In every run exactly one requester was told that it created a given command. |
| ProtocolTheorems.RequestsAreAnsweredRightly | control_plane/application/command_requests.py:15-66 | Whoever wins the race, an answered request holds the command active for what it asked, is told created exactly for a new one, and is abandoned only if that command has already ended. |
| ProtocolTheorems.SingleCompletion | worker/processing/command_processor.py:212-338 | In every run a command is given at most one terminal status, which it keeps, despite stale reclaims. |
| ProtocolTheorems.NewerOwnerIsNext | worker/helm/ownership.py:23-40 | The owner found is the smallest newer id in the project and environment, and none means that there is no newer one. |
| ProtocolTheorems.NewestIff | worker/helm/ownership.py:23-40 | A deployment has no newer owner if and only if it has the greatest id of its project and environment. |
| ProtocolTheorems.OwnerIsNewestIff | worker/helm/ownership.py:23-40 | The owner found is the newest of the group if and only if the group has only one newer member. |
| ProtocolTheorems.SecondOfThreeIsFound | worker/helm/ownership.py:23-40 | Of three deployments of one group the first is told the second. |
| ProtocolTheorems.OneReleaseOwner | worker/helm/ownership.py:23-40 | In every nonempty group exactly one deployment has no newer owner. |
| ProtocolTheorems.StopsRespectReleaseOwner | worker/processing/command_processor.py:140-175 | The command path and the reconciler both call stop on a Helm-managed workload, successfully or not, only for the greatest id of its group. |
| ProtocolTheorems.NoUnexplainedOrphan | worker/processing/claims.py:171-186 | In every run work in progress without a claim has a stop command in its history. |
| ProtocolTheorems.OnlyStaleWorkIsRepaired | worker/reconciliation/claims.py:27-70 | A repair rule changes the status of work in progress exactly when it is the stale-claim rule and the claim is stale, and then fails it together with its build. |
| StepValues.PendingIsClaimed | worker/processing/claims.py:205-267 | A claim is written exactly for a pending row that is unclaimed or claimed more than the TTL ago, with the worker's id and the present time; otherwise nothing changes. |
| StepValues.ClaimAges | worker/processing/claims.py:236-241 | A claim is not stale or claimable until more than the TTL has passed since it was written. |
| StepValues.HeartbeatWrites | worker/processing/claims.py:124-150 | A holder's heartbeat sets the claim time to now, or releases the claim when a stop is pending or claimed; anybody else's writes nothing, and only the first goes on. |
| StepValues.InterruptedWrites | worker/processing/pipeline.py:304-307 | At every stage a lost claim writes nothing and a pending stop only releases the claim; both end the work. |
| StepValues.ErrorsFail | worker/processing/pipeline.py:308-320 | A failed or missing report leads to mark_failed without a write. |
| StepValues.StoppedRefuses | worker/processing/pipeline.py:321-348 | On a stopped deployment every stage that moves a status is refused without a write and leads to mark_failed, which is refused in turn and ends the work. |
| StepValues.StageWrites | worker/processing/lifecycle.py:157-233 | A stage its holder is ready for commits its statuses, the reported target and Helm flag where the stage records them, and a claim time of now, and nothing else; the last stages release the claim. |
| StepValues.CommandIsTaken | worker/processing/command_processor.py:40-66 | A command is taken exactly when it has not ended and neither it nor its deployment has a claim of at most the TTL. |
| StepValues.IdentityIsRead | worker/processing/command_processor.py:178-181 | After the claim a process goes by the id the row names, or its own if the row names none. |
| StepValues.CommandRefreshWrites | worker/processing/command_processor.py:69-105 | The start of a command and its heartbeats set its claim time to now for its holder, and end anybody else's work. |
| StepValues.CheckWrites | worker/processing/command_processor.py:140-175 | The holder ends a command as skipped if and only if the deployment is Helm-managed and some later row has the same project and environment; on all other deployments stop is called. |
| StepValues.EndWrites | worker/processing/command_processor.py:208-288 | A successful stop leaves the deployment stopped, an unsettled build cancelled by a stop but not by a cleanup, and the reported target; a failed one leaves it alone; either ends the command, and only for its holder. |
| StepValues.CreateWrites | control_plane/application/deployments/orchestration.py:150-217 | A deployment starts pending, unclaimed and without a target. |
| StepValues.InsertWrites | control_plane/application/command_requests.py:31-51 | An insert adds a pending, active, unclaimed command exactly when no active one of the same deployment and type exists. |
| StepValues.LookUpAdmits | control_plane/application/command_requests.py:15-31 | A stop may be requested for every deployment, a cleanup for Kubernetes deployments only. |
| Punctuality.ClaimsAreTimely | worker/processing/claims.py:124-150 | In every run the claim a live process works under is no older than its last heartbeat, passed stage or claim. |
| Punctuality.PunctualRunsAreFresh | worker/processing/claims.py:124-150 | If the refreshes of every live process lie at most the TTL apart, no claim of a live process ever goes stale. |
| Punctuality.PunctualityExcludes | worker/processing/command_processor.py:43-60 | In such runs a worker past its first begin_step owns its deployment alone: no other process, command or repair rule touches it. |
| PipelineOrder.RunsIfAllSucceed | worker/processing/pipeline.py:57-303 | An undisturbed deployment ends running with a succeeded build if and only if each of the listed stages, the two test stages exactly with a test command, is reported as a success, and failed with a failed build otherwise. |
| PipelineOrder.MovesOnBySuccess | worker/processing/pipeline.py:57-303 | A process moves on from a stage only by a success reported for it while it holds the claim and no stop is active. |
| PipelineOrder.TrailsFollowRoute | worker/processing/pipeline.py:57-303 | In every run the stages a process passes through are a prefix of that list, up to where it stands or failed. |
| PipelineOrder.RunningMeansWholeRoute | worker/processing/pipeline.py:107-303 | Whoever brings a deployment to running in any run has passed the whole list, tests included if there are any. |
| StrandedWork.StrandedUntilAskedAgain | worker/reconciliation/service.py:90-113 | Stranded work stays stranded through a step if and only if the step does not insert a command, of either type, for that deployment. |
| StrandedWork.StrandedExactlyBy | worker/processing/command_processor.py:262-288 | Under any naming, a step strands a deployment if and only if it is in progress and unclaimed and the step ends its only active command by a failed executor or by the historical skip. |
| StrandedWork.StrandedHasFailedEnd | worker/processing/command_processor.py:262-338 | In every run stranded work has a command with a recorded end as failed or skipped; without one it is never stranded. |
| StrandedWork.FailedStopStrands | worker/processing/command_processor.py:262-288 | A run exists in which a stop interrupts a pipeline, fails, and leaves the deployment stranded. |
| CommandWriters.ClaimWrites | worker/processing/command_processor.py:40-66 | The claim of a command changes only by its end or by a process that takes it, which is recorded. |
| CommandWriters.ReadBackRecorded | worker/processing/command_processor.py:178-181 | The id read back is the worker's own exactly when nobody took the command since its claim, or else the command can no longer be ended in that name. |
| CommandWriters.RunsKeepWriters | worker/processing/command_processor.py:178-338 | With distinct ids, in every run claimed commands name their last taker and every process and every end has a claim and a read-back behind it. |
| CommandWriters.WriterIsClaimant | worker/processing/command_processor.py:178-338 | In every run with distinct ids, behind every recorded end lie the writer's last claim and read-back, and the claimant recorded at the end is the writer itself if and only if nobody took the command between the two. |
| CommandWriters.EndedInAnothersName | worker/processing/command_processor.py:178-181 | For any two differently named workers a run exists in which one ends a command as the other. |
| Lease.KeepsKept | worker/processing/claims.py:83-150 | While claims stay fresh, every step keeps each worker owner of its row at the status of its stage, and in progress once it has begun. |
| Lease.SoleKept | worker/processing/claims.py:231-245 | While claims stay fresh, every step keeps at most one process on a deployment and at most one on a command. |
| Lease.ApartKept | worker/processing/command_processor.py:43-60 | While claims stay fresh, every step keeps stop and cleanup away from a deployment a worker has begun on. |
| Lease.FreshRunsAreExclusive | worker/processing/claims.py:231-245 | In every run in which no live process lets its claim grow older than the TTL, all of this holds throughout, whatever the processes are called. |
| Lease.RulesLeaveFreshWork | worker/reconciliation/claims.py:27-30 | On work in progress with a fresh claim no rule, whatever it observes, changes status, build or claim or calls stop. |
| Lease.LeaseExclusion | worker/processing/command_processor.py:43-60 | In such runs, under any naming, while a live worker is past its first begin_step on a deployment, it owns it and is alone on it, no process executes a stop or cleanup of it, and no repair rule touches its status, build or claim. |
| PipelineRun.StageAccepted | worker/processing/lifecycle.py:221-233 | Undisturbed, a stage whose executor succeeds is committed and leaves the owner ready for the next one, or the deployment running. |
| PipelineRun.UndisturbedPipelineSettles | worker/processing/pipeline.py:38-348 | Left alone, a claimed deployment ends running with a succeeded build if every report is a success and failed with a failed build otherwise; the claim is released and nothing else changes. |
| PipelineRun.DisownedPipelineStops | worker/processing/pipeline.py:304-307 | A worker that lost its claim writes nothing, and one that finds an active stop only releases its claim, whatever the executor would have said. |
| PipelineRun.ProcessedIsARun | worker/processing/pipeline.py:38-348 | Processing one deployment from any stage is a run of the protocol in which only that process moves: same database at the end, process idle. |
| Store.Database.EnsureClaimOwned | worker/processing/claims.py:83-121 | Scanning the commands decides between owned, lost and cancelled exactly as the claim columns and the active stops say; nothing changes. |
| Store.Database.RefreshClaim | worker/processing/claims.py:124-150 | The heartbeat sets claimed_at to the present time exactly for an owner without an active stop, and changes nothing else. |
| Store.Database.ClaimFirst | worker/processing/claims.py:230-270 | Of any candidate list, however stale, the first one claimable now is taken and only its claim columns change; none is returned exactly when no candidate is claimable. |
| Store.Database.ClaimNextPendingDeployment | worker/processing/claims.py:205-270 | The oldest claimable deployment is taken, and none is returned exactly when no deployment is claimable. |
| Store.Database.SetDeploymentStatus | worker/processing/lifecycle.py:157-168 | Both statuses move when both models accept; otherwise it reports the refusal. |
| Store.Database.RunStage | worker/processing/lifecycle.py:221-233 | A stage with its error exits is exactly the transaction the protocol is built from: committed, released on cancellation, or rolled back whole. |
| Store.Database.MarkDeploymentFailed | worker/processing/lifecycle.py:189-218 | Deployment and build become failed together and the claim is released, exactly when both models accept. |
| Store.Database.Perform | worker/processing/pipeline.py:304-348 | A stage and its exception exits lead to the same end as the rest of the pipeline from there. |
| Store.Database.ProcessDeployment | worker/processing/pipeline.py:38-348 | The straight-line pipeline, tests skipped without a test command, leaves the database that the recursive reading of it does; a claimed, undisturbed deployment ends running if and only if every stage of the listed route is reported as a success. |
| Store.Database.ClaimNextPendingCommand | worker/processing/command_processor.py:29-66 | The oldest command claimable now, whose deployment has no fresh claim, is taken; none is returned exactly when there is none. |
| Store.Database.RefreshCommandClaim | worker/processing/command_processor.py:88-108 | Only the holder of the claim moves its time. |
| Store.Database.SkipHistoricalHelmCommand | worker/processing/command_processor.py:140-175 | The command is skipped exactly for a Helm-managed deployment of which a later row shares project and environment, and ended only by its claim holder. |
| Store.Database.FinishStopped | worker/processing/command_processor.py:212-261 | Deployment, build and command change together for the claim holder, to the stated values, or nothing changes. |
| Store.Database.FinishFailed | worker/processing/command_processor.py:262-288 | A failed executor ends the command for its claim holder and leaves the deployment alone. |
| Store.Database.ClaimNextWorkItem | worker/work_items.py:5-11 | A pending deployment is taken only when no command was claimable. |
| Store.Database.RequestDeploymentCommand | control_plane/application/command_requests.py:15-66 | Undisturbed, the caller gets the active command for what it asked, created exactly when there was none, and at most one command is added. |
| Repair.CoupledRowsRaise | worker/reconciliation/helm.py:10-72 | On rows with coupled statuses a repair rule raises exactly when it asks for an executor that cannot be built. |
| Reconciler.CountedChangesDecrease | worker/reconciliation/service.py:90-113 | For any executor and any rows a counted change strictly lowers the measure of ranks, stale claims, missing targets and live resources, and an uncounted rule changes no row and no resource. |
| Reconciler.RuleSettles | worker/reconciliation/service.py:93-112 | Whatever its executor fails at, a rule leaves itself and every earlier rule with nothing more to change. |
| Reconciler.ReconcileSettles | worker/reconciliation/service.py:90-113 | Whatever its executor fails at, one call leaves all rules of its deployment with nothing more to change and touches only its own row, its own resources and a release it owns; it raises only when the executor cannot be built. |
| Reconciler.StaleWorkIsFailed | worker/reconciliation/claims.py:27-70 | After one call work in progress under a stale claim is failed, its build failed and its claim gone, whatever the executor does. |
| Reconciler.FirstPass | worker/reconciliation/service.py:116-151 | Whatever the executors fail at, after one pass every deployment is quiet, except running ones whose shared release was removed for a newer deployment. |
| Reconciler.SecondPass | worker/reconciliation/service.py:116-151 | A second pass fails those and makes every deployment quiet. |
| Reconciler.TwoPassesConverge | worker/reconciliation/service.py:116-151 | From any coupled rows and any resources, with a fixed clock and executors of constant behaviour, each working or failing in its own way, a third full pass changes nothing and reports zero. |
| Reconciler.OnePassIsNotEnough | worker/reconciliation/helm.py:63-143 | A concrete start in which both the first and the second pass report a change. |
| OnePass.EscapesExactly | worker/reconciliation/service.py:90-113 | A call raises if and only if its executor cannot be built and some rule asks for it once claim and target are repaired, and those two repairs are then all it changed. |
| OnePass.ZeroIffSilent | worker/reconciliation/service.py:116-151 | A pass reports zero if and only if every deployment either has nothing to do or raises as above; with executors that can be built, if and only if no rule of any deployment has anything to do. |
| OnePass.CallReleases | worker/reconciliation/helm.py:63-143 | One call removes the group's release exactly for its newest deployment, Helm-managed, failed, stopped or stale in progress, with an executor that can stop it, and no other release. |
| OnePass.SecondReportsZero | worker/reconciliation/service.py:116-151 | The second pass reports zero if and only if the first left no running deployment that its executor can see bereft of a shared release. |
| OnePass.OnePassIsEnough | worker/reconciliation/service.py:116-151 | From any coupled start and for any executors the second pass reports zero if and only if no running Helm-managed deployment whose executor answers has a live release that the newest of its group is bound to remove. |
| PassResult.QuietMeans | worker/reconciliation/service.py:90-113 | A deployment no rule changes has no stale claim and no missing known target, has its resources if it is running and its executor answers, and has left none behind if it is over and its executor can stop them. |
| PassResult.CallIsExact | worker/reconciliation/service.py:90-113 | The exact world after one call: its row cleared, targeted and failed where a needed resource is gone, and exactly the leftover resources of that row removed. |
| PassResult.CallKeepsRunning | worker/reconciliation/docker.py:8-45 | A running deployment stays running, with its build, if and only if its resources are live or its executor cannot tell; nothing else becomes running. |
| PassResult.PassIsExact | worker/reconciliation/service.py:116-151 | The exact world after a full pass: every row as its own call makes it of the starting world, and exactly the resources gone that some deployment, as the pass leaves it, should no longer have. |
| PassResult.PassesRepair | worker/reconciliation/service.py:116-151 | After one pass no leftovers remain that can be stopped and running deployments have their resources, but for Helm releases owned by newer deployments; after two passes without that exception. |
| ReconcilerService.Service.ReconcileStaleClaim | worker/reconciliation/claims.py:27-80 | A stale claim is cleared, work in progress under it fails with its build, a fresh claim is left alone, and an exception escapes exactly when a model refuses. |
| ReconcilerService.Service.ReconcileMissingDeployTarget | worker/reconciliation/service.py:66-82 | A missing target is recovered from preflight exactly when one was recorded; nothing else changes. |
| ReconcilerService.Service.ReconcileRunningMissingContainer | worker/reconciliation/docker.py:8-45 | A running local deployment fails, build and claim included, exactly when its container is known to be gone; an executor that cannot be built escapes. |
| ReconcilerService.Service.ReconcileRunningMissingHelmRelease | worker/reconciliation/helm.py:10-60 | A running Helm deployment fails exactly when its release is known to be gone; an executor that cannot be built escapes. |
| ReconcilerService.Service.ReconcileRunningMissingKubernetesResource | worker/reconciliation/kubernetes.py:12-85 | A running manifest deployment fails exactly when its Deployment or Service is known to be gone; an executor that cannot be built escapes. |
| ReconcilerService.Service.ReconcileHelmNonrunningRelease | worker/reconciliation/helm.py:63-143 | Stop is called for the release of a failed or stopped deployment exactly when it is known to be live and no newer deployment owns it; the row stays, and an executor that cannot be built escapes. |
| ReconcilerService.Service.ReconcileKubernetesNonrunningResources | worker/reconciliation/kubernetes.py:88-186 | Stop is called for the manifest resources of a failed or stopped deployment exactly when any is known to be live; the row stays, and an executor that cannot be built escapes. |
| ReconcilerService.Service.ReconcileFailedArtifacts | worker/reconciliation/artifacts.py:8-43 | Stop is called for the container of a failed local deployment exactly when it is known to be live; the row stays, and an executor that cannot be built escapes. |
| ReconcilerService.Service.ReconcileDeployment | worker/reconciliation/service.py:90-113 | The rules run in the stated order under one counter, and an exception leaves the rest unrun. |
| ReconcilerService.Service.ReconcileDeployments | worker/reconciliation/service.py:116-151 | A full pass over all rows; a deployment that raised contributes nothing to the count and does not stop the pass. |
| Webhooks.MatchingIsExact | control_plane/api/webhooks.py:188-201 | The fan-out holds every project that matches repository and branch once, in order, and no other. |
| Webhooks.CommitAdds | control_plane/api/webhooks.py:280-358 | A commit adds its fan-out to the deployments of its own delivery id and nothing to any other id. |
| Webhooks.CommitKeepsTables | control_plane/api/webhooks.py:118-144 | A commit keeps one row per id, none left received, and each row's fan-out equal to the deployments carrying its id. |
| Webhooks.DeliveriesAreExactlyOnce | control_plane/api/webhooks.py:118-185 | In every interleaving of deliveries, edits and failures an id has at most one row, accepted or ignored, and the deployments carrying it are exactly that row's fan-out. |
| Webhooks.FinishDeploys | control_plane/api/webhooks.py:212-358 | In every run a commit for an unknown id adds deployments if and only if the event is a complete push, not a deletion, with a full commit id, of a branch some project wants, and the platform is ready: then one per such project, of the pushed branch and lower-cased commit. It leaves no row for pings, malformed commits and missing ids, an accepted row if it deploys, and otherwise an ignored row with the first reason that applies. A known id changes nothing. |
| Webhooks.UndisturbedDelivery | control_plane/api/webhooks.py:212-300 | An undisturbed delivery reaches its commit with the projects of the moment unless its id has a row. |
| Webhooks.UnknownIdsDeployNothing | control_plane/api/webhooks.py:280-358 | No deployment carries an id that has no committed row. |
| Webhooks.FanOutIsComplete | control_plane/api/webhooks.py:280-358 | Deployments for an id are added by one commit only, before the id had a row, and then one for every project that matched in the table its handler read; redeliveries and race losers add none. |
| Webhooks.DeliveryStore.ReserveDeliveryId | control_plane/api/webhooks.py:118-144 | A received row is inserted exactly when an id is given and unknown; a known id is reported as duplicate and changes nothing. |
| Webhooks.DeliveryStore.Handle | control_plane/api/webhooks.py:147-185 | Reservation, deployments one by one and the final mark amount to one atomic commit. |
| Heartbeats.ClaimStaysFresh | worker/execution/command_runner.py:226-234 | If no gap between refreshes exceeds the TTL, the claim is fresh at every moment of the work. |
| Heartbeats.ExecutionEnds | worker/execution/command_runner.py:184-217 | An execution ends before deadline plus 50 ms, sees an exit within 500 ms, times out only past the deadline with the process still running, and refreshes at least the interval and less than the interval plus 500 ms apart. |
| Heartbeats.BackOffTotals | worker/execution/command_runner.py:94-95 | The pauses after n attempts amount to 0, 1, 3, 6 and then three more seconds each. |
| Heartbeats.RunEnds | worker/execution/command_runner.py:14-97 | A run stops at the first attempt that exits with 0, fails only after all attempts, is abandoned only by a lost claim, and ends within the attempts' bounds and the pauses. |
| Heartbeats.RunGapped | worker/execution/command_runner.py:184-234 | Whatever the processes do, no stretch without a refresh exceeds the longest gap of the attempts made. |
| Heartbeats.SlowRun | worker/execution/command_runner.py:184-234 | Failures that exit just before each refresh leave the claim unrefreshed for exactly that longest gap. |
| Heartbeats.RunsKeepClaimsFresh | control_plane/config.py:59-66 | For all intervals, time-outs and attempts: whatever the processes do the claim is fresh at every moment if and only if the TTL covers the longest gap. |
| Heartbeats.AcceptedIntervalGoesStale | control_plane/config.py:59-66 | An interval of 200 s with a TTL of 300 s and one retry, which the check accepts, has a run of 401 s without a refresh. |
| Heartbeats.DefaultsStayFresh | control_plane/config.py:77-113 | With the default time-out, retry and interval a claim is never unrefreshed for more than 61 s. |
| CommandRunner.Runner.HeartbeatIfDue | worker/execution/command_runner.py:226-234 | A refresh happens exactly when one is configured and due, with the runner's own when no callback is passed, and a lost claim surfaces there. |
| CommandRunner.Runner.ExecuteCommand | worker/execution/command_runner.py:184-217 | The polling loop ends as, when and with the refreshes that the execution above has, whether or not heartbeats were allowed. |
| CommandRunner.Runner.RunCommand | worker/execution/command_runner.py:14-97 | The retry loop ends as, when and with the refreshes that the run above has, and pauses the sum of min(i, 3) seconds. |
| CommandRunner.Runner.WaitForHealthcheck | worker/services/healthcheck.py:20-68 | Success is the first probe answered 2xx; a lost claim ends the wait at its heartbeat; with a lasting claim it succeeds if and only if some healthy probe starts before the timeout, probe i starting after the times of the probes before it and i pauses. |
| CommandRunner.InstantProbes | worker/services/healthcheck.py:20-68 | With probes that take no time that is, if and only if a probe is healthy for which as many pauses as precede it fit into the timeout. |
| AlphabeticId.Alphabetic | worker/executors/kubernetes/executor.py:219-228 | Nonpositive ids are errors; every other id gets the nonempty a-z word that decodes to it. |
| AlphabeticId.DecodeEncode | worker/executors/kubernetes/executor.py:219-228 | Decoding undoes encoding for every id. |
| AlphabeticId.EncodeDecode | worker/executors/kubernetes/executor.py:219-228 | Every a-z word is the word of exactly one number. |
| AlphabeticId.OrderIsShortlex | worker/executors/kubernetes/executor.py:219-228 | Ids are ordered as their words are: shorter first, then alphabetically. |
| AlphabeticId.LengthExactly | worker/executors/kubernetes/executor.py:219-228 | A word has k letters exactly for ids from (26^k - 1)/25 to (26^(k+1) - 26)/25. |
| AlphabeticId.HostsAreDistinct | worker/executors/kubernetes/executor.py:214-217 | Equal ingress hosts mean the same deployment and the same domain. |
| AlphabeticId.HostLabelsAreLabels | worker/executors/kubernetes/executor.py:214-217 | The first host label is valid under section 2.3.1 of RFC 1035 exactly up to the last id with a 47-letter word. |
| Names.SqueezeJoinsWords | worker/executors/kubernetes/names.py:11-16 | Two substitutions and a strip amount to joining the words of letters and digits with single dashes. |
| Names.SlugShape | worker/executors/kubernetes/names.py:11-16 | A slug is never empty, has no leading, trailing or double dash, respects its bound, and is a prefix of the joined words, all of them when they fit. |
| Names.SlugIdempotent | worker/executors/kubernetes/names.py:11-16 | Slugging a slug again under the same or a larger bound changes nothing. |
| Names.SuffixRecovers | worker/executors/kubernetes/names.py:59-61 | What follows the last dash of a name identifies the id, for ids within the digits the suffix keeps. |
| Names.ManifestNamesAreLabels | worker/executors/kubernetes/names.py:23-35 | Deployment and Service names are labels of at most 63 characters for every project name and id. |
| Names.ManifestNamesSeparate | worker/executors/kubernetes/names.py:23-35 | Attempts with ids up to a limit get different names, whatever the project names, if and only if the limit is below 10^20. |
| Names.ReleaseNamesFit | worker/executors/kubernetes/names.py:38-45 | Every Helm release name is a label of at most 53 characters. |
| Names.ManifestNamesSpelled | worker/executors/kubernetes/names.py:23-35 | A name that fits is paas, the words of the project name and the id, joined by dashes; the Service name adds -svc. |
| Names.ReleaseNamesSpelled | worker/executors/kubernetes/names.py:38-45 | A release name that fits is paas, the words of project name and environment, and the project id, joined by dashes. |
| Names.MissingPartsSpelled | worker/executors/kubernetes/names.py:11-61 | A missing name, environment or id is spelled app, production or unknown. |
| Names.ReleaseNamesDiffer | worker/executors/kubernetes/names.py:38-45 | Projects with ids below 10^12 never share a release name while environment slug and id leave room, even across environments. |
| Names.ReleasesSeparateProjects | worker/executors/kubernetes/names.py:38-45 | Within one environment release names tell all projects with ids below 10^12 apart if and only if the environment slug has at most 33 characters. |
| Names.ReleasesSeparateEnvironments | worker/executors/kubernetes/names.py:38-45 | For all bounds on project slug and environment slug, the environments of one project get different release names if and only if the bounds and the id stay within 46 together, or the name bound is 0, or the environment bound is at most 2, or they are at most 2 and 44. |
| ImageReference.SanitizedIsComponent | worker/services/image_build.py:76-79 | Image names and tags are nonempty and free of separators and white space whatever the project is called. |
| ImageReference.TagIsComponent | worker/services/image_build.py:84-86 | The tag of every build is a component, whatever the commit. |
| ImageReference.SanitizedAscii | worker/services/image_build.py:76-79 | On ASCII an image name keeps letters in lower case, digits, dashes, underscores and dots, has a dash for every other character, loses the dashes at its ends, and is app if nothing is left. |
| ImageReference.ReferenceSpelled | worker/services/registry.py:108-113 | An image reference is registry, namespace if there is one, name and tag. |
| ImageReference.VerifyIsExact | worker/services/registry.py:78-106 | Exactly the references pinned to a digest pass, unchanged; a missing or unpinned one is the stated error. |
| ImageReference.DigestSpelled | worker/services/registry.py:95-96 | A digest is sha256 and 64 lower-case hexadecimal digits, and nothing else is. |
| ImageReference.PushImage | worker/services/registry.py:37-77 | The result is pinned exactly when the output names one distinct digest; otherwise it is the stated error, or skipped without a registry. |
| ImageReference.PinnedVerifies | worker/services/registry.py:95-96 | A repository pinned to a digest passes verification if and only if it is nonempty and free of '@'. |
| ImageReference.SplitIsExact | worker/helm/values.py:89-94 | Splitting a tagged reference yields a repository and a tag if and only if joining them gives it back and the tag is nonempty without separators. |
| ImageReference.ChartRunsReference | worker/helm/values.py:68-86 | The chart runs the build's own reference, recomposed from repository and digest or repository and tag. |
| ImageReference.ChartRunsName | worker/helm/values.py:68-86 | Without a reference the chart runs registry, name and tag of the build, or latest without a tag. |
| ImageReference.PinnedPath | worker/services/registry.py:64-113 | From the settings, ports included, the push keeps exactly the tagged repository, the pinned reference verifies, and the chart runs it. |
| Environment.Validate | control_plane/application/projects/validation.py:437-523 | It accepts exactly the lists the rules describe, and otherwise reports the first offending item and the first rule it breaks. |
| Environment.FirstBrokenIsReported | control_plane/application/projects/validation.py:437-523 | An item is accepted exactly when it breaks none of the eighteen rules, and otherwise the first broken one is reported. |
| Environment.NormalizedWrites | control_plane/security.py:29-41 | Normalising keeps every field but is_secret, which becomes true for references to a Secret and a boolean otherwise. |
| Environment.KubernetesEnvVars | worker/executors/kubernetes/manifest_renderer.py:115-148 | The loop renders item by item what each item says, skipping what it cannot use. |
| Environment.ManifestEnvironment | worker/executors/kubernetes/manifest_renderer.py:19-31 | The manifest is refused exactly when some secret item has a literal value. |
| Environment.EnvValues | worker/helm/values.py:104-149 | The Helm values are refused exactly when some usable literal is secret; otherwise they are the manifest's entries under string names. |
| Environment.UnreservedFacts | worker/workload_environment.py:20-28 | Exactly the items with unreserved names are kept. |
| Environment.UnreservedAppend | worker/workload_environment.py:20-28 | The kept items stay in their order. |
| Environment.IdentitiesAreRendered | worker/workload_environment.py:30-43 | The rendered environment ends with APP_COMMIT_SHA and APP_VERSION, carrying the commit and the image tag. |
| Environment.RenderingIsExact | worker/workload_environment.py:13-43 | For every list accepted in any mode both renderers refuse together, exactly when a kept literal is marked secret, and otherwise return one list describing every kept item in order and the two identity variables. |
| Environment.KubernetesListsRender | worker/executors/kubernetes/manifest_renderer.py:115-148 | A list accepted for Kubernetes renders without error, identically in both backends, completely, in order, with unique names. |
| Environment.Preflight | worker/executors/kubernetes/preflight.py:86-147 | Every reference, the pull secret and the ingress prerequisites are looked up, and the missing ones are exactly reported. |
| Environment.ChecksAreExact | worker/executors/kubernetes/preflight.py:86-147 | A preflight looks up exactly the referenced ConfigMaps and Secrets, the pull secret, and with an ingress its API and class. |
| Environment.MissingIsExact | worker/executors/kubernetes/preflight.py:111-145 | A resource is reported missing if and only if it was checked and is absent. |
| Environment.MissingAppend | worker/executors/kubernetes/preflight.py:111-145 | Missing resources are listed in the order they are looked up, once for each look-up. |
| Environment.ReferencedIsExact | worker/executors/kubernetes/manifest_renderer.py:151-170 | The names looked up are exactly the source names of the items of that kind. |
| Environment.PreflightCoversRendering | worker/executors/kubernetes/preflight.py:86-203 | If preflight finds nothing missing, every ConfigMap and Secret the rendered environment refers to exists. |
| RetryChains.RetryIsExact | control_plane/application/deployments/orchestration.py:289-311 | A retry succeeds if and only if the original has a current, complete snapshot of the project asked for and a commit that is not blank; it then keeps snapshot, trimmed commit, test command, environment and image name, and can itself be retried. |
| RetryChains.SnapshotsAreFrozen | control_plane/deployment_spec.py:47-55 | Through any run of edits, deploys, retries and worker reports, a deployment with a snapshot object of the current version, complete or not, is built from that snapshot, and any other from the live project. |
| RetryChains.CreatedAreSnapshotted | control_plane/deployment_spec.py:26-31 | Every deployment a run creates carries a complete snapshot of its own project. |
| RetryChains.DeployWrites | control_plane/application/deployments/orchestration.py:150-217 | A deploy appends one row: a version 1 snapshot of exactly the fourteen fields with the project's values and the requested branch, the commit and tests asked for, and an image named after project and commit. |
| RetryChains.RetryWrites | control_plane/application/deployments/orchestration.py:289-311 | A retry appends one row with the original's snapshot, environment, tests, image name and trimmed commit, or nothing. |
| RetryChains.ReportWrites | worker/processing/lifecycle.py:84-97 | A report overwrites the image tag and reference it names, and nothing else. |
| RetryChains.ChainsAreExact | control_plane/application/deployments/orchestration.py:289-311 | The end of a chain of retries of any length has the inputs of its root, whatever happened in between. |
| RetryChains.ChainsCanGoOn | control_plane/deployment_spec.py:34-44 | The end of a chain from a snapshotted root can be retried exactly for the root's own project and a commit that is not blank. |
| RetryChains.Records.CreateRequestedDeployment | control_plane/application/deployments/orchestration.py:150-217 | One row is appended with the given inputs, a snapshot if none was given, and derived image names; nothing else changes. |
| RetryChains.Records.CreateUserFacingDeployment | control_plane/application/deployments/orchestration.py:275-286 | A deploy appends exactly the row the run model adds for the resolved commit. |
| RetryChains.Records.CreateHistoricalRetry | control_plane/application/deployments/orchestration.py:289-311 | It appends exactly the retry the run model adds, or leaves the rows alone and says why. |

## Left out

- Store.Database.ProcessDeployment: runs without interference between its transactions; interference is what the protocol's runs model.
- CommandRunner.Runner.WaitForHealthcheck: needs a positive pause between probes, which control_plane/config.py:33-53 enforces.
- Claim refreshes take no time, and a claim lost to a command stays lost.
- CommandRunner.Runner.ExecuteCommand: the injected runner and commands with standard input, which neither poll nor refresh, are not modelled.
- Names.DnsSlug: starts from lower-cased input; Unicode lower-casing is the identity on the slug alphabet and is not modelled.
- Environment.Preflight: names are looked up in order of first appearance rather than sorted.
- RetryChains.Records.CreateUserFacingDeployment: the commit is a parameter; resolving a branch runs git.
- Webhooks.FanOutIsComplete: repositories are compared after URL normalisation, which is not modelled.
- Row deletion, and equal creation times: a row's id is its position, so creation order is id order.
- Builds as separate rows: each requested deployment owns one build, which is part of its row.
- Session caching, isolation levels and timestamp precision: a transaction is one atomic step on fresh rows.
- The gap between an ownership check and the write it guards, and between a rule's read and its write.
- Executor side effects: an executor is an oracle that succeeds, reports a step error, or raises; runtime resources are sets, and a failed stop leaves them unchanged. In the reconciler an executor is fixed per deployment: it can be built or not, answers or not, and stops or not.
- Repair.Release: a release is keyed by project and environment; a project renamed between two deployments has two release names in one group, which is not modelled.
- Executors without a known target: the ownership check before recording the target is always made.
- Events, log files, diagnostics and metadata texts: only the facts that rules and checks read are kept.
- Manual creation and admin edits with arbitrary statuses, which set the two statuses independently by design.
- Exclusion between a stop and a cleanup of one deployment: uniqueness is per command type.
- Unhashable or non-string names in stored environment items, which the API never accepts.
- Snapshot copies are values, so aliasing after a deep copy is not modelled.
- Webhook signatures, authentication, redaction, audit, retention, metrics, read models, the frontend, migrations and configuration loading.
