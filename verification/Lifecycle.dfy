/**
  The two status graphs, deployment and build, and the way they are meant to stay in step.
  control_plane/models/platform_deployment.py and control_plane/models/build.py.
 */
module Lifecycle {

  datatype DeploymentStatus =
    | Pending
    | Cloning
    | Building
    | Testing
    | PushingImage
    | Deploying
    | Running
    | Failed
    | Stopped

  datatype BuildStatus =
    | BuildPending
    | BuildCloning
    | BuildBuilding
    | BuildTesting
    | BuildPushing
    | BuildSucceeded
    | BuildFailed
    | BuildCancelled

  // A repeated status is accepted by both models.
  predicate CanTransition(from: DeploymentStatus, to: DeploymentStatus) {
    || to == from
    || match from
       case Pending => to.Cloning? || to.Failed? || to.Stopped?
       case Cloning => to.Building? || to.Failed? || to.Stopped?
       case Building => to.Testing? || to.PushingImage? || to.Failed? || to.Stopped?
       case Testing => to.PushingImage? || to.Failed? || to.Stopped?
       case PushingImage => to.Deploying? || to.Failed? || to.Stopped?
       case Deploying => to.Running? || to.Failed? || to.Stopped?
       case Running => to.Failed? || to.Stopped?
       case Failed => to.Stopped?
       case Stopped => false
  }

  predicate CanTransitionBuild(from: BuildStatus, to: BuildStatus) {
    || to == from
    || match from
       case BuildPending => to.BuildCloning? || to.BuildFailed? || to.BuildCancelled?
       case BuildCloning => to.BuildBuilding? || to.BuildFailed? || to.BuildCancelled?
       case BuildBuilding => to.BuildTesting? || to.BuildPushing? || to.BuildFailed? || to.BuildCancelled?
       case BuildTesting => to.BuildPushing? || to.BuildFailed? || to.BuildCancelled?
       case BuildPushing => to.BuildSucceeded? || to.BuildFailed? || to.BuildCancelled?
       case BuildSucceeded => to.BuildFailed?
       case BuildFailed => false
       case BuildCancelled => false
  }

  // Position along the longest path of the deployment graph.
  function Rank(s: DeploymentStatus): (r: nat)
    ensures r <= 8
  {
    match s
    case Pending => 0
    case Cloning => 1
    case Building => 2
    case Testing => 3
    case PushingImage => 4
    case Deploying => 5
    case Running => 6
    case Failed => 7
    case Stopped => 8
  }

  predicate InProgress(s: DeploymentStatus) {
    s.Cloning? || s.Building? || s.Testing? || s.PushingImage? || s.Deploying?
  }

  // The statuses a deployment may have once an executor has named its runtime target.
  predicate Late(s: DeploymentStatus) {
    s.Deploying? || s.Running? || s.Failed? || s.Stopped?
  }

  // The build status that goes with a deployment status.
  predicate Coupled(s: DeploymentStatus, b: BuildStatus) {
    match s
    case Pending => b == BuildPending
    case Cloning => b == BuildCloning
    case Building => b == BuildBuilding
    case Testing => b == BuildTesting
    case PushingImage => b.BuildPushing? || b.BuildSucceeded?
    case Deploying => b == BuildSucceeded
    case Running => b == BuildSucceeded
    case Failed => b == BuildFailed
    case Stopped => b.BuildSucceeded? || b.BuildFailed? || b.BuildCancelled?
  }
}
