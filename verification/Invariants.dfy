/** The store invariant behind every run: what promotion guarantees and what every row can show. */
module Invariants {
  import opened Wrappers
  import opened Identity
  import opened Schema
  import opened Constraints
  import opened Hydration

  // ---- the promotion invariant ----

  predicate IsStarted(row: RuntimeRow) { !row.state.Starting? }

  predicate HasRunning(runtimes: map<RuntimeId, RuntimeRow>, d: DeploymentId) {
    exists r :: r in runtimes && runtimes[r].deploymentId == d && IsRunning(runtimes[r])
  }

  // An active deployment succeeded and owns a running, unremoved runtime.
  predicate ActiveServes(
    applications: map<ApplicationId, ApplicationRow>, deployments: map<DeploymentId, DeploymentRow>,
    runtimes: map<RuntimeId, RuntimeRow>)
  {
    forall a :: a in applications && applications[a].active.Some? ==>
      && applications[a].active.value in deployments
      && deployments[applications[a].active.value].applicationId == a
      && deployments[applications[a].active.value].status.Succeeded?
      && HasRunning(runtimes, applications[a].active.value)
  }

  // A running runtime is live and belongs to its application's active deployment.
  predicate RunningIsActive(applications: map<ApplicationId, ApplicationRow>, runtimes: map<RuntimeId, RuntimeRow>) {
    forall r :: r in runtimes && runtimes[r].state.Running? ==>
      && IsLive(runtimes[r])
      && runtimes[r].applicationId in applications
      && applications[runtimes[r].applicationId].active == Some(runtimes[r].deploymentId)
  }

  // Only a promotion starts a runtime, and it starts at most one per deployment.
  predicate StartedByPromotion(runtimes: map<RuntimeId, RuntimeRow>, deployments: map<DeploymentId, DeploymentRow>) {
    && (forall r :: r in runtimes && IsStarted(runtimes[r]) ==>
          && !runtimes[r].state.Failed?
          && runtimes[r].deploymentId in deployments
          && deployments[runtimes[r].deploymentId].status.Succeeded?)
    && (forall r, s ::
          (r in runtimes && s in runtimes && runtimes[r].deploymentId == runtimes[s].deploymentId
           && IsStarted(runtimes[r]) && IsStarted(runtimes[s])) ==> r == s)
  }

  predicate PromotionInvariant(
    applications: map<ApplicationId, ApplicationRow>, deployments: map<DeploymentId, DeploymentRow>,
    runtimes: map<RuntimeId, RuntimeRow>)
  {
    && ActiveServes(applications, deployments, runtimes)
    && RunningIsActive(applications, runtimes)
    && StartedByPromotion(runtimes, deployments)
  }

  // ---- evidence ----

  predicate DeploymentsLegal(deployments: map<DeploymentId, DeploymentRow>) {
    forall d :: d in deployments ==> IsLegalDeployment(deployments[d])
  }

  predicate ExposuresLegal(exposures: map<ApplicationId, ExposureRow>) {
    forall a :: a in exposures ==> IsLegalExposure(exposures[a])
  }

  predicate Inv(db: Database) {
    && SchemaHolds(db)
    && PromotionInvariant(db.applications, db.deployments, db.runtimes)
    && DeploymentsLegal(db.deployments)
    && ExposuresLegal(db.exposures)
    && db.exposures.Keys == db.applications.Keys
  }

  // ---- table updates that keep the promotion invariant ----

  lemma NewApplicationKeeps(
    applications: map<ApplicationId, ApplicationRow>, deployments: map<DeploymentId, DeploymentRow>,
    runtimes: map<RuntimeId, RuntimeRow>, id: ApplicationId, row: ApplicationRow)
    requires PromotionInvariant(applications, deployments, runtimes)
    requires id !in applications && row.active.None?
    ensures PromotionInvariant(applications[id := row], deployments, runtimes)
  {
  }

  lemma DesiredStateKeeps(
    applications: map<ApplicationId, ApplicationRow>, deployments: map<DeploymentId, DeploymentRow>,
    runtimes: map<RuntimeId, RuntimeRow>, id: ApplicationId, desired: DesiredState)
    requires PromotionInvariant(applications, deployments, runtimes) && id in applications
    ensures PromotionInvariant(applications[id := applications[id].(desired := desired)], deployments, runtimes)
  {
  }

  // Any change to a deployment that has not succeeded, new rows included.
  lemma UnfinishedDeploymentKeeps(
    applications: map<ApplicationId, ApplicationRow>, deployments: map<DeploymentId, DeploymentRow>,
    runtimes: map<RuntimeId, RuntimeRow>, id: DeploymentId, row: DeploymentRow)
    requires PromotionInvariant(applications, deployments, runtimes)
    requires id in deployments ==> !deployments[id].status.Succeeded?
    ensures PromotionInvariant(applications, deployments[id := row], runtimes)
  {
  }

  // A new candidate, or a change of a runtime that keeps its owner and does not start or stop it.
  lemma RuntimeChangeKeeps(
    applications: map<ApplicationId, ApplicationRow>, deployments: map<DeploymentId, DeploymentRow>,
    runtimes: map<RuntimeId, RuntimeRow>, id: RuntimeId, row: RuntimeRow)
    requires PromotionInvariant(applications, deployments, runtimes)
    requires if id in runtimes then
               && row.applicationId == runtimes[id].applicationId && row.deploymentId == runtimes[id].deploymentId
               && row.state == runtimes[id].state && (row.state.Running? ==> row.removedAt == runtimes[id].removedAt)
             else row.state.Starting?
    ensures PromotionInvariant(applications, deployments, runtimes[id := row])
  {
    forall a | a in applications && applications[a].active.Some?
      ensures HasRunning(runtimes[id := row], applications[a].active.value)
    {
      var r :| r in runtimes && runtimes[r].deploymentId == applications[a].active.value && IsRunning(runtimes[r]);
      assert r in runtimes[id := row] && IsRunning(runtimes[id := row][r]);
    }
  }
}
