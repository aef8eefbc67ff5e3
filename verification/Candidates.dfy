/** A candidate that does not succeed leaves what its application serves exactly as it was. */
module Candidates {
  import opened Identity
  import opened Deployment
  import opened Schema
  import opened Statements
  import opened Workflows
  import opened Constraints
  import opened Invariants
  import opened Promotion
  import opened Runs
  import opened Histories

  // Any step of other applications, and of `application` any step but an operator's start or
  // stop and steps on runtimes of deployments other than `candidate`.
  predicate Spares(db: Database, step: Step, application: ApplicationId, candidate: DeploymentId) {
    match step
    case SetDesiredStep(a, _) => a != application
    case PromoteInternalStep(r) => IsTheirs(db, r, application, candidate)
    case PromotePublicStep(r, _) => IsTheirs(db, r, application, candidate)
    case RetireStep(r) => IsTheirs(db, r, application, candidate)
    case AbandonStep(r) => IsTheirs(db, r, application, candidate)
    case ReplaceContainerStep(r, _, _) => IsTheirs(db, r, application, candidate)
    case ObserveStep(r, _) => IsTheirs(db, r, application, candidate)
    case _ => true
  }

  predicate IsTheirs(db: Database, r: RuntimeId, application: ApplicationId, candidate: DeploymentId) {
    r in db.runtimes && db.runtimes[r].applicationId == application ==> db.runtimes[r].deploymentId == candidate
  }

  ghost predicate RunSpares(db: Database, events: seq<Event>, application: ApplicationId, candidate: DeploymentId)
    requires SchemaHolds(db)
    decreases |events|
  {
    events != [] ==>
      && Spares(db, events[0].step, application, candidate)
      && (StepKeepsSchema(db, events[0].step, events[0].at);
          RunSpares(Apply(db, events[0].step, events[0].at), events[1..], application, candidate))
  }

  // The active deployment, the desired state and every running runtime row are as before.
  predicate ServesTheSame(db: Database, next: Database, application: ApplicationId) {
    && application in db.applications && application in next.applications
    && next.applications[application] == db.applications[application]
    && (forall r :: r in db.runtimes && db.runtimes[r].applicationId == application && db.runtimes[r].state.Running? ==>
          r in next.runtimes && next.runtimes[r] == db.runtimes[r])
  }

  // Steps that write neither an application row nor a runtime row that exists.
  predicate LeavesServing(step: Step) {
    !WritesOneRuntime(step) && !step.PromoteInternalStep? && !step.PromotePublicStep? && !step.SetDesiredStep?
  }

  lemma OtherStepsLeaveApplications(db: Database, step: Step, now: Timestamp, a: ApplicationId)
    requires SchemaHolds(db) && LeavesServing(step) && a in db.applications
    ensures a in Apply(db, step, now).applications && Apply(db, step, now).applications[a] == db.applications[a]
  {
    hide SchemaHolds, ReservationsOk, UniqueContainers, IsFree, UpdatedExposure, ExposureGuard;
    hide HasWorkInProgress, IsActiveLiveRelease;
  }

  lemma PromotionSparesOthers(db: Database, next: Database, r: RuntimeId, application: ApplicationId, now: Timestamp)
    requires IsPromotion(db, next, r, now) && application in db.applications
    requires db.runtimes[r].applicationId != application
    ensures ServesTheSame(db, next, application)
  {
  }

  lemma PromotionSucceeds(db: Database, next: Database, r: RuntimeId, now: Timestamp)
    requires IsPromotion(db, next, r, now)
    ensures db.runtimes[r].deploymentId in next.deployments && next.deployments[db.runtimes[r].deploymentId].status.Succeeded?
  {
  }

  // The candidate's own runtimes are not running while it has not succeeded.
  lemma CandidateIsNotRunning(db: Database, r: RuntimeId, candidate: DeploymentId)
    requires Inv(db) && r in db.runtimes && db.runtimes[r].deploymentId == candidate
    requires candidate in db.deployments && !db.deployments[candidate].status.Succeeded?
    ensures !db.runtimes[r].state.Running?
  {
    hide SchemaHolds, ActiveServes, RunningIsActive;
  }

  lemma RuntimeStepSpares(db: Database, step: Step, now: Timestamp, application: ApplicationId, candidate: DeploymentId)
    requires SchemaHolds(db) && Inv(db) && WritesOneRuntime(step) && Spares(db, step, application, candidate)
    requires application in db.applications && candidate in db.deployments && !db.deployments[candidate].status.Succeeded?
    ensures ServesTheSame(db, Apply(db, step, now), application)
  {
    hide Inv, SchemaHolds, Apply, UniqueContainers;
    SchemaShowsContainers(db);
    var next := Apply(db, step, now);
    RunningAreLive(db);
    RuntimeStepLeavesApplications(db, step, now);
    forall r | r in db.runtimes && db.runtimes[r].applicationId == application && db.runtimes[r].state.Running?
      ensures r in next.runtimes && next.runtimes[r] == db.runtimes[r]
    {
      OneRuntimeStepEvolves(db, step, now, r);
      if r == step.runtime && !step.RegisterStep? {
        CandidateIsNotRunning(db, r, candidate);
      } else if step.RegisterStep? {
        RegistrationKeepsRow(db, step, now, r);
      }
    }
  }

  lemma RunningAreLive(db: Database)
    requires Inv(db)
    ensures forall r :: r in db.runtimes && db.runtimes[r].state.Running? ==> IsLive(db.runtimes[r])
  {
    hide SchemaHolds, ActiveServes, StartedByPromotion;
  }

  lemma RuntimeStepLeavesApplications(db: Database, step: Step, now: Timestamp)
    requires SchemaHolds(db) && WritesOneRuntime(step)
    ensures Apply(db, step, now).applications == db.applications
  {
    hide SchemaHolds, UniqueContainers, PortHeldByLiveRuntime;
  }

  lemma RegistrationKeepsRow(db: Database, step: Step, now: Timestamp, r: RuntimeId)
    requires SchemaHolds(db) && UniqueContainers(db.runtimes) && step.RegisterStep? && r in db.runtimes
    ensures r in Apply(db, step, now).runtimes && Apply(db, step, now).runtimes[r] == db.runtimes[r]
  {
    hide SchemaHolds, UniqueContainers, RegisterCandidate;
    RegistrationAddsACandidate(db, step.runtime, step.deployment, step.container, step.port, step.containerPort, now);
  }

  lemma UnchangedServesTheSame(db: Database, application: ApplicationId)
    requires application in db.applications
    ensures ServesTheSame(db, db, application)
  {
  }

  lemma PromotionStepSpares(db: Database, step: Step, now: Timestamp, application: ApplicationId, candidate: DeploymentId)
    requires SchemaHolds(db) && Inv(db) && (step.PromoteInternalStep? || step.PromotePublicStep?)
    requires Spares(db, step, application, candidate) && application in db.applications
    requires candidate in Apply(db, step, now).deployments && !Apply(db, step, now).deployments[candidate].status.Succeeded?
    ensures ServesTheSame(db, Apply(db, step, now), application)
  {
    hide Inv, SchemaHolds, PromoteInternal, PromotePublic, IsPromotion, ServesTheSame;
    UnchangedServesTheSame(db, application);
    var next := Apply(db, step, now);
    if next != db {
      match step {
        case PromoteInternalStep(r) => InternalPromotionIsExact(db, r, now);
        case PromotePublicStep(r, version) => PublicPromotionIsExact(db, r, version, now);
        case _ =>
      }
      assert IsPromotion(db, next, step.runtime, now);
      PromotionSucceeds(db, next, step.runtime, now);
      PromotionSparesOthers(db, next, step.runtime, application, now);
    }
  }

  lemma StepSpares(db: Database, step: Step, now: Timestamp, application: ApplicationId, candidate: DeploymentId)
    requires SchemaHolds(db) && Inv(db) && Spares(db, step, application, candidate)
    requires application in db.applications
    requires candidate in db.deployments && !db.deployments[candidate].status.Succeeded?
    requires candidate in Apply(db, step, now).deployments && !Apply(db, step, now).deployments[candidate].status.Succeeded?
    ensures ServesTheSame(db, Apply(db, step, now), application)
  {
    hide Inv, SchemaHolds, Apply;
    if WritesOneRuntime(step) {
      RuntimeStepSpares(db, step, now, application, candidate);
    } else if step.PromoteInternalStep? || step.PromotePublicStep? {
      PromotionStepSpares(db, step, now, application, candidate);
    } else if step.SetDesiredStep? {
      SettingDesiredSpares(db, step.application, step.desired, now, application);
    } else {
      OtherStepsLeaveApplications(db, step, now, application);
      OtherStepsLeaveRuntimes(db, step, now);
    }
  }

  lemma SettingDesiredSpares(db: Database, a: ApplicationId, desired: DesiredState, now: Timestamp, application: ApplicationId)
    requires SchemaHolds(db) && application in db.applications && a != application
    ensures ServesTheSame(db, Apply(db, SetDesiredStep(a, desired), now), application)
  {
    hide SchemaHolds;
  }

  // Whatever else runs, an application keeps serving what it served as long as its candidate
  // has not succeeded, so a candidate that ends failed has changed nothing that is served.
  lemma {:induction false} UnsuccessfulCandidateIsHarmless(
    db: Database, events: seq<Event>, application: ApplicationId, candidate: DeploymentId)
    requires SchemaHolds(db) && Inv(db) && RunSpares(db, events, application, candidate)
    requires application in db.applications && candidate in db.deployments
    requires candidate in Run(db, events).deployments && !Run(db, events).deployments[candidate].status.Succeeded?
    ensures ServesTheSame(db, Run(db, events), application)
    decreases |events|
  {
    hide Inv, SchemaHolds, Apply, DeploymentEvolves, Spares;
    if events == [] {
      UnchangedServesTheSame(db, application);
    } else {
      var next := Apply(db, events[0].step, events[0].at);
      StepKeepsSchema(db, events[0].step, events[0].at);
      StepKeepsInv(db, events[0].step, events[0].at);
      StepEvolvesDeployment(db, events[0].step, events[0].at, candidate);
      if db.deployments[candidate].status.Succeeded? {
        TerminalDeploymentsAreFinal(db, events, candidate);
      } else if next.deployments[candidate].status.Succeeded? {
        TerminalDeploymentsAreFinal(next, events[1..], candidate);
      } else {
        StepSpares(db, events[0].step, events[0].at, application, candidate);
        UnsuccessfulCandidateIsHarmless(next, events[1..], application, candidate);
      }
    }
  }
}
