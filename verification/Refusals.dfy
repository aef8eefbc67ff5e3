/** The exact answer of every refused use case, in the order its checks are made. */
module Refusals {
  import opened Wrappers
  import opened Identity
  import opened Deployment
  import opened Exposure
  import opened Schema
  import opened Statements
  import opened Workflows
  import opened Constraints
  import opened Invariants
  import opened Promotion
  import opened Runs
  import opened Exactness

  // ---- creating a deployment ----

  predicate OwnsRelease(db: Database, a: ApplicationId, release: ReleaseId) {
    a in db.applications && release in db.releases && db.releases[release].applicationId == a
  }

  // The release is the one the application serves.
  predicate Serves(db: Database, a: ApplicationId, release: ReleaseId) {
    && a in db.applications && db.applications[a].active.Some? && db.applications[a].active.value in db.deployments
    && db.deployments[db.applications[a].active.value].releaseId == release
  }

  // A creation names the first thing that is missing or in the way.
  lemma CreationAnswers(db: Database, id: DeploymentId, a: ApplicationId, release: ReleaseId, kind: DeploymentType)
    requires Inv(db) && id !in db.deployments
    ensures var result := CreateDeployment(db, id, a, release, kind).1;
            && (result == Err(ApplicationNotFound) <==> a !in db.applications)
            && (result == Err(ReleaseNotFound) <==> a in db.applications && !OwnsRelease(db, a, release))
            && (result == Err(InProgress) <==>
                  && OwnsRelease(db, a, release)
                  && exists d :: d in db.deployments && db.deployments[d].applicationId == a
                                 && db.deployments[d].status.IsNonterminal())
            && (result == Err(AlreadyActive) <==>
                  && OwnsRelease(db, a, release) && !HasWorkInProgress(db, a) && kind.Deploy? && Serves(db, a, release))
            && result != Err(CreationError.Persistence)
  {
    hide SchemaHolds, PromotionInvariant, DeploymentsLegal, ExposuresLegal, IsActiveLiveRelease;
    CreationIsExact(db, id, a, release, kind);
    if a in db.applications {
      ActiveReleaseIsLive(db, a, release);
    }
  }

  // ---- registering a candidate ----

  // A registration names the first check that fails: the container's form, its other use, the
  // deployment, its status, the endpoint.
  lemma RegistrationAnswers(
    db: Database, id: RuntimeId, d: DeploymentId, container: string, port: Port, containerPort: Port, now: Timestamp)
    requires SchemaHolds(db) && UniqueContainers(db.runtimes) && OwnersAgree(db) && id !in db.runtimes
    ensures var result := RegisterCandidate(db, id, d, container, port, containerPort, now).1;
            var isNew := IsContainerId(container) && forall r :: r in db.runtimes ==> db.runtimes[r].container != container;
            && (result == Err(InvalidContainer) <==> !IsContainerId(container))
            && (result == Err(ContainerConflict) <==>
                  && IsContainerId(container) && !isNew
                  && forall r :: r in db.runtimes && db.runtimes[r].container == container ==>
                       !(&& db.runtimes[r].deploymentId == d && db.runtimes[r].hostPort == port
                         && db.runtimes[r].containerPort == containerPort))
            && (result == Err(DeploymentNotFound) <==> isNew && d !in db.deployments)
            && (result == Err(RegistrationError.NotStarting) <==>
                  isNew && d in db.deployments && !db.deployments[d].status.Starting?)
            && (result == Err(EndpointConflict) <==>
                  && isNew && d in db.deployments && db.deployments[d].status.Starting?
                  && exists r :: r in db.runtimes && db.runtimes[r].removedAt.None? && db.runtimes[r].hostPort == port)
            && result != Err(RegistrationError.Persistence)
  {
    hide SchemaHolds, UniqueContainers, IsContainerId, OwnersAgree;
    RegistrationIsExact(db, id, d, container, port, containerPort, now);
    if !IsUnused(db.runtimes, id, container) {
      ContainersAreUnique(db);
    }
  }

  // ---- promoting a candidate ----

  // The candidate is starting, then observed running, then live, and its deployment is on the
  // last stretch: the first of these that fails is the answer.
  predicate IsCandidate(row: RuntimeRow) { row.state.Starting? && row.observed.Running? && row.removedAt.None? }

  predicate IsOnLastStretch(status: DeploymentStatus) { status.Verifying? || status.Activating? }

  // What a refused promotion answers, whichever path is taken.
  predicate IsRefusal(db: Database, runtime: RuntimeId, visibility: Visibility, error: PromotionError)
    requires IsJoined(db, runtime)
  {
    var row := db.runtimes[runtime];
    var status := db.deployments[row.deploymentId].status;
    match error
    case NotPromotable(NotStarting(state)) => !row.state.Starting? && state == row.state
    case NotPromotable(NotRunning(observed)) => row.state.Starting? && !row.observed.Running? && observed == row.observed
    case NotPromotable(Removed) => row.state.Starting? && row.observed.Running? && row.removedAt.Some?
    case NotReady(s) => IsCandidate(row) && !IsOnLastStretch(status) && s == status
    case WrongExposure => IsCandidate(row) && IsOnLastStretch(status) && db.exposures[row.applicationId].visibility != visibility
    case ChangedDuringPromotion =>
      && visibility.Public? && IsCandidate(row) && IsOnLastStretch(status)
      && db.exposures[row.applicationId].visibility.Public? && !db.exposures[row.applicationId].state.Applying?
    case _ => false
  }

  lemma ObstaclesAreExact(db: Database, runtime: RuntimeId, visibility: Visibility, error: PromotionError)
    requires IsJoined(db, runtime) && LoadPromotionTarget(db, runtime).Some?
    ensures Obstacle(LoadPromotionTarget(db, runtime).value, visibility) == Some(error) <==>
              !error.ChangedDuringPromotion? && IsRefusal(db, runtime, visibility, error)
  {
  }

  lemma InternalPromotionAnswers(db: Database, runtime: RuntimeId, now: Timestamp, error: PromotionError)
    requires Inv(db)
    ensures var result := PromoteInternal(db, runtime, now).1;
            result == Err(error) <==>
              if runtime !in db.runtimes then error == RuntimeNotFound
              else
                && IsJoined(db, runtime) && !db.runtimes[runtime].state.Running?
                && IsRefusal(db, runtime, Visibility.Internal, error)
  {
    hide SchemaHolds, PromotionInvariant, DeploymentsLegal, ExposuresLegal, InternalWrites, IsPromotion, RouteRow, Obstacle;
    RuntimesAreJoined(db, runtime);
    InternalPromotionIsExact(db, runtime, now);
    if runtime in db.runtimes {
      UnobstructedTargetsArePromotable(db, runtime, Visibility.Internal);
      ObstaclesAreExact(db, runtime, Visibility.Internal, error);
    }
  }

  lemma PublicPromotionAnswers(
    db: Database, runtime: RuntimeId, version: ConfigurationVersion, now: Timestamp, error: PromotionError)
    requires Inv(db)
    ensures var result := PromotePublic(db, runtime, version, now).1;
            result == Err(error) <==>
              if runtime !in db.runtimes then error == RuntimeNotFound
              else IsJoined(db, runtime) && IsRefusal(db, runtime, Visibility.Public, error)
  {
    hide SchemaHolds, PromotionInvariant, DeploymentsLegal, ExposuresLegal, PublicWrites, IsPromotion, RouteRow, Obstacle;
    RuntimesAreJoined(db, runtime);
    PublicPromotionIsExact(db, runtime, version, now);
    if runtime in db.runtimes {
      UnobstructedTargetsArePromotable(db, runtime, Visibility.Public);
      ObstaclesAreExact(db, runtime, Visibility.Public, error);
    }
  }

  // A candidate that is observed not running cannot be promoted afterwards, and the answer says
  // what was observed.
  lemma ObservedStoppedIsNotPromoted(db: Database, runtime: RuntimeId, observed: ObservedState, at: Timestamp, now: Timestamp)
    requires Inv(db)
    requires runtime in db.runtimes && db.runtimes[runtime].removedAt.None? && db.runtimes[runtime].state.Starting?
    requires !observed.Running?
    ensures var seen := PersistObservation(db, runtime, observed, at).0;
            var error := PromotionError.NotPromotable(CandidateRejection.NotRunning(Recorded(observed)));
            && PromoteInternal(seen, runtime, now) == (seen, Err(error))
            && forall version :: PromotePublic(seen, runtime, version, now) == (seen, Err(error))
  {
    hide SchemaHolds, PromotionInvariant, DeploymentsLegal, ExposuresLegal, InternalWrites, PublicWrites, IsPromotion;
    hide PersistObservation, PromoteInternal, PromotePublic, RouteRow;
    var seen := PersistObservation(db, runtime, observed, at).0;
    var error := PromotionError.NotPromotable(CandidateRejection.NotRunning(Recorded(observed)));
    assert seen == Apply(db, ObserveStep(runtime, observed), at);
    StepKeepsSchema(db, ObserveStep(runtime, observed), at);
    StepKeepsInv(db, ObserveStep(runtime, observed), at);
    ObservationIsExact(db, runtime, observed, at);
    RuntimesAreJoined(seen, runtime);
    InternalPromotionIsExact(seen, runtime, now);
    InternalPromotionAnswers(seen, runtime, now, error);
    forall version
      ensures PromotePublic(seen, runtime, version, now) == (seen, Err(error))
    {
      PublicPromotionIsExact(seen, runtime, version, now);
      PublicPromotionAnswers(seen, runtime, version, now, error);
    }
  }
}
