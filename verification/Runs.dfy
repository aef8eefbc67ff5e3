/** Runs of interleaved steps from the empty database, and the invariant every step keeps. */
module Runs {
  import opened Wrappers
  import opened Identity
  import opened Deployment
  import opened Exposure
  import opened Schema
  import opened Statements
  import opened Workflows
  import opened Hydration
  import opened Constraints
  import opened Invariants
  import opened Promotion

  const EMPTY := Database(map[], map[], map[], map[], map[], map[])

  lemma StepKeepsSchema(db: Database, step: Step, now: Timestamp)
    requires SchemaHolds(db)
    ensures SchemaHolds(Apply(db, step, now))
  {
    hide SchemaHolds;
  }

  // ---- one lemma per table a step writes ----

  lemma ImportKeepsInv(db: Database, a: ApplicationId, name: string, intent: Intent)
    requires Inv(db)
    ensures SchemaHolds(Import(db, a, name, intent)) ==> Inv(Import(db, a, name, intent))
  {
    hide SchemaHolds, PromotionInvariant, DeploymentsLegal, IsReadable, IsLegalExposure;
    if Import(db, a, name, intent) != db {
      NewApplicationKeeps(db.applications, db.deployments, db.runtimes, a, ApplicationRow(name, DesiredState.Stopped, None));
      NewExposureIsLegal(intent);
      assert Import(db, a, name, intent).exposures == db.exposures[a := NewExposure(intent)];
    }
  }

  lemma SetDesiredKeepsInv(db: Database, a: ApplicationId, desired: DesiredState)
    requires Inv(db)
    ensures SchemaHolds(SetDesiredState(db, a, desired).0) ==> Inv(SetDesiredState(db, a, desired).0)
  {
    hide SchemaHolds, PromotionInvariant, DeploymentsLegal, IsReadable, IsLegalExposure;
    if a in db.applications {
      DesiredStateKeeps(db.applications, db.deployments, db.runtimes, a, desired);
    }
  }

  function NewExposure(intent: Intent): ExposureRow {
    ExposureRow(intent.DesiredVisibility(), if intent.Internal? then intent.optionalDomain else Some(intent.domain),
                MaterializationState.NotMaterialized, None, None, None, None, None)
  }

  lemma NewExposureIsLegal(intent: Intent)
    ensures IsLegalExposure(NewExposure(intent))
  {
  }

  lemma ExposureUpdateKeepsInv(db: Database, a: ApplicationId, update: ExposureUpdate, now: Timestamp)
    requires Inv(db)
    ensures SchemaHolds(UpdateExposure(db, a, update, now).0) ==> Inv(UpdateExposure(db, a, update, now).0)
  {
    hide SchemaHolds, PromotionInvariant, DeploymentsLegal, IsLegalExposure, ExposureEvidenceOk, UpdatedExposure, ExposureGuard;
    var next := UpdateExposure(db, a, update, now).0;
    if next != db && SchemaHolds(next) {
      SchemaShowsExposureEvidence(next, a);
      GuardedUpdateKeepsLegality(db.exposures[a], update, now);
    }
  }

  lemma CreateDeploymentKeepsInv(db: Database, d: DeploymentId, a: ApplicationId, release: ReleaseId, kind: DeploymentType)
    requires Inv(db)
    ensures SchemaHolds(CreateDeployment(db, d, a, release, kind).0) ==> Inv(CreateDeployment(db, d, a, release, kind).0)
  {
    hide SchemaHolds, PromotionInvariant, ExposuresLegal, HasWorkInProgress, IsActiveLiveRelease;
    if CreateDeployment(db, d, a, release, kind).1.Ok? {
      var row := DeploymentRow(a, release, kind, DeploymentStatus.Pending, None, None, None, None, None);
      assert d !in db.deployments;
      UnfinishedDeploymentKeeps(db.applications, db.deployments, db.runtimes, d, row);
      assert IsLegalDeployment(row);
    }
  }

  lemma AdvanceKeepsInv(db: Database, d: DeploymentId, read: DeploymentStatus, event: DeploymentEvent, now: Timestamp)
    requires Inv(db)
    ensures SchemaHolds(AdvanceDeployment(db, d, read, event, now)) ==> Inv(AdvanceDeployment(db, d, read, event, now))
  {
    hide SchemaHolds, PromotionInvariant, ExposuresLegal, EvidenceOk;
    var next := AdvanceDeployment(db, d, read, event, now);
    if next != db && SchemaHolds(next) {
      SchemaShowsEvidence(next, d);
      UnfinishedDeploymentKeeps(db.applications, db.deployments, db.runtimes, d, next.deployments[d]);
      AdvancingMovesTheLifecycle(db.deployments[d], event, now);
      hide IsLegalDeployment;
    }
  }

  lemma FailKeepsInv(db: Database, d: DeploymentId, code: FailureCode, message: string, now: Timestamp)
    requires Inv(db)
    ensures SchemaHolds(FailDeployment(db, d, code, message, now).0) ==> Inv(FailDeployment(db, d, code, message, now).0)
  {
    hide SchemaHolds, PromotionInvariant, ExposuresLegal;
    if FailDeployment(db, d, code, message, now).1 {
      var row := db.deployments[d];
      UnfinishedDeploymentKeeps(db.applications, db.deployments, db.runtimes, d, FailedRow(row, row.status, code, message, now));
      FailingMovesTheLifecycle(row, code, message, now);
    }
  }

  lemma RegistrationAddsACandidate(
    db: Database, r: RuntimeId, d: DeploymentId, container: string, port: Port, containerPort: Port, now: Timestamp)
    requires UniqueContainers(db.runtimes)
    ensures var next := RegisterCandidate(db, r, d, container, port, containerPort, now).0;
            next == db ||
            (r !in db.runtimes && d in db.deployments &&
             next == db.(runtimes := db.runtimes[r := RuntimeRow(
               db.deployments[d].applicationId, d, container, RuntimeState.Starting, port, containerPort,
               ObservedState.Running, now, None)]))
  {
    hide SchemaHolds, UniqueContainers, PortHeldByLiveRuntime;
  }

  lemma RegisterKeepsInv(
    db: Database, r: RuntimeId, d: DeploymentId, container: string, port: Port, containerPort: Port, now: Timestamp)
    requires Inv(db) && UniqueContainers(db.runtimes)
    ensures var next := RegisterCandidate(db, r, d, container, port, containerPort, now).0;
            SchemaHolds(next) ==> Inv(next)
  {
    RegistrationAddsACandidate(db, r, d, container, port, containerPort, now);
    hide RegisterCandidate, SchemaHolds, PromotionInvariant, ExposuresLegal, DeploymentsLegal, UniqueContainers;
    var next := RegisterCandidate(db, r, d, container, port, containerPort, now).0;
    if next != db {
      RuntimeChangeKeeps(db.applications, db.deployments, db.runtimes, r, next.runtimes[r]);
    }
  }

  // Observation, container replacement and both removals change one runtime in place.
  lemma RuntimeStepKeepsInv(db: Database, step: Step, now: Timestamp)
    requires Inv(db)
    requires step.RetireStep? || step.AbandonStep? || step.ReplaceContainerStep? || step.ObserveStep?
    ensures SchemaHolds(Apply(db, step, now)) ==> Inv(Apply(db, step, now))
  {
    hide SchemaHolds, PromotionInvariant, ExposuresLegal, DeploymentsLegal;
    var next := Apply(db, step, now);
    if next != db {
      RuntimeChangeKeeps(db.applications, db.deployments, db.runtimes, step.runtime, next.runtimes[step.runtime]);
    }
  }

  lemma InternalPromotionKeepsInv(db: Database, r: RuntimeId, now: Timestamp)
    requires Inv(db)
    ensures SchemaHolds(PromoteInternal(db, r, now).0) ==> Inv(PromoteInternal(db, r, now).0)
  {
    InternalPromotionIsExact(db, r, now);
    hide PromoteInternal, SchemaHolds;
    if IsPromotable(db, r, Visibility.Internal) {
      PromotionKeepsTables(db, PromoteInternal(db, r, now).0, r, Visibility.Internal, now);
    }
  }

  lemma PublicPromotionKeepsInv(db: Database, r: RuntimeId, version: ConfigurationVersion, now: Timestamp)
    requires Inv(db)
    ensures SchemaHolds(PromotePublic(db, r, version, now).0) ==> Inv(PromotePublic(db, r, version, now).0)
  {
    hide PromotePublic, SchemaHolds, PromotionInvariant, DeploymentsLegal, IsPromotion, IsLegalExposure, RouteRow;
    PublicPromotionIsExact(db, r, version, now);
    var next := PromotePublic(db, r, version, now).0;
    if IsPromotable(db, r, Visibility.Public) && db.exposures[db.runtimes[r].applicationId].state.Applying? {
      var application := db.runtimes[r].applicationId;
      assert db.exposures[application].visibility.Public? && application in db.exposures;
      PromotionKeepsTables(db, next, r, Visibility.Public, now);
      hide IsPromotable;
      ConfirmedRouteIsLegal(db.exposures[application], r, version, now);
    }
  }

  lemma ConfirmedRouteIsLegal(row: ExposureRow, r: RuntimeId, version: ConfigurationVersion, now: Timestamp)
    requires IsLegalExposure(row) && row.visibility.Public?
    ensures IsLegalExposure(RouteRow(row, r, version, now))
  {
  }

  lemma PromotionKeepsTables(db: Database, next: Database, r: RuntimeId, visibility: Visibility, now: Timestamp)
    requires Inv(db) && IsPromotable(db, r, visibility) && IsPromotion(db, next, r, now)
    ensures PromotionInvariant(next.applications, next.deployments, next.runtimes)
    ensures DeploymentsLegal(next.deployments)
    ensures next.applications.Keys == db.applications.Keys
  {
    hide SchemaHolds, ExposuresLegal, ActiveServes, RunningIsActive, StartedByPromotion, IsLegalDeployment, OwnersAgree, IsPromotion;
    SchemaShowsOwners(db);
    PromotionKeepsServing(db, next, r, now);
    PromotionKeepsRunning(db, next, r, now);
    PromotionKeepsStarted(db, next, r, now);
    PromotionFinishesOneDeployment(db, next, r, now);
    SucceedingMovesTheLifecycle(db.deployments[db.runtimes[r].deploymentId], now);
  }

  lemma PromotionFinishesOneDeployment(db: Database, next: Database, r: RuntimeId, now: Timestamp)
    requires IsPromotion(db, next, r, now)
    ensures var d := db.runtimes[r].deploymentId;
            next.deployments == db.deployments[d := SucceededRow(db.deployments[d], now)]
    ensures next.applications.Keys == db.applications.Keys
  {
  }

  lemma PortStepKeepsInv(db: Database, step: Step, now: Timestamp)
    requires Inv(db)
    requires step.CreateReleaseStep? || step.ReserveStep? || step.ReleasePortStep? || step.ConsumeStep?
    ensures SchemaHolds(Apply(db, step, now)) ==> Inv(Apply(db, step, now))
  {
    PortStepTouchesNoLifecycle(db, step, now);
    hide SchemaHolds, PromotionInvariant, ExposuresLegal, DeploymentsLegal, Apply;
  }

  lemma PortStepTouchesNoLifecycle(db: Database, step: Step, now: Timestamp)
    requires SchemaHolds(db)
    requires step.CreateReleaseStep? || step.ReserveStep? || step.ReleasePortStep? || step.ConsumeStep?
    ensures var next := Apply(db, step, now);
            && next.applications == db.applications && next.deployments == db.deployments
            && next.runtimes == db.runtimes && next.exposures == db.exposures
  {
    hide SchemaHolds, ReservationsOk, UniqueContainers, IsFree;
    SchemaShowsContainers(db);
  }

  // ---- the invariant theorem ----

  lemma StepKeepsInv(db: Database, step: Step, now: Timestamp)
    requires Inv(db)
    ensures Inv(Apply(db, step, now))
  {
    StepKeepsSchema(db, step, now);
    SchemaShowsContainers(db);
    hide Inv, SchemaHolds, UniqueContainers, ReservationsOk;
    hide Import, CreateRelease, CreateDeployment, AdvanceDeployment, FailDeployment, RegisterCandidate, PromoteInternal;
    hide PromotePublic, SetDesiredState, ReservePort, ReleasePort, ConsumePortReservation, UpdateExposure;
    hide MarkRuntimeRemoved, MarkStartingRuntimeMissing, ReconcileExternalRuntimeId, PersistObservation;
    match step
    case ImportStep(a, name, intent) => ImportKeepsInv(db, a, name, intent);
    case CreateDeploymentStep(d, a, release, kind) => CreateDeploymentKeepsInv(db, d, a, release, kind);
    case AdvanceStep(d, read, event) => AdvanceKeepsInv(db, d, read, event, now);
    case FailStep(d, code, message) => FailKeepsInv(db, d, code, message, now);
    case RegisterStep(r, d, container, port, containerPort) => RegisterKeepsInv(db, r, d, container, port, containerPort, now);
    case PromoteInternalStep(r) => InternalPromotionKeepsInv(db, r, now);
    case PromotePublicStep(r, version) => PublicPromotionKeepsInv(db, r, version, now);
    case SetDesiredStep(a, desired) => SetDesiredKeepsInv(db, a, desired);
    case ExposureStep(a, update) => ExposureUpdateKeepsInv(db, a, update, now);
    case RetireStep(_) => RuntimeStepKeepsInv(db, step, now);
    case AbandonStep(_) => RuntimeStepKeepsInv(db, step, now);
    case ReplaceContainerStep(_, _, _) => RuntimeStepKeepsInv(db, step, now);
    case ObserveStep(_, _) => RuntimeStepKeepsInv(db, step, now);
    case _ => PortStepKeepsInv(db, step, now);
  }

  // ---- runs ----

  // A step taken at one reading of the clock.
  datatype Event = Event(step: Step, at: Timestamp)

  // The database a sequence of events leads to; a run of the system starts from `EMPTY`.
  ghost function Run(db: Database, events: seq<Event>): Database
    requires SchemaHolds(db)
    decreases |events|
  {
    if events == [] then db
    else
      StepKeepsSchema(db, events[0].step, events[0].at);
      Run(Apply(db, events[0].step, events[0].at), events[1..])
  }

  ghost predicate Reachable(db: Database) {
    EmptyIsSound();
    exists events :: db == Run(EMPTY, events)
  }

  // The first event of a run, then the rest of it.
  lemma RunTakesOneStep(db: Database, events: seq<Event>)
    requires SchemaHolds(db) && events != []
    ensures SchemaHolds(Apply(db, events[0].step, events[0].at))
    ensures Run(db, events) == Run(Apply(db, events[0].step, events[0].at), events[1..])
  {
    hide SchemaHolds, Apply;
    StepKeepsSchema(db, events[0].step, events[0].at);
  }

  lemma {:induction false} RunKeepsSchema(db: Database, events: seq<Event>)
    requires SchemaHolds(db)
    ensures SchemaHolds(Run(db, events))
    decreases |events|
  {
    hide SchemaHolds, Apply;
    if events != [] {
      RunTakesOneStep(db, events);
      RunKeepsSchema(Apply(db, events[0].step, events[0].at), events[1..]);
    }
  }

  // A run continued is the run of both parts.
  lemma {:induction false} RunContinues(db: Database, events: seq<Event>, more: seq<Event>)
    requires SchemaHolds(db)
    ensures SchemaHolds(Run(db, events))
    ensures Run(db, events + more) == Run(Run(db, events), more)
    decreases |events|
  {
    hide SchemaHolds, Apply;
    RunKeepsSchema(db, events);
    if events == [] {
      assert events + more == more;
    } else {
      assert (events + more)[1..] == events[1..] + more;
      RunTakesOneStep(db, events);
      RunTakesOneStep(db, events + more);
      RunContinues(Apply(db, events[0].step, events[0].at), events[1..], more);
    }
  }

  lemma EmptyIsSound()
    ensures SchemaHolds(EMPTY) && Inv(EMPTY)
  {
  }

  lemma {:induction false} RunKeepsInv(db: Database, events: seq<Event>)
    requires SchemaHolds(db) && Inv(db)
    ensures SchemaHolds(Run(db, events)) && Inv(Run(db, events))
    decreases |events|
  {
    hide Inv, SchemaHolds, Apply;
    if events != [] {
      StepKeepsSchema(db, events[0].step, events[0].at);
      StepKeepsInv(db, events[0].step, events[0].at);
      RunKeepsInv(Apply(db, events[0].step, events[0].at), events[1..]);
    }
  }

  // Every reachable database satisfies the invariant, whatever the processes interleaved.
  lemma ReachableHoldsInv(db: Database)
    requires Reachable(db)
    ensures Inv(db)
  {
    EmptyIsSound();
    var events :| db == Run(EMPTY, events);
    RunKeepsInv(EMPTY, events);
  }

  // ---- the invariant in the system's own terms ----

  // What an operator may rely on in every reachable database about what is served.
  ghost predicate ServesOneRuntime(db: Database, a: ApplicationId)
    requires a in db.applications
  {
    match db.applications[a].active
    case None => forall r :: r in db.runtimes && db.runtimes[r].applicationId == a ==> !db.runtimes[r].state.Running?
    case Some(d) =>
      && d in db.deployments && db.deployments[d].applicationId == a && db.deployments[d].status.Succeeded?
      && exists r :: ServesAlone(db, a, d, r)
  }

  // The only running runtime of the application: live, and of its active deployment.
  predicate ServesAlone(db: Database, a: ApplicationId, d: DeploymentId, r: RuntimeId) {
    && r in db.runtimes && db.runtimes[r].applicationId == a && db.runtimes[r].deploymentId == d
    && IsRunning(db.runtimes[r])
    && forall s :: s in db.runtimes && db.runtimes[s].applicationId == a && db.runtimes[s].state.Running? ==> s == r
  }

  lemma InvServesOneRuntime(db: Database, a: ApplicationId)
    requires Inv(db) && OwnersAgree(db) && OneRunningPerApplication(db.runtimes) && a in db.applications
    ensures ServesOneRuntime(db, a)
  {
    hide SchemaHolds, StartedByPromotion, DeploymentsLegal, ExposuresLegal;
    if db.applications[a].active.Some? {
      var d := db.applications[a].active.value;
      var r :| r in db.runtimes && db.runtimes[r].deploymentId == d && IsRunning(db.runtimes[r]);
      assert ServesAlone(db, a, d, r);
    }
  }

  // The query for the active runtime: live, started, and of the active succeeded deployment.
  predicate IsLookupAnswer(db: Database, a: ApplicationId, r: RuntimeId) {
    && a in db.applications && r in db.runtimes
    && db.applications[a].active == Some(db.runtimes[r].deploymentId)
    && (db.runtimes[r].state.Running? || db.runtimes[r].state.Stopped?) && IsLive(db.runtimes[r])
    && db.runtimes[r].deploymentId in db.deployments && db.deployments[db.runtimes[r].deploymentId].status.Succeeded?
  }

  // It has exactly one answer whenever a deployment is active, and that runtime is running.
  lemma ActiveRuntimeLookupIsUnique(db: Database, a: ApplicationId) returns (r: RuntimeId)
    requires Inv(db) && a in db.applications && db.applications[a].active.Some?
    ensures r in db.runtimes && db.runtimes[r].state.Running?
    ensures forall s :: IsLookupAnswer(db, a, s) <==> s == r
  {
    hide SchemaHolds, RunningIsActive, DeploymentsLegal, ExposuresLegal;
    var d := db.applications[a].active.value;
    r :| r in db.runtimes && db.runtimes[r].deploymentId == d && IsRunning(db.runtimes[r]);
    assert IsStarted(db.runtimes[r]);
  }

  // In every reachable database: each application serves exactly its active succeeded
  // deployment through one running runtime or nothing at all; every deployment row reads back
  // as a typed lifecycle with matching start evidence and at most one per application is in
  // progress; every exposure row reads back and its state agrees with its intent.
  lemma EveryReachableDatabase(db: Database)
    requires Reachable(db)
    ensures forall a :: a in db.applications ==> ServesOneRuntime(db, a)
    ensures forall d :: d in db.deployments ==> LifecycleOf(db.deployments[d]).Ok? && StartEvidence(db.deployments[d])
    ensures OneInProgress(db.deployments)
    ensures db.exposures.Keys == db.applications.Keys
    ensures forall a :: a in db.exposures ==> HydrateExposure(db.exposures[a]).Some? && IsLegalExposure(db.exposures[a])
  {
    hide SchemaHolds, PromotionInvariant, ServesOneRuntime, IsReadable, HydrateExposure, LifecycleOf, OneInProgress;
    ReachableHoldsInv(db);
    SchemaShowsOwners(db);
    SchemaShowsSingletons(db);
    forall a | a in db.applications
      ensures ServesOneRuntime(db, a)
    {
      InvServesOneRuntime(db, a);
    }
    forall a | a in db.exposures
      ensures HydrateExposure(db.exposures[a]).Some?
    {
      ExposureLoadsExactlyReadableRows(db.exposures[a]);
    }
  }

  lemma SchemaShowsSingletons(db: Database)
    requires SchemaHolds(db)
    ensures OneRunningPerApplication(db.runtimes) && OneInProgress(db.deployments)
  {
    hide ApplicationsOk, ReleasesOk, ExposuresOk, ReservationsOk, EvidenceOk;
    hide UniqueContainers, OneRunningPerApplication, OneLiveEndpoint, OneInProgress;
  }
}
