/** Steps on behalf of other applications leave every row of one application alone. */
module Isolation {
  import opened Identity
  import opened Deployment
  import opened Schema
  import opened Statements
  import opened Workflows
  import opened Constraints
  import opened Invariants
  import opened Promotion
  import opened Runs
  import opened Histories
  import opened Candidates
  import opened Rollback
  import opened Ports

  predicate IsOthersDeployment(db: Database, d: DeploymentId, a: ApplicationId) {
    d in db.deployments ==> db.deployments[d].applicationId != a
  }

  predicate IsOthersRuntime(db: Database, r: RuntimeId, a: ApplicationId) {
    r in db.runtimes ==> db.runtimes[r].applicationId != a
  }

  // The step works for another application: its subject, if it exists, is not owned by `a`.
  predicate IsForeign(db: Database, step: Step, a: ApplicationId) {
    match step
    case ImportStep(_, _, _) => true
    case CreateReleaseStep(_, _, _) => true
    case CreateDeploymentStep(_, b, _, _) => b != a
    case AdvanceStep(d, _, _) => IsOthersDeployment(db, d, a)
    case FailStep(d, _, _) => IsOthersDeployment(db, d, a)
    case ReserveStep(b, _, _, _) => b != a
    case ReleasePortStep(d) => IsOthersDeployment(db, d, a)
    case RegisterStep(_, d, _, _, _) => IsOthersDeployment(db, d, a)
    case ConsumeStep(b, _, _) => b != a
    case PromoteInternalStep(r) => IsOthersRuntime(db, r, a)
    case PromotePublicStep(r, _) => IsOthersRuntime(db, r, a)
    case RetireStep(r) => IsOthersRuntime(db, r, a)
    case AbandonStep(r) => IsOthersRuntime(db, r, a)
    case ReplaceContainerStep(r, _, _) => IsOthersRuntime(db, r, a)
    case ObserveStep(r, _) => IsOthersRuntime(db, r, a)
    case SetDesiredStep(b, _) => b != a
    case ExposureStep(b, _) => b != a
  }

  // ---- the rows of one application ----

  predicate KeepsApplication(db: Database, next: Database, a: ApplicationId) {
    a in db.applications ==> a in next.applications && next.applications[a] == db.applications[a]
  }

  predicate KeepsExposure(db: Database, next: Database, a: ApplicationId) {
    a in db.exposures ==> a in next.exposures && next.exposures[a] == db.exposures[a]
  }

  predicate KeepsDeployments(db: Database, next: Database, a: ApplicationId) {
    forall d :: d in db.deployments && db.deployments[d].applicationId == a ==>
      d in next.deployments && next.deployments[d] == db.deployments[d]
  }

  predicate KeepsRuntimes(db: Database, next: Database, a: ApplicationId) {
    forall r :: r in db.runtimes && db.runtimes[r].applicationId == a ==>
      r in next.runtimes && next.runtimes[r] == db.runtimes[r]
  }

  predicate IsReservedBy(db: Database, p: Port, a: ApplicationId) {
    p in db.reservations && db.reservations[p].applicationId == a
  }

  // Neither lost, changed nor added.
  ghost predicate KeepsReservations(db: Database, next: Database, a: ApplicationId) {
    && (forall p :: IsReservedBy(db, p, a) ==> IsReservedBy(next, p, a) && next.reservations[p] == db.reservations[p])
    && (forall p :: IsReservedBy(next, p, a) ==> IsReservedBy(db, p, a))
  }

  ghost predicate KeepsRows(db: Database, next: Database, a: ApplicationId) {
    && KeepsApplication(db, next, a) && KeepsExposure(db, next, a) && KeepsDeployments(db, next, a)
    && KeepsRuntimes(db, next, a) && KeepsReservations(db, next, a)
  }

  lemma NothingChangedKeepsRows(db: Database, a: ApplicationId)
    ensures KeepsRows(db, db, a)
  {
  }

  lemma KeepingComposes(db: Database, middle: Database, next: Database, a: ApplicationId)
    requires KeepsRows(db, middle, a) && KeepsRows(middle, next, a)
    ensures KeepsRows(db, next, a)
  {
  }

  // ---- table by table ----

  lemma ForeignKeepsApplication(db: Database, step: Step, now: Timestamp, a: ApplicationId)
    requires SchemaHolds(db) && Inv(db) && IsForeign(db, step, a)
    ensures KeepsApplication(db, Apply(db, step, now), a)
  {
    hide Inv, SchemaHolds, Apply, IsPromotion, OwnersAgree;
    if a in db.applications {
      if IsPromotionStep(step) {
        ForeignPromotion(db, step, now, a);
      } else if WritesOneRuntime(step) {
        RuntimeStepLeavesApplications(db, step, now);
      } else if step.SetDesiredStep? {
        SettingDesiredSpares(db, step.application, step.desired, now, a);
      } else {
        OtherStepsLeaveApplications(db, step, now, a);
      }
    }
  }

  // A promotion of another application's runtime keeps every row but its own application's.
  lemma ForeignPromotion(db: Database, step: Step, now: Timestamp, a: ApplicationId)
    requires SchemaHolds(db) && Inv(db) && IsPromotionStep(step) && IsForeign(db, step, a)
    ensures KeepsRows(db, Apply(db, step, now), a)
  {
    hide Inv, SchemaHolds, PromoteInternal, PromotePublic, IsPromotion, IsPromotable, RouteRow;
    var next := Apply(db, step, now);
    NothingChangedKeepsRows(db, a);
    if next != db {
      PromotionStepIsAPromotion(db, step, now);
      SchemaShowsOwners(db);
      match step {
        case PromoteInternalStep(r) =>
          InternalPromotionIsExact(db, r, now);
          PromotionFrame(db, next, r, now);
          PromotionKeepsOthersRows(db, next, r, now, a);
        case PromotePublicStep(r, version) =>
          PublicPromotionIsExact(db, r, version, now);
          PromotionFrame(db, next, r, now);
          PromotionKeepsOthersRows(db, next, r, now, a);
        case _ =>
      }
    }
  }

  lemma PromotionKeepsOthersRows(db: Database, next: Database, r: RuntimeId, now: Timestamp, a: ApplicationId)
    requires IsPromotion(db, next, r, now) && OwnersAgree(db) && db.runtimes[r].applicationId != a
    requires KeepsExposure(db, next, a)
    ensures KeepsRows(db, next, a)
  {
  }

  lemma ForeignKeepsExposure(db: Database, step: Step, now: Timestamp, a: ApplicationId)
    requires SchemaHolds(db) && !IsPromotionStep(step) && IsForeign(db, step, a)
    ensures KeepsExposure(db, Apply(db, step, now), a)
  {
    hide SchemaHolds, ReservationsOk, UniqueContainers, IsFree, UpdatedExposure, ExposureGuard;
    hide HasWorkInProgress, IsActiveLiveRelease, PortHeldByLiveRuntime;
  }

  lemma ForeignKeepsDeployments(db: Database, step: Step, now: Timestamp, a: ApplicationId)
    requires SchemaHolds(db) && !IsPromotionStep(step) && IsForeign(db, step, a)
    ensures KeepsDeployments(db, Apply(db, step, now), a)
  {
    hide SchemaHolds, HasWorkInProgress, IsActiveLiveRelease, AreFailureDetails;
    if LeavesDeployments(step) {
      hide Apply;
      OtherStepsLeaveDeployments(db, step, now);
    }
  }

  lemma ForeignKeepsRuntimes(db: Database, step: Step, now: Timestamp, a: ApplicationId)
    requires SchemaHolds(db) && Inv(db) && !IsPromotionStep(step) && IsForeign(db, step, a)
    ensures KeepsRuntimes(db, Apply(db, step, now), a)
  {
    hide Inv, SchemaHolds, Apply, UniqueContainers;
    if WritesOneRuntime(step) {
      SchemaShowsContainers(db);
      RunningAreLive(db);
      forall r | r in db.runtimes && db.runtimes[r].applicationId == a
        ensures r in Apply(db, step, now).runtimes && Apply(db, step, now).runtimes[r] == db.runtimes[r]
      {
        if step.RegisterStep? {
          RegistrationKeepsRow(db, step, now, r);
        } else {
          OneRuntimeStepEvolves(db, step, now, r);
        }
      }
    } else {
      OtherStepsLeaveRuntimes(db, step, now);
    }
  }

  lemma ForeignKeepsReservations(db: Database, step: Step, now: Timestamp, a: ApplicationId)
    requires SchemaHolds(db) && ReservationsOk(db.reservations, db.deployments) && !IsPromotionStep(step)
    requires IsForeign(db, step, a)
    ensures KeepsReservations(db, Apply(db, step, now), a)
  {
    hide SchemaHolds, ReservationsOk, ReservePort, ReleasePort, ConsumePortReservation, KeepsReservations;
    match step {
      case ReserveStep(b, d, start, end) => ForeignReservation(db, b, d, start, end, a);
      case ReleasePortStep(d) => ForeignRelease(db, d, a);
      case ConsumeStep(b, d, port) => ForeignConsumption(db, b, d, port, a);
      case PromoteInternalStep(_) =>
      case PromotePublicStep(_, _) =>
      case _ =>
        OtherStepsLeaveReservations(db, step, now);
        SameReservations(db, Apply(db, step, now), a);
    }
  }

  lemma SameReservations(db: Database, next: Database, a: ApplicationId)
    requires next.reservations == db.reservations
    ensures KeepsReservations(db, next, a)
  {
  }

  lemma ForeignReservation(db: Database, b: ApplicationId, d: DeploymentId, start: Port, end: Port, a: ApplicationId)
    requires SchemaHolds(db) && ReservationsOk(db.reservations, db.deployments) && b != a
    ensures KeepsReservations(db, ReservePort(db, b, d, start, end).0, a)
  {
    hide SchemaHolds, ReservationsOk, ReservePort, PortHeldByLiveRuntime;
    ReservationIsExact(db, b, d, start, end);
  }

  lemma ForeignRelease(db: Database, d: DeploymentId, a: ApplicationId)
    requires ReservationsOk(db.reservations, db.deployments) && IsOthersDeployment(db, d, a)
    ensures KeepsReservations(db, ReleasePort(db, d).0, a)
  {
    hide SchemaHolds, ReservationsOk;
    forall p | IsReservedBy(db, p, a)
      ensures db.reservations[p].deploymentId != d
    {
      ReservationsAreOwned(db, p);
    }
  }

  lemma ReservationsAreOwned(db: Database, p: Port)
    requires ReservationsOk(db.reservations, db.deployments) && p in db.reservations
    ensures db.reservations[p].deploymentId in db.deployments
    ensures db.deployments[db.reservations[p].deploymentId].applicationId == db.reservations[p].applicationId
  {
  }

  lemma ForeignConsumption(db: Database, b: ApplicationId, d: DeploymentId, port: Port, a: ApplicationId)
    requires b != a
    ensures KeepsReservations(db, ConsumePortReservation(db, b, d, port).0, a)
  {
    hide SchemaHolds;
  }

  lemma ForeignStepKeepsRows(db: Database, step: Step, now: Timestamp, a: ApplicationId)
    requires SchemaHolds(db) && Inv(db) && IsForeign(db, step, a)
    ensures KeepsRows(db, Apply(db, step, now), a)
  {
    hide Inv, SchemaHolds, Apply, KeepsApplication, KeepsExposure, KeepsDeployments, KeepsRuntimes, KeepsReservations, ReservationsOk;
    if IsPromotionStep(step) {
      ForeignPromotion(db, step, now, a);
    } else {
      SchemaShowsContainers(db);
      ForeignKeepsApplication(db, step, now, a);
      ForeignKeepsExposure(db, step, now, a);
      ForeignKeepsDeployments(db, step, now, a);
      ForeignKeepsRuntimes(db, step, now, a);
      ForeignKeepsReservations(db, step, now, a);
    }
  }

  // ---- runs ----

  ghost predicate RunIsForeign(db: Database, events: seq<Event>, a: ApplicationId)
    requires SchemaHolds(db)
    decreases |events|
  {
    events != [] ==>
      && IsForeign(db, events[0].step, a)
      && (StepKeepsSchema(db, events[0].step, events[0].at);
          RunIsForeign(Apply(db, events[0].step, events[0].at), events[1..], a))
  }

  // Whatever other applications do, the rows of one application stay as they are.
  lemma {:induction false} ForeignRunKeepsRows(db: Database, events: seq<Event>, a: ApplicationId)
    requires SchemaHolds(db) && Inv(db) && RunIsForeign(db, events, a)
    ensures KeepsRows(db, Run(db, events), a)
    decreases |events|
  {
    hide Inv, SchemaHolds, Apply, KeepsRows, IsForeign;
    if events == [] {
      NothingChangedKeepsRows(db, a);
    } else {
      var next := Apply(db, events[0].step, events[0].at);
      StepKeepsSchema(db, events[0].step, events[0].at);
      StepKeepsInv(db, events[0].step, events[0].at);
      ForeignStepKeepsRows(db, events[0].step, events[0].at, a);
      ForeignRunKeepsRows(next, events[1..], a);
      KeepingComposes(db, next, Run(db, events), a);
    }
  }

  // While a port stays reserved and nobody takes it, no live runtime comes to be on it.
  lemma ReservedPortStaysClear(db: Database, step: Step, now: Timestamp, a: ApplicationId, port: Port)
    requires SchemaHolds(db) && Inv(db) && IsForeign(db, step, a) && !TakesAPort(db, step)
    requires OwnersAgree(db) && ReservationsOk(db.reservations, db.deployments)
    requires IsReservedBy(db, port, a) && !PortHeldByLiveRuntime(db, port)
    ensures !PortHeldByLiveRuntime(Apply(db, step, now), port)
  {
    hide Inv, SchemaHolds, Apply, UniqueContainers, RegisterCandidate, IsFree;
    var next := Apply(db, step, now);
    SchemaShowsContainers(db);
    if WritesReservations(step) {
      ReservationsChangeSafely(db, step, now);
    } else if IsPromotionStep(step) {
      PromotionStepOnlyMovesStates(db, step, now);
    } else if step.RegisterStep? {
      RegistrationElsewhere(db, step, now, a, port);
    } else if step.RetireStep? || step.AbandonStep? || step.ReplaceContainerStep? || step.ObserveStep? {
      RowUpdatesOnlyRetire(db, step, now);
    } else {
      OtherStepsLeaveRuntimes(db, step, now);
    }
  }

  lemma RegistrationElsewhere(db: Database, step: Step, now: Timestamp, a: ApplicationId, port: Port)
    requires SchemaHolds(db) && UniqueContainers(db.runtimes) && step.RegisterStep? && !TakesAPort(db, step)
    requires IsForeign(db, step, a) && ReservationsOk(db.reservations, db.deployments)
    requires IsReservedBy(db, port, a) && !PortHeldByLiveRuntime(db, port)
    ensures !PortHeldByLiveRuntime(Apply(db, step, now), port)
  {
    hide SchemaHolds, UniqueContainers, RegisterCandidate, WillRegister;
    RegistrationAddsACandidate(db, step.runtime, step.deployment, step.container, step.port, step.containerPort, now);
    var next := Apply(db, step, now);
    RegistersExactly(db, step, now);
    if next != db {
      assert db.deployments[db.reservations[port].deploymentId].applicationId == a;
      assert step.port != port;
    }
  }

  lemma {:induction false} ForeignRunKeepsPortClear(db: Database, events: seq<Event>, a: ApplicationId, port: Port)
    requires SchemaHolds(db) && Inv(db) && RunIsForeign(db, events, a) && NoPortIsTaken(db, events)
    requires IsReservedBy(db, port, a) && !PortHeldByLiveRuntime(db, port)
    ensures !PortHeldByLiveRuntime(Run(db, events), port)
    decreases |events|
  {
    hide Inv, SchemaHolds, Apply, IsForeign, TakesAPort, PortHeldByLiveRuntime, OwnersAgree, ReservationsOk;
    hide KeepsApplication, KeepsExposure, KeepsDeployments, KeepsRuntimes;
    if events != [] {
      StepKeepsSchema(db, events[0].step, events[0].at);
      StepKeepsInv(db, events[0].step, events[0].at);
      SchemaShowsOwners(db);
      SchemaShowsContainers(db);
      ForeignStepKeepsRows(db, events[0].step, events[0].at, a);
      ReservedPortStaysClear(db, events[0].step, events[0].at, a, port);
      ForeignRunKeepsPortClear(Apply(db, events[0].step, events[0].at), events[1..], a, port);
    }
  }
}
