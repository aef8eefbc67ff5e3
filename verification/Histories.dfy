/** How single rows may change over a run: typed lifecycles, final evidence, tombstones. */
module Histories {
  import opened Wrappers
  import opened Identity
  import opened Deployment
  import opened Exposure
  import opened Schema
  import opened Statements
  import opened Workflows
  import opened Hydration
  import opened Constraints
  import opened Invariants
  import opened Promotion
  import opened Runs

  // ---- deployments refine the typed lifecycle ----

  ghost predicate MovesBetween(before: Lifecycle, after: Lifecycle, now: Timestamp) {
    exists event :: LifecycleMove(before, after, event, now)
  }

  // A row keeps its identity, a terminal row keeps everything, and any other change is one
  // move of the typed lifecycle.
  ghost predicate DeploymentEvolves(row: DeploymentRow, next: DeploymentRow, now: Timestamp) {
    && next.applicationId == row.applicationId && next.releaseId == row.releaseId && next.kind == row.kind
    && (row.status.IsTerminal() ==> next == row)
    && LifecycleOf(row).Ok? && LifecycleOf(next).Ok?
    && (next == row || MovesBetween(LifecycleOf(row).value, LifecycleOf(next).value, now))
  }

  lemma PromotionEvolvesDeployment(db: Database, next: Database, r: RuntimeId, d: DeploymentId, visibility: Visibility, now: Timestamp)
    requires DeploymentsLegal(db.deployments) && IsPromotable(db, r, visibility) && IsPromotion(db, next, r, now)
    requires d in db.deployments
    ensures d in next.deployments && DeploymentEvolves(db.deployments[d], next.deployments[d], now)
  {
    hide IsPromotion;
    PromotionFinishesOneDeployment(db, next, r, now);
    if d == db.runtimes[r].deploymentId {
      SucceedingMovesTheLifecycle(db.deployments[d], now);
      assert LifecycleMove(LifecycleOf(db.deployments[d]).value, LifecycleOf(next.deployments[d]).value, Activated, now);
    }
  }

  lemma AdvanceEvolvesDeployment(
    db: Database, id: DeploymentId, read: DeploymentStatus, event: DeploymentEvent, d: DeploymentId, now: Timestamp)
    requires SchemaHolds(db) && DeploymentsLegal(db.deployments) && d in db.deployments
    requires SchemaHolds(AdvanceDeployment(db, id, read, event, now))
    ensures var next := AdvanceDeployment(db, id, read, event, now);
            d in next.deployments && DeploymentEvolves(db.deployments[d], next.deployments[d], now)
  {
    hide SchemaHolds, EvidenceOk;
    var next := AdvanceDeployment(db, id, read, event, now);
    if next != db && d == id {
      SchemaShowsEvidence(next, d);
      AdvancingMovesTheLifecycle(db.deployments[d], event, now);
      assert LifecycleMove(LifecycleOf(db.deployments[d]).value, LifecycleOf(next.deployments[d]).value, event, now);
    }
  }

  lemma FailureEvolvesDeployment(db: Database, id: DeploymentId, code: FailureCode, message: string, d: DeploymentId, now: Timestamp)
    requires DeploymentsLegal(db.deployments) && d in db.deployments
    ensures var next := FailDeployment(db, id, code, message, now).0;
            d in next.deployments && DeploymentEvolves(db.deployments[d], next.deployments[d], now)
  {
    hide SchemaHolds;
    var next := FailDeployment(db, id, code, message, now).0;
    if next != db && d == id {
      FailingMovesTheLifecycle(db.deployments[d], code, message, now);
      assert LifecycleMove(LifecycleOf(db.deployments[d]).value, LifecycleOf(next.deployments[d]).value, Fail, now);
    }
  }

  // Steps that write no deployment row.
  predicate LeavesDeployments(step: Step) {
    !(step.CreateDeploymentStep? || step.AdvanceStep? || step.FailStep? || step.PromoteInternalStep? || step.PromotePublicStep?)
  }

  lemma OtherStepsLeaveDeployments(db: Database, step: Step, now: Timestamp)
    requires SchemaHolds(db) && LeavesDeployments(step)
    ensures Apply(db, step, now).deployments == db.deployments
  {
    hide SchemaHolds, ReservationsOk, UniqueContainers, IsFree, UpdatedExposure, ExposureGuard, PortHeldByLiveRuntime;
    hide IsContainerId, HoldsReservation, FirstFree, ReleasedReservations, PersistedObservation;
  }

  lemma CreationKeepsDeployments(db: Database, id: DeploymentId, a: ApplicationId, release: ReleaseId, kind: DeploymentType, d: DeploymentId)
    requires d in db.deployments
    ensures var next := CreateDeployment(db, id, a, release, kind).0;
            d in next.deployments && next.deployments[d] == db.deployments[d]
  {
    hide SchemaHolds, HasWorkInProgress, IsActiveLiveRelease;
  }

  // Every step of every run: a persisted deployment is unchanged or makes one legal typed move.
  lemma StepEvolvesDeployment(db: Database, step: Step, now: Timestamp, d: DeploymentId)
    requires Inv(db) && d in db.deployments
    ensures d in Apply(db, step, now).deployments
    ensures DeploymentEvolves(db.deployments[d], Apply(db, step, now).deployments[d], now)
  {
    hide SchemaHolds, PromotionInvariant, ExposuresLegal, DeploymentEvolves, IsPromotion, IsPromotable, UniqueContainers, ReservationsOk;
    hide CreateDeployment, AdvanceDeployment, FailDeployment, PromoteInternal, PromotePublic, Import, CreateRelease, ReservePort;
    hide RegisterCandidate, ReleasePort, ConsumePortReservation, UpdateExposure, SetDesiredState, MarkRuntimeRemoved;
    hide MarkStartingRuntimeMissing, ReconcileExternalRuntimeId, PersistObservation;
    UnchangedRowEvolves(db.deployments[d], now);
    StepKeepsSchema(db, step, now);
    match step
    case CreateDeploymentStep(id, a, release, kind) => CreationKeepsDeployments(db, id, a, release, kind, d);
    case AdvanceStep(id, read, event) => AdvanceEvolvesDeployment(db, id, read, event, d, now);
    case FailStep(id, code, message) => FailureEvolvesDeployment(db, id, code, message, d, now);
    case PromoteInternalStep(r) =>
      InternalPromotionIsExact(db, r, now);
      if IsPromotable(db, r, Visibility.Internal) && Apply(db, step, now) != db {
        PromotionEvolvesDeployment(db, Apply(db, step, now), r, d, Visibility.Internal, now);
      }
    case PromotePublicStep(r, version) =>
      PublicPromotionIsExact(db, r, version, now);
      if IsPromotable(db, r, Visibility.Public) && Apply(db, step, now) != db {
        PromotionEvolvesDeployment(db, Apply(db, step, now), r, d, Visibility.Public, now);
      }
    case _ => OtherStepsLeaveDeployments(db, step, now);
  }

  lemma UnchangedRowEvolves(row: DeploymentRow, now: Timestamp)
    requires IsLegalDeployment(row)
    ensures DeploymentEvolves(row, row, now)
  {
  }

  // Once a deployment succeeded or failed, no run changes its row again.
  lemma {:induction false} TerminalDeploymentsAreFinal(db: Database, events: seq<Event>, d: DeploymentId)
    requires SchemaHolds(db) && Inv(db) && d in db.deployments && db.deployments[d].status.IsTerminal()
    ensures d in Run(db, events).deployments && Run(db, events).deployments[d] == db.deployments[d]
    decreases |events|
  {
    hide Inv, SchemaHolds, Apply, MovesBetween;
    if events != [] {
      StepKeepsSchema(db, events[0].step, events[0].at);
      StepKeepsInv(db, events[0].step, events[0].at);
      StepEvolvesDeployment(db, events[0].step, events[0].at, d);
      TerminalDeploymentsAreFinal(Apply(db, events[0].step, events[0].at), events[1..], d);
    }
  }

  // A deployment never leaves the history, and never changes its application or release.
  lemma {:induction false} DeploymentsKeepIdentity(db: Database, events: seq<Event>, d: DeploymentId)
    requires SchemaHolds(db) && Inv(db) && d in db.deployments
    ensures d in Run(db, events).deployments
    ensures Run(db, events).deployments[d].applicationId == db.deployments[d].applicationId
    ensures Run(db, events).deployments[d].releaseId == db.deployments[d].releaseId
    decreases |events|
  {
    hide Inv, SchemaHolds, Apply, MovesBetween;
    if events != [] {
      StepKeepsSchema(db, events[0].step, events[0].at);
      StepKeepsInv(db, events[0].step, events[0].at);
      StepEvolvesDeployment(db, events[0].step, events[0].at, d);
      DeploymentsKeepIdentity(Apply(db, events[0].step, events[0].at), events[1..], d);
    }
  }

  // ---- runtimes: identity, order of states and tombstones ----

  // A runtime keeps its owner and ports; a tombstone keeps everything; a running runtime is
  // not removed; states only move from starting through running to stopped.
  predicate RuntimeEvolves(row: RuntimeRow, next: RuntimeRow) {
    && next.applicationId == row.applicationId && next.deploymentId == row.deploymentId
    && next.hostPort == row.hostPort && next.containerPort == row.containerPort
    && (row.removedAt.Some? ==> next == row)
    && (row.state.Running? ==> next.removedAt.None?)
    && (next.state == row.state || (row.state.Starting? && next.state.Running?) || (row.state.Running? && next.state.Stopped?))
  }

  predicate WritesOneRuntime(step: Step) {
    step.RegisterStep? || step.RetireStep? || step.AbandonStep? || step.ReplaceContainerStep? || step.ObserveStep?
  }

  // The write of one runtime row, seen from some row of the table.
  predicate WroteRuntime(db: Database, next: Database, written: RuntimeId, r: RuntimeId)
    requires r in db.runtimes
  {
    && next.applications == db.applications
    && r in next.runtimes && RuntimeEvolves(db.runtimes[r], next.runtimes[r])
    && next.runtimes[r].state == db.runtimes[r].state
    && (r != written ==> next.runtimes[r] == db.runtimes[r])
  }

  lemma RemovalsEvolve(db: Database, id: RuntimeId, r: RuntimeId, now: Timestamp)
    requires r in db.runtimes && (db.runtimes[r].state.Running? ==> IsLive(db.runtimes[r]))
    ensures WroteRuntime(db, MarkRuntimeRemoved(db, id, now).0, id, r)
    ensures WroteRuntime(db, MarkStartingRuntimeMissing(db, id, now).0, id, r)
  {
    hide SchemaHolds;
  }

  lemma ReplacementEvolves(db: Database, id: RuntimeId, expected: string, replacement: string, r: RuntimeId, now: Timestamp)
    requires r in db.runtimes && (db.runtimes[r].state.Running? ==> IsLive(db.runtimes[r]))
    ensures WroteRuntime(db, ReconcileExternalRuntimeId(db, id, expected, replacement, now).0, id, r)
  {
    hide SchemaHolds;
  }

  lemma ObservationEvolves(db: Database, id: RuntimeId, observed: ObservedState, r: RuntimeId, now: Timestamp)
    requires r in db.runtimes && (db.runtimes[r].state.Running? ==> IsLive(db.runtimes[r]))
    ensures WroteRuntime(db, PersistObservation(db, id, observed, now).0, id, r)
  {
    hide SchemaHolds;
  }

  lemma RegistrationEvolves(
    db: Database, id: RuntimeId, d: DeploymentId, container: string, port: Port, containerPort: Port, r: RuntimeId, now: Timestamp)
    requires UniqueContainers(db.runtimes)
    requires r in db.runtimes && (db.runtimes[r].state.Running? ==> IsLive(db.runtimes[r]))
    ensures WroteRuntime(db, RegisterCandidate(db, id, d, container, port, containerPort, now).0, id, r)
  {
    hide SchemaHolds, UniqueContainers, RegisterCandidate;
    RegistrationAddsACandidate(db, id, d, container, port, containerPort, now);
  }

  lemma OneRuntimeStepEvolves(db: Database, step: Step, now: Timestamp, r: RuntimeId)
    requires SchemaHolds(db) && UniqueContainers(db.runtimes) && r in db.runtimes && WritesOneRuntime(step)
    requires db.runtimes[r].state.Running? ==> IsLive(db.runtimes[r])
    ensures WroteRuntime(db, Apply(db, step, now), step.runtime, r)
  {
    hide SchemaHolds, UniqueContainers, RegisterCandidate, WroteRuntime;
    hide MarkRuntimeRemoved, MarkStartingRuntimeMissing, ReconcileExternalRuntimeId, PersistObservation;
    match step {
      case RegisterStep(id, d, container, port, containerPort) =>
        RegistrationEvolves(db, id, d, container, port, containerPort, r, now);
      case ReplaceContainerStep(id, expected, replacement) =>
        ReplacementEvolves(db, id, expected, replacement, r, now);
      case ObserveStep(id, observed) => ObservationEvolves(db, id, observed, r, now);
      case RetireStep(id) => RemovalsEvolve(db, id, r, now);
      case AbandonStep(id) => RemovalsEvolve(db, id, r, now);
      case _ =>
    }
  }

  lemma PromotionEvolvesRuntime(db: Database, next: Database, candidate: RuntimeId, r: RuntimeId, now: Timestamp)
    requires IsPromotion(db, next, candidate, now) && r in db.runtimes
    requires db.runtimes[candidate].state.Starting? && IsLive(db.runtimes[candidate])
    requires db.runtimes[r].state.Running? ==> IsLive(db.runtimes[r])
    ensures r in next.runtimes && RuntimeEvolves(db.runtimes[r], next.runtimes[r])
    ensures next.runtimes[r].state.Running? && !db.runtimes[r].state.Running? <==> r == candidate
  {
  }

  lemma OtherStepsLeaveRuntimes(db: Database, step: Step, now: Timestamp)
    requires SchemaHolds(db) && !WritesOneRuntime(step) && !step.PromoteInternalStep? && !step.PromotePublicStep?
    ensures Apply(db, step, now).runtimes == db.runtimes
  {
    hide SchemaHolds, ReservationsOk, UniqueContainers, IsFree, UpdatedExposure, ExposureGuard;
    hide HasWorkInProgress, IsActiveLiveRelease;
  }

  predicate Promotes(step: Step, r: RuntimeId) {
    (step.PromoteInternalStep? || step.PromotePublicStep?) && step.runtime == r
  }

  lemma PromotionStepEvolvesRuntime(db: Database, step: Step, now: Timestamp, r: RuntimeId)
    requires Inv(db) && r in db.runtimes && (step.PromoteInternalStep? || step.PromotePublicStep?)
    ensures r in Apply(db, step, now).runtimes
    ensures RuntimeEvolves(db.runtimes[r], Apply(db, step, now).runtimes[r])
    ensures Apply(db, step, now).runtimes[r].state.Running? && !db.runtimes[r].state.Running? ==> Promotes(step, r)
  {
    hide SchemaHolds, ActiveServes, StartedByPromotion, DeploymentsLegal, ExposuresLegal, IsPromotion, PromoteInternal, PromotePublic;
    match step {
      case PromoteInternalStep(candidate) =>
        InternalPromotionIsExact(db, candidate, now);
        if IsPromotable(db, candidate, Visibility.Internal) {
          PromotionEvolvesRuntime(db, Apply(db, step, now), candidate, r, now);
        }
      case PromotePublicStep(candidate, version) =>
        PublicPromotionIsExact(db, candidate, version, now);
        if IsPromotable(db, candidate, Visibility.Public) && Apply(db, step, now) != db {
          PromotionEvolvesRuntime(db, Apply(db, step, now), candidate, r, now);
        }
      case _ =>
    }
  }

  // Every step of every run: a runtime row evolves in order, and only its own promotion starts it.
  lemma StepEvolvesRuntime(db: Database, step: Step, now: Timestamp, r: RuntimeId)
    requires Inv(db) && r in db.runtimes
    ensures r in Apply(db, step, now).runtimes
    ensures RuntimeEvolves(db.runtimes[r], Apply(db, step, now).runtimes[r])
    ensures Apply(db, step, now).runtimes[r].state.Running? && !db.runtimes[r].state.Running? ==> Promotes(step, r)
  {
    hide SchemaHolds, ActiveServes, StartedByPromotion, DeploymentsLegal, ExposuresLegal, IsPromotion;
    hide CreateDeployment, AdvanceDeployment, FailDeployment, PromoteInternal, PromotePublic, Import, CreateRelease, ReservePort;
    hide RegisterCandidate, ReleasePort, ConsumePortReservation, UpdateExposure, SetDesiredState, MarkRuntimeRemoved;
    hide MarkStartingRuntimeMissing, ReconcileExternalRuntimeId, PersistObservation, UniqueContainers, ReservationsOk;
    if step.PromoteInternalStep? || step.PromotePublicStep? {
      PromotionStepEvolvesRuntime(db, step, now, r);
    } else if WritesOneRuntime(step) {
      SchemaShowsContainers(db);
      OneRuntimeStepEvolves(db, step, now, r);
    } else {
      OtherStepsLeaveRuntimes(db, step, now);
    }
  }

  // Once removed, a runtime row never changes again; a running one has not been removed.
  lemma {:induction false} TombstonesAreFinal(db: Database, events: seq<Event>, r: RuntimeId)
    requires SchemaHolds(db) && Inv(db) && r in db.runtimes
    ensures r in Run(db, events).runtimes
    ensures db.runtimes[r].removedAt.Some? ==> Run(db, events).runtimes[r] == db.runtimes[r]
    ensures IsStarted(db.runtimes[r]) ==> IsStarted(Run(db, events).runtimes[r])
    ensures Run(db, events).runtimes[r].deploymentId == db.runtimes[r].deploymentId
    ensures Run(db, events).runtimes[r].applicationId == db.runtimes[r].applicationId
    decreases |events|
  {
    hide Inv, SchemaHolds, Apply;
    if events != [] {
      StepKeepsSchema(db, events[0].step, events[0].at);
      StepKeepsInv(db, events[0].step, events[0].at);
      StepEvolvesRuntime(db, events[0].step, events[0].at, r);
      TombstonesAreFinal(Apply(db, events[0].step, events[0].at), events[1..], r);
    }
  }

  // No runtime is promoted twice: after its promotion, whatever happened since, another
  // promotion changes nothing. Internally it repeats the original evidence while the runtime
  // still serves and is rejected as not starting once superseded.
  lemma NoRuntimeIsPromotedTwice(db: Database, events: seq<Event>, r: RuntimeId, version: ConfigurationVersion, now: Timestamp)
    requires SchemaHolds(db) && Inv(db) && IsJoined(db, r) && db.runtimes[r].state.Running?
    ensures var later := Run(db, events);
            && r in later.runtimes
            && PromoteInternal(later, r, now) ==
                 (later, if later.runtimes[r].state.Running? then Ok(Evidence(db, r))
                         else Err(NotPromotable(CandidateRejection.NotStarting(RuntimeState.Stopped))))
            && PromotePublic(later, r, version, now) ==
                 (later, Err(NotPromotable(CandidateRejection.NotStarting(later.runtimes[r].state))))
  {
    hide Inv, SchemaHolds;
    var later := Run(db, events);
    RunKeepsInv(db, events);
    TombstonesAreFinal(db, events, r);
    RunningDeploymentsSucceeded(db, r);
    TerminalDeploymentsAreFinal(db, events, db.runtimes[r].deploymentId);
    RuntimesAreJoined(later, r);
    StartedRuntimesRunOrStopped(later, r);
    hide Run, InternalWrites, PublicWrites;
  }

  lemma RunningDeploymentsSucceeded(db: Database, r: RuntimeId)
    requires Inv(db) && IsJoined(db, r) && db.runtimes[r].state.Running?
    ensures db.deployments[db.runtimes[r].deploymentId].status.IsTerminal()
  {
  }

  lemma StartedRuntimesRunOrStopped(db: Database, r: RuntimeId)
    requires Inv(db) && r in db.runtimes && IsStarted(db.runtimes[r])
    ensures db.runtimes[r].state.Running? || db.runtimes[r].state.Stopped?
    ensures db.runtimes[r].deploymentId in db.deployments && db.deployments[db.runtimes[r].deploymentId].status.Succeeded?
  {
    hide SchemaHolds, ActiveServes, RunningIsActive;
  }
}
