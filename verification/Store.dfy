/** The mutable store: tables updated in place, constraint checks and rolled-back transactions. */
module Store {
  import opened Wrappers
  import opened Identity
  import opened Deployment
  import opened Exposure
  import opened Schema
  import Statements
  import opened Workflows
  import opened Constraints
  import opened Invariants
  import opened Runs

  type Write = Statements.Write

  // The integer type of the port search; arithmetic past 65535 would be an overflow.
  newtype U16 = n: int | 0 <= n <= 65535

  // Every method refines the function of the same name on the whole database, so what the
  // run-level modules prove about those functions holds of this class.
  class Store {
    var applications: map<ApplicationId, ApplicationRow>
    var releases: map<ReleaseId, ReleaseRow>
    var deployments: map<DeploymentId, DeploymentRow>
    var runtimes: map<RuntimeId, RuntimeRow>
    var exposures: map<ApplicationId, ExposureRow>
    var reservations: map<Port, ReservationRow>

    constructor ()
      ensures Snapshot() == Database(map[], map[], map[], map[], map[], map[])
    {
      applications, releases, deployments, runtimes, exposures, reservations := map[], map[], map[], map[], map[], map[];
    }

    function Snapshot(): Database
      reads this
    {
      Database(applications, releases, deployments, runtimes, exposures, reservations)
    }

    // ---- constraint enforcement and rollback ----

    method Restore(saved: Database)
      modifies this
      ensures Snapshot() == saved
    {
      applications, releases, deployments := saved.applications, saved.releases, saved.deployments;
      runtimes, exposures, reservations := saved.runtimes, saved.exposures, saved.reservations;
    }

    // Keeps a statement's effect only if every declared constraint still holds.
    method Enforce(saved: Database) returns (outcome: Write)
      modifies this
      ensures (Snapshot(), outcome) == Statements.Checked(saved, old(Snapshot()))
    {
      hide SchemaHolds;
      if SchemaHolds(Snapshot()) {
        outcome := Statements.Updated;
      } else {
        Restore(saved);
        outcome := Statements.Violated;
      }
    }

    // ---- application statements ----

    method InsertApplication(id: ApplicationId, name: string) returns (outcome: Write)
      modifies this
      ensures (Snapshot(), outcome) == Statements.InsertApplication(old(Snapshot()), id, name)
    {
      hide SchemaHolds;
      if exists a :: a in applications && applications[a].name == name { return Statements.Stale; }
      if id in applications { return Statements.Violated; }
      var saved := Snapshot();
      applications := applications[id := ApplicationRow(name, DesiredState.Stopped, None)];
      outcome := Enforce(saved);
    }

    method SetDesiredState(id: ApplicationId, desired: DesiredState) returns (outcome: Write)
      modifies this
      ensures (Snapshot(), outcome) == Statements.SetDesiredState(old(Snapshot()), id, desired)
    {
      hide SchemaHolds;
      if id !in applications { return Statements.Stale; }
      var saved := Snapshot();
      applications := applications[id := applications[id].(desired := desired)];
      outcome := Enforce(saved);
    }

    method ActivateDeployment(id: ApplicationId, deployment: DeploymentId) returns (outcome: Write)
      modifies this
      ensures (Snapshot(), outcome) == Statements.ActivateDeployment(old(Snapshot()), id, deployment)
    {
      hide SchemaHolds;
      if id !in applications || deployment !in deployments { return Statements.Stale; }
      if deployments[deployment].applicationId != id || !deployments[deployment].status.Succeeded? { return Statements.Stale; }
      var saved := Snapshot();
      applications := applications[id := applications[id].(active := Some(deployment), desired := DesiredState.Running)];
      outcome := Enforce(saved);
    }

    // ---- release and deployment statements ----

    method InsertRelease(id: ReleaseId, application: ApplicationId, reference: string) returns (outcome: Write)
      modifies this
      ensures (Snapshot(), outcome) == Statements.InsertRelease(old(Snapshot()), id, application, reference)
    {
      hide SchemaHolds;
      if exists r :: r in releases && releases[r] == ReleaseRow(application, reference) { return Statements.Stale; }
      if id in releases { return Statements.Violated; }
      var saved := Snapshot();
      releases := releases[id := ReleaseRow(application, reference)];
      outcome := Enforce(saved);
    }

    method InsertPending(id: DeploymentId, application: ApplicationId, release: ReleaseId, kind: DeploymentType)
      returns (outcome: Write)
      modifies this
      ensures (Snapshot(), outcome) == Statements.InsertPending(old(Snapshot()), id, application, release, kind)
    {
      hide SchemaHolds;
      if id in deployments { return Statements.Violated; }
      var saved := Snapshot();
      deployments := deployments[id :=
        DeploymentRow(application, release, kind, DeploymentStatus.Pending, None, None, None, None, None)];
      outcome := Enforce(saved);
    }

    method AdvanceStatus(id: DeploymentId, expected: DeploymentStatus, next: DeploymentStatus, now: Timestamp)
      returns (outcome: Write)
      modifies this
      ensures (Snapshot(), outcome) == Statements.AdvanceStatus(old(Snapshot()), id, expected, next, now)
    {
      hide SchemaHolds;
      if id !in deployments || deployments[id].status != expected { return Statements.Stale; }
      var saved := Snapshot();
      var row := deployments[id];
      if row.status.Pending? {
        row := row.(startedAt := Some(now));
      }
      deployments := deployments[id := row.(status := next)];
      outcome := Enforce(saved);
    }

    method MarkFailed(id: DeploymentId, stage: DeploymentStatus, code: FailureCode, message: string, now: Timestamp)
      returns (outcome: Write)
      modifies this
      ensures (Snapshot(), outcome) == Statements.MarkFailed(old(Snapshot()), id, stage, code, message, now)
    {
      hide SchemaHolds;
      if id !in deployments || deployments[id].status != stage { return Statements.Stale; }
      var saved := Snapshot();
      deployments := deployments[id := deployments[id].(
        status := DeploymentStatus.Failed, finishedAt := Some(now), code := Some(code), stage := Some(stage),
        message := Some(message))];
      outcome := Enforce(saved);
    }

    method MarkSucceeded(id: DeploymentId, expected: DeploymentStatus, now: Timestamp) returns (outcome: Write)
      modifies this
      ensures (Snapshot(), outcome) == Statements.MarkSucceeded(old(Snapshot()), id, expected, now)
    {
      hide SchemaHolds;
      if id !in deployments || deployments[id].status != expected { return Statements.Stale; }
      var saved := Snapshot();
      deployments := deployments[id := deployments[id].(status := DeploymentStatus.Succeeded, finishedAt := Some(now))];
      outcome := Enforce(saved);
    }

    // ---- runtime statements ----

    method InsertRuntime(
      id: RuntimeId, application: ApplicationId, deployment: DeploymentId, container: string, hostPort: Port,
      containerPort: Port, now: Timestamp) returns (outcome: Write)
      modifies this
      ensures (Snapshot(), outcome) ==
                Statements.InsertRuntime(old(Snapshot()), id, application, deployment, container, hostPort, containerPort, now)
    {
      hide SchemaHolds;
      if id in runtimes { return Statements.Violated; }
      var saved := Snapshot();
      runtimes := runtimes[id := RuntimeRow(
        application, deployment, container, RuntimeState.Starting, hostPort, containerPort, ObservedState.Running, now, None)];
      outcome := Enforce(saved);
    }

    method ReconcileExternalRuntimeId(id: RuntimeId, expected: string, replacement: string, now: Timestamp)
      returns (outcome: Write)
      modifies this
      ensures (Snapshot(), outcome) == Statements.ReconcileExternalRuntimeId(old(Snapshot()), id, expected, replacement, now)
    {
      hide SchemaHolds;
      if id !in runtimes || runtimes[id].container != expected || !IsLive(runtimes[id]) { return Statements.Stale; }
      var saved := Snapshot();
      runtimes := runtimes[id := runtimes[id].(container := replacement, observed := ObservedState.Running, observedAt := now)];
      outcome := Enforce(saved);
    }

    method PersistObservation(id: RuntimeId, observed: ObservedState, now: Timestamp) returns (outcome: Write)
      modifies this
      ensures (Snapshot(), outcome) == Statements.PersistObservation(old(Snapshot()), id, observed, now)
    {
      hide SchemaHolds;
      if id !in runtimes || !IsLive(runtimes[id]) { return Statements.Stale; }
      var saved := Snapshot();
      var persisted := if observed.Unknown? then ObservedState.Unknown("unknown") else observed;
      runtimes := runtimes[id := runtimes[id].(observed := persisted, observedAt := now)];
      outcome := Enforce(saved);
    }

    method StartRuntime(id: RuntimeId) returns (outcome: Write)
      modifies this
      ensures (Snapshot(), outcome) == Statements.StartRuntime(old(Snapshot()), id)
    {
      hide SchemaHolds;
      if id !in runtimes || !runtimes[id].state.Starting? || !IsLive(runtimes[id]) { return Statements.Stale; }
      var saved := Snapshot();
      runtimes := runtimes[id := runtimes[id].(state := RuntimeState.Running)];
      outcome := Enforce(saved);
    }

    // One statement that may change any number of rows, none included.
    method StopOtherRunningRuntimes(application: ApplicationId, candidate: RuntimeId) returns (outcome: Write)
      modifies this
      ensures (Snapshot(), outcome) == Statements.StopOtherRunningRuntimes(old(Snapshot()), application, candidate)
    {
      hide SchemaHolds;
      var saved := Snapshot();
      runtimes := map r | r in runtimes ::
        if runtimes[r].applicationId == application && runtimes[r].state.Running? && IsLive(runtimes[r]) && r != candidate
        then runtimes[r].(state := RuntimeState.Stopped) else runtimes[r];
      assert runtimes == Statements.StoppedOthers(saved.runtimes, application, candidate);
      outcome := Enforce(saved);
    }

    method MarkRuntimeRemoved(id: RuntimeId, now: Timestamp) returns (outcome: Write)
      modifies this
      ensures (Snapshot(), outcome) == Statements.MarkRuntimeRemoved(old(Snapshot()), id, now)
    {
      hide SchemaHolds;
      if id !in runtimes || !runtimes[id].state.Stopped? || !IsLive(runtimes[id]) { return Statements.Stale; }
      var saved := Snapshot();
      runtimes := runtimes[id := runtimes[id].(removedAt := Some(now))];
      outcome := Enforce(saved);
    }

    method MarkStartingRuntimeMissing(id: RuntimeId, now: Timestamp) returns (outcome: Write)
      modifies this
      ensures (Snapshot(), outcome) == Statements.MarkStartingRuntimeMissing(old(Snapshot()), id, now)
    {
      hide SchemaHolds;
      if id !in runtimes || !runtimes[id].state.Starting? || !IsLive(runtimes[id]) { return Statements.Stale; }
      var saved := Snapshot();
      runtimes := runtimes[id := runtimes[id].(observed := ObservedState.Missing, observedAt := now, removedAt := Some(now))];
      outcome := Enforce(saved);
    }

    // ---- exposure statements ----

    method InsertExposure(application: ApplicationId, intent: Intent) returns (outcome: Write)
      modifies this
      ensures (Snapshot(), outcome) == Statements.InsertExposure(old(Snapshot()), application, intent)
    {
      hide SchemaHolds;
      if application in exposures { return Statements.Violated; }
      var saved := Snapshot();
      var domain := if intent.Internal? then intent.optionalDomain else Some(intent.domain);
      exposures := exposures[application := ExposureRow(
        intent.DesiredVisibility(), domain, MaterializationState.NotMaterialized, None, None, None, None, None)];
      outcome := Enforce(saved);
    }

    method UpdateExposure(application: ApplicationId, update: Statements.ExposureUpdate, now: Timestamp)
      returns (outcome: Write)
      modifies this
      ensures (Snapshot(), outcome) == Statements.UpdateExposure(old(Snapshot()), application, update, now)
    {
      hide SchemaHolds, Statements.UpdatedExposure, Statements.ExposureGuard;
      if application !in exposures || !Statements.ExposureGuard(exposures[application], update) { return Statements.Stale; }
      var saved := Snapshot();
      exposures := exposures[application := Statements.UpdatedExposure(exposures[application], update, now)];
      outcome := Enforce(saved);
    }

    // ---- port reservations ----

    // Searches the configured range in machine integers. The last port of the range is
    // searched too, without stepping past it, so a range ending at 65535 terminates.
    method ReservePort(application: ApplicationId, deployment: DeploymentId, start: U16, end: U16)
      returns (result: Result<Port, ReservationError>)
      requires 1 <= start && 1 <= end
      requires ReservationsOk(reservations, deployments)
      modifies this
      ensures (Snapshot(), result) ==
                Workflows.ReservePort(old(Snapshot()), application, deployment, start as Port, end as Port)
    {
      hide SchemaHolds;
      var saved := Snapshot();
      if port :| port in reservations && reservations[port].deploymentId == deployment {
        assert HoldsReservation(saved, port, deployment);
        return Ok(port);
      }
      assert forall p :: !HoldsReservation(saved, p, deployment);
      var raw, exhausted := start, start > end;
      while !exhausted
        invariant Snapshot() == saved && (!exhausted ==> start <= raw <= end)
        invariant if exhausted then FirstFree(saved, start as nat, end as Port) == None
                  else FirstFree(saved, start as nat, end as Port) == FirstFree(saved, raw as nat, end as Port)
        decreases !exhausted, end as int - raw as int
      {
        var port: Port := raw as Port;
        if port !in reservations && !PortHeldByLiveRuntime(saved, port) {
          assert IsFree(saved, port) && FirstFree(saved, raw as nat, end as Port) == Some(port);
          reservations := reservations[port := ReservationRow(application, deployment)];
          var outcome := Enforce(saved);
          return if outcome.Updated? then Ok(port) else Err(ReservationError.Persistence);
        }
        if raw == end {
          exhausted := true;
        } else {
          raw := raw + 1;
        }
      }
      result := Err(Exhausted(start as Port, end as Port));
    }

    method ReleasePort(deployment: DeploymentId) returns (outcome: Write)
      modifies this
      ensures (Snapshot(), outcome) == Statements.ReleasePort(old(Snapshot()), deployment)
    {
      hide SchemaHolds;
      var saved := Snapshot();
      reservations := map p | p in reservations && reservations[p].deploymentId != deployment :: reservations[p];
      assert reservations == Statements.ReleasedReservations(saved.reservations, deployment);
      outcome := Enforce(saved);
    }

    method ConsumePortReservation(application: ApplicationId, deployment: DeploymentId, port: Port) returns (outcome: Write)
      modifies this
      ensures (Snapshot(), outcome) == Statements.ConsumePortReservation(old(Snapshot()), application, deployment, port)
    {
      hide SchemaHolds;
      if port !in reservations || reservations[port] != ReservationRow(application, deployment) { return Statements.Stale; }
      var saved := Snapshot();
      reservations := reservations - {port};
      outcome := Enforce(saved);
    }

    // ---- transactions ----

    method Import(id: ApplicationId, name: string, intent: Intent)
      modifies this
      ensures Snapshot() == Workflows.Import(old(Snapshot()), id, name, intent)
    {
      hide SchemaHolds;
      var saved := Snapshot();
      var inserted := InsertApplication(id, name);
      if inserted.Updated? {
        var exposed := InsertExposure(id, intent);
        if !exposed.Updated? {
          Restore(saved);
        }
      }
    }

    method CreateRelease(id: ReleaseId, application: ApplicationId, reference: string)
      modifies this
      ensures Snapshot() == Workflows.CreateRelease(old(Snapshot()), id, application, reference)
    {
      hide SchemaHolds;
      if application in applications {
        var _ := InsertRelease(id, application, reference);
      }
    }

    method CreateDeployment(id: DeploymentId, application: ApplicationId, release: ReleaseId, kind: DeploymentType)
      returns (result: Result<DeploymentId, CreationError>)
      modifies this
      ensures (Snapshot(), result) == Workflows.CreateDeployment(old(Snapshot()), id, application, release, kind)
    {
      hide SchemaHolds, HasWorkInProgress, IsActiveLiveRelease;
      if application !in applications { return Err(ApplicationNotFound); }
      if release !in releases || releases[release].applicationId != application { return Err(ReleaseNotFound); }
      if HasWorkInProgress(Snapshot(), application) { return Err(InProgress); }
      if kind.Deploy? && IsActiveLiveRelease(Snapshot(), application, release) { return Err(AlreadyActive); }
      var outcome := InsertPending(id, application, release, kind);
      result := if outcome.Updated? then Ok(id) else Err(CreationError.Persistence);
    }

    method AdvanceDeployment(id: DeploymentId, read: DeploymentStatus, event: DeploymentEvent, now: Timestamp)
      modifies this
      ensures Snapshot() == Workflows.AdvanceDeployment(old(Snapshot()), id, read, event, now)
    {
      hide SchemaHolds;
      var next := read.Transition(event);
      if next.Some? {
        var _ := AdvanceStatus(id, read, next.value, now);
      }
    }

    method FailDeployment(id: DeploymentId, code: FailureCode, message: string, now: Timestamp) returns (failed: bool)
      modifies this
      ensures (Snapshot(), failed) == Workflows.FailDeployment(old(Snapshot()), id, code, message, now)
    {
      hide SchemaHolds, AreFailureDetails;
      if id !in deployments { return false; }
      var stage := deployments[id].status;
      if !stage.IsNonterminal() || !AreFailureDetails(stage, message) { return false; }
      var outcome := MarkFailed(id, stage, code, message, now);
      failed := outcome.Updated?;
    }

    method RegisterCandidate(
      id: RuntimeId, deployment: DeploymentId, container: string, port: Port, containerPort: Port, now: Timestamp)
      returns (result: Result<RuntimeId, RegistrationError>)
      requires UniqueContainers(runtimes)
      modifies this
      ensures (Snapshot(), result) ==
                Workflows.RegisterCandidate(old(Snapshot()), id, deployment, container, port, containerPort, now)
    {
      hide SchemaHolds, IsContainerId, PortHeldByLiveRuntime;
      if !IsContainerId(container) { return Err(InvalidContainer); }
      if existing :| existing in runtimes && runtimes[existing].container == container {
        var row := runtimes[existing];
        return if row.deploymentId == deployment && row.hostPort == port && row.containerPort == containerPort
          then Ok(existing) else Err(ContainerConflict);
      }
      if deployment !in deployments { return Err(DeploymentNotFound); }
      if !deployments[deployment].status.Starting? { return Err(RegistrationError.NotStarting); }
      if PortHeldByLiveRuntime(Snapshot(), port) { return Err(EndpointConflict); }
      var outcome := InsertRuntime(id, deployments[deployment].applicationId, deployment, container, port, containerPort, now);
      result := if outcome.Updated? then Ok(id) else Err(RegistrationError.Persistence);
    }

    // Guarded writes in order; the first one that does not change its row rolls everything back.
    method PromoteInternal(runtime: RuntimeId, now: Timestamp) returns (result: Result<PromotedCandidate, PromotionError>)
      modifies this
      ensures (Snapshot(), result) == Workflows.PromoteInternal(old(Snapshot()), runtime, now)
    {
      hide SchemaHolds, Statements.StartRuntime, Statements.StopOtherRunningRuntimes, Statements.MarkSucceeded;
      hide Statements.ActivateDeployment, Obstacle, LoadPromotionTarget;
      var saved := Snapshot();
      var loaded := LoadPromotionTarget(saved, runtime);
      if loaded.None? { return Err(RuntimeNotFound); }
      var target := loaded.value;
      if target.CompletedPromotion().Some? { return Ok(target.CompletedPromotion().value); }
      var obstacle := Obstacle(target, Visibility.Internal);
      if obstacle.Some? { return Err(obstacle.value); }

      var outcome := StopOtherRunningRuntimes(target.applicationId, target.runtimeId);
      if outcome.Updated? {
        outcome := StartRuntime(target.runtimeId);
      }
      if outcome.Updated? {
        outcome := MarkSucceeded(target.deploymentId, target.status, now);
      }
      if outcome.Updated? {
        outcome := ActivateDeployment(target.applicationId, target.deploymentId);
      }
      result := Finish(saved, target, outcome);
    }

    method PromotePublic(runtime: RuntimeId, version: ConfigurationVersion, now: Timestamp)
      returns (result: Result<PromotedCandidate, PromotionError>)
      modifies this
      ensures (Snapshot(), result) == Workflows.PromotePublic(old(Snapshot()), runtime, version, now)
    {
      hide SchemaHolds, Statements.StartRuntime, Statements.StopOtherRunningRuntimes, Statements.MarkSucceeded;
      hide Statements.ActivateDeployment, Statements.UpdateExposure, Obstacle, LoadPromotionTarget;
      var saved := Snapshot();
      var loaded := LoadPromotionTarget(saved, runtime);
      if loaded.None? { return Err(RuntimeNotFound); }
      var target := loaded.value;
      var obstacle := Obstacle(target, Visibility.Public);
      if obstacle.Some? { return Err(obstacle.value); }

      var outcome := StopOtherRunningRuntimes(target.applicationId, target.runtimeId);
      if outcome.Updated? {
        outcome := StartRuntime(target.runtimeId);
      }
      if outcome.Updated? {
        outcome := UpdateExposure(
          target.applicationId, Statements.CompletePublicExposureChange(target.runtimeId, version), now);
      }
      if outcome.Updated? {
        outcome := MarkSucceeded(target.deploymentId, target.status, now);
      }
      if outcome.Updated? {
        outcome := ActivateDeployment(target.applicationId, target.deploymentId);
      }
      result := Finish(saved, target, outcome);
    }

    // Commits with the recorded finish time, or restores the state before the transaction.
    method Finish(saved: Database, target: PromotionTarget, outcome: Write)
      returns (result: Result<PromotedCandidate, PromotionError>)
      modifies this
      ensures (Snapshot(), result) == Commit(saved, target, Wrote((old(Snapshot()), outcome)))
    {
      if outcome.Stale? {
        result := Err(ChangedDuringPromotion);
      } else if outcome.Violated? {
        result := Err(PromotionError.Persistence);
      } else if target.deploymentId !in deployments || deployments[target.deploymentId].finishedAt.None? {
        result := Err(PromotionError.Persistence);
      } else {
        return Ok(PromotedCandidate(target.runtimeId, target.deploymentId, deployments[target.deploymentId].finishedAt.value));
      }
      Restore(saved);
    }

    // ---- one atomic step ----

    // Performs any step; the store invariant holds again afterwards.
    method Perform(step: Step, now: Timestamp)
      requires SchemaHolds(Snapshot()) && Inv(Snapshot())
      modifies this
      ensures Snapshot() == Apply(old(Snapshot()), step, now)
      ensures SchemaHolds(Snapshot()) && Inv(Snapshot())
    {
      hide Inv, SchemaHolds, UniqueContainers, ReservationsOk, Workflows.Import, Workflows.CreateRelease;
      hide Workflows.CreateDeployment, Workflows.AdvanceDeployment, Workflows.FailDeployment, Workflows.ReservePort;
      hide Workflows.RegisterCandidate, Workflows.PromoteInternal, Workflows.PromotePublic, Statements.ReleasePort;
      hide Statements.ConsumePortReservation, Statements.MarkRuntimeRemoved, Statements.MarkStartingRuntimeMissing;
      hide Statements.ReconcileExternalRuntimeId, Statements.PersistObservation, Statements.SetDesiredState;
      hide Statements.UpdateExposure;
      SchemaShowsContainers(Snapshot());
      StepKeepsSchema(Snapshot(), step, now);
      StepKeepsInv(Snapshot(), step, now);
      match step
      case ImportStep(a, name, intent) => Import(a, name, intent);
      case CreateReleaseStep(r, a, reference) => CreateRelease(r, a, reference);
      case CreateDeploymentStep(d, a, r, kind) => var _ := CreateDeployment(d, a, r, kind);
      case AdvanceStep(d, read, event) => AdvanceDeployment(d, read, event, now);
      case FailStep(d, code, message) => var _ := FailDeployment(d, code, message, now);
      case ReserveStep(a, d, start, end) => var _ := ReservePort(a, d, start as U16, end as U16);
      case ReleasePortStep(d) => var _ := ReleasePort(d);
      case RegisterStep(r, d, container, port, containerPort) =>
        var _ := RegisterCandidate(r, d, container, port, containerPort, now);
      case ConsumeStep(a, d, port) => var _ := ConsumePortReservation(a, d, port);
      case PromoteInternalStep(r) => var _ := PromoteInternal(r, now);
      case PromotePublicStep(r, version) => var _ := PromotePublic(r, version, now);
      case RetireStep(r) => var _ := MarkRuntimeRemoved(r, now);
      case AbandonStep(r) => var _ := MarkStartingRuntimeMissing(r, now);
      case ReplaceContainerStep(r, expected, replacement) => var _ := ReconcileExternalRuntimeId(r, expected, replacement, now);
      case ObserveStep(r, observed) => var _ := PersistObservation(r, observed, now);
      case SetDesiredStep(a, desired) => var _ := SetDesiredState(a, desired);
      case ExposureStep(a, update) => var _ := UpdateExposure(a, update, now);
    }
  }
}
