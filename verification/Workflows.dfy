/** The atomic steps the use cases compose from store statements, and runs of interleaved steps. */
module Workflows {
  import opened Wrappers
  import opened Identity
  import opened Deployment
  import opened Exposure
  import opened Schema
  import opened Statements

  // ---- catalog ----

  // One transaction: the application row and, only when it was inserted, its exposure row.
  function Import(db: Database, id: ApplicationId, name: string, intent: Intent): Database {
    var (withApplication, inserted) := InsertApplication(db, id, name);
    if !inserted.Updated? then db
    else
      var (next, exposed) := InsertExposure(withApplication, id, intent);
      if exposed.Updated? then next else db
  }

  function CreateRelease(db: Database, id: ReleaseId, application: ApplicationId, reference: string): Database {
    if application in db.applications then InsertRelease(db, id, application, reference).0 else db
  }

  // ---- deployment lifecycle ----

  datatype CreationError = ApplicationNotFound | ReleaseNotFound | InProgress | AlreadyActive | Persistence

  // The active deployment's release, while that deployment still has a live started runtime.
  predicate IsActiveLiveRelease(db: Database, application: ApplicationId, release: ReleaseId) {
    && application in db.applications && db.applications[application].active.Some?
    && var active := db.applications[application].active.value;
    && active in db.deployments && db.deployments[active].releaseId == release
    && exists r :: r in db.runtimes && db.runtimes[r].deploymentId == active && IsLive(db.runtimes[r])
                   && (db.runtimes[r].state.Running? || db.runtimes[r].state.Stopped?)
  }

  predicate HasWorkInProgress(db: Database, application: ApplicationId) {
    exists d :: d in db.deployments && db.deployments[d].applicationId == application && db.deployments[d].status.IsNonterminal()
  }

  function CreateDeployment(
    db: Database, id: DeploymentId, application: ApplicationId, release: ReleaseId, kind: DeploymentType)
    : (Database, Result<DeploymentId, CreationError>)
  {
    if application !in db.applications then (db, Err(ApplicationNotFound))
    else if release !in db.releases || db.releases[release].applicationId != application then (db, Err(ReleaseNotFound))
    else if HasWorkInProgress(db, application) then (db, Err(InProgress))
    else if kind.Deploy? && IsActiveLiveRelease(db, application, release) then (db, Err(AlreadyActive))
    else
      var (next, inserted) := InsertPending(db, id, application, release, kind);
      if inserted.Updated? then (next, Ok(id)) else (db, Err(CreationError.Persistence))
  }

  // Persists the transition of a status read earlier, which may have changed since.
  function AdvanceDeployment(
    db: Database, id: DeploymentId, read: DeploymentStatus, event: DeploymentEvent, now: Timestamp): Database
  {
    match read.Transition(event)
    case Some(next) => AdvanceStatus(db, id, read, next, now).0
    case None => db
  }

  function FailDeployment(
    db: Database, id: DeploymentId, code: FailureCode, message: string, now: Timestamp): (Database, bool)
  {
    if id !in db.deployments then (db, false)
    else
      var stage := db.deployments[id].status;
      if !stage.IsNonterminal() || !AreFailureDetails(stage, message) then (db, false)
      else
        var (next, failed) := MarkFailed(db, id, stage, code, message, now);
        if failed.Updated? then (next, true) else (db, false)
  }

  // ---- candidate registration ----

  datatype RegistrationError =
    InvalidContainer | ContainerConflict | DeploymentNotFound | NotStarting | EndpointConflict | Persistence

  predicate PortHeldByLiveRuntime(db: Database, port: Port) {
    exists r :: r in db.runtimes && IsLive(db.runtimes[r]) && db.runtimes[r].hostPort == port
  }

  function RegisterCandidate(
    db: Database, id: RuntimeId, deployment: DeploymentId, container: string, port: Port, containerPort: Port,
    now: Timestamp): (Database, Result<RuntimeId, RegistrationError>)
    requires UniqueContainers(db.runtimes)
  {
    if !IsContainerId(container) then (db, Err(InvalidContainer))
    else if exists r :: r in db.runtimes && db.runtimes[r].container == container then
      var existing :| existing in db.runtimes && db.runtimes[existing].container == container;
      var row := db.runtimes[existing];
      if row.deploymentId == deployment && row.hostPort == port && row.containerPort == containerPort
      then (db, Ok(existing))
      else (db, Err(ContainerConflict))
    else if deployment !in db.deployments then (db, Err(DeploymentNotFound))
    else if !db.deployments[deployment].status.Starting? then (db, Err(RegistrationError.NotStarting))
    else if PortHeldByLiveRuntime(db, port) then (db, Err(EndpointConflict))
    else
      var (next, inserted) := InsertRuntime(
        db, id, db.deployments[deployment].applicationId, deployment, container, port, containerPort, now);
      if inserted.Updated? then (next, Ok(id)) else (db, Err(RegistrationError.Persistence))
  }

  // ---- port reservation ----

  predicate IsFree(db: Database, port: Port) {
    port !in db.reservations && !PortHeldByLiveRuntime(db, port)
  }

  // The least free port from `from` to `end`, both included.
  function FirstFree(db: Database, from: nat, end: Port): (port: Option<Port>)
    requires 1 <= from
    decreases end + 1 - from
  {
    if from > end then None
    else if IsFree(db, from) then Some(from)
    else FirstFree(db, from + 1, end)
  }

  predicate HoldsReservation(db: Database, port: Port, deployment: DeploymentId) {
    port in db.reservations && db.reservations[port].deploymentId == deployment
  }

  datatype ReservationError = Exhausted(start: Port, end: Port) | Persistence

  function ReservePort(
    db: Database, application: ApplicationId, deployment: DeploymentId, start: Port, end: Port)
    : (Database, Result<Port, ReservationError>)
    requires ReservationsOk(db.reservations, db.deployments)
  {
    if exists p :: HoldsReservation(db, p, deployment) then
      var existing :| HoldsReservation(db, existing, deployment);
      (db, Ok(existing))
    else match FirstFree(db, start, end)
      case None => (db, Err(Exhausted(start, end)))
      case Some(port) =>
        var (next, inserted) := InsertReservation(db, port, application, deployment);
        if inserted.Updated? then (next, Ok(port)) else (db, Err(ReservationError.Persistence))
  }

  // ---- promotion ----

  datatype PromotionError =
    | RuntimeNotFound
    | NotPromotable(rejection: CandidateRejection)
    | NotReady(status: DeploymentStatus)
    | WrongExposure
    | ChangedDuringPromotion
    | Persistence

  // The joined facts of one runtime, its deployment and its application's exposure.
  function LoadPromotionTarget(db: Database, runtime: RuntimeId): Option<PromotionTarget> {
    if runtime !in db.runtimes then None
    else
      var row := db.runtimes[runtime];
      if row.deploymentId !in db.deployments || row.applicationId !in db.exposures then None
      else
        var deployment, exposure := db.deployments[row.deploymentId], db.exposures[row.applicationId];
        Some(PromotionTarget(
          runtime, row.applicationId, row.deploymentId, row.hostPort, row.state, row.observed, row.removedAt,
          deployment.status, deployment.finishedAt, exposure.visibility, exposure.domain))
  }

  // A write inside a promotion must change its row; anything else abandons the transaction.
  function Wrote(outcome: (Database, Write)): Result<Database, PromotionError> {
    match outcome.1
    case Updated => Ok(outcome.0)
    case Stale => Err(ChangedDuringPromotion)
    case Violated => Err(PromotionError.Persistence)
  }

  function Obstacle(target: PromotionTarget, required: Visibility): Option<PromotionError> {
    match target.Rejection()
    case Some(rejection) => Some(NotPromotable(rejection))
    case None =>
      if target.status.Transition(Activated).None? then Some(NotReady(target.status))
      else if target.visibility != required || (required.Public? && target.domain.None?) then Some(WrongExposure)
      else None
  }

  function LoadFinishedAt(db: Database, id: DeploymentId): Result<Timestamp, PromotionError> {
    if id in db.deployments && db.deployments[id].finishedAt.Some? then Ok(db.deployments[id].finishedAt.value)
    else Err(PromotionError.Persistence)
  }

  function InternalWrites(db: Database, target: PromotionTarget, now: Timestamp): Result<Database, PromotionError> {
    var stopped :- Wrote(StopOtherRunningRuntimes(db, target.applicationId, target.runtimeId));
    var started :- Wrote(StartRuntime(stopped, target.runtimeId));
    var succeeded :- Wrote(MarkSucceeded(started, target.deploymentId, target.status, now));
    Wrote(ActivateDeployment(succeeded, target.applicationId, target.deploymentId))
  }

  function PublicWrites(
    db: Database, target: PromotionTarget, version: ConfigurationVersion, now: Timestamp): Result<Database, PromotionError>
  {
    var stopped :- Wrote(StopOtherRunningRuntimes(db, target.applicationId, target.runtimeId));
    var started :- Wrote(StartRuntime(stopped, target.runtimeId));
    var exposed :- Wrote(UpdateExposure(
      started, target.applicationId, CompletePublicExposureChange(target.runtimeId, version), now));
    var succeeded :- Wrote(MarkSucceeded(exposed, target.deploymentId, target.status, now));
    Wrote(ActivateDeployment(succeeded, target.applicationId, target.deploymentId))
  }

  // Commits the written database together with its evidence, or nothing at all.
  function Commit(db: Database, target: PromotionTarget, written: Result<Database, PromotionError>)
    : (Database, Result<PromotedCandidate, PromotionError>)
  {
    match written
    case Err(error) => (db, Err(error))
    case Ok(next) =>
      match LoadFinishedAt(next, target.deploymentId)
      case Err(error) => (db, Err(error))
      case Ok(finished) => (next, Ok(PromotedCandidate(target.runtimeId, target.deploymentId, finished)))
  }

  function PromoteInternal(db: Database, runtime: RuntimeId, now: Timestamp)
    : (Database, Result<PromotedCandidate, PromotionError>)
  {
    match LoadPromotionTarget(db, runtime)
    case None => (db, Err(RuntimeNotFound))
    case Some(target) =>
      match target.CompletedPromotion()
      case Some(promoted) => (db, Ok(promoted))
      case None =>
        match Obstacle(target, Visibility.Internal)
        case Some(error) => (db, Err(error))
        case None => Commit(db, target, InternalWrites(db, target, now))
  }

  // Unlike the internal path, a repeated public promotion is rejected rather than confirmed.
  function PromotePublic(db: Database, runtime: RuntimeId, version: ConfigurationVersion, now: Timestamp)
    : (Database, Result<PromotedCandidate, PromotionError>)
  {
    match LoadPromotionTarget(db, runtime)
    case None => (db, Err(RuntimeNotFound))
    case Some(target) =>
      match Obstacle(target, Visibility.Public)
      case Some(error) => (db, Err(error))
      case None => Commit(db, target, PublicWrites(db, target, version, now))
  }

  // ---- runs ----

  // One atomic step of some process. Statuses, ports and containers a process read earlier are
  // parameters, so a run may interleave any processes over any applications.
  datatype Step =
    | ImportStep(application: ApplicationId, name: string, intent: Intent)
    | CreateReleaseStep(release: ReleaseId, application: ApplicationId, reference: string)
    | CreateDeploymentStep(deployment: DeploymentId, application: ApplicationId, release: ReleaseId, kind: DeploymentType)
    | AdvanceStep(deployment: DeploymentId, read: DeploymentStatus, event: DeploymentEvent)
    | FailStep(deployment: DeploymentId, code: FailureCode, message: string)
    | ReserveStep(application: ApplicationId, deployment: DeploymentId, start: Port, end: Port)
    | ReleasePortStep(deployment: DeploymentId)
    | RegisterStep(runtime: RuntimeId, deployment: DeploymentId, container: string, port: Port, containerPort: Port)
    | ConsumeStep(application: ApplicationId, deployment: DeploymentId, port: Port)
    | PromoteInternalStep(runtime: RuntimeId)
    | PromotePublicStep(runtime: RuntimeId, version: ConfigurationVersion)
    | RetireStep(runtime: RuntimeId)
    | AbandonStep(runtime: RuntimeId)
    | ReplaceContainerStep(runtime: RuntimeId, expected: string, replacement: string)
    | ObserveStep(runtime: RuntimeId, observed: ObservedState)
    | SetDesiredStep(application: ApplicationId, desired: DesiredState)
    | ExposureStep(application: ApplicationId, update: ExposureUpdate)

  function Apply(db: Database, step: Step, now: Timestamp): Database
    requires SchemaHolds(db)
  {
    match step
    case ImportStep(a, name, intent) => Import(db, a, name, intent)
    case CreateReleaseStep(r, a, reference) => CreateRelease(db, r, a, reference)
    case CreateDeploymentStep(d, a, r, kind) => CreateDeployment(db, d, a, r, kind).0
    case AdvanceStep(d, read, event) => AdvanceDeployment(db, d, read, event, now)
    case FailStep(d, code, message) => FailDeployment(db, d, code, message, now).0
    case ReserveStep(a, d, start, end) => ReservePort(db, a, d, start, end).0
    case ReleasePortStep(d) => ReleasePort(db, d).0
    case RegisterStep(r, d, container, port, containerPort) =>
      RegisterCandidate(db, r, d, container, port, containerPort, now).0
    case ConsumeStep(a, d, port) => ConsumePortReservation(db, a, d, port).0
    case PromoteInternalStep(r) => PromoteInternal(db, r, now).0
    case PromotePublicStep(r, version) => PromotePublic(db, r, version, now).0
    case RetireStep(r) => MarkRuntimeRemoved(db, r, now).0
    case AbandonStep(r) => MarkStartingRuntimeMissing(db, r, now).0
    case ReplaceContainerStep(r, expected, replacement) => ReconcileExternalRuntimeId(db, r, expected, replacement, now).0
    case ObserveStep(r, observed) => PersistObservation(db, r, observed, now).0
    case SetDesiredStep(a, desired) => SetDesiredState(db, a, desired).0
    case ExposureStep(a, update) => UpdateExposure(db, a, update, now).0
  }
}
