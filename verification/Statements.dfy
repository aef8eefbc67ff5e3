/** What every store statement does to the database: its guard, its new rows, its rejection. */
module Statements {
  import opened Wrappers
  import opened Identity
  import opened Deployment
  import opened Exposure
  import opened Schema

  // `Updated` means exactly one row was written, `Stale` that the guard matched none, and
  // `Violated` that a constraint refused the statement; only `Updated` changes anything.
  datatype Write = Updated | Stale | Violated

  function Checked(db: Database, next: Database): (Database, Write) {
    if SchemaHolds(next) then (next, Updated) else (db, Violated)
  }

  // ---- applications ----

  function InsertApplication(db: Database, id: ApplicationId, name: string): (Database, Write) {
    if exists a :: a in db.applications && db.applications[a].name == name then (db, Stale)
    else if id in db.applications then (db, Violated)
    else Checked(db, db.(applications := db.applications[id := ApplicationRow(name, DesiredState.Stopped, None)]))
  }

  function SetDesiredState(db: Database, id: ApplicationId, desired: DesiredState): (Database, Write) {
    if id !in db.applications then (db, Stale)
    else Checked(db, db.(applications := db.applications[id := db.applications[id].(desired := desired)]))
  }

  // Activates only a succeeded deployment of the same application.
  function ActivateDeployment(db: Database, id: ApplicationId, deployment: DeploymentId): (Database, Write) {
    if && id in db.applications && deployment in db.deployments
       && db.deployments[deployment].applicationId == id && db.deployments[deployment].status.Succeeded?
    then
      Checked(db, db.(applications := db.applications[id :=
        db.applications[id].(active := Some(deployment), desired := DesiredState.Running)]))
    else (db, Stale)
  }

  // ---- releases ----

  function InsertRelease(db: Database, id: ReleaseId, application: ApplicationId, reference: string): (Database, Write) {
    if exists r :: r in db.releases && db.releases[r] == ReleaseRow(application, reference) then (db, Stale)
    else if id in db.releases then (db, Violated)
    else Checked(db, db.(releases := db.releases[id := ReleaseRow(application, reference)]))
  }

  // ---- deployments ----

  function InsertPending(
    db: Database, id: DeploymentId, application: ApplicationId, release: ReleaseId, kind: DeploymentType): (Database, Write)
  {
    if id in db.deployments then (db, Violated)
    else Checked(db, db.(deployments := db.deployments[id :=
      DeploymentRow(application, release, kind, DeploymentStatus.Pending, None, None, None, None, None)]))
  }

  function AdvancedRow(row: DeploymentRow, next: DeploymentStatus, now: Timestamp): DeploymentRow {
    row.(status := next, startedAt := if row.status.Pending? then Some(now) else row.startedAt)
  }

  function AdvanceStatus(
    db: Database, id: DeploymentId, expected: DeploymentStatus, next: DeploymentStatus, now: Timestamp): (Database, Write)
  {
    if id in db.deployments && db.deployments[id].status == expected then
      Checked(db, db.(deployments := db.deployments[id := AdvancedRow(db.deployments[id], next, now)]))
    else (db, Stale)
  }

  function FailedRow(row: DeploymentRow, stage: DeploymentStatus, code: FailureCode, message: string, now: Timestamp): DeploymentRow {
    row.(status := DeploymentStatus.Failed, finishedAt := Some(now), code := Some(code), stage := Some(stage), message := Some(message))
  }

  function MarkFailed(
    db: Database, id: DeploymentId, stage: DeploymentStatus, code: FailureCode, message: string, now: Timestamp): (Database, Write)
  {
    if id in db.deployments && db.deployments[id].status == stage then
      Checked(db, db.(deployments := db.deployments[id := FailedRow(db.deployments[id], stage, code, message, now)]))
    else (db, Stale)
  }

  function SucceededRow(row: DeploymentRow, now: Timestamp): DeploymentRow {
    row.(status := DeploymentStatus.Succeeded, finishedAt := Some(now))
  }

  function MarkSucceeded(db: Database, id: DeploymentId, expected: DeploymentStatus, now: Timestamp): (Database, Write) {
    if id in db.deployments && db.deployments[id].status == expected then
      Checked(db, db.(deployments := db.deployments[id := SucceededRow(db.deployments[id], now)]))
    else (db, Stale)
  }

  // ---- runtimes ----

  function InsertRuntime(
    db: Database, id: RuntimeId, application: ApplicationId, deployment: DeploymentId, container: string,
    hostPort: Port, containerPort: Port, now: Timestamp): (Database, Write)
  {
    if id in db.runtimes then (db, Violated)
    else Checked(db, db.(runtimes := db.runtimes[id :=
      RuntimeRow(application, deployment, container, RuntimeState.Starting, hostPort, containerPort,
                 ObservedState.Running, now, None)]))
  }

  function ReconcileExternalRuntimeId(
    db: Database, id: RuntimeId, expected: string, replacement: string, now: Timestamp): (Database, Write)
  {
    if id in db.runtimes && db.runtimes[id].container == expected && IsLive(db.runtimes[id]) then
      Checked(db, db.(runtimes := db.runtimes[id := db.runtimes[id].(
        container := replacement, observed := ObservedState.Running, observedAt := now)]))
    else (db, Stale)
  }

  // Unknown external states persist as the one word `unknown`.
  function PersistedObservation(observed: ObservedState): ObservedState {
    if observed.Unknown? then ObservedState.Unknown("unknown") else observed
  }

  function PersistObservation(db: Database, id: RuntimeId, observed: ObservedState, now: Timestamp): (Database, Write) {
    if id in db.runtimes && IsLive(db.runtimes[id]) then
      Checked(db, db.(runtimes := db.runtimes[id := db.runtimes[id].(
        observed := PersistedObservation(observed), observedAt := now)]))
    else (db, Stale)
  }

  function StartRuntime(db: Database, id: RuntimeId): (Database, Write) {
    if id in db.runtimes && db.runtimes[id].state.Starting? && IsLive(db.runtimes[id]) then
      Checked(db, db.(runtimes := db.runtimes[id := db.runtimes[id].(state := RuntimeState.Running)]))
    else (db, Stale)
  }

  predicate IsOtherRunning(row: RuntimeRow, id: RuntimeId, application: ApplicationId, candidate: RuntimeId) {
    row.applicationId == application && row.state.Running? && IsLive(row) && id != candidate
  }

  function StoppedOthers(
    runtimes: map<RuntimeId, RuntimeRow>, application: ApplicationId, candidate: RuntimeId): map<RuntimeId, RuntimeRow>
  {
    map r | r in runtimes ::
      if IsOtherRunning(runtimes[r], r, application, candidate) then runtimes[r].(state := RuntimeState.Stopped)
      else runtimes[r]
  }

  function StopOtherRunningRuntimes(db: Database, application: ApplicationId, candidate: RuntimeId): (Database, Write) {
    Checked(db, db.(runtimes := StoppedOthers(db.runtimes, application, candidate)))
  }

  function MarkRuntimeRemoved(db: Database, id: RuntimeId, now: Timestamp): (Database, Write) {
    if id in db.runtimes && db.runtimes[id].state.Stopped? && IsLive(db.runtimes[id]) then
      Checked(db, db.(runtimes := db.runtimes[id := db.runtimes[id].(removedAt := Some(now))]))
    else (db, Stale)
  }

  function MarkStartingRuntimeMissing(db: Database, id: RuntimeId, now: Timestamp): (Database, Write) {
    if id in db.runtimes && db.runtimes[id].state.Starting? && IsLive(db.runtimes[id]) then
      Checked(db, db.(runtimes := db.runtimes[id := db.runtimes[id].(
        observed := ObservedState.Missing, observedAt := now, removedAt := Some(now))]))
    else (db, Stale)
  }

  // ---- port reservations ----

  function InsertReservation(db: Database, port: Port, application: ApplicationId, deployment: DeploymentId): (Database, Write) {
    if port in db.reservations then (db, Violated)
    else Checked(db, db.(reservations := db.reservations[port := ReservationRow(application, deployment)]))
  }

  function ReleasedReservations(reservations: map<Port, ReservationRow>, deployment: DeploymentId): map<Port, ReservationRow> {
    map p | p in reservations && reservations[p].deploymentId != deployment :: reservations[p]
  }

  function ReleasePort(db: Database, deployment: DeploymentId): (Database, Write) {
    Checked(db, db.(reservations := ReleasedReservations(db.reservations, deployment)))
  }

  function ConsumePortReservation(
    db: Database, application: ApplicationId, deployment: DeploymentId, port: Port): (Database, Write)
  {
    if port in db.reservations && db.reservations[port] == ReservationRow(application, deployment) then
      Checked(db, db.(reservations := db.reservations - {port}))
    else (db, Stale)
  }

  // ---- exposures ----

  function InsertExposure(db: Database, application: ApplicationId, intent: Intent): (Database, Write) {
    if application in db.exposures then (db, Violated)
    else
      var domain := if intent.Internal? then intent.optionalDomain else Some(intent.domain);
      Checked(db, db.(exposures := db.exposures[application := ExposureRow(
        intent.DesiredVisibility(), domain, MaterializationState.NotMaterialized, None, None, None, None, None)]))
  }

  // The guarded exposure updates, one constructor per store function.
  datatype ExposureUpdate =
    | BeginExposureChange(expected: Visibility, desired: Visibility)
    | CompletePublicExposureChange(runtime: RuntimeId, version: ConfigurationVersion)
    | CompleteInternalExposureChange
    | RecordExposureChangeFailure(visibility: Visibility, outcome: ExposureOutcome, diagnostic: ExposureDiagnostic)
    | BeginPublicExposure
    | BeginPublicExposureReconciliation(expectedState: MaterializationState)
    | BeginInternalExposureReconciliation(expectedState: MaterializationState)
    | RecordReconciliationExposureFailure(
        visibility: Visibility, expectedState: MaterializationState, outcome: ExposureOutcome, diagnostic: ExposureDiagnostic)
    | RecordPublicExposureFailure(outcome: ExposureOutcome, diagnostic: ExposureDiagnostic)

  predicate ExposureGuard(row: ExposureRow, update: ExposureUpdate) {
    match update
    case BeginExposureChange(expected, _) => row.visibility == expected
    case CompletePublicExposureChange(_, _) => row.visibility.Public? && row.state.Applying?
    case CompleteInternalExposureChange => row.visibility.Internal? && row.state.Removing?
    case RecordExposureChangeFailure(visibility, _, _) => row.visibility == visibility
    case BeginPublicExposure => row.visibility.Public?
    case BeginPublicExposureReconciliation(expected) => row.visibility.Public? && row.state == expected
    case BeginInternalExposureReconciliation(expected) => row.visibility.Internal? && row.state == expected
    case RecordReconciliationExposureFailure(visibility, expected, _, _) => row.visibility == visibility && row.state == expected
    case RecordPublicExposureFailure(_, _) => row.visibility.Public?
  }

  function InProgressRow(row: ExposureRow, state: MaterializationState): ExposureRow {
    row.(state := state, errorCode := None, errorMessage := None)
  }

  function FailureRow(row: ExposureRow, outcome: ExposureOutcome, diagnostic: ExposureDiagnostic): ExposureRow {
    row.(state := outcome.State(), errorCode := Some(diagnostic.code), errorMessage := Some(diagnostic.message))
  }

  function UpdatedExposure(row: ExposureRow, update: ExposureUpdate, now: Timestamp): ExposureRow {
    match update
    case BeginExposureChange(_, desired) =>
      InProgressRow(row.(visibility := desired),
                    if desired.Public? then MaterializationState.Applying else MaterializationState.Removing)
    case CompletePublicExposureChange(runtime, version) =>
      InProgressRow(row, MaterializationState.Active).(
        activeRuntime := Some(runtime), version := Some(version), materializedAt := Some(now))
    case CompleteInternalExposureChange =>
      InProgressRow(row, MaterializationState.NotMaterialized).(
        activeRuntime := None, version := None, materializedAt := None)
    case RecordExposureChangeFailure(_, outcome, diagnostic) => FailureRow(row, outcome, diagnostic)
    case BeginPublicExposure => InProgressRow(row, MaterializationState.Applying)
    case BeginPublicExposureReconciliation(_) => InProgressRow(row, MaterializationState.Applying)
    case BeginInternalExposureReconciliation(_) => InProgressRow(row, MaterializationState.Removing)
    case RecordReconciliationExposureFailure(_, _, outcome, diagnostic) => FailureRow(row, outcome, diagnostic)
    case RecordPublicExposureFailure(outcome, diagnostic) => FailureRow(row, outcome, diagnostic)
  }

  function UpdateExposure(db: Database, application: ApplicationId, update: ExposureUpdate, now: Timestamp): (Database, Write) {
    if application in db.exposures && ExposureGuard(db.exposures[application], update) then
      Checked(db, db.(exposures := db.exposures[application := UpdatedExposure(db.exposures[application], update, now)]))
    else (db, Stale)
  }
}
