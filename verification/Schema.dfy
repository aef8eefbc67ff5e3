/** The persisted rows and every constraint the baseline migration declares over them. */
module Schema {
  import opened Wrappers
  import opened Identity
  import opened Release
  import opened Deployment
  import opened Exposure

  datatype DesiredState = Running | Stopped

  datatype ApplicationRow = ApplicationRow(name: string, desired: DesiredState, active: Option<DeploymentId>)

  datatype ReleaseRow = ReleaseRow(applicationId: ApplicationId, reference: string)

  datatype DeploymentRow = DeploymentRow(
    applicationId: ApplicationId, releaseId: ReleaseId, kind: DeploymentType, status: DeploymentStatus,
    startedAt: Option<Timestamp>, finishedAt: Option<Timestamp>,
    code: Option<FailureCode>, stage: Option<DeploymentStatus>, message: Option<string>)

  datatype RuntimeRow = RuntimeRow(
    applicationId: ApplicationId, deploymentId: DeploymentId, container: string, state: RuntimeState,
    hostPort: Port, containerPort: Port, observed: ObservedState, observedAt: Timestamp,
    removedAt: Option<Timestamp>)

  datatype ExposureRow = ExposureRow(
    visibility: Visibility, domain: Option<string>, state: MaterializationState,
    activeRuntime: Option<RuntimeId>, version: Option<string>, materializedAt: Option<Timestamp>,
    errorCode: Option<string>, errorMessage: Option<string>)

  datatype ReservationRow = ReservationRow(applicationId: ApplicationId, deploymentId: DeploymentId)

  datatype Database = Database(
    applications: map<ApplicationId, ApplicationRow>,
    releases: map<ReleaseId, ReleaseRow>,
    deployments: map<DeploymentId, DeploymentRow>,
    runtimes: map<RuntimeId, RuntimeRow>,
    exposures: map<ApplicationId, ExposureRow>,
    reservations: map<Port, ReservationRow>)

  // Unique names; an active deployment belongs to its application.
  predicate ApplicationsOk(applications: map<ApplicationId, ApplicationRow>, deployments: map<DeploymentId, DeploymentRow>) {
    && (forall a, b :: a in applications && b in applications && applications[a].name == applications[b].name ==> a == b)
    && (forall a :: a in applications && applications[a].active.Some? ==>
          applications[a].active.value in deployments && deployments[applications[a].active.value].applicationId == a)
  }

  predicate ReleasesOk(releases: map<ReleaseId, ReleaseRow>, applications: map<ApplicationId, ApplicationRow>) {
    && (forall r :: r in releases ==> releases[r].applicationId in applications)
    && (forall r, s :: r in releases && s in releases && releases[r] == releases[s] ==> r == s)
  }

  // The terminal evidence matrix of one deployment row.
  predicate EvidenceOk(row: DeploymentRow) {
    && (row.stage.Some? ==> row.stage.value.IsNonterminal())
    && match row.status
       case Succeeded => row.finishedAt.Some? && row.code.None? && row.stage.None? && row.message.None?
       case Failed => row.finishedAt.Some? && row.code.Some? && row.stage.Some? && row.message.Some?
       case _ => row.finishedAt.None? && row.code.None? && row.stage.None? && row.message.None?
  }

  predicate OneInProgress(deployments: map<DeploymentId, DeploymentRow>) {
    forall d, e :: (
      && d in deployments && e in deployments && deployments[d].applicationId == deployments[e].applicationId
      && deployments[d].status.IsNonterminal() && deployments[e].status.IsNonterminal()) ==> d == e
  }

  predicate DeploymentsOk(
    deployments: map<DeploymentId, DeploymentRow>, applications: map<ApplicationId, ApplicationRow>,
    releases: map<ReleaseId, ReleaseRow>)
  {
    && (forall d :: d in deployments ==>
          && deployments[d].applicationId in applications
          && deployments[d].releaseId in releases
          && releases[deployments[d].releaseId].applicationId == deployments[d].applicationId
          && EvidenceOk(deployments[d]))
    && OneInProgress(deployments)
  }

  predicate IsLive(row: RuntimeRow) { row.removedAt.None? }

  predicate OneRunningPerApplication(runtimes: map<RuntimeId, RuntimeRow>) {
    forall r, s :: (
      && r in runtimes && s in runtimes && runtimes[r].applicationId == runtimes[s].applicationId
      && runtimes[r].state.Running? && runtimes[s].state.Running?
      && IsLive(runtimes[r]) && IsLive(runtimes[s])) ==> r == s
  }

  predicate OneLiveEndpoint(runtimes: map<RuntimeId, RuntimeRow>) {
    forall r, s :: (
      && r in runtimes && s in runtimes && runtimes[r].hostPort == runtimes[s].hostPort
      && IsLive(runtimes[r]) && IsLive(runtimes[s])) ==> r == s
  }

  predicate UniqueContainers(runtimes: map<RuntimeId, RuntimeRow>) {
    forall r, s :: r in runtimes && s in runtimes && runtimes[r].container == runtimes[s].container ==> r == s
  }

  predicate RuntimesOk(runtimes: map<RuntimeId, RuntimeRow>, deployments: map<DeploymentId, DeploymentRow>) {
    && (forall r :: r in runtimes ==>
          && runtimes[r].deploymentId in deployments
          && deployments[runtimes[r].deploymentId].applicationId == runtimes[r].applicationId
          && IsContainerId(runtimes[r].container)
          && (runtimes[r].removedAt.Some? ==> runtimes[r].state.Starting? || runtimes[r].state.Stopped?))
    && UniqueContainers(runtimes) && OneRunningPerApplication(runtimes) && OneLiveEndpoint(runtimes)
  }

  function LowerText(text: string): string { seq(|text|, i requires 0 <= i < |text| => Lower(text[i])) }

  predicate OneOwnerPerPublicDomain(exposures: map<ApplicationId, ExposureRow>) {
    forall a, b :: (
      && a in exposures && b in exposures
      && exposures[a].visibility.Public? && exposures[b].visibility.Public?
      && exposures[a].domain.Some? && exposures[b].domain.Some?
      && LowerText(exposures[a].domain.value) == LowerText(exposures[b].domain.value)) ==> a == b
  }

  // A public row has a domain; its three route columns come together, and so do its two error columns.
  predicate ExposureEvidenceOk(row: ExposureRow) {
    && (row.visibility.Public? ==> row.domain.Some?)
    && (row.activeRuntime.Some? <==> row.version.Some?)
    && (row.activeRuntime.Some? <==> row.materializedAt.Some?)
    && (row.errorCode.Some? <==> row.errorMessage.Some?)
  }

  predicate ExposuresOk(
    exposures: map<ApplicationId, ExposureRow>, applications: map<ApplicationId, ApplicationRow>,
    runtimes: map<RuntimeId, RuntimeRow>)
  {
    && (forall a :: a in exposures ==>
          && a in applications
          && ExposureEvidenceOk(exposures[a])
          && (exposures[a].activeRuntime.Some? ==>
                && exposures[a].activeRuntime.value in runtimes
                && runtimes[exposures[a].activeRuntime.value].applicationId == a))
    && OneOwnerPerPublicDomain(exposures)
  }

  // One reservation per deployment (ports are the primary key), owned with its application.
  predicate ReservationsOk(reservations: map<Port, ReservationRow>, deployments: map<DeploymentId, DeploymentRow>) {
    && (forall p :: p in reservations ==>
          && reservations[p].deploymentId in deployments
          && deployments[reservations[p].deploymentId].applicationId == reservations[p].applicationId)
    && (forall p, q ::
          (p in reservations && q in reservations && reservations[p].deploymentId == reservations[q].deploymentId)
          ==> p == q)
  }

  predicate SchemaHolds(db: Database) {
    && ApplicationsOk(db.applications, db.deployments)
    && ReleasesOk(db.releases, db.applications)
    && DeploymentsOk(db.deployments, db.applications, db.releases)
    && RuntimesOk(db.runtimes, db.deployments)
    && ExposuresOk(db.exposures, db.applications, db.runtimes)
    && ReservationsOk(db.reservations, db.deployments)
  }
}
