/** Which table changes the declared constraints survive. */
module Constraints {
  import opened Wrappers
  import opened Identity
  import opened Deployment
  import opened Exposure
  import opened Schema
  import opened Statements

  predicate IsRunning(row: RuntimeRow) { row.state.Running? && IsLive(row) }

  predicate NoneRunning(runtimes: map<RuntimeId, RuntimeRow>, application: ApplicationId) {
    forall r :: r in runtimes && runtimes[r].applicationId == application ==> !IsRunning(runtimes[r])
  }

  // Rows keep their owner; rows may be added.
  predicate KeepsRuntimeOwners(runtimes: map<RuntimeId, RuntimeRow>, next: map<RuntimeId, RuntimeRow>) {
    forall r :: r in runtimes ==> r in next && next[r].applicationId == runtimes[r].applicationId
  }

  predicate KeepsDeploymentOwners(deployments: map<DeploymentId, DeploymentRow>, next: map<DeploymentId, DeploymentRow>) {
    forall d :: d in deployments ==> d in next && next[d].applicationId == deployments[d].applicationId
  }

  // Only two facts outside a runtime table depend on it: its own constraints and route owners.
  lemma RuntimesReplaced(db: Database, runtimes: map<RuntimeId, RuntimeRow>)
    requires SchemaHolds(db)
    requires KeepsRuntimeOwners(db.runtimes, runtimes) && RuntimesOk(runtimes, db.deployments)
    ensures SchemaHolds(db.(runtimes := runtimes))
  {
    RoutesFollowOwners(db.exposures, db.applications, db.runtimes, runtimes);
    hide ApplicationsOk, ReleasesOk, DeploymentsOk, RuntimesOk, ExposuresOk, ReservationsOk;
  }

  lemma RoutesFollowOwners(
    exposures: map<ApplicationId, ExposureRow>, applications: map<ApplicationId, ApplicationRow>,
    runtimes: map<RuntimeId, RuntimeRow>, next: map<RuntimeId, RuntimeRow>)
    requires ExposuresOk(exposures, applications, runtimes) && KeepsRuntimeOwners(runtimes, next)
    ensures ExposuresOk(exposures, applications, next)
  {
    hide OneOwnerPerPublicDomain, ExposureEvidenceOk;
  }

  lemma DeploymentsReplaced(db: Database, deployments: map<DeploymentId, DeploymentRow>)
    requires SchemaHolds(db)
    requires KeepsDeploymentOwners(db.deployments, deployments) && DeploymentsOk(deployments, db.applications, db.releases)
    ensures SchemaHolds(db.(deployments := deployments))
  {
    OwnersFollowDeployments(db, deployments);
    RuntimesFollowDeployments(db.runtimes, db.deployments, deployments);
    hide ApplicationsOk, ReleasesOk, DeploymentsOk, RuntimesOk, ExposuresOk, ReservationsOk;
  }

  lemma OwnersFollowDeployments(db: Database, deployments: map<DeploymentId, DeploymentRow>)
    requires ApplicationsOk(db.applications, db.deployments) && ReservationsOk(db.reservations, db.deployments)
    requires KeepsDeploymentOwners(db.deployments, deployments)
    ensures ApplicationsOk(db.applications, deployments) && ReservationsOk(db.reservations, deployments)
  {
  }

  lemma RuntimesFollowDeployments(
    runtimes: map<RuntimeId, RuntimeRow>, deployments: map<DeploymentId, DeploymentRow>, next: map<DeploymentId, DeploymentRow>)
    requires RuntimesOk(runtimes, deployments) && KeepsDeploymentOwners(deployments, next)
    ensures RuntimesOk(runtimes, next)
  {
    hide UniqueContainers, OneRunningPerApplication, OneLiveEndpoint;
  }

  lemma ApplicationsReplaced(db: Database, applications: map<ApplicationId, ApplicationRow>)
    requires SchemaHolds(db)
    requires db.applications.Keys <= applications.Keys && ApplicationsOk(applications, db.deployments)
    ensures SchemaHolds(db.(applications := applications))
  {
    TablesFollowApplications(db, applications);
    hide ApplicationsOk, ReleasesOk, DeploymentsOk, RuntimesOk, ExposuresOk, ReservationsOk;
  }

  lemma TablesFollowApplications(db: Database, applications: map<ApplicationId, ApplicationRow>)
    requires ReleasesOk(db.releases, db.applications) && DeploymentsOk(db.deployments, db.applications, db.releases)
    requires ExposuresOk(db.exposures, db.applications, db.runtimes)
    requires db.applications.Keys <= applications.Keys
    ensures ReleasesOk(db.releases, applications) && DeploymentsOk(db.deployments, applications, db.releases)
    ensures ExposuresOk(db.exposures, applications, db.runtimes)
  {
    hide OneOwnerPerPublicDomain, ExposureEvidenceOk, EvidenceOk, OneInProgress;
    assert forall a :: a in db.applications ==> a in applications;
  }

  // ---- the writes of a promotion ----

  lemma StoppingKeepsSchema(db: Database, application: ApplicationId, candidate: RuntimeId)
    requires SchemaHolds(db)
    ensures SchemaHolds(db.(runtimes := StoppedOthers(db.runtimes, application, candidate)))
  {
    StoppingKeepsRuntimes(db.runtimes, db.deployments, application, candidate);
    RuntimesReplaced(db, StoppedOthers(db.runtimes, application, candidate));
  }

  lemma StoppingKeepsRuntimes(
    runtimes: map<RuntimeId, RuntimeRow>, deployments: map<DeploymentId, DeploymentRow>,
    application: ApplicationId, candidate: RuntimeId)
    requires RuntimesOk(runtimes, deployments)
    ensures RuntimesOk(StoppedOthers(runtimes, application, candidate), deployments)
  {
  }

  lemma StartingKeepsSchema(db: Database, id: RuntimeId)
    requires SchemaHolds(db)
    requires id in db.runtimes && IsLive(db.runtimes[id]) && NoneRunning(db.runtimes, db.runtimes[id].applicationId)
    ensures SchemaHolds(db.(runtimes := db.runtimes[id := db.runtimes[id].(state := RuntimeState.Running)]))
  {
    StartingKeepsRuntimes(db.runtimes, db.deployments, id);
    RuntimesReplaced(db, db.runtimes[id := db.runtimes[id].(state := RuntimeState.Running)]);
  }

  lemma StartingKeepsRuntimes(
    runtimes: map<RuntimeId, RuntimeRow>, deployments: map<DeploymentId, DeploymentRow>, id: RuntimeId)
    requires RuntimesOk(runtimes, deployments)
    requires id in runtimes && IsLive(runtimes[id]) && NoneRunning(runtimes, runtimes[id].applicationId)
    ensures RuntimesOk(runtimes[id := runtimes[id].(state := RuntimeState.Running)], deployments)
  {
    hide IsContainerId, UniqueContainers, OneRunningPerApplication, OneLiveEndpoint, NoneRunning;
    StartingKeepsColumns(runtimes, id);
    StartingKeepsOneRunning(runtimes, id);
  }

  lemma StartingKeepsColumns(runtimes: map<RuntimeId, RuntimeRow>, id: RuntimeId)
    requires UniqueContainers(runtimes) && OneLiveEndpoint(runtimes) && id in runtimes
    ensures var next := runtimes[id := runtimes[id].(state := RuntimeState.Running)];
            UniqueContainers(next) && OneLiveEndpoint(next)
  {
  }

  lemma StartingKeepsOneRunning(runtimes: map<RuntimeId, RuntimeRow>, id: RuntimeId)
    requires OneRunningPerApplication(runtimes) && id in runtimes && NoneRunning(runtimes, runtimes[id].applicationId)
    ensures OneRunningPerApplication(runtimes[id := runtimes[id].(state := RuntimeState.Running)])
  {
    var next := runtimes[id := runtimes[id].(state := RuntimeState.Running)];
    assert forall r :: r in next && r != id && next[r].applicationId == next[id].applicationId ==> !IsRunning(next[r]);
  }

  lemma SucceedingKeepsSchema(db: Database, id: DeploymentId, now: Timestamp)
    requires SchemaHolds(db)
    requires id in db.deployments && db.deployments[id].status.IsNonterminal()
    ensures SchemaHolds(db.(deployments := db.deployments[id := SucceededRow(db.deployments[id], now)]))
  {
    SucceedingKeepsDeployments(db.deployments, db.applications, db.releases, id, now);
    hide DeploymentsOk;
    DeploymentsReplaced(db, db.deployments[id := SucceededRow(db.deployments[id], now)]);
  }

  lemma SucceedingKeepsDeployments(
    deployments: map<DeploymentId, DeploymentRow>, applications: map<ApplicationId, ApplicationRow>,
    releases: map<ReleaseId, ReleaseRow>, id: DeploymentId, now: Timestamp)
    requires DeploymentsOk(deployments, applications, releases)
    requires id in deployments && deployments[id].status.IsNonterminal()
    ensures DeploymentsOk(deployments[id := SucceededRow(deployments[id], now)], applications, releases)
  {
  }

  lemma ActivatingKeepsSchema(db: Database, application: ApplicationId, deployment: DeploymentId)
    requires SchemaHolds(db)
    requires application in db.applications && deployment in db.deployments && db.deployments[deployment].applicationId == application
    ensures SchemaHolds(db.(applications := db.applications[application :=
              db.applications[application].(active := Some(deployment), desired := DesiredState.Running)]))
  {
    ApplicationsReplaced(db, db.applications[application :=
      db.applications[application].(active := Some(deployment), desired := DesiredState.Running)]);
  }

  lemma CompletingKeepsSchema(
    db: Database, application: ApplicationId, runtime: RuntimeId, version: ConfigurationVersion, now: Timestamp)
    requires SchemaHolds(db)
    requires application in db.exposures && runtime in db.runtimes && db.runtimes[runtime].applicationId == application
    ensures SchemaHolds(db.(exposures := db.exposures[application :=
              UpdatedExposure(db.exposures[application], CompletePublicExposureChange(runtime, version), now)]))
  {
    CompletingKeepsExposures(db.exposures, db.applications, db.runtimes, application, runtime, version, now);
    hide ApplicationsOk, ReleasesOk, DeploymentsOk, RuntimesOk, ExposuresOk, ReservationsOk;
  }

  lemma CompletingKeepsExposures(
    exposures: map<ApplicationId, ExposureRow>, applications: map<ApplicationId, ApplicationRow>,
    runtimes: map<RuntimeId, RuntimeRow>, application: ApplicationId, runtime: RuntimeId, version: ConfigurationVersion, now: Timestamp)
    requires ExposuresOk(exposures, applications, runtimes)
    requires application in exposures && runtime in runtimes && runtimes[runtime].applicationId == application
    ensures ExposuresOk(exposures[application :=
              UpdatedExposure(exposures[application], CompletePublicExposureChange(runtime, version), now)], applications, runtimes)
  {
    hide LowerText;
  }

  // ---- what the constraints show about single rows ----

  predicate OwnersAgree(db: Database) {
    forall r :: r in db.runtimes ==>
      && db.runtimes[r].deploymentId in db.deployments
      && db.deployments[db.runtimes[r].deploymentId].applicationId == db.runtimes[r].applicationId
  }

  lemma SchemaShowsOwners(db: Database)
    requires SchemaHolds(db)
    ensures OwnersAgree(db)
  {
    hide ApplicationsOk, ReleasesOk, DeploymentsOk, ExposuresOk, ReservationsOk;
    hide UniqueContainers, OneRunningPerApplication, OneLiveEndpoint;
  }

  lemma SchemaShowsEvidence(db: Database, d: DeploymentId)
    requires SchemaHolds(db) && d in db.deployments
    ensures EvidenceOk(db.deployments[d])
    ensures db.deployments[d].applicationId in db.applications
  {
    hide ApplicationsOk, ReleasesOk, RuntimesOk, ExposuresOk, ReservationsOk, OneInProgress;
  }

  lemma SchemaShowsExposureEvidence(db: Database, a: ApplicationId)
    requires SchemaHolds(db) && a in db.exposures
    ensures ExposureEvidenceOk(db.exposures[a])
  {
    hide ApplicationsOk, ReleasesOk, DeploymentsOk, RuntimesOk, ReservationsOk, OneOwnerPerPublicDomain;
  }

  lemma SchemaShowsContainers(db: Database)
    requires SchemaHolds(db)
    ensures UniqueContainers(db.runtimes) && ReservationsOk(db.reservations, db.deployments)
  {
    hide ApplicationsOk, ReleasesOk, DeploymentsOk, ExposuresOk, ReservationsOk, UniqueContainers;
  }

  lemma RegisteringKeepsSchema(db: Database, r: RuntimeId, row: RuntimeRow)
    requires SchemaHolds(db) && r !in db.runtimes
    requires row.deploymentId in db.deployments && db.deployments[row.deploymentId].applicationId == row.applicationId
    requires IsContainerId(row.container) && row.state.Starting? && row.removedAt.None?
    requires forall x :: x in db.runtimes ==> db.runtimes[x].container != row.container
    requires forall x :: x in db.runtimes && IsLive(db.runtimes[x]) ==> db.runtimes[x].hostPort != row.hostPort
    ensures SchemaHolds(db.(runtimes := db.runtimes[r := row]))
  {
    hide ApplicationsOk, ReleasesOk, DeploymentsOk, ExposuresOk, ReservationsOk;
    RuntimesReplaced(db, db.runtimes[r := row]);
  }

  // ---- rows that leave ----

  lemma DroppingReservationsKeepsSchema(db: Database, reservations: map<Port, ReservationRow>)
    requires SchemaHolds(db)
    requires forall p :: p in reservations ==> p in db.reservations && reservations[p] == db.reservations[p]
    ensures SchemaHolds(db.(reservations := reservations))
  {
    hide ApplicationsOk, ReleasesOk, DeploymentsOk, RuntimesOk, ExposuresOk;
  }

  lemma RemovingKeepsTheTable(
    runtimes: map<RuntimeId, RuntimeRow>, deployments: map<DeploymentId, DeploymentRow>, r: RuntimeId, row: RuntimeRow)
    requires RuntimesOk(runtimes, deployments) && r in runtimes && IsLive(runtimes[r])
    requires row == runtimes[r].(observed := row.observed, observedAt := row.observedAt, removedAt := row.removedAt)
    requires row.removedAt.Some? && (row.state.Starting? || row.state.Stopped?)
    ensures RuntimesOk(runtimes[r := row], deployments)
  {
    hide IsContainerId;
  }

  lemma RemovingKeepsSchema(db: Database, r: RuntimeId, row: RuntimeRow)
    requires SchemaHolds(db) && r in db.runtimes && IsLive(db.runtimes[r])
    requires row == db.runtimes[r].(observed := row.observed, observedAt := row.observedAt, removedAt := row.removedAt)
    requires row.removedAt.Some? && (row.state.Starting? || row.state.Stopped?)
    ensures SchemaHolds(db.(runtimes := db.runtimes[r := row]))
  {
    hide ApplicationsOk, ReleasesOk, DeploymentsOk, RuntimesOk, ExposuresOk, ReservationsOk;
    RemovingKeepsTheTable(db.runtimes, db.deployments, r, row);
    RuntimesReplaced(db, db.runtimes[r := row]);
  }
}
