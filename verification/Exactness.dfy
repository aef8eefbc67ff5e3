/** Exactly when each remaining step commits, and every row it then changes. */
module Exactness {
  import opened Wrappers
  import opened Identity
  import opened Release
  import opened Deployment
  import opened Exposure
  import opened Schema
  import opened Statements
  import opened Workflows
  import opened Hydration
  import opened Constraints
  import opened Invariants
  import opened Runs

  // ---- import ----

  function DomainOf(intent: Intent): Option<string> {
    match intent
    case Internal(domain) => domain
    case Public(domain) => Some(domain)
  }

  // Another application already publishes this domain, compared without ASCII case.
  predicate IsTaken(exposures: map<ApplicationId, ExposureRow>, a: ApplicationId, domain: string) {
    exists b :: b in exposures && b != a && exposures[b].visibility.Public? && exposures[b].domain.Some?
                && LowerText(exposures[b].domain.value) == LowerText(domain)
  }

  predicate CanImport(db: Database, id: ApplicationId, name: string, intent: Intent) {
    && id !in db.applications
    && (forall a :: a in db.applications ==> db.applications[a].name != name)
    && (intent.Public? ==> !IsTaken(db.exposures, id, intent.domain))
  }

  lemma ImportedCatalogHolds(db: Database, id: ApplicationId, name: string)
    requires SchemaHolds(db) && id !in db.applications
    requires forall a :: a in db.applications ==> db.applications[a].name != name
    ensures SchemaHolds(db.(applications := db.applications[id := ApplicationRow(name, DesiredState.Stopped, None)]))
  {
    hide ReleasesOk, DeploymentsOk, RuntimesOk, ExposuresOk, ReservationsOk;
    ApplicationsReplaced(db, db.applications[id := ApplicationRow(name, DesiredState.Stopped, None)]);
  }

  // An exposure table with one row written keeps its constraints exactly when the row is
  // complete, routes to its own runtime and publishes no domain somebody else publishes.
  lemma ExposureWritten(db: Database, a: ApplicationId, row: ExposureRow)
    requires SchemaHolds(db) && a in db.applications
    ensures SchemaHolds(db.(exposures := db.exposures[a := row])) <==>
              && ExposureEvidenceOk(row)
              && (row.activeRuntime.Some? ==>
                    row.activeRuntime.value in db.runtimes && db.runtimes[row.activeRuntime.value].applicationId == a)
              && (row.visibility.Public? && row.domain.Some? ==> !IsTaken(db.exposures, a, row.domain.value))
  {
    hide ApplicationsOk, ReleasesOk, DeploymentsOk, RuntimesOk, ExposuresOk, ReservationsOk, ExposureEvidenceOk, IsTaken;
    ExposureTableWritten(db.exposures, db.applications, db.runtimes, a, row);
  }

  lemma ExposureTableWritten(
    exposures: map<ApplicationId, ExposureRow>, applications: map<ApplicationId, ApplicationRow>,
    runtimes: map<RuntimeId, RuntimeRow>, a: ApplicationId, row: ExposureRow)
    requires ExposuresOk(exposures, applications, runtimes) && a in applications
    ensures ExposuresOk(exposures[a := row], applications, runtimes) <==>
              && ExposureEvidenceOk(row)
              && (row.activeRuntime.Some? ==>
                    row.activeRuntime.value in runtimes && runtimes[row.activeRuntime.value].applicationId == a)
              && (row.visibility.Public? && row.domain.Some? ==> !IsTaken(exposures, a, row.domain.value))
  {
    hide LowerText, ExposureEvidenceOk;
    var next := exposures[a := row];
    assert a in next && next[a] == row;
    OneOwnerWritten(exposures, a, row);
    hide OneOwnerPerPublicDomain, IsTaken;
    assert forall b :: b in exposures && b != a ==> b in next && next[b] == exposures[b];
  }

  lemma OneOwnerWritten(exposures: map<ApplicationId, ExposureRow>, a: ApplicationId, row: ExposureRow)
    requires OneOwnerPerPublicDomain(exposures)
    ensures OneOwnerPerPublicDomain(exposures[a := row]) <==>
              (row.visibility.Public? && row.domain.Some? ==> !IsTaken(exposures, a, row.domain.value))
  {
    hide LowerText;
    var next := exposures[a := row];
    if row.visibility.Public? && row.domain.Some? && IsTaken(exposures, a, row.domain.value) {
      var b :| b in exposures && b != a && exposures[b].visibility.Public? && exposures[b].domain.Some?
               && LowerText(exposures[b].domain.value) == LowerText(row.domain.value);
      assert b in next && a in next && next[b] == exposures[b];
    }
  }

  // An import inserts both rows together or nothing: exactly when name and identifier are new
  // and no other application publishes the domain.
  lemma ImportIsExact(db: Database, id: ApplicationId, name: string, intent: Intent)
    requires Inv(db)
    ensures Import(db, id, name, intent) ==
              if CanImport(db, id, name, intent) then
                db.(applications := db.applications[id := ApplicationRow(name, DesiredState.Stopped, None)],
                    exposures := db.exposures[id := ExposureRow(
                      intent.DesiredVisibility(), DomainOf(intent), MaterializationState.NotMaterialized,
                      None, None, None, None, None)])
              else db
  {
    hide SchemaHolds, PromotionInvariant, DeploymentsLegal, ExposuresLegal, IsTaken;
    if id !in db.applications && forall a :: a in db.applications ==> db.applications[a].name != name {
      ImportedCatalogHolds(db, id, name);
      ExposureWritten(db.(applications := db.applications[id := ApplicationRow(name, DesiredState.Stopped, None)]),
                      id, NewExposure(intent));
    }
  }

  // ---- releases ----

  lemma NewReleaseHolds(db: Database, id: ReleaseId, a: ApplicationId, reference: string)
    requires SchemaHolds(db) && id !in db.releases && a in db.applications
    requires forall r :: r in db.releases ==> db.releases[r] != ReleaseRow(a, reference)
    ensures SchemaHolds(db.(releases := db.releases[id := ReleaseRow(a, reference)]))
  {
    hide ApplicationsOk, RuntimesOk, ExposuresOk, ReservationsOk, EvidenceOk, OneInProgress;
  }

  // A release is recorded exactly when its application exists and has no release of that
  // reference yet; recording it again changes nothing.
  lemma ReleaseIsExact(db: Database, id: ReleaseId, a: ApplicationId, reference: string)
    requires SchemaHolds(db)
    ensures CreateRelease(db, id, a, reference) ==
              if && a in db.applications && id !in db.releases
                 && forall r :: r in db.releases ==> db.releases[r] != ReleaseRow(a, reference)
              then db.(releases := db.releases[id := ReleaseRow(a, reference)])
              else db
  {
    hide SchemaHolds;
    if && a in db.applications && id !in db.releases
       && forall r :: r in db.releases ==> db.releases[r] != ReleaseRow(a, reference)
    {
      NewReleaseHolds(db, id, a, reference);
    }
  }

  predicate MatchesDigest(db: Database, r: ReleaseId, a: ApplicationId, artifact: OciArtifact, digest: string) {
    && r in db.releases && db.releases[r] == ReleaseRow(a, artifact.reference)
    && IsArtifact(artifact) && LikeSuffix(artifact.reference, digest)
  }

  // Among the stored releases one delivery specification permits, a digest finds at most one.
  lemma DigestFindsOneRelease(
    db: Database, a: ApplicationId, imageRepository: string, digest: string,
    r: ReleaseId, first: OciArtifact, s: ReleaseId, second: OciArtifact)
    requires ReleasesOk(db.releases, db.applications) && IsSha256Digest(digest)
    requires MatchesDigest(db, r, a, first, digest) && Permits(imageRepository, first)
    requires MatchesDigest(db, s, a, second, digest) && Permits(imageRepository, second)
    ensures r == s && first == second
  {
    hide IsArtifact, IsSha256Digest, LikeSuffix;
    DigestLookupIsUnambiguous(imageRepository, first, second, digest);
  }

  // ---- deployment lifecycle ----

  lemma PendingHolds(db: Database, id: DeploymentId, a: ApplicationId, release: ReleaseId, kind: DeploymentType)
    requires SchemaHolds(db) && id !in db.deployments && !HasWorkInProgress(db, a)
    requires a in db.applications && release in db.releases && db.releases[release].applicationId == a
    ensures SchemaHolds(db.(deployments := db.deployments[id :=
              DeploymentRow(a, release, kind, DeploymentStatus.Pending, None, None, None, None, None)]))
  {
    hide ApplicationsOk, ReleasesOk, RuntimesOk, ExposuresOk, ReservationsOk;
    DeploymentsReplaced(db, db.deployments[id :=
      DeploymentRow(a, release, kind, DeploymentStatus.Pending, None, None, None, None, None)]);
  }

  // The active deployment always serves, so its release is the active live release.
  lemma ActiveReleaseIsLive(db: Database, a: ApplicationId, release: ReleaseId)
    requires Inv(db) && a in db.applications
    ensures IsActiveLiveRelease(db, a, release) <==>
              && db.applications[a].active.Some? && db.applications[a].active.value in db.deployments
              && db.deployments[db.applications[a].active.value].releaseId == release
  {
    hide SchemaHolds, DeploymentsLegal, ExposuresLegal, RunningIsActive, StartedByPromotion;
    if db.applications[a].active.Some? {
      assert HasRunning(db.runtimes, db.applications[a].active.value);
    }
  }

  // A deployment is created exactly when its release belongs to the application, nothing is in
  // progress, and it is not a plain deploy of the release already active.
  lemma CreationIsExact(db: Database, id: DeploymentId, a: ApplicationId, release: ReleaseId, kind: DeploymentType)
    requires Inv(db) && id !in db.deployments
    ensures var (next, result) := CreateDeployment(db, id, a, release, kind);
            if && a in db.applications && release in db.releases && db.releases[release].applicationId == a
               && !HasWorkInProgress(db, a)
               && !(kind.Deploy? && db.applications[a].active.Some? && db.applications[a].active.value in db.deployments
                    && db.deployments[db.applications[a].active.value].releaseId == release)
            then
              && result == Ok(id)
              && next == db.(deployments := db.deployments[id :=
                   DeploymentRow(a, release, kind, DeploymentStatus.Pending, None, None, None, None, None)])
            else next == db && result.Err? && result.error != CreationError.Persistence
  {
    hide SchemaHolds, PromotionInvariant, DeploymentsLegal, ExposuresLegal, HasWorkInProgress, IsActiveLiveRelease;
    if a in db.applications {
      ActiveReleaseIsLive(db, a, release);
      if release in db.releases && db.releases[release].applicationId == a && !HasWorkInProgress(db, a) {
        PendingHolds(db, id, a, release, kind);
      }
    }
  }

  lemma WorkRowHolds(db: Database, id: DeploymentId, row: DeploymentRow)
    requires SchemaHolds(db) && id in db.deployments && db.deployments[id].status.IsNonterminal()
    requires row.applicationId == db.deployments[id].applicationId && row.releaseId == db.deployments[id].releaseId
    ensures SchemaHolds(db.(deployments := db.deployments[id := row])) <==> EvidenceOk(row)
  {
    hide ApplicationsOk, ReleasesOk, RuntimesOk, ExposuresOk, ReservationsOk, DeploymentsOk, EvidenceOk;
    WorkTableHolds(db.deployments, db.applications, db.releases, id, row);
    if EvidenceOk(row) {
      DeploymentsReplaced(db, db.deployments[id := row]);
    }
  }

  lemma WorkTableHolds(
    deployments: map<DeploymentId, DeploymentRow>, applications: map<ApplicationId, ApplicationRow>,
    releases: map<ReleaseId, ReleaseRow>, id: DeploymentId, row: DeploymentRow)
    requires DeploymentsOk(deployments, applications, releases)
    requires id in deployments && deployments[id].status.IsNonterminal()
    requires row.applicationId == deployments[id].applicationId && row.releaseId == deployments[id].releaseId
    ensures DeploymentsOk(deployments[id := row], applications, releases) <==> EvidenceOk(row)
  {
    hide EvidenceOk;
    var next := deployments[id := row];
    assert id in next && next[id] == row;
  }

  // An advance commits exactly when the status read is still current and the event leads to
  // another in-progress status: a terminal status cannot be reached without its evidence.
  lemma AdvanceIsExact(db: Database, id: DeploymentId, read: DeploymentStatus, event: DeploymentEvent, now: Timestamp)
    requires Inv(db)
    ensures AdvanceDeployment(db, id, read, event, now) ==
              if && id in db.deployments && db.deployments[id].status == read
                 && read.Transition(event).Some? && read.Transition(event).value.IsNonterminal()
              then
                db.(deployments := db.deployments[id := db.deployments[id].(
                  status := read.Transition(event).value,
                  startedAt := if read.Pending? then Some(now) else db.deployments[id].startedAt)])
              else db
  {
    hide SchemaHolds, PromotionInvariant, ExposuresLegal;
    if id in db.deployments && db.deployments[id].status == read && read.Transition(event).Some? {
      WorkRowHolds(db, id, AdvancedRow(db.deployments[id], read.Transition(event).value, now));
    }
  }

  // A failure is recorded exactly for work in progress and a trimmed, non-empty message.
  lemma FailureIsExact(db: Database, id: DeploymentId, code: FailureCode, message: string, now: Timestamp)
    requires Inv(db)
    ensures FailDeployment(db, id, code, message, now) ==
              if && id in db.deployments && db.deployments[id].status.IsNonterminal()
                 && AreFailureDetails(db.deployments[id].status, message)
              then
                (db.(deployments := db.deployments[id := db.deployments[id].(
                  status := DeploymentStatus.Failed, finishedAt := Some(now), code := Some(code),
                  stage := Some(db.deployments[id].status), message := Some(message))]), true)
              else (db, false)
  {
    hide SchemaHolds, PromotionInvariant, ExposuresLegal, AreFailureDetails;
    if id in db.deployments && db.deployments[id].status.IsNonterminal()
       && AreFailureDetails(db.deployments[id].status, message) {
      var row := FailedRow(db.deployments[id], db.deployments[id].status, code, message, now);
      FailingMovesTheLifecycle(db.deployments[id], code, message, now);
      WorkRowHolds(db, id, row);
    }
  }

  // ---- runtimes ----

  predicate IsUnused(runtimes: map<RuntimeId, RuntimeRow>, id: RuntimeId, container: string) {
    forall r :: r in runtimes && r != id ==> runtimes[r].container != container
  }

  lemma RuntimeRowHolds(db: Database, id: RuntimeId, container: string, observed: ObservedState, now: Timestamp)
    requires SchemaHolds(db) && id in db.runtimes
    ensures SchemaHolds(db.(runtimes := db.runtimes[id := db.runtimes[id].(
              container := container, observed := observed, observedAt := now)])) <==>
              IsContainerId(container) && IsUnused(db.runtimes, id, container)
  {
    hide ApplicationsOk, ReleasesOk, RuntimesOk, ExposuresOk, ReservationsOk, DeploymentsOk, IsContainerId;
    var row := db.runtimes[id].(container := container, observed := observed, observedAt := now);
    RuntimeTableHolds(db.runtimes, db.deployments, id, container, observed, now);
    if RuntimesOk(db.runtimes[id := row], db.deployments) {
      RuntimesReplaced(db, db.runtimes[id := row]);
    }
  }

  lemma RuntimeTableHolds(
    runtimes: map<RuntimeId, RuntimeRow>, deployments: map<DeploymentId, DeploymentRow>,
    id: RuntimeId, container: string, observed: ObservedState, now: Timestamp)
    requires RuntimesOk(runtimes, deployments) && id in runtimes
    ensures RuntimesOk(runtimes[id := runtimes[id].(container := container, observed := observed, observedAt := now)], deployments) <==>
              IsContainerId(container) && IsUnused(runtimes, id, container)
  {
    hide IsContainerId, OneRunningPerApplication, OneLiveEndpoint, UniqueContainers;
    var next := runtimes[id := runtimes[id].(container := container, observed := observed, observedAt := now)];
    assert id in next && next[id].container == container;
    assert forall r :: r in runtimes && r != id ==> r in next && next[r] == runtimes[r];
    ContainersStayUnique(runtimes, next, id);
    OthersStaySingle(runtimes, next);
  }

  lemma ContainersStayUnique(runtimes: map<RuntimeId, RuntimeRow>, next: map<RuntimeId, RuntimeRow>, id: RuntimeId)
    requires UniqueContainers(runtimes) && id in runtimes && next.Keys == runtimes.Keys
    requires forall r :: r in runtimes && r != id ==> next[r] == runtimes[r]
    ensures UniqueContainers(next) <==> IsUnused(runtimes, id, next[id].container)
  {
    assert id in next;
  }

  lemma OthersStaySingle(runtimes: map<RuntimeId, RuntimeRow>, next: map<RuntimeId, RuntimeRow>)
    requires OneRunningPerApplication(runtimes) && OneLiveEndpoint(runtimes) && next.Keys == runtimes.Keys
    requires forall r :: r in runtimes ==>
               next[r] == runtimes[r].(container := next[r].container, observed := next[r].observed, observedAt := next[r].observedAt)
    ensures OneRunningPerApplication(next) && OneLiveEndpoint(next)
  {
  }

  // The recorded container is replaced exactly when it is still the expected one on a live
  // runtime and the replacement is a container nobody else has recorded.
  lemma ReplacementIsExact(db: Database, id: RuntimeId, expected: string, replacement: string, now: Timestamp)
    requires SchemaHolds(db)
    ensures ReconcileExternalRuntimeId(db, id, expected, replacement, now) ==
              if id !in db.runtimes || !IsLive(db.runtimes[id]) || db.runtimes[id].container != expected then (db, Stale)
              else if IsContainerId(replacement) && IsUnused(db.runtimes, id, replacement) then
                (db.(runtimes := db.runtimes[id := db.runtimes[id].(
                      container := replacement, observed := ObservedState.Running, observedAt := now)]), Updated)
              else (db, Violated)
  {
    hide SchemaHolds, IsContainerId;
    if id in db.runtimes {
      RuntimeRowHolds(db, id, replacement, ObservedState.Running, now);
    }
  }

  // What the word of a container engine becomes when it is recorded.
  function Recorded(observed: ObservedState): ObservedState {
    match observed
    case Unknown(_) => ObservedState.Unknown("unknown")
    case _ => observed
  }

  // An observation is recorded, with its time, exactly on a live runtime, and nothing else moves.
  lemma ObservationIsExact(db: Database, id: RuntimeId, observed: ObservedState, now: Timestamp)
    requires SchemaHolds(db)
    ensures PersistObservation(db, id, observed, now) ==
              if id in db.runtimes && db.runtimes[id].removedAt.None? then
                (db.(runtimes := db.runtimes[id := db.runtimes[id].(observed := Recorded(observed), observedAt := now)]), Updated)
              else (db, Stale)
  {
    hide SchemaHolds, IsContainerId;
    if id in db.runtimes {
      RuntimeRowHolds(db, id, db.runtimes[id].container, Recorded(observed), now);
      RecordedContainers(db, id);
    }
  }

  lemma RecordedContainers(db: Database, id: RuntimeId)
    requires SchemaHolds(db) && id in db.runtimes
    ensures IsContainerId(db.runtimes[id].container) && IsUnused(db.runtimes, id, db.runtimes[id].container)
  {
    hide ApplicationsOk, ReleasesOk, DeploymentsOk, ExposuresOk, ReservationsOk, IsContainerId;
  }

  // A runtime gets its tombstone exactly when it is live and stopped; only that column changes.
  lemma RetirementIsExact(db: Database, id: RuntimeId, now: Timestamp)
    requires SchemaHolds(db)
    ensures MarkRuntimeRemoved(db, id, now) ==
              if id in db.runtimes && db.runtimes[id].removedAt.None? && db.runtimes[id].state.Stopped? then
                (db.(runtimes := db.runtimes[id := db.runtimes[id].(removedAt := Some(now))]), Updated)
              else (db, Stale)
  {
    hide SchemaHolds;
    if id in db.runtimes && db.runtimes[id].removedAt.None? && db.runtimes[id].state.Stopped? {
      RemovingKeepsSchema(db, id, db.runtimes[id].(removedAt := Some(now)));
    }
  }

  // A failed candidate gets its tombstone exactly when it is live and still starting, and is then
  // recorded as observed missing at that time.
  lemma AbandoningIsExact(db: Database, id: RuntimeId, now: Timestamp)
    requires SchemaHolds(db)
    ensures MarkStartingRuntimeMissing(db, id, now) ==
              if id in db.runtimes && db.runtimes[id].removedAt.None? && db.runtimes[id].state.Starting? then
                (db.(runtimes := db.runtimes[id := db.runtimes[id].(
                      observed := ObservedState.Missing, observedAt := now, removedAt := Some(now))]), Updated)
              else (db, Stale)
  {
    hide SchemaHolds;
    if id in db.runtimes && db.runtimes[id].removedAt.None? && db.runtimes[id].state.Starting? {
      RemovingKeepsSchema(db, id, db.runtimes[id].(
        observed := ObservedState.Missing, observedAt := now, removedAt := Some(now)));
    }
  }

  // ---- reservations and intent ----

  // Releasing removes exactly the reservations of the deployment.
  lemma ReleasingIsExact(db: Database, deployment: DeploymentId)
    requires SchemaHolds(db)
    ensures var (next, outcome) := ReleasePort(db, deployment);
            && outcome == Updated && next == db.(reservations := next.reservations)
            && (forall p :: p in next.reservations <==> p in db.reservations && db.reservations[p].deploymentId != deployment)
            && (forall p :: p in next.reservations ==> next.reservations[p] == db.reservations[p])
  {
    hide SchemaHolds;
    DroppingReservationsKeepsSchema(db, ReleasedReservations(db.reservations, deployment));
  }

  // Consuming removes the reservation of this port for this deployment of this application, and
  // is stale exactly if there is no such row.
  lemma ConsumingIsExact(db: Database, application: ApplicationId, deployment: DeploymentId, port: Port)
    requires SchemaHolds(db)
    ensures ConsumePortReservation(db, application, deployment, port) ==
              if && port in db.reservations && db.reservations[port].applicationId == application
                 && db.reservations[port].deploymentId == deployment
              then (db.(reservations := db.reservations - {port}), Updated)
              else (db, Stale)
  {
    hide SchemaHolds;
    DroppingReservationsKeepsSchema(db, db.reservations - {port});
  }

  // The wanted state of an existing application is written, and nothing else.
  lemma DesiredStateIsExact(db: Database, a: ApplicationId, desired: DesiredState)
    requires SchemaHolds(db)
    ensures SetDesiredState(db, a, desired) ==
              if a in db.applications then
                (db.(applications := db.applications[a :=
                   ApplicationRow(db.applications[a].name, desired, db.applications[a].active)]), Updated)
              else (db, Stale)
  {
    hide SchemaHolds;
    if a in db.applications {
      DesiringKeepsSchema(db, a, desired);
    }
  }

  lemma DesiringKeepsSchema(db: Database, a: ApplicationId, desired: DesiredState)
    requires SchemaHolds(db) && a in db.applications
    ensures SchemaHolds(db.(applications := db.applications[a := db.applications[a].(desired := desired)]))
  {
    hide ReleasesOk, DeploymentsOk, RuntimesOk, ExposuresOk, ReservationsOk;
    ApplicationsReplaced(db, db.applications[a := db.applications[a].(desired := desired)]);
  }

  // ---- registration ----

  // Registering an observed container is idempotent for the same deployment, endpoint and port,
  // conflicts for any other, and otherwise adds one starting candidate exactly when its
  // deployment is starting and no live runtime is on the endpoint.
  lemma RegistrationIsExact(
    db: Database, id: RuntimeId, d: DeploymentId, container: string, port: Port, containerPort: Port, now: Timestamp)
    requires SchemaHolds(db) && UniqueContainers(db.runtimes) && OwnersAgree(db) && id !in db.runtimes
    ensures var (next, result) := RegisterCandidate(db, id, d, container, port, containerPort, now);
            if !IsContainerId(container) then next == db && result == Err(InvalidContainer)
            else if !IsUnused(db.runtimes, id, container) then
              && next == db && result != Err(RegistrationError.Persistence)
              && (result.Ok? <==> exists r :: IsRegistered(db, r, d, container, port, containerPort))
              && (result.Ok? ==> IsRegistered(db, result.value, d, container, port, containerPort))
            else if d !in db.deployments || !db.deployments[d].status.Starting? || PortHeldByLiveRuntime(db, port) then
              next == db && result.Err? && result.error != RegistrationError.Persistence
            else
              && result == Ok(id)
              && next == db.(runtimes := db.runtimes[id := RuntimeRow(
                   db.deployments[d].applicationId, d, container, RuntimeState.Starting, port, containerPort,
                   ObservedState.Running, now, None)])
  {
    hide SchemaHolds, UniqueContainers, IsContainerId, OwnersAgree, PortHeldByLiveRuntime;
    if IsUnused(db.runtimes, id, container) {
      if d in db.deployments && IsContainerId(container) && !PortHeldByLiveRuntime(db, port) {
        FreeEndpoint(db, port);
        RegisteringKeepsSchema(db, id, RuntimeRow(
          db.deployments[d].applicationId, d, container, RuntimeState.Starting, port, containerPort,
          ObservedState.Running, now, None));
      }
    } else {
      var result := RegisterCandidate(db, id, d, container, port, containerPort, now).1;
      ContainersAreUnique(db);
      assert exists r :: r in db.runtimes && db.runtimes[r].container == container;
      if IsContainerId(container) && exists r :: IsRegistered(db, r, d, container, port, containerPort) {
        var r :| IsRegistered(db, r, d, container, port, containerPort);
        assert result == Ok(r);
      }
      assert result.Ok? ==> IsRegistered(db, result.value, d, container, port, containerPort);
    }
  }

  predicate IsRegistered(db: Database, r: RuntimeId, d: DeploymentId, container: string, port: Port, containerPort: Port) {
    && r in db.runtimes && db.runtimes[r].container == container
    && db.runtimes[r].deploymentId == d && db.runtimes[r].hostPort == port && db.runtimes[r].containerPort == containerPort
  }

  lemma FreeEndpoint(db: Database, port: Port)
    requires !PortHeldByLiveRuntime(db, port)
    ensures forall r :: r in db.runtimes && IsLive(db.runtimes[r]) ==> db.runtimes[r].hostPort != port
  {
  }

  lemma ContainersAreUnique(db: Database)
    requires UniqueContainers(db.runtimes)
    ensures forall r, s :: r in db.runtimes && s in db.runtimes && db.runtimes[r].container == db.runtimes[s].container ==> r == s
  {
  }

  // ---- exposure updates ----

  // The constraint an update can run into although its guard matched.
  predicate Conflicts(db: Database, a: ApplicationId, update: ExposureUpdate)
    requires a in db.exposures
  {
    match update
    case BeginExposureChange(_, desired) =>
      desired.Public? && (db.exposures[a].domain.None? || IsTaken(db.exposures, a, db.exposures[a].domain.value))
    case CompletePublicExposureChange(runtime, _) =>
      runtime !in db.runtimes || db.runtimes[runtime].applicationId != a
    case _ => false
  }

  // `Stale` exactly when the guard does not match, refused exactly on a domain conflict or a
  // runtime of another application, otherwise exactly the one row is updated.
  lemma ExposureUpdateIsExact(db: Database, a: ApplicationId, update: ExposureUpdate, now: Timestamp)
    requires Inv(db)
    ensures UpdateExposure(db, a, update, now) ==
              if a !in db.exposures || !ExposureGuard(db.exposures[a], update) then (db, Stale)
              else if Conflicts(db, a, update) then (db, Violated)
              else (db.(exposures := db.exposures[a := UpdatedExposure(db.exposures[a], update, now)]), Updated)
  {
    hide SchemaHolds, PromotionInvariant, DeploymentsLegal, IsTaken, ExposureEvidenceOk, IsReadable, LowerText;
    if a in db.exposures && ExposureGuard(db.exposures[a], update) {
      var row := UpdatedExposure(db.exposures[a], update, now);
      SchemaShowsExposureEvidence(db, a);
      ExposureWritten(db, a, db.exposures[a]);
      ExposureWritten(db, a, row);
      assert db.exposures[a := db.exposures[a]] == db.exposures;
      UpdatedEvidence(db.exposures[a], update, now);
    }
  }

  lemma UpdatedEvidence(row: ExposureRow, update: ExposureUpdate, now: Timestamp)
    requires ExposureEvidenceOk(row)
    ensures ExposureEvidenceOk(UpdatedExposure(row, update, now)) <==>
              !(update.BeginExposureChange? && update.desired.Public? && row.domain.None?)
    ensures UpdatedExposure(row, update, now).domain == row.domain
  {
  }
}
