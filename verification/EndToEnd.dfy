/** A whole deployment among other applications' work: no step of it can get stuck. */
module EndToEnd {
  import opened Wrappers
  import opened Identity
  import opened Deployment
  import opened Exposure
  import opened Schema
  import opened Statements
  import opened Workflows
  import opened Constraints
  import opened Invariants
  import opened Promotion
  import opened Runs
  import opened Ports
  import opened Exactness
  import opened Isolation

  // One deployment: what is deployed, under which identities, and the configured port range.
  datatype Plan = Plan(
    a: ApplicationId, release: ReleaseId, kind: DeploymentType, d: DeploymentId, r: RuntimeId, container: string,
    start: Port, end: Port, containerPort: Port)

  // When a step is taken, and what the other applications do until the next one.
  datatype Moment = Moment(at: Timestamp, others: seq<Event>)

  // What the deployment needs when it is created.
  predicate HasRoom(db: Database, plan: Plan, visibility: Visibility) {
    && plan.a in db.applications && plan.a in db.exposures && db.exposures[plan.a].visibility == visibility
    && plan.release in db.releases && db.releases[plan.release].applicationId == plan.a
    && !HasWorkInProgress(db, plan.a)
    && !(plan.kind.Deploy? && db.applications[plan.a].active.Some? && db.applications[plan.a].active.value in db.deployments
         && db.deployments[db.applications[plan.a].active.value].releaseId == plan.release)
    && plan.d !in db.deployments
  }

  // What it needs when its container has been observed: an identity and a container of its own.
  predicate HasContainer(db: Database, plan: Plan) {
    plan.r !in db.runtimes && IsContainerId(plan.container) && IsUnused(db.runtimes, plan.r, plan.container)
  }

  // The steps up to a verified candidate on the port that was reserved for it.
  function StartSteps(plan: Plan, port: Port): (steps: seq<Step>)
    ensures |steps| == 6
  {
    [ CreateDeploymentStep(plan.d, plan.a, plan.release, plan.kind),
      AdvanceStep(plan.d, DeploymentStatus.Pending, Start),
      ReserveStep(plan.a, plan.d, plan.start, plan.end),
      RegisterStep(plan.r, plan.d, plan.container, port, plan.containerPort),
      ConsumeStep(plan.a, plan.d, port),
      AdvanceStep(plan.d, DeploymentStatus.Starting, RuntimeRunning) ]
  }

  // The step, then other applications' work that takes nobody's reserved port.
  ghost predicate Leads(db: Database, step: Step, moment: Moment, next: Database, a: ApplicationId) {
    && SchemaHolds(db)
    && SchemaHolds(Apply(db, step, moment.at))
    && RunIsForeign(Apply(db, step, moment.at), moment.others, a)
    && NoPortIsTaken(Apply(db, step, moment.at), moment.others)
    && next == Run(Apply(db, step, moment.at), moment.others)
  }

  // ---- what a candidate keeps from one step to the next ----

  predicate IsCandidate(db: Database, plan: Plan, status: DeploymentStatus) {
    && plan.a in db.applications && plan.a in db.exposures
    && plan.d in db.deployments && db.deployments[plan.d].applicationId == plan.a
    && db.deployments[plan.d].releaseId == plan.release && db.deployments[plan.d].status == status
  }

  predicate IsStartingOn(db: Database, plan: Plan, port: Port) {
    && plan.r in db.runtimes && db.runtimes[plan.r].applicationId == plan.a && db.runtimes[plan.r].deploymentId == plan.d
    && db.runtimes[plan.r].state.Starting? && IsLive(db.runtimes[plan.r]) && db.runtimes[plan.r].observed.Running?
    && db.runtimes[plan.r].hostPort == port
  }

  ghost predicate HoldsNoPort(db: Database, d: DeploymentId) { forall p :: !HoldsReservation(db, p, d) }

  predicate OwnsPort(db: Database, plan: Plan, port: Port) {
    port in db.reservations && db.reservations[port] == ReservationRow(plan.a, plan.d)
  }

  // What the application served at the beginning is still what it serves.
  ghost predicate ServesAsBefore(before: Database, db: Database, a: ApplicationId) {
    KeepsApplication(before, db, a) && KeepsRuntimes(before, db, a)
  }

  // Other applications' work keeps all of it.
  lemma OthersKeepCandidate(
    before: Database, own: Database, others: seq<Event>, plan: Plan, status: DeploymentStatus, port: Port)
    requires SchemaHolds(own) && Inv(own) && RunIsForeign(own, others, plan.a)
    requires IsCandidate(own, plan, status) && ServesAsBefore(before, own, plan.a)
    ensures SchemaHolds(Run(own, others)) && Inv(Run(own, others))
    ensures KeepsRows(own, Run(own, others), plan.a)
    ensures IsCandidate(Run(own, others), plan, status) && ServesAsBefore(before, Run(own, others), plan.a)
    ensures IsStartingOn(own, plan, port) ==> IsStartingOn(Run(own, others), plan, port)
    ensures OwnsPort(own, plan, port) ==> OwnsPort(Run(own, others), plan, port)
    ensures HoldsNoPort(own, plan.d) ==> HoldsNoPort(Run(own, others), plan.d)
  {
    hide Inv, SchemaHolds, Run;
    var next := Run(own, others);
    RunKeepsInv(own, others);
    ForeignRunKeepsRows(own, others, plan.a);
    RowsKeepCandidate(before, own, next, plan, status, port);
    if OwnsPort(own, plan, port) {
      assert IsReservedBy(own, port, plan.a);
    }
    if HoldsNoPort(own, plan.d) {
      SchemaShowsContainers(next);
      forall p
        ensures !HoldsReservation(next, p, plan.d)
      {
        assert !HoldsReservation(own, p, plan.d);
        assert IsReservedBy(next, p, plan.a) ==> IsReservedBy(own, p, plan.a);
      }
    }
  }

  lemma RowsKeepCandidate(before: Database, own: Database, next: Database, plan: Plan, status: DeploymentStatus, port: Port)
    requires KeepsRows(own, next, plan.a) && IsCandidate(own, plan, status) && ServesAsBefore(before, own, plan.a)
    ensures IsCandidate(next, plan, status) && ServesAsBefore(before, next, plan.a)
    ensures IsStartingOn(own, plan, port) ==> IsStartingOn(next, plan, port)
  {
  }

  // ---- the candidate's own steps ----

  lemma Creating(db: Database, plan: Plan, visibility: Visibility, at: Timestamp)
    requires SchemaHolds(db) && Inv(db) && HasRoom(db, plan, visibility)
    ensures var next := Apply(db, StartSteps(plan, plan.start)[0], at);
            && IsCandidate(next, plan, DeploymentStatus.Pending) && ServesAsBefore(db, next, plan.a)
            && HoldsNoPort(next, plan.d) && next.exposures == db.exposures
  {
    hide Inv, SchemaHolds, CreateDeployment, HasWorkInProgress;
    CreationIsExact(db, plan.d, plan.a, plan.release, plan.kind);
    SchemaShowsContainers(db);
  }

  lemma Advancing(before: Database, db: Database, plan: Plan, read: DeploymentStatus, event: DeploymentEvent, at: Timestamp)
    requires SchemaHolds(db) && Inv(db) && IsCandidate(db, plan, read) && ServesAsBefore(before, db, plan.a)
    requires read.Transition(event).Some? && read.Transition(event).value.IsNonterminal()
    ensures var next := Apply(db, AdvanceStep(plan.d, read, event), at);
            && IsCandidate(next, plan, read.Transition(event).value) && ServesAsBefore(before, next, plan.a)
            && next.runtimes == db.runtimes && next.reservations == db.reservations && next.exposures == db.exposures
  {
    hide Inv, SchemaHolds, AdvanceDeployment;
    AdvanceIsExact(db, plan.d, read, event, at);
  }

  lemma Reserving(before: Database, db: Database, plan: Plan, port: Port, at: Timestamp)
    requires SchemaHolds(db) && IsCandidate(db, plan, DeploymentStatus.Starting) && ServesAsBefore(before, db, plan.a)
    requires HoldsNoPort(db, plan.d) && IsLeastFree(db, port, plan.start, plan.end)
    ensures var next := Apply(db, ReserveStep(plan.a, plan.d, plan.start, plan.end), at);
            && IsCandidate(next, plan, DeploymentStatus.Starting) && ServesAsBefore(before, next, plan.a)
            && OwnsPort(next, plan, port) && !PortHeldByLiveRuntime(next, port) && next.exposures == db.exposures
  {
    hide SchemaHolds, ReservePort, ReservationsOk;
    SchemaShowsContainers(db);
    ReservationIsExact(db, plan.a, plan.d, plan.start, plan.end);
    assert !NoneFree(db, plan.start, plan.end);
  }

  lemma Registering(before: Database, db: Database, plan: Plan, port: Port, at: Timestamp)
    requires SchemaHolds(db) && IsCandidate(db, plan, DeploymentStatus.Starting) && ServesAsBefore(before, db, plan.a)
    requires HasContainer(db, plan) && !PortHeldByLiveRuntime(db, port)
    ensures var next := Apply(db, RegisterStep(plan.r, plan.d, plan.container, port, plan.containerPort), at);
            && IsCandidate(next, plan, DeploymentStatus.Starting) && ServesAsBefore(before, next, plan.a)
            && IsStartingOn(next, plan, port) && next.reservations == db.reservations && next.exposures == db.exposures
  {
    hide SchemaHolds, RegisterCandidate, IsContainerId, IsUnused, OwnersAgree, UniqueContainers;
    SchemaShowsContainers(db);
    SchemaShowsOwners(db);
    RegistrationIsExact(db, plan.r, plan.d, plan.container, port, plan.containerPort, at);
  }

  lemma Consuming(before: Database, db: Database, plan: Plan, port: Port, at: Timestamp)
    requires SchemaHolds(db) && IsCandidate(db, plan, DeploymentStatus.Starting) && ServesAsBefore(before, db, plan.a)
    requires IsStartingOn(db, plan, port) && OwnsPort(db, plan, port) && ReservationsOk(db.reservations, db.deployments)
    ensures var next := Apply(db, ConsumeStep(plan.a, plan.d, port), at);
            && IsCandidate(next, plan, DeploymentStatus.Starting) && ServesAsBefore(before, next, plan.a)
            && IsStartingOn(next, plan, port) && HoldsNoPort(next, plan.d) && next.exposures == db.exposures
  {
    hide SchemaHolds;
    DroppingReservationsKeepsSchema(db, db.reservations - {port});
  }

  // ---- to a verified candidate ----

  lemma OwnStepIsSound(db: Database, step: Step, at: Timestamp)
    requires SchemaHolds(db) && Inv(db)
    ensures SchemaHolds(Apply(db, step, at)) && Inv(Apply(db, step, at))
  {
    hide Inv, SchemaHolds, Apply;
    StepKeepsSchema(db, step, at);
    StepKeepsInv(db, step, at);
  }

  // Whatever the other applications do in between, a deployment with room becomes a verified
  // candidate on the least port that was free when it asked, holding no reservation any more,
  // and its application still serves what it served.
  lemma CandidatesGetReady(
    s: seq<Database>, plan: Plan, visibility: Visibility, port: Port, moments: seq<Moment>)
    requires |s| == 7 && |moments| == 6
    requires SchemaHolds(s[0]) && Inv(s[0]) && HasRoom(s[0], plan, visibility)
    requires forall i :: 0 <= i < 6 ==> Leads(s[i], StartSteps(plan, port)[i], moments[i], s[i + 1], plan.a)
    requires IsLeastFree(s[2], port, plan.start, plan.end) && HasContainer(s[3], plan)
    ensures SchemaHolds(s[6]) && Inv(s[6])
    ensures IsCandidate(s[6], plan, DeploymentStatus.Verifying) && IsStartingOn(s[6], plan, port)
    ensures HoldsNoPort(s[6], plan.d) && ServesAsBefore(s[0], s[6], plan.a)
    ensures plan.a in s[0].exposures && s[6].exposures[plan.a] == s[0].exposures[plan.a]
  {
    hide Inv, SchemaHolds, Apply, Run, IsCandidate, IsStartingOn, HoldsNoPort, OwnsPort, ServesAsBefore, IsLeastFree;
    hide RunIsForeign, NoPortIsTaken, HasContainer, HasWorkInProgress, PortHeldByLiveRuntime;
    hide KeepsApplication, KeepsDeployments, KeepsRuntimes, KeepsReservations;
    var steps := StartSteps(plan, port);

    assert Leads(s[0], steps[0], moments[0], s[1], plan.a);
    var created := Apply(s[0], steps[0], moments[0].at);
    OwnStepIsSound(s[0], steps[0], moments[0].at);
    Creating(s[0], plan, visibility, moments[0].at);
    OthersKeepCandidate(s[0], created, moments[0].others, plan, DeploymentStatus.Pending, port);

    assert Leads(s[1], steps[1], moments[1], s[2], plan.a);
    var starting := Apply(s[1], steps[1], moments[1].at);
    OwnStepIsSound(s[1], steps[1], moments[1].at);
    Advancing(s[0], s[1], plan, DeploymentStatus.Pending, Start, moments[1].at);
    SamePortsHeld(s[1], starting, plan.d);
    OthersKeepCandidate(s[0], starting, moments[1].others, plan, DeploymentStatus.Starting, port);

    assert Leads(s[2], steps[2], moments[2], s[3], plan.a);
    var reserved := Apply(s[2], steps[2], moments[2].at);
    OwnStepIsSound(s[2], steps[2], moments[2].at);
    Reserving(s[0], s[2], plan, port, moments[2].at);
    OthersKeepCandidate(s[0], reserved, moments[2].others, plan, DeploymentStatus.Starting, port);
    ReservedStaysClear(reserved, moments[2].others, plan, port);

    assert Leads(s[3], steps[3], moments[3], s[4], plan.a);
    var registered := Apply(s[3], steps[3], moments[3].at);
    OwnStepIsSound(s[3], steps[3], moments[3].at);
    Registering(s[0], s[3], plan, port, moments[3].at);
    SamePortHeld(s[3], registered, plan, port);
    OthersKeepCandidate(s[0], registered, moments[3].others, plan, DeploymentStatus.Starting, port);

    assert Leads(s[4], steps[4], moments[4], s[5], plan.a);
    var consumed := Apply(s[4], steps[4], moments[4].at);
    OwnStepIsSound(s[4], steps[4], moments[4].at);
    SchemaShowsContainers(s[4]);
    Consuming(s[0], s[4], plan, port, moments[4].at);
    OthersKeepCandidate(s[0], consumed, moments[4].others, plan, DeploymentStatus.Starting, port);

    assert Leads(s[5], steps[5], moments[5], s[6], plan.a);
    var verifying := Apply(s[5], steps[5], moments[5].at);
    OwnStepIsSound(s[5], steps[5], moments[5].at);
    Advancing(s[0], s[5], plan, DeploymentStatus.Starting, RuntimeRunning, moments[5].at);
    SamePortsHeld(s[5], verifying, plan.d);
    SameRegistration(s[5], verifying, plan, port);
    OthersKeepCandidate(s[0], verifying, moments[5].others, plan, DeploymentStatus.Verifying, port);
  }

  lemma SamePortsHeld(db: Database, next: Database, d: DeploymentId)
    requires next.reservations == db.reservations && HoldsNoPort(db, d)
    ensures HoldsNoPort(next, d)
  {
    forall p
      ensures !HoldsReservation(next, p, d)
    {
      assert !HoldsReservation(db, p, d);
    }
  }

  lemma SamePortHeld(db: Database, next: Database, plan: Plan, port: Port)
    requires next.reservations == db.reservations && OwnsPort(db, plan, port)
    ensures OwnsPort(next, plan, port)
  {
  }

  lemma SameRegistration(db: Database, next: Database, plan: Plan, port: Port)
    requires next.runtimes == db.runtimes && IsStartingOn(db, plan, port)
    ensures IsStartingOn(next, plan, port)
  {
  }

  lemma ReservedStaysClear(db: Database, others: seq<Event>, plan: Plan, port: Port)
    requires SchemaHolds(db) && Inv(db) && RunIsForeign(db, others, plan.a) && NoPortIsTaken(db, others)
    requires OwnsPort(db, plan, port) && !PortHeldByLiveRuntime(db, port)
    ensures !PortHeldByLiveRuntime(Run(db, others), port)
  {
    hide Inv, SchemaHolds, Run, RunIsForeign, NoPortIsTaken, PortHeldByLiveRuntime;
    assert IsReservedBy(db, port, plan.a);
    ForeignRunKeepsPortClear(db, others, plan.a, port);
  }

  // ---- to a served deployment ----

  // The deployment succeeded now and is active, wanted running; its runtime is the one that
  // runs, on its port and with no reservation left; what ran for the application is stopped.
  ghost predicate IsServed(before: Database, after: Database, plan: Plan, port: Port, now: Timestamp) {
    && plan.a in after.applications
    && after.applications[plan.a].active == Some(plan.d) && after.applications[plan.a].desired.Running?
    && plan.d in after.deployments && after.deployments[plan.d].releaseId == plan.release
    && after.deployments[plan.d].status.Succeeded? && after.deployments[plan.d].finishedAt == Some(now)
    && plan.r in after.runtimes && IsRunning(after.runtimes[plan.r]) && after.runtimes[plan.r].hostPort == port
    && HoldsNoPort(after, plan.d)
    && (forall x :: x in before.runtimes && before.runtimes[x].applicationId == plan.a && IsRunning(before.runtimes[x]) ==>
          x in after.runtimes && after.runtimes[x].state.Stopped?)
  }

  lemma PromotionServes(before: Database, db: Database, next: Database, plan: Plan, port: Port, status: DeploymentStatus, now: Timestamp)
    requires IsPromotion(db, next, plan.r, now)
    requires IsCandidate(db, plan, status) && IsStartingOn(db, plan, port) && HoldsNoPort(db, plan.d)
    requires ServesAsBefore(before, db, plan.a)
    ensures IsServed(before, next, plan, port, now)
  {
    SamePortsHeld(db, next, plan.d);
    forall x | x in before.runtimes && before.runtimes[x].applicationId == plan.a && IsRunning(before.runtimes[x])
      ensures x in next.runtimes && next.runtimes[x].state.Stopped?
    {
      assert db.runtimes[x] == before.runtimes[x];
    }
  }

  // An internal application: one more step, and the deployment is served.
  lemma InternalDeploymentGoesThrough(s: seq<Database>, plan: Plan, port: Port, moments: seq<Moment>, now: Timestamp)
    requires |s| == 7 && |moments| == 6
    requires SchemaHolds(s[0]) && Inv(s[0]) && HasRoom(s[0], plan, Visibility.Internal)
    requires forall i :: 0 <= i < 6 ==> Leads(s[i], StartSteps(plan, port)[i], moments[i], s[i + 1], plan.a)
    requires IsLeastFree(s[2], port, plan.start, plan.end) && HasContainer(s[3], plan)
    ensures SchemaHolds(s[6]) && IsServed(s[0], Apply(s[6], PromoteInternalStep(plan.r), now), plan, port, now)
  {
    hide Inv, SchemaHolds, PromoteInternal, IsPromotion, IsServed, ServesAsBefore, HoldsNoPort, Leads;
    CandidatesGetReady(s, plan, Visibility.Internal, port, moments);
    RuntimesAreJoined(s[6], plan.r);
    InternalPromotionIsExact(s[6], plan.r, now);
    PromotionServes(s[0], s[6], Apply(s[6], PromoteInternalStep(plan.r), now), plan, port, DeploymentStatus.Verifying, now);
  }

  // A public application: the deployment is marked activating, the route applied, and the
  // promotion serves the deployment and confirms the route to it.
  lemma PublicDeploymentGoesThrough(
    s: seq<Database>, plan: Plan, port: Port, version: ConfigurationVersion, moments: seq<Moment>, now: Timestamp)
    requires |s| == 9 && |moments| == 8
    requires SchemaHolds(s[0]) && Inv(s[0]) && HasRoom(s[0], plan, Visibility.Public)
    requires forall i :: 0 <= i < 6 ==> Leads(s[i], StartSteps(plan, port)[i], moments[i], s[i + 1], plan.a)
    requires IsLeastFree(s[2], port, plan.start, plan.end) && HasContainer(s[3], plan)
    requires Leads(s[6], AdvanceStep(plan.d, DeploymentStatus.Verifying, Verified), moments[6], s[7], plan.a)
    requires Leads(s[7], ExposureStep(plan.a, BeginPublicExposure), moments[7], s[8], plan.a)
    ensures SchemaHolds(s[8])
    ensures var after := Apply(s[8], PromotePublicStep(plan.r, version), now);
            && IsServed(s[0], after, plan, port, now)
            && plan.a in after.exposures && after.exposures[plan.a].visibility.Public?
            && after.exposures[plan.a].state.Active?
            && after.exposures[plan.a].activeRuntime == Some(plan.r) && after.exposures[plan.a].version == Some(version)
            && after.exposures[plan.a].domain == s[0].exposures[plan.a].domain
  {
    hide Inv, SchemaHolds, PromotePublic, IsPromotion, IsServed, ServesAsBefore, HoldsNoPort, KeepsRows;
    hide Run, RunIsForeign, NoPortIsTaken, HasWorkInProgress, HasContainer, IsLeastFree, AdvanceDeployment, UpdateExposure;
    FirstSixLead(s, plan, port, moments);
    CandidatesGetReady(s[..7], plan, Visibility.Public, port, moments[..6]);
    Activate(s[0], s[6], s[7], plan, port, moments[6]);
    BeginRoute(s[0], s[7], s[8], plan, port, moments[7]);
    RuntimesAreJoined(s[8], plan.r);
    PublicPromotionIsExact(s[8], plan.r, version, now);
    PromotionServes(s[0], s[8], Apply(s[8], PromotePublicStep(plan.r, version), now), plan, port, DeploymentStatus.Activating, now);
  }

  lemma FirstSixLead(s: seq<Database>, plan: Plan, port: Port, moments: seq<Moment>)
    requires |s| == 9 && |moments| == 8
    requires forall i :: 0 <= i < 6 ==> Leads(s[i], StartSteps(plan, port)[i], moments[i], s[i + 1], plan.a)
    ensures forall i :: 0 <= i < 6 ==> Leads(s[..7][i], StartSteps(plan, port)[i], moments[..6][i], s[..7][i + 1], plan.a)
  {
    hide Leads, StartSteps;
  }

  // The verified candidate is marked activating; everything else about it stays.
  lemma Activate(before: Database, db: Database, next: Database, plan: Plan, port: Port, moment: Moment)
    requires SchemaHolds(db) && Inv(db) && ServesAsBefore(before, db, plan.a)
    requires IsCandidate(db, plan, DeploymentStatus.Verifying) && IsStartingOn(db, plan, port) && HoldsNoPort(db, plan.d)
    requires Leads(db, AdvanceStep(plan.d, DeploymentStatus.Verifying, Verified), moment, next, plan.a)
    ensures SchemaHolds(next) && Inv(next) && ServesAsBefore(before, next, plan.a)
    ensures IsCandidate(next, plan, DeploymentStatus.Activating) && IsStartingOn(next, plan, port) && HoldsNoPort(next, plan.d)
    ensures plan.a in db.exposures && next.exposures[plan.a] == db.exposures[plan.a]
  {
    hide Inv, SchemaHolds, Apply, Run, RunIsForeign, NoPortIsTaken, ServesAsBefore, HoldsNoPort, IsStartingOn;
    hide KeepsApplication, KeepsDeployments, KeepsRuntimes, KeepsReservations;
    var step := AdvanceStep(plan.d, DeploymentStatus.Verifying, Verified);
    var activating := Apply(db, step, moment.at);
    OwnStepIsSound(db, step, moment.at);
    Advancing(before, db, plan, DeploymentStatus.Verifying, Verified, moment.at);
    SamePortsHeld(db, activating, plan.d);
    SameRegistration(db, activating, plan, port);
    OthersKeepCandidate(before, activating, moment.others, plan, DeploymentStatus.Activating, port);
  }

  lemma BeginningTheRoute(before: Database, db: Database, plan: Plan, at: Timestamp)
    requires SchemaHolds(db) && Inv(db) && ServesAsBefore(before, db, plan.a)
    requires IsCandidate(db, plan, DeploymentStatus.Activating) && db.exposures[plan.a].visibility.Public?
    ensures var next := Apply(db, ExposureStep(plan.a, BeginPublicExposure), at);
            && IsCandidate(next, plan, DeploymentStatus.Activating) && ServesAsBefore(before, next, plan.a)
            && next.runtimes == db.runtimes && next.reservations == db.reservations
            && next.exposures[plan.a].visibility.Public? && next.exposures[plan.a].state.Applying?
            && next.exposures[plan.a].domain == db.exposures[plan.a].domain
  {
    hide Inv, SchemaHolds, UpdateExposure;
    ExposureUpdateIsExact(db, plan.a, BeginPublicExposure, at);
  }

  // The route of the public application is being applied, and stays so while others work.
  lemma BeginRoute(before: Database, db: Database, next: Database, plan: Plan, port: Port, moment: Moment)
    requires SchemaHolds(db) && Inv(db) && ServesAsBefore(before, db, plan.a)
    requires IsCandidate(db, plan, DeploymentStatus.Activating) && IsStartingOn(db, plan, port) && HoldsNoPort(db, plan.d)
    requires db.exposures[plan.a].visibility.Public?
    requires Leads(db, ExposureStep(plan.a, BeginPublicExposure), moment, next, plan.a)
    ensures SchemaHolds(next) && Inv(next) && ServesAsBefore(before, next, plan.a)
    ensures IsCandidate(next, plan, DeploymentStatus.Activating) && IsStartingOn(next, plan, port) && HoldsNoPort(next, plan.d)
    ensures next.exposures[plan.a].visibility.Public? && next.exposures[plan.a].state.Applying?
    ensures next.exposures[plan.a].domain == db.exposures[plan.a].domain
  {
    hide Inv, SchemaHolds, Apply, Run, RunIsForeign, NoPortIsTaken, ServesAsBefore, HoldsNoPort, IsStartingOn;
    hide KeepsApplication, KeepsDeployments, KeepsRuntimes, KeepsReservations;
    var step := ExposureStep(plan.a, BeginPublicExposure);
    var applying := Apply(db, step, moment.at);
    OwnStepIsSound(db, step, moment.at);
    BeginningTheRoute(before, db, plan, moment.at);
    SamePortsHeld(db, applying, plan.d);
    SameRegistration(db, applying, plan, port);
    OthersKeepCandidate(before, applying, moment.others, plan, DeploymentStatus.Activating, port);
  }
}
