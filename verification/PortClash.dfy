/** A run whose last registration lets two deployments hold one port: the case exclusivity excludes. */
module PortClash {
  import opened Wrappers
  import opened Identity
  import opened Release
  import opened Deployment
  import opened Exposure
  import opened Schema
  import opened Workflows
  import opened Constraints
  import opened Invariants
  import opened Runs
  import opened Ports
  import opened Exactness
  import opened Samples

  // Two applications, a release and a deployment of each, and one port.
  datatype Cast = Cast(
    a: ApplicationId, b: ApplicationId, x: ReleaseId, y: ReleaseId, d: DeploymentId, e: DeploymentId,
    r: RuntimeId, port: Port, image: string)
  {
    predicate AreDistinct() { a != b && x != y && d != e }
  }

  // ---- the states on the way ----

  function Catalog(c: Cast): Database {
    EMPTY.(
      applications := map[c.a := ApplicationRow("first", DesiredState.Stopped, None),
                          c.b := ApplicationRow("second", DesiredState.Stopped, None)],
      exposures := map[c.a := NewExposure(Intent.Internal(None)), c.b := NewExposure(Intent.Internal(None))])
  }

  function Stocked(c: Cast): Database {
    Catalog(c).(releases := map[c.x := ReleaseRow(c.a, c.image), c.y := ReleaseRow(c.b, c.image)])
  }

  function Work(application: ApplicationId, release: ReleaseId, status: DeploymentStatus, started: Option<Timestamp>): DeploymentRow {
    DeploymentRow(application, release, Deploy, status, started, None, None, None, None)
  }

  function Queued(c: Cast): Database {
    Stocked(c).(deployments := map[c.d := Work(c.a, c.x, DeploymentStatus.Pending, None),
                                   c.e := Work(c.b, c.y, DeploymentStatus.Pending, None)])
  }

  function Started(c: Cast): Database {
    Queued(c).(deployments := map[c.d := Work(c.a, c.x, DeploymentStatus.Starting, Some(0)),
                                  c.e := Work(c.b, c.y, DeploymentStatus.Starting, Some(0))])
  }

  // Both deployments are starting and `e` has reserved the port.
  function Reserved(c: Cast): Database {
    Started(c).(reservations := map[c.port := ReservationRow(c.b, c.e)])
  }

  // ---- the run ----

  function Imports(c: Cast): seq<Event> {
    [Event(ImportStep(c.a, "first", Intent.Internal(None)), 0), Event(ImportStep(c.b, "second", Intent.Internal(None)), 0)]
  }

  function Releases(c: Cast): seq<Event> {
    [Event(CreateReleaseStep(c.x, c.a, c.image), 0), Event(CreateReleaseStep(c.y, c.b, c.image), 0)]
  }

  function Creations(c: Cast): seq<Event> {
    [Event(CreateDeploymentStep(c.d, c.a, c.x, Deploy), 0), Event(CreateDeploymentStep(c.e, c.b, c.y, Deploy), 0)]
  }

  function Starts(c: Cast): seq<Event> {
    [Event(AdvanceStep(c.d, DeploymentStatus.Pending, Start), 0), Event(AdvanceStep(c.e, DeploymentStatus.Pending, Start), 0)]
  }

  function Reservation(c: Cast): seq<Event> { [Event(ReserveStep(c.b, c.e, c.port, c.port), 0)] }

  function Setup(c: Cast): seq<Event> { Imports(c) + Releases(c) + Creations(c) + Starts(c) + Reservation(c) }

  // The container of `d` is observed on the port `e` reserved.
  function Registration(c: Cast): seq<Event> { [Event(RegisterStep(c.r, c.d, "c0ffee", c.port, 80), 0)] }

  // ---- every stage is reached ----

  lemma TwoEvents(db: Database, events: seq<Event>, middle: Database, after: Database)
    requires SchemaHolds(db) && |events| == 2 && SchemaHolds(middle)
    requires middle == Apply(db, events[0].step, events[0].at) && after == Apply(middle, events[1].step, events[1].at)
    ensures Run(db, events) == after
  {
    hide SchemaHolds, Apply;
    RunTakesOneStep(db, events);
    RunTakesOneStep(middle, events[1..]);
    assert events[1..][1..] == [];
  }

  lemma ImportsReachCatalog(c: Cast)
    requires c.AreDistinct()
    ensures Run(EMPTY, Imports(c)) == Catalog(c)
  {
    hide SchemaHolds, Inv, Import;
    var events := Imports(c);
    var middle := EMPTY.(applications := map[c.a := ApplicationRow("first", DesiredState.Stopped, None)],
                         exposures := map[c.a := NewExposure(Intent.Internal(None))]);
    NamesDiffer();
    EmptyIsSound();
    ImportIsExact(EMPTY, c.a, "first", Intent.Internal(None));
    assert Apply(EMPTY, events[0].step, 0) == middle;
    StepKeepsSchema(EMPTY, events[0].step, 0);
    StepKeepsInv(EMPTY, events[0].step, 0);
    ImportIsExact(middle, c.b, "second", Intent.Internal(None));
    assert Apply(middle, events[1].step, 0) == Catalog(c);
    TwoEvents(EMPTY, events, middle, Catalog(c));
  }

  lemma NamesDiffer()
    ensures "first" != "second"
  {
    assert "first"[0] != "second"[0];
  }

  lemma ReleasesReachStocked(c: Cast)
    requires c.AreDistinct() && SchemaHolds(Catalog(c))
    ensures Run(Catalog(c), Releases(c)) == Stocked(c)
  {
    hide SchemaHolds, CreateRelease, NewExposure;
    var events := Releases(c);
    var middle := Catalog(c).(releases := map[c.x := ReleaseRow(c.a, c.image)]);
    ReleaseIsExact(Catalog(c), c.x, c.a, c.image);
    assert Apply(Catalog(c), events[0].step, 0) == middle;
    StepKeepsSchema(Catalog(c), events[0].step, 0);
    ReleaseIsExact(middle, c.y, c.b, c.image);
    assert Apply(middle, events[1].step, 0) == Stocked(c);
    TwoEvents(Catalog(c), events, middle, Stocked(c));
  }

  lemma CreationsReachQueued(c: Cast)
    requires c.AreDistinct() && SchemaHolds(Stocked(c)) && Inv(Stocked(c))
    ensures Run(Stocked(c), Creations(c)) == Queued(c)
  {
    hide SchemaHolds, Inv, CreateDeployment, NewExposure;
    var events := Creations(c);
    var middle := Stocked(c).(deployments := map[c.d := Work(c.a, c.x, DeploymentStatus.Pending, None)]);
    CreationIsExact(Stocked(c), c.d, c.a, c.x, Deploy);
    assert Apply(Stocked(c), events[0].step, 0) == middle;
    StepKeepsSchema(Stocked(c), events[0].step, 0);
    StepKeepsInv(Stocked(c), events[0].step, 0);
    CreationIsExact(middle, c.e, c.b, c.y, Deploy);
    assert Apply(middle, events[1].step, 0) == Queued(c);
    TwoEvents(Stocked(c), events, middle, Queued(c));
  }

  function HalfStarted(c: Cast): Database {
    Queued(c).(deployments := map[c.d := Work(c.a, c.x, DeploymentStatus.Starting, Some(0)),
                                  c.e := Work(c.b, c.y, DeploymentStatus.Pending, None)])
  }

  lemma StartIsExact(db: Database, d: DeploymentId)
    requires Inv(db) && d in db.deployments && db.deployments[d].status.Pending?
    ensures Apply(db, AdvanceStep(d, DeploymentStatus.Pending, Start), 0) ==
            db.(deployments := db.deployments[d := db.deployments[d].(status := DeploymentStatus.Starting, startedAt := Some(0))])
  {
    hide Inv, AdvanceDeployment;
    AdvanceIsExact(db, d, DeploymentStatus.Pending, Start, 0);
  }

  lemma FirstStart(c: Cast)
    requires c.AreDistinct() && Inv(Queued(c))
    ensures Apply(Queued(c), AdvanceStep(c.d, DeploymentStatus.Pending, Start), 0) == HalfStarted(c)
  {
    hide Inv, Apply, Stocked;
    StartIsExact(Queued(c), c.d);
  }

  lemma SecondStart(c: Cast)
    requires c.AreDistinct() && Inv(HalfStarted(c))
    ensures Apply(HalfStarted(c), AdvanceStep(c.e, DeploymentStatus.Pending, Start), 0) == Started(c)
  {
    hide Inv, Apply, Stocked;
    StartIsExact(HalfStarted(c), c.e);
  }

  lemma StartsReachStarted(c: Cast)
    requires c.AreDistinct() && SchemaHolds(Queued(c)) && Inv(Queued(c))
    ensures Run(Queued(c), Starts(c)) == Started(c)
  {
    hide SchemaHolds, Inv, Apply, Queued, HalfStarted, Started;
    FirstStart(c);
    StepKeepsSchema(Queued(c), AdvanceStep(c.d, DeploymentStatus.Pending, Start), 0);
    StepKeepsInv(Queued(c), AdvanceStep(c.d, DeploymentStatus.Pending, Start), 0);
    SecondStart(c);
    TwoEvents(Queued(c), Starts(c), HalfStarted(c), Started(c));
  }

  lemma ReservationReachesReserved(c: Cast)
    requires c.AreDistinct() && SchemaHolds(Started(c))
    ensures Run(Started(c), Reservation(c)) == Reserved(c)
  {
    hide SchemaHolds, ReservePort, NewExposure;
    var events := Reservation(c);
    SchemaShowsContainers(Started(c));
    ReservationIsExact(Started(c), c.b, c.e, c.port, c.port);
    assert IsFree(Started(c), c.port);
    assert Apply(Started(c), events[0].step, 0) == Reserved(c);
    RunTakesOneStep(Started(c), events);
    assert events[1..] == [];
  }

  lemma SetupReachesReserved(c: Cast)
    requires c.AreDistinct()
    ensures Run(EMPTY, Setup(c)) == Reserved(c) && SchemaHolds(Reserved(c)) && Inv(Reserved(c))
  {
    hide SchemaHolds, Inv, Run, Imports, Releases, Creations, Starts, Reservation;
    hide Catalog, Stocked, Queued, Started, Reserved;
    EmptyIsSound();
    ImportsReachCatalog(c);
    RunKeepsInv(EMPTY, Imports(c));
    ReleasesReachStocked(c);
    RunKeepsInv(Catalog(c), Releases(c));
    CreationsReachQueued(c);
    RunKeepsInv(Stocked(c), Creations(c));
    StartsReachStarted(c);
    RunKeepsInv(Queued(c), Starts(c));
    ReservationReachesReserved(c);
    RunKeepsInv(Started(c), Reservation(c));
    RunContinues(EMPTY, Imports(c), Releases(c));
    RunContinues(EMPTY, Imports(c) + Releases(c), Creations(c));
    RunContinues(EMPTY, Imports(c) + Releases(c) + Creations(c), Starts(c));
    RunContinues(EMPTY, Imports(c) + Releases(c) + Creations(c) + Starts(c), Reservation(c));
  }

  // ---- the clash ----

  lemma ReservedIsExclusive(c: Cast)
    requires c.AreDistinct()
    ensures PortsExclusive(Reserved(c)) && UniqueContainers(Reserved(c).runtimes) && OwnersAgree(Reserved(c))
    ensures !PortHeldByLiveRuntime(Reserved(c), c.port) && IsUnused(Reserved(c).runtimes, c.r, "c0ffee")
  {
    ExclusiveMeansOwned(Reserved(c));
  }

  // The observed endpoint, not the reservation, decides the registered port: an endpoint on a
  // port another deployment reserved is accepted, and the port then has two holders.
  lemma RegistrationCanTakeAReservedPort(c: Cast)
    requires c.AreDistinct() && SchemaHolds(Reserved(c))
    ensures PortsExclusive(Reserved(c))
    ensures var next := Run(Reserved(c), Registration(c));
            HoldsPort(next, c.port, c.d) && HoldsPort(next, c.port, c.e) && !PortsExclusive(next)
  {
    hide SchemaHolds, RegisterCandidate, UniqueContainers, PortsExclusive, OwnersAgree, PortHeldByLiveRuntime, IsUnused;
    ReservedIsExclusive(c);
    assert IsContainerId("c0ffee");
    RegistrationIsExact(Reserved(c), c.r, c.d, "c0ffee", c.port, 80, 0);
    var events := Registration(c);
    var next := Apply(Reserved(c), events[0].step, 0);
    RunTakesOneStep(Reserved(c), events);
    assert events[1..] == [];
    assert LiveOn(next, c.r, c.port);
    assert HoldsReservation(next, c.port, c.e);
    TwoHoldersAreNotExclusive(next, c.port, c.d, c.e);
  }

  lemma TwoHoldersAreNotExclusive(db: Database, port: Port, d: DeploymentId, e: DeploymentId)
    requires HoldsPort(db, port, d) && HoldsPort(db, port, e) && d != e
    ensures !PortsExclusive(db)
  {
  }

  // ---- written out ----

  const CAST := Cast(
    ApplicationId(FIRST), ApplicationId(SECOND), ReleaseId(FIRST), ReleaseId(SECOND), DeploymentId(FIRST),
    DeploymentId(SECOND), RuntimeId(FIRST), 30000, Image('0'))

  lemma ReservedImages(c: Cast)
    ensures forall r :: r in Reserved(c).releases ==> Reserved(c).releases[r].reference == c.image
  {
  }

  // A run of ten steps from the empty database: exclusive until its last step, and not after it.
  lemma ConcreteClash() returns (events: seq<Event>, last: Event)
    ensures SchemaHolds(Run(EMPTY, events)) && PortsExclusive(Run(EMPTY, events))
    ensures Reachable(Run(EMPTY, events + [last])) && !PortsExclusive(Run(EMPTY, events + [last]))
    ensures ParseArtifact(CAST.image).Ok? && forall r :: r in Run(EMPTY, events).releases ==>
              Run(EMPTY, events).releases[r].reference == CAST.image
  {
    hide SchemaHolds, Inv, Run, PortsExclusive, Setup, Reserved, Image, ParseArtifact;
    EmptyIsSound();
    TheyDiffer();
    ReservedImages(CAST);
    ImagesAreStorable('0');
    events := Setup(CAST);
    last := Registration(CAST)[0];
    SetupReachesReserved(CAST);
    RegistrationCanTakeAReservedPort(CAST);
    RunContinues(EMPTY, events, [last]);
    assert Registration(CAST) == [last];
  }
}
