/** A run within one second after which the rollback query has two answers with different releases. */
module RollbackTie {
  import opened Wrappers
  import opened Identity
  import opened Release
  import opened Deployment
  import opened Exposure
  import opened Schema
  import opened Workflows
  import opened Constraints
  import opened Invariants
  import opened Promotion
  import opened Runs
  import opened Rollback
  import opened Ports
  import opened Exactness
  import opened Samples

  // One deployment of an internal application with nothing else going on.
  datatype Job = Job(a: ApplicationId, release: ReleaseId, d: DeploymentId, r: RuntimeId, container: string, port: Port)

  predicate CanRun(db: Database, job: Job) {
    && job.a in db.applications && job.a in db.exposures && db.exposures[job.a].visibility.Internal?
    && job.release in db.releases && db.releases[job.release].applicationId == job.a
    && !HasWorkInProgress(db, job.a)
    && (db.applications[job.a].active.Some? && db.applications[job.a].active.value in db.deployments ==>
          db.deployments[db.applications[job.a].active.value].releaseId != job.release)
    && job.d !in db.deployments && job.r !in db.runtimes
    && IsContainerId(job.container) && IsUnused(db.runtimes, job.r, job.container)
    && IsFree(db, job.port)
  }

  function Events(job: Job): seq<Event> {
    [ Event(CreateDeploymentStep(job.d, job.a, job.release, Deploy), 0),
      Event(AdvanceStep(job.d, DeploymentStatus.Pending, Start), 0),
      Event(ReserveStep(job.a, job.d, job.port, job.port), 0),
      Event(RegisterStep(job.r, job.d, job.container, job.port, 80), 0),
      Event(ConsumeStep(job.a, job.d, job.port), 0),
      Event(AdvanceStep(job.d, DeploymentStatus.Starting, RuntimeRunning), 0),
      Event(PromoteInternalStep(job.r), 0) ]
  }

  // ---- the exact state after each step ----

  function Working(db: Database, job: Job, status: DeploymentStatus, started: Option<Timestamp>): Database {
    db.(deployments := db.deployments[job.d := DeploymentRow(job.a, job.release, Deploy, status, started, None, None, None, None)])
  }

  function Candidate(job: Job): RuntimeRow {
    RuntimeRow(job.a, job.d, job.container, RuntimeState.Starting, job.port, 80, ObservedState.Running, 0, None)
  }

  function WithRuntime(db: Database, job: Job): Database { db.(runtimes := db.runtimes[job.r := Candidate(job)]) }

  function Done(db: Database, job: Job): Database
    requires job.a in db.applications
  {
    db.(
      applications := db.applications[job.a := db.applications[job.a].(active := Some(job.d), desired := DesiredState.Running)],
      deployments := db.deployments[job.d :=
        DeploymentRow(job.a, job.release, Deploy, DeploymentStatus.Succeeded, Some(0), Some(0), None, None, None)],
      runtimes := PromotedRuntimes(db.runtimes[job.r := Candidate(job)], job))
  }

  function PromotedRuntimes(runtimes: map<RuntimeId, RuntimeRow>, job: Job): map<RuntimeId, RuntimeRow> {
    map x | x in runtimes :: PromotedRuntime(runtimes[x], x, job.a, job.r)
  }

  lemma Creating(db: Database, job: Job)
    requires SchemaHolds(db) && Inv(db) && CanRun(db, job)
    ensures Apply(db, Events(job)[0].step, 0) == Working(db, job, DeploymentStatus.Pending, None)
  {
    hide Inv, SchemaHolds, CreateDeployment, HasWorkInProgress;
    CreationIsExact(db, job.d, job.a, job.release, Deploy);
  }

  lemma Starting(db: Database, job: Job)
    requires SchemaHolds(Working(db, job, DeploymentStatus.Pending, None)) && Inv(Working(db, job, DeploymentStatus.Pending, None))
    ensures Apply(Working(db, job, DeploymentStatus.Pending, None), Events(job)[1].step, 0) ==
              Working(db, job, DeploymentStatus.Starting, Some(0))
  {
    hide Inv, SchemaHolds, AdvanceDeployment;
    AdvanceIsExact(Working(db, job, DeploymentStatus.Pending, None), job.d, DeploymentStatus.Pending, Start, 0);
  }

  lemma Reserving(db: Database, job: Job)
    requires SchemaHolds(db) && CanRun(db, job) && SchemaHolds(Working(db, job, DeploymentStatus.Starting, Some(0)))
    ensures var starting := Working(db, job, DeploymentStatus.Starting, Some(0));
            Apply(starting, Events(job)[2].step, 0) ==
              starting.(reservations := starting.reservations[job.port := ReservationRow(job.a, job.d)])
  {
    hide SchemaHolds, ReservePort, ReservationsOk, HasWorkInProgress;
    var starting := Working(db, job, DeploymentStatus.Starting, Some(0));
    SchemaShowsContainers(starting);
    NewDeploymentsHoldNothing(db, job.d);
    forall p
      ensures !HoldsReservation(starting, p, job.d)
    {
      assert !HoldsReservation(db, p, job.d);
    }
    ReservationIsExact(starting, job.a, job.d, job.port, job.port);
    assert IsFree(starting, job.port);
  }

  lemma NewDeploymentsHoldNothing(db: Database, d: DeploymentId)
    requires SchemaHolds(db) && d !in db.deployments
    ensures forall p :: !HoldsReservation(db, p, d)
  {
    hide ApplicationsOk, ReleasesOk, DeploymentsOk, RuntimesOk, ExposuresOk;
  }

  lemma Registering(db: Database, job: Job, reserved: Database)
    requires CanRun(db, job) && SchemaHolds(reserved) && reserved.runtimes == db.runtimes
    requires reserved.deployments == Working(db, job, DeploymentStatus.Starting, Some(0)).deployments
    ensures Apply(reserved, Events(job)[3].step, 0) == WithRuntime(reserved, job)
  {
    hide SchemaHolds, RegisterCandidate, OwnersAgree, UniqueContainers, HasWorkInProgress, IsContainerId, IsUnused;
    SchemaShowsContainers(reserved);
    SchemaShowsOwners(reserved);
    assert !PortHeldByLiveRuntime(reserved, job.port);
    RegistrationIsExact(reserved, job.r, job.d, job.container, job.port, 80, 0);
  }

  lemma Consuming(db: Database, job: Job, reserved: Database)
    requires SchemaHolds(reserved) && job.port !in db.reservations
    requires reserved.reservations == db.reservations[job.port := ReservationRow(job.a, job.d)]
    ensures Apply(reserved, Events(job)[4].step, 0) == reserved.(reservations := db.reservations)
  {
    hide SchemaHolds;
    assert reserved.reservations - {job.port} == db.reservations;
    DroppingReservationsKeepsSchema(reserved, db.reservations);
  }

  lemma Verifying(db: Database, job: Job, starting: Database)
    requires SchemaHolds(starting) && Inv(starting)
    requires starting == WithRuntime(Working(db, job, DeploymentStatus.Starting, Some(0)), job)
    ensures Apply(starting, Events(job)[5].step, 0) == WithRuntime(Working(db, job, DeploymentStatus.Verifying, Some(0)), job)
  {
    hide Inv, SchemaHolds, AdvanceDeployment;
    AdvanceIsExact(starting, job.d, DeploymentStatus.Starting, RuntimeRunning, 0);
  }

  lemma Promoting(db: Database, job: Job, verifying: Database)
    requires SchemaHolds(verifying) && Inv(verifying) && CanRun(db, job)
    requires verifying == WithRuntime(Working(db, job, DeploymentStatus.Verifying, Some(0)), job)
    ensures Apply(verifying, Events(job)[6].step, 0) == Done(db, job)
  {
    hide Inv, SchemaHolds, PromoteInternal, HasWorkInProgress, IsUnused, IsFree, IsContainerId;
    RuntimesAreJoined(verifying, job.r);
    InternalPromotionIsExact(verifying, job.r, 0);
    var after := Apply(verifying, Events(job)[6].step, 0);
    assert after.runtimes == PromotedRuntimes(verifying.runtimes, job);
  }

  // A job runs to completion, and this is all it changes.
  lemma JobsRun(db: Database, job: Job)
    requires SchemaHolds(db) && Inv(db) && CanRun(db, job)
    ensures Run(db, Events(job)) == Done(db, job) && SchemaHolds(Done(db, job)) && Inv(Done(db, job))
  {
    hide Inv, SchemaHolds, Apply, HasWorkInProgress, IsUnused, IsContainerId, PortHeldByLiveRuntime;
    var events := Events(job);
    var pending := Working(db, job, DeploymentStatus.Pending, None);
    Creating(db, job);
    SoundStep(db, events[0].step);
    var starting := Working(db, job, DeploymentStatus.Starting, Some(0));
    Starting(db, job);
    SoundStep(pending, events[1].step);
    var reserved := starting.(reservations := db.reservations[job.port := ReservationRow(job.a, job.d)]);
    Reserving(db, job);
    SoundStep(starting, events[2].step);
    Registering(db, job, reserved);
    SoundStep(reserved, events[3].step);
    Consuming(db, job, WithRuntime(reserved, job));
    SoundStep(WithRuntime(reserved, job), events[4].step);
    var registered := WithRuntime(starting, job);
    Verifying(db, job, registered);
    SoundStep(registered, events[5].step);
    var verifying := WithRuntime(Working(db, job, DeploymentStatus.Verifying, Some(0)), job);
    Promoting(db, job, verifying);
    SoundStep(verifying, events[6].step);
    SevenSteps(db, events, pending, starting, reserved, WithRuntime(reserved, job), registered, verifying, Done(db, job));
  }

  lemma SoundStep(db: Database, step: Step)
    requires SchemaHolds(db) && Inv(db)
    ensures SchemaHolds(Apply(db, step, 0)) && Inv(Apply(db, step, 0))
  {
    hide Inv, SchemaHolds, Apply;
    StepKeepsSchema(db, step, 0);
    StepKeepsInv(db, step, 0);
  }

  lemma SevenSteps(
    db: Database, events: seq<Event>, s1: Database, s2: Database, s3: Database, s4: Database, s5: Database, s6: Database,
    s7: Database)
    requires |events| == 7 && SchemaHolds(db) && s1 == Apply(db, events[0].step, events[0].at)
    requires SchemaHolds(s1) && s2 == Apply(s1, events[1].step, events[1].at)
    requires SchemaHolds(s2) && s3 == Apply(s2, events[2].step, events[2].at)
    requires SchemaHolds(s3) && s4 == Apply(s3, events[3].step, events[3].at)
    requires SchemaHolds(s4) && s5 == Apply(s4, events[4].step, events[4].at)
    requires SchemaHolds(s5) && s6 == Apply(s5, events[5].step, events[5].at)
    requires SchemaHolds(s6) && s7 == Apply(s6, events[6].step, events[6].at)
    ensures Run(db, events) == s7
  {
    hide SchemaHolds, Apply;
    RunTakesOneStep(db, events);
    RunTakesOneStep(s1, events[1..]);
    RunTakesOneStep(s2, events[1..][1..]);
    RunTakesOneStep(s3, events[1..][1..][1..]);
    RunTakesOneStep(s4, events[1..][1..][1..][1..]);
    RunTakesOneStep(s5, events[1..][1..][1..][1..][1..]);
    RunTakesOneStep(s6, events[1..][1..][1..][1..][1..][1..]);
    assert events[1..][1..][1..][1..][1..][1..][1..] == [];
  }

  // ---- three jobs in a row ----

  predicate AreApart(job: Job, next: Job) {
    && next.a == job.a && next.release != job.release && next.d != job.d && next.r != job.r
    && next.container != job.container && next.port != job.port
  }

  lemma JobsLeaveTheCatalogOpen(db: Database, job: Job, next: Job)
    requires CanRun(db, job) && CanRun(db, next) && AreApart(job, next)
    ensures !HasWorkInProgress(Done(db, job), next.a) && next.d !in Done(db, job).deployments
  {
    hide IsContainerId, IsUnused, IsFree, PromotedRuntimes;
    var after := Done(db, job);
    assert forall d :: d in after.deployments && d != job.d ==> d in db.deployments && after.deployments[d] == db.deployments[d];
  }

  lemma JobsLeavePorts(runtimes: map<RuntimeId, RuntimeRow>, db: Database, job: Job, next: Job)
    requires runtimes == PromotedRuntimes(db.runtimes[job.r := Candidate(job)], job)
    requires job.r !in db.runtimes && next.r !in db.runtimes && AreApart(job, next)
    requires IsUnused(db.runtimes, next.r, next.container) && !PortHeldByLiveRuntime(db, next.port)
    ensures next.r !in runtimes && IsUnused(runtimes, next.r, next.container)
    ensures forall x :: x in runtimes && IsLive(runtimes[x]) ==> runtimes[x].hostPort != next.port
  {
    forall x | x in runtimes
      ensures runtimes[x].container != next.container && (IsLive(runtimes[x]) ==> runtimes[x].hostPort != next.port)
    {
      if x != job.r {
        assert x in db.runtimes && runtimes[x].container == db.runtimes[x].container;
        assert runtimes[x].hostPort == db.runtimes[x].hostPort && IsLive(runtimes[x]) == IsLive(db.runtimes[x]);
      }
    }
  }

  lemma JobsLeaveRoom(db: Database, job: Job, next: Job)
    requires CanRun(db, job) && CanRun(db, next) && AreApart(job, next)
    ensures CanRun(Done(db, job), next)
  {
    hide IsContainerId, IsUnused, HasWorkInProgress, PromotedRuntimes;
    JobsLeaveTheCatalogOpen(db, job, next);
    JobsLeavePorts(Done(db, job).runtimes, db, job, next);
  }

  // After three jobs whose clock readings are the same, the third is active and either of the
  // other two may be the rollback target, although only the second was active before the third.
  lemma EqualReadingsLeaveTwoTargets(db: Database, first: Job, second: Job, third: Job)
    requires first.a in db.applications && AreApart(first, second) && AreApart(first, third) && AreApart(second, third)
    requires forall d :: d in db.deployments ==> db.deployments[d].applicationId != first.a
    requires forall a :: a in db.applications ==> a == first.a
    ensures var before := Done(Done(db, first), second);
            var after := Done(before, third);
            && before.applications[first.a].active == Some(second.d)
            && IsRollbackTarget(after, first.a, first.d) && IsRollbackTarget(after, first.a, second.d)
            && after.deployments[first.d].releaseId == first.release && after.deployments[second.d].releaseId == second.release
  {
  }

  // ---- a run of it ----

  datatype Cast = Cast(a: ApplicationId, first: Job, second: Job, third: Job, images: seq<string>)
  {
    predicate IsUsable() {
      && first.a == second.a == third.a == a
      && AreApart(first, second) && AreApart(first, third) && AreApart(second, third)
      && IsContainerId(first.container) && IsContainerId(second.container) && IsContainerId(third.container)
      && |images| == 3 && images[0] != images[1] && images[0] != images[2] && images[1] != images[2]
    }
  }

  function Stocking(c: Cast): seq<Event>
    requires |c.images| == 3
  {
    [ Event(ImportStep(c.a, "app", Intent.Internal(None)), 0),
      Event(CreateReleaseStep(c.first.release, c.a, c.images[0]), 0),
      Event(CreateReleaseStep(c.second.release, c.a, c.images[1]), 0),
      Event(CreateReleaseStep(c.third.release, c.a, c.images[2]), 0) ]
  }

  function Imported(c: Cast): Database {
    EMPTY.(applications := map[c.a := ApplicationRow("app", DesiredState.Stopped, None)],
           exposures := map[c.a := NewExposure(Intent.Internal(None))])
  }

  function Stock(c: Cast): Database
    requires |c.images| == 3
  {
    Imported(c).(releases := map[
      c.first.release := ReleaseRow(c.a, c.images[0]), c.second.release := ReleaseRow(c.a, c.images[1]),
      c.third.release := ReleaseRow(c.a, c.images[2])])
  }

  lemma ImportReaches(c: Cast)
    ensures |c.images| == 3 ==> Apply(EMPTY, Stocking(c)[0].step, 0) == Imported(c)
    ensures SchemaHolds(Imported(c)) && Inv(Imported(c))
  {
    hide SchemaHolds, Inv, Import;
    EmptyIsSound();
    ImportIsExact(EMPTY, c.a, "app", Intent.Internal(None));
    SoundStep(EMPTY, ImportStep(c.a, "app", Intent.Internal(None)));
  }

  lemma StockingReaches(c: Cast)
    requires c.IsUsable()
    ensures Run(EMPTY, Stocking(c)) == Stock(c) && SchemaHolds(Stock(c)) && Inv(Stock(c))
  {
    hide SchemaHolds, Inv, CreateRelease, NewExposure, IsContainerId;
    var events := Stocking(c);
    ImportReaches(c);
    var imported := Imported(c);
    var one := imported.(releases := map[c.first.release := ReleaseRow(c.a, c.images[0])]);
    ReleaseIsExact(imported, c.first.release, c.a, c.images[0]);
    assert Apply(imported, events[1].step, 0) == one;
    SoundStep(imported, events[1].step);
    var two := one.(releases := one.releases[c.second.release := ReleaseRow(c.a, c.images[1])]);
    ReleaseIsExact(one, c.second.release, c.a, c.images[1]);
    assert Apply(one, events[2].step, 0) == two;
    SoundStep(one, events[2].step);
    ReleaseIsExact(two, c.third.release, c.a, c.images[2]);
    assert Apply(two, events[3].step, 0) == Stock(c);
    SoundStep(two, events[3].step);
    FourSteps(events, imported, one, two, Stock(c));
  }

  lemma FourSteps(events: seq<Event>, s1: Database, s2: Database, s3: Database, s4: Database)
    requires |events| == 4 && s1 == Apply(EMPTY, events[0].step, events[0].at)
    requires SchemaHolds(s1) && s2 == Apply(s1, events[1].step, events[1].at)
    requires SchemaHolds(s2) && s3 == Apply(s2, events[2].step, events[2].at)
    requires SchemaHolds(s3) && s4 == Apply(s3, events[3].step, events[3].at)
    ensures Run(EMPTY, events) == s4
  {
    hide SchemaHolds, Apply;
    EmptyIsSound();
    RunTakesOneStep(EMPTY, events);
    RunTakesOneStep(s1, events[1..]);
    RunTakesOneStep(s2, events[1..][1..]);
    RunTakesOneStep(s3, events[1..][1..][1..]);
    assert events[1..][1..][1..][1..] == [];
  }

  lemma StockHasRoom(c: Cast, job: Job)
    requires c.IsUsable() && (job == c.first || job == c.second || job == c.third)
    ensures CanRun(Stock(c), job)
  {
    hide IsContainerId;
  }

  // The whole run, all of it at one reading of the clock.
  function TieEvents(c: Cast): seq<Event>
    requires |c.images| == 3
  {
    Stocking(c) + Events(c.first) + Events(c.second) + Events(c.third)
  }

  // It leaves two rollback targets with different releases: the deployment active before the
  // last promotion and one that was already superseded by it.
  lemma TiesAreReachable(c: Cast)
    requires c.IsUsable()
    ensures Reachable(Run(EMPTY, TieEvents(c)))
    ensures SchemaHolds(Run(EMPTY, Stocking(c) + Events(c.first) + Events(c.second)))
    ensures var before := Run(EMPTY, Stocking(c) + Events(c.first) + Events(c.second));
            var after := Run(EMPTY, TieEvents(c));
            && after == Run(before, Events(c.third))
            && c.a in before.applications && before.applications[c.a].active == Some(c.second.d)
            && IsRollbackTarget(after, c.a, c.first.d) && IsRollbackTarget(after, c.a, c.second.d)
            && after.deployments[c.first.d].releaseId != after.deployments[c.second.d].releaseId
  {
    hide SchemaHolds, Inv, Run, Events, Stocking, CanRun, Done, IsRollbackTarget, IsContainerId;
    EmptyIsSound();
    StockingReaches(c);
    StockHasRoom(c, c.first);
    StockHasRoom(c, c.second);
    StockHasRoom(c, c.third);
    var one := JobDone(Stock(c), c.first, c.second, c.third);
    var two := JobDone(one, c.second, c.third, c.third);
    DoneKeepsApplication(one, c.second, c.a);
    JobsRun(two, c.third);
    RunContinues(EMPTY, Stocking(c), Events(c.first));
    RunContinues(EMPTY, Stocking(c) + Events(c.first), Events(c.second));
    RunContinues(EMPTY, Stocking(c) + Events(c.first) + Events(c.second), Events(c.third));
    StockIsSmall(c);
    EqualReadingsLeaveTwoTargets(Stock(c), c.first, c.second, c.third);
  }

  lemma StockIsSmall(c: Cast)
    requires c.IsUsable()
    ensures c.a in Stock(c).applications && Stock(c).deployments == map[]
    ensures forall a :: a in Stock(c).applications ==> a == c.a
  {
  }

  lemma DoneKeepsApplication(db: Database, job: Job, a: ApplicationId)
    requires job.a in db.applications
    ensures a in db.applications ==> a in Done(db, job).applications
  {
  }

  // One job, after which the jobs still to come have room.
  lemma JobDone(db: Database, job: Job, next: Job, last: Job) returns (after: Database)
    requires SchemaHolds(db) && Inv(db) && CanRun(db, job) && CanRun(db, next) && CanRun(db, last)
    requires AreApart(job, next) && AreApart(job, last)
    ensures job.a in db.applications && after == Done(db, job) && Run(db, Events(job)) == after
    ensures SchemaHolds(after) && Inv(after) && CanRun(after, next) && CanRun(after, last) && job.a in after.applications
  {
    hide SchemaHolds, Inv, Run, Events, Done;
    JobsRun(db, job);
    JobsLeaveRoom(db, job, next);
    JobsLeaveRoom(db, job, last);
    DoneKeepsApplication(db, job, job.a);
    after := Done(db, job);
  }

  // ---- written out ----

  const CAST := Cast(
    ApplicationId(FIRST),
    Job(ApplicationId(FIRST), ReleaseId(FIRST), DeploymentId(FIRST), RuntimeId(FIRST), "a", 30000),
    Job(ApplicationId(FIRST), ReleaseId(SECOND), DeploymentId(SECOND), RuntimeId(SECOND), "b", 30001),
    Job(ApplicationId(FIRST), ReleaseId(THIRD), DeploymentId(THIRD), RuntimeId(THIRD), "c", 30002),
    [Image('0'), Image('1'), Image('2')])

  lemma CastIsUsable()
    ensures CAST.IsUsable() && forall i :: 0 <= i < 3 ==> ParseArtifact(CAST.images[i]).Ok?
  {
    hide Image, ParseArtifact;
    TheyDiffer();
    ImagesDiffer('0', '1');
    ImagesDiffer('0', '2');
    ImagesDiffer('1', '2');
    ImagesAreStorable('0');
    ImagesAreStorable('1');
    ImagesAreStorable('2');
    assert "a"[0] != "b"[0] && "a"[0] != "c"[0] && "b"[0] != "c"[0];
  }

  // Twenty-five steps within one second, after which the query may answer with a release that
  // is not the one served before.
  lemma ConcreteTie() returns (after: Database, served: DeploymentId, other: DeploymentId)
    ensures Reachable(after) && after == Run(EMPTY, TieEvents(CAST))
    ensures IsRollbackTarget(after, CAST.a, served) && IsRollbackTarget(after, CAST.a, other)
    ensures after.deployments[served].releaseId != after.deployments[other].releaseId
  {
    hide SchemaHolds, Run, IsRollbackTarget, TieEvents, Cast.IsUsable;
    EmptyIsSound();
    CastIsUsable();
    TiesAreReachable(CAST);
    after, served, other := Run(EMPTY, TieEvents(CAST)), CAST.second.d, CAST.first.d;
  }
}
