/** Host ports over every run: allocation, exclusivity, and the handover to a runtime. */
module Ports {
  import opened Wrappers
  import opened Text
  import opened Identity
  import opened Deployment
  import opened Schema
  import opened Statements
  import opened Workflows
  import opened Constraints
  import opened Invariants
  import opened Promotion
  import opened Runs
  import opened Exactness
  import Histories

  // ---- the configured range ----

  // Rust's `u16` parser: one optional plus sign, then digits whose value fits.
  function ParseU16(text: string): Option<nat> {
    var digits := if text != "" && text[0] == '+' then text[1..] else text;
    if digits == "" || !AllDigits(digits) || DecimalValue(digits) > 65535 then None else Some(DecimalValue(digits))
  }

  function ParseRange(value: string): Option<(Port, Port)> {
    match SplitOnce(value, '-')
    case None => None
    case Some((left, right)) =>
      match (ParseU16(left), ParseU16(right))
      case (Some(start), Some(end)) =>
        if start == 0 || end == 0 || start > end then None else Some((start, end))
      case _ => None
  }

  // The spellings of a number: an optional plus sign, leading zeros, its decimal digits.
  ghost predicate Spells(text: string, n: nat) {
    exists plus, zeros :: IsPadding(plus, zeros) && text == plus + zeros + Decimal(n)
  }

  predicate IsPadding(plus: string, zeros: string) {
    (plus == "" || plus == "+") && forall i :: 0 <= i < |zeros| ==> zeros[i] == '0'
  }

  lemma {:induction false} LeadingZerosVanish(zeros: string, digits: string)
    requires AllDigits(digits) && forall i :: 0 <= i < |zeros| ==> zeros[i] == '0'
    ensures AllDigits(zeros + digits) && DecimalValue(zeros + digits) == DecimalValue(digits)
    decreases |zeros| + |digits|
  {
    var text := zeros + digits;
    if digits != "" {
      assert text[..|text| - 1] == zeros + digits[..|digits| - 1];
      LeadingZerosVanish(zeros, digits[..|digits| - 1]);
    } else if zeros != "" {
      assert text[..|text| - 1] == zeros[..|zeros| - 1] + "";
      LeadingZerosVanish(zeros[..|zeros| - 1], "");
    }
  }

  lemma DecimalGrows(front: nat, last: char)
    requires front > 0 && IsDigit(last)
    ensures Decimal(front * 10 + DigitValue(last)) == Decimal(front) + [last]
  {
    var n := front * 10 + DigitValue(last);
    assert n / 10 == front && n % 10 == DigitValue(last);
  }

  // Every digit string is its value's decimal digits behind some zeros.
  lemma {:induction false} DigitsAreDecimal(digits: string) returns (zeros: string)
    requires AllDigits(digits) && digits != ""
    ensures forall i :: 0 <= i < |zeros| ==> zeros[i] == '0'
    ensures digits == zeros + Decimal(DecimalValue(digits))
    decreases |digits|
  {
    hide Decimal;
    var front, last := digits[..|digits| - 1], digits[|digits| - 1];
    assert digits == front + [last] && DecimalValue(digits) == DecimalValue(front) * 10 + DigitValue(last);
    if DecimalValue(front) == 0 {
      zeros := front;
      OneDigit(last);
      if front != "" {
        var padding := DigitsAreDecimal(front);
        OneDigit('0');
      }
    } else {
      zeros := DigitsAreDecimal(front);
      DecimalGrows(DecimalValue(front), last);
      assert digits == zeros + (Decimal(DecimalValue(front)) + [last]);
    }
  }

  lemma OneDigit(c: char)
    requires IsDigit(c)
    ensures Decimal(DigitValue(c)) == [c]
  {
  }

  // The parser accepts exactly the spellings of the numbers that fit.
  lemma ParseU16IsExact(text: string, n: nat)
    ensures ParseU16(text) == Some(n) <==> n <= 65535 && Spells(text, n)
  {
    hide Decimal, DecimalValue;
    if ParseU16(text) == Some(n) {
      var digits := if text != "" && text[0] == '+' then text[1..] else text;
      var zeros := DigitsAreDecimal(digits);
      var plus := if text != "" && text[0] == '+' then "+" else "";
      assert text == plus + digits == plus + zeros + Decimal(n);
      assert IsPadding(plus, zeros);
    }
    if n <= 65535 && Spells(text, n) {
      SpellingsParse(text, n);
    }
  }

  lemma SpellingsParse(text: string, n: nat)
    requires n <= 65535 && Spells(text, n)
    ensures ParseU16(text) == Some(n)
  {
    hide Decimal, DecimalValue;
    var plus, zeros :| IsPadding(plus, zeros) && text == plus + zeros + Decimal(n);
    var digits := zeros + Decimal(n);
    LeadingZerosVanish(zeros, Decimal(n));
    DecimalRoundTrips(n);
    assert text == plus + digits;
    assert IsDigit(digits[0]);
    assert text[|plus|..] == digits;
    if plus == "" {
      assert text == digits;
    }
  }

  lemma SpellingsHaveNoDash(text: string, n: nat)
    requires Spells(text, n)
    ensures '-' !in text
  {
    var plus, zeros :| IsPadding(plus, zeros) && text == plus + zeros + Decimal(n);
    LeadingZerosVanish(zeros, Decimal(n));
    assert '-' !in zeros + Decimal(n) && text == plus + (zeros + Decimal(n));
  }

  // A range is accepted exactly when it spells two ordered ports around one dash.
  lemma RangeIsExact(value: string, start: nat, end: nat)
    ensures ParseRange(value) == Some((start, end)) <==>
              && 1 <= start <= end <= 65535
              && exists left, right :: Spells(left, start) && Spells(right, end) && value == left + "-" + right
  {
    hide ParseU16, Spells;
    if ParseRange(value) == Some((start, end)) {
      var (left, right) := SplitOnce(value, '-').value;
      ParseU16IsExact(left, start);
      ParseU16IsExact(right, end);
      assert value == left + "-" + right;
    }
    if 1 <= start <= end <= 65535 &&
       exists left, right :: Spells(left, start) && Spells(right, end) && value == left + "-" + right {
      var left, right :| Spells(left, start) && Spells(right, end) && value == left + "-" + right;
      SpellingsHaveNoDash(left, start);
      SplitOnceAtCut(left, right, '-');
      ParseU16IsExact(left, start);
      ParseU16IsExact(right, end);
    }
  }

  lemma DecimalParses(n: nat)
    ensures ParseU16(Decimal(n)) == if n <= 65535 then Some(n) else None
  {
    DecimalRoundTrips(n);
    assert IsDigit(Decimal(n)[0]);
  }

  // In particular a printed pair of numbers is accepted exactly when it is an ordered range.
  lemma RangeRoundTrips(start: nat, end: nat)
    ensures ParseRange(Decimal(start) + "-" + Decimal(end)) ==
              if 1 <= start <= end <= 65535 then Some((start, end)) else None
  {
    assert '-' !in Decimal(start);
    SplitOnceAtCut(Decimal(start), Decimal(end), '-');
    DecimalParses(start);
    DecimalParses(end);
  }

  // ---- allocation ----

  lemma {:induction false} FirstFreeIsLeast(db: Database, from: nat, end: Port)
    requires 1 <= from
    ensures FirstFree(db, from, end).None? <==> forall p: Port :: from <= p <= end ==> !IsFree(db, p)
    ensures FirstFree(db, from, end).Some? ==>
              && var port := FirstFree(db, from, end).value;
              && from <= port <= end && IsFree(db, port)
              && forall p: Port :: from <= p < port ==> !IsFree(db, p)
    decreases end + 1 - from
  {
    hide IsFree;
    if from <= end && !IsFree(db, from) {
      FirstFreeIsLeast(db, from + 1, end);
    }
  }

  predicate IsLeastFree(db: Database, port: Port, start: Port, end: Port) {
    start <= port <= end && IsFree(db, port) && forall p: Port :: start <= p < port ==> !IsFree(db, p)
  }

  predicate NoneFree(db: Database, start: Port, end: Port) {
    forall p: Port :: start <= p <= end ==> !IsFree(db, p)
  }

  lemma ReservingKeepsSchema(db: Database, port: Port, application: ApplicationId, deployment: DeploymentId)
    requires SchemaHolds(db) && port !in db.reservations
    requires forall p :: !HoldsReservation(db, p, deployment)
    requires deployment in db.deployments && db.deployments[deployment].applicationId == application
    ensures SchemaHolds(db.(reservations := db.reservations[port := ReservationRow(application, deployment)]))
  {
    hide ApplicationsOk, ReleasesOk, DeploymentsOk, RuntimesOk, ExposuresOk;
    assert forall p :: p in db.reservations ==> !HoldsReservation(db, p, deployment);
  }

  // A reservation needs its deployment to exist and to be owned by the application.
  lemma UnownedReservationsAreRefused(db: Database, port: Port, application: ApplicationId, deployment: DeploymentId)
    requires !IsOwned(db, application, deployment)
    ensures !SchemaHolds(db.(reservations := db.reservations[port := ReservationRow(application, deployment)]))
  {
    hide ApplicationsOk, ReleasesOk, DeploymentsOk, RuntimesOk, ExposuresOk;
    var reservations := db.reservations[port := ReservationRow(application, deployment)];
    assert port in reservations && reservations[port] == ReservationRow(application, deployment);
  }

  predicate IsOwned(db: Database, application: ApplicationId, deployment: DeploymentId) {
    deployment in db.deployments && db.deployments[deployment].applicationId == application
  }

  // A deployment gets its existing port; or nothing when the range has no free one; or, if the
  // application owns it, the least free port of the range; or a refusal if it does not. Only
  // the new reservation writes.
  lemma ReservationIsExact(db: Database, application: ApplicationId, deployment: DeploymentId, start: Port, end: Port)
    requires SchemaHolds(db) && ReservationsOk(db.reservations, db.deployments)
    ensures var (next, result) := ReservePort(db, application, deployment, start, end);
            if exists p :: HoldsReservation(db, p, deployment) then
              next == db && result.Ok? && HoldsReservation(db, result.value, deployment)
            else if NoneFree(db, start, end) then
              next == db && result == Err(Exhausted(start, end))
            else if !IsOwned(db, application, deployment) then
              next == db && result == Err(ReservationError.Persistence)
            else
              && result.Ok? && IsLeastFree(db, result.value, start, end)
              && next == db.(reservations := db.reservations[result.value := ReservationRow(application, deployment)])
  {
    hide SchemaHolds, ReservationsOk, IsFree;
    FirstFreeIsLeast(db, start, end);
    if !exists p :: HoldsReservation(db, p, deployment) {
      var port := FirstFree(db, start, end);
      if port.Some? {
        FreePortsAreUnreserved(db, port.value);
        if IsOwned(db, application, deployment) {
          ReservingKeepsSchema(db, port.value, application, deployment);
        } else {
          UnownedReservationsAreRefused(db, port.value, application, deployment);
        }
      }
    }
  }

  lemma FreePortsAreUnreserved(db: Database, port: Port)
    requires IsFree(db, port)
    ensures port !in db.reservations
  {
  }

  // A repeat returns the same port whatever the range has become, and changes nothing.
  lemma ReservationRepeats(
    db: Database, application: ApplicationId, deployment: DeploymentId, start: Port, end: Port, start': Port, end': Port)
    requires SchemaHolds(db) && ReservationsOk(db.reservations, db.deployments)
    requires ReservePort(db, application, deployment, start, end).1.Ok?
    ensures var (next, result) := ReservePort(db, application, deployment, start, end);
            && ReservationsOk(next.reservations, next.deployments)
            && ReservePort(next, application, deployment, start', end') == (next, result)
  {
    hide SchemaHolds, IsFree, FirstFree;
    ReservationIsExact(db, application, deployment, start, end);
    var (next, result) := ReservePort(db, application, deployment, start, end);
    assert HoldsReservation(next, result.value, deployment);
    ReservingKeepsOneEach(db, next, result.value, application, deployment);
  }

  lemma ReservingKeepsOneEach(db: Database, next: Database, port: Port, application: ApplicationId, deployment: DeploymentId)
    requires ReservationsOk(db.reservations, db.deployments)
    requires next == db || ((forall p :: !HoldsReservation(db, p, deployment)) && IsOwned(db, application, deployment) &&
               next == db.(reservations := db.reservations[port := ReservationRow(application, deployment)]))
    ensures ReservationsOk(next.reservations, next.deployments)
  {
    assert forall p :: p in db.reservations && next != db ==> !HoldsReservation(db, p, deployment);
  }

  // ---- exclusivity ----

  predicate LiveOn(db: Database, r: RuntimeId, port: Port) {
    r in db.runtimes && IsLive(db.runtimes[r]) && db.runtimes[r].hostPort == port
  }

  // A deployment holds a port through its reservation or through a live runtime.
  ghost predicate HoldsPort(db: Database, port: Port, deployment: DeploymentId) {
    || HoldsReservation(db, port, deployment)
    || exists r :: LiveOn(db, r, port) && db.runtimes[r].deploymentId == deployment
  }

  ghost predicate PortsExclusive(db: Database) {
    forall port: Port, d, e :: HoldsPort(db, port, d) && HoldsPort(db, port, e) ==> d == e
  }

  // The same, as the one fact the constraints do not already give.
  predicate RuntimesOwnTheirReservations(db: Database) {
    forall r :: r in db.runtimes && IsLive(db.runtimes[r]) && db.runtimes[r].hostPort in db.reservations ==>
      db.reservations[db.runtimes[r].hostPort].deploymentId == db.runtimes[r].deploymentId
  }

  lemma ExclusiveMeansOwned(db: Database)
    requires OneLiveEndpoint(db.runtimes)
    ensures PortsExclusive(db) <==> RuntimesOwnTheirReservations(db)
  {
    if PortsExclusive(db) {
      forall r | r in db.runtimes && IsLive(db.runtimes[r]) && db.runtimes[r].hostPort in db.reservations
        ensures db.reservations[db.runtimes[r].hostPort].deploymentId == db.runtimes[r].deploymentId
      {
        var port := db.runtimes[r].hostPort;
        assert LiveOn(db, r, port);
        assert HoldsPort(db, port, db.runtimes[r].deploymentId);
        assert HoldsPort(db, port, db.reservations[port].deploymentId);
      }
    }
  }

  // A registration is the one step that can make two deployments share a port. It does so
  // exactly when it takes a port another deployment has reserved.
  predicate TakesReservedPort(db: Database, step: Step) {
    step.RegisterStep? && step.port in db.reservations && db.reservations[step.port].deploymentId != step.deployment
  }

  lemma RegistrationKeepsExclusivityExactly(db: Database, step: Step, now: Timestamp)
    requires SchemaHolds(db) && UniqueContainers(db.runtimes) && step.RegisterStep? && RuntimesOwnTheirReservations(db)
    requires Apply(db, step, now) != db
    ensures RuntimesOwnTheirReservations(Apply(db, step, now)) <==> !TakesReservedPort(db, step)
  {
    hide SchemaHolds, UniqueContainers, RegisterCandidate;
    RegistrationAddsACandidate(db, step.runtime, step.deployment, step.container, step.port, step.containerPort, now);
    var next := Apply(db, step, now);
    assert step.runtime in next.runtimes && IsLive(next.runtimes[step.runtime]);
    assert forall r :: r in db.runtimes ==> r in next.runtimes && next.runtimes[r] == db.runtimes[r];
  }

  // Every runtime of the earlier state keeps its port and owner, and none comes back to life.
  predicate RuntimesOnlyRetire(db: Database, next: Database) {
    forall r :: r in next.runtimes && IsLive(next.runtimes[r]) ==>
      && r in db.runtimes && IsLive(db.runtimes[r])
      && next.runtimes[r].hostPort == db.runtimes[r].hostPort && next.runtimes[r].deploymentId == db.runtimes[r].deploymentId
  }

  lemma PromotionOnlyMovesStates(db: Database, next: Database, r: RuntimeId, now: Timestamp)
    requires IsPromotion(db, next, r, now)
    ensures RuntimesOnlyRetire(db, next) && next.reservations == db.reservations
    ensures forall x, port: Port :: LiveOn(next, x, port) <==> LiveOn(db, x, port)
  {
  }

  lemma RemovalOnlyRetires(db: Database, r: RuntimeId, now: Timestamp)
    ensures var next := MarkRuntimeRemoved(db, r, now).0;
            RuntimesOnlyRetire(db, next) && next.reservations == db.reservations
  {
    hide SchemaHolds;
  }

  lemma AbandonmentOnlyRetires(db: Database, r: RuntimeId, now: Timestamp)
    ensures var next := MarkStartingRuntimeMissing(db, r, now).0;
            RuntimesOnlyRetire(db, next) && next.reservations == db.reservations
  {
    hide SchemaHolds;
  }

  lemma ReplacementOnlyRetires(db: Database, r: RuntimeId, expected: string, replacement: string, now: Timestamp)
    ensures var next := ReconcileExternalRuntimeId(db, r, expected, replacement, now).0;
            RuntimesOnlyRetire(db, next) && next.reservations == db.reservations
  {
    hide SchemaHolds;
  }

  lemma ObservationOnlyRetires(db: Database, r: RuntimeId, observed: ObservedState, now: Timestamp)
    ensures var next := PersistObservation(db, r, observed, now).0;
            RuntimesOnlyRetire(db, next) && next.reservations == db.reservations
  {
    hide SchemaHolds, PersistedObservation;
  }

  lemma RowUpdatesOnlyRetire(db: Database, step: Step, now: Timestamp)
    requires SchemaHolds(db)
    requires step.RetireStep? || step.AbandonStep? || step.ReplaceContainerStep? || step.ObserveStep?
    ensures RuntimesOnlyRetire(db, Apply(db, step, now)) && Apply(db, step, now).reservations == db.reservations
  {
    hide SchemaHolds, RuntimesOnlyRetire, MarkRuntimeRemoved, MarkStartingRuntimeMissing;
    hide ReconcileExternalRuntimeId, PersistObservation;
    match step
    case RetireStep(r) => RemovalOnlyRetires(db, r, now);
    case AbandonStep(r) => AbandonmentOnlyRetires(db, r, now);
    case ReplaceContainerStep(r, expected, replacement) => ReplacementOnlyRetires(db, r, expected, replacement, now);
    case ObserveStep(r, observed) => ObservationOnlyRetires(db, r, observed, now);
    case _ =>
  }

  lemma PromotionStepOnlyMovesStates(db: Database, step: Step, now: Timestamp)
    requires SchemaHolds(db) && Inv(db) && (step.PromoteInternalStep? || step.PromotePublicStep?)
    ensures RuntimesOnlyRetire(db, Apply(db, step, now)) && Apply(db, step, now).reservations == db.reservations
    ensures forall x, port: Port :: LiveOn(Apply(db, step, now), x, port) <==> LiveOn(db, x, port)
  {
    hide Inv, SchemaHolds, PromoteInternal, PromotePublic, IsPromotion, IsPromotable, LiveOn;
    var next := Apply(db, step, now);
    if next != db {
      match step {
        case PromoteInternalStep(r) =>
          InternalPromotionIsExact(db, r, now);
          PromotionOnlyMovesStates(db, next, r, now);
        case PromotePublicStep(r, version) =>
          PublicPromotionIsExact(db, r, version, now);
          PromotionOnlyMovesStates(db, next, r, now);
        case _ =>
      }
    }
  }

  predicate WritesReservations(step: Step) { step.ReserveStep? || step.ReleasePortStep? || step.ConsumeStep? }

  lemma OtherStepsLeaveReservations(db: Database, step: Step, now: Timestamp)
    requires SchemaHolds(db) && !WritesReservations(step) && !step.PromoteInternalStep? && !step.PromotePublicStep?
    ensures Apply(db, step, now).reservations == db.reservations
  {
    hide SchemaHolds, UniqueContainers, UpdatedExposure, ExposureGuard, HasWorkInProgress, IsActiveLiveRelease, PortHeldByLiveRuntime;
  }

  // A reservation is only ever added on a free port; releasing and consuming only remove.
  lemma ReservationsChangeSafely(db: Database, step: Step, now: Timestamp)
    requires SchemaHolds(db) && ReservationsOk(db.reservations, db.deployments) && WritesReservations(step)
    ensures var next := Apply(db, step, now);
            && next.runtimes == db.runtimes
            && forall p :: p in next.reservations ==>
                 (p in db.reservations && next.reservations[p] == db.reservations[p]) || (p !in db.reservations && IsFree(db, p))
  {
    hide SchemaHolds, ReservationsOk, IsFree;
    if step.ReserveStep? {
      FirstFreeIsLeast(db, step.start, step.end);
      var port := FirstFree(db, step.start, step.end);
      if port.Some? {
        FreePortsAreUnreserved(db, port.value);
      }
    }
  }

  // Every step except a registration onto another deployment's reservation keeps ports exclusive.
  lemma StepKeepsPortsExclusive(db: Database, step: Step, now: Timestamp)
    requires SchemaHolds(db) && Inv(db) && RuntimesOwnTheirReservations(db) && !TakesReservedPort(db, step)
    ensures RuntimesOwnTheirReservations(Apply(db, step, now))
  {
    hide Inv, SchemaHolds, Apply, UniqueContainers, ReservationsOk;
    var next := Apply(db, step, now);
    SchemaShowsContainers(db);
    if WritesReservations(step) {
      ReservationsChangeSafely(db, step, now);
    } else if step.PromoteInternalStep? || step.PromotePublicStep? {
      PromotionStepOnlyMovesStates(db, step, now);
    } else if step.RegisterStep? {
      if next != db {
        RegistrationKeepsExclusivityExactly(db, step, now);
      }
    } else {
      OtherStepsLeaveReservations(db, step, now);
      if step.RetireStep? || step.AbandonStep? || step.ReplaceContainerStep? || step.ObserveStep? {
        RowUpdatesOnlyRetire(db, step, now);
      } else {
        Histories.OtherStepsLeaveRuntimes(db, step, now);
      }
    }
  }

  // The guard of a registration that adds a candidate, as a caller can check it beforehand.
  predicate WillRegister(db: Database, step: Step) {
    && step.RegisterStep? && step.runtime !in db.runtimes && IsContainerId(step.container)
    && (forall r :: r in db.runtimes ==> db.runtimes[r].container != step.container)
    && step.deployment in db.deployments && db.deployments[step.deployment].status.Starting?
    && !PortHeldByLiveRuntime(db, step.port)
  }

  lemma RegistersExactly(db: Database, step: Step, now: Timestamp)
    requires SchemaHolds(db) && step.RegisterStep?
    ensures Apply(db, step, now) != db <==> WillRegister(db, step)
  {
    hide SchemaHolds, UniqueContainers, RegisterCandidate, IsContainerId, OwnersAgree, PortHeldByLiveRuntime;
    SchemaShowsContainers(db);
    SchemaShowsOwners(db);
    if step.runtime in db.runtimes {
      RegistrationAddsACandidate(db, step.runtime, step.deployment, step.container, step.port, step.containerPort, now);
    } else {
      RegistrationIsExact(db, step.runtime, step.deployment, step.container, step.port, step.containerPort, now);
    }
  }

  // The step is about to register a candidate on a port another deployment has reserved.
  predicate TakesAPort(db: Database, step: Step) {
    TakesReservedPort(db, step) && WillRegister(db, step)
  }

  // No step of the run does.
  ghost predicate NoPortIsTaken(db: Database, events: seq<Event>)
    requires SchemaHolds(db)
    decreases |events|
  {
    events != [] ==>
      && !TakesAPort(db, events[0].step)
      && (StepKeepsSchema(db, events[0].step, events[0].at);
          NoPortIsTaken(Apply(db, events[0].step, events[0].at), events[1..]))
  }

  // Every state the run passes through has exclusive ports.
  ghost predicate AlwaysExclusive(db: Database, events: seq<Event>)
    requires SchemaHolds(db)
    decreases |events|
  {
    && PortsExclusive(db)
    && (events != [] ==>
          (StepKeepsSchema(db, events[0].step, events[0].at);
           AlwaysExclusive(Apply(db, events[0].step, events[0].at), events[1..])))
  }

  // One step from exclusive ports leads to exclusive ports exactly when it takes none.
  lemma StepExclusivityIsExact(db: Database, step: Step, now: Timestamp)
    requires SchemaHolds(db) && Inv(db) && PortsExclusive(db)
    ensures SchemaHolds(Apply(db, step, now)) && Inv(Apply(db, step, now))
    ensures PortsExclusive(Apply(db, step, now)) <==> !TakesAPort(db, step)
  {
    hide Inv, SchemaHolds, Apply, PortsExclusive, RuntimesOwnTheirReservations, UniqueContainers, OneLiveEndpoint, ReservationsOk;
    hide WillRegister;
    var next := Apply(db, step, now);
    StepKeepsSchema(db, step, now);
    StepKeepsInv(db, step, now);
    InvShowsEndpoints(db);
    InvShowsEndpoints(next);
    SchemaShowsContainers(db);
    ExclusiveMeansOwned(db);
    ExclusiveMeansOwned(next);
    if !TakesReservedPort(db, step) {
      StepKeepsPortsExclusive(db, step, now);
    } else {
      RegistersExactly(db, step, now);
      if next != db {
        RegistrationKeepsExclusivityExactly(db, step, now);
      }
    }
  }

  lemma {:induction false} RunExclusivityIsExact(db: Database, events: seq<Event>)
    requires SchemaHolds(db) && Inv(db) && PortsExclusive(db)
    ensures AlwaysExclusive(db, events) <==> NoPortIsTaken(db, events)
    decreases |events|
  {
    hide Inv, SchemaHolds, Apply, PortsExclusive, TakesAPort;
    if events != [] {
      var next := Apply(db, events[0].step, events[0].at);
      StepExclusivityIsExact(db, events[0].step, events[0].at);
      if PortsExclusive(next) {
        RunExclusivityIsExact(next, events[1..]);
      } else {
        AlwaysStartsExclusive(next, events[1..]);
      }
    }
  }

  lemma AlwaysStartsExclusive(db: Database, events: seq<Event>)
    requires SchemaHolds(db)
    ensures AlwaysExclusive(db, events) ==> PortsExclusive(db)
  {
    hide SchemaHolds, Apply, PortsExclusive;
  }

  // From the empty database, under any interleaving across applications: no port is ever held
  // by two deployments exactly when no committed registration takes a port that another
  // deployment has reserved. Two live runtimes on one port, or two reservations of one
  // deployment, never occur at all.
  lemma PortsStayExclusive(events: seq<Event>)
    ensures AlwaysExclusive(EMPTY, events) <==> NoPortIsTaken(EMPTY, events)
    ensures var db := Run(EMPTY, events);
            && OneLiveEndpoint(db.runtimes)
            && (forall p, q, d :: HoldsReservation(db, p, d) && HoldsReservation(db, q, d) ==> p == q)
  {
    hide Inv, SchemaHolds;
    EmptyIsSound();
    RunExclusivityIsExact(EMPTY, events);
    RunKeepsInv(EMPTY, events);
    InvShowsEndpoints(Run(EMPTY, events));
  }

  lemma InvShowsEndpoints(db: Database)
    requires Inv(db)
    ensures SchemaHolds(db) && OneLiveEndpoint(db.runtimes) && ReservationsOk(db.reservations, db.deployments)
  {
    hide PromotionInvariant, DeploymentsLegal, ExposuresLegal, ApplicationsOk, ReleasesOk, DeploymentsOk, ExposuresOk;
    hide UniqueContainers, OneRunningPerApplication, OneLiveEndpoint, ReservationsOk;
  }

  // ---- the handover ----

  // The only steps that give a held port back: releasing or consuming its reservation while no
  // live runtime is on it, and removing the runtime on it while it is not reserved.
  predicate FreesPort(db: Database, step: Step, port: Port) {
    match step
    case ReleasePortStep(d) => HoldsReservation(db, port, d) && !PortHeldByLiveRuntime(db, port)
    case ConsumeStep(a, d, p) =>
      p == port && p in db.reservations && db.reservations[p] == ReservationRow(a, d) && !PortHeldByLiveRuntime(db, port)
    case RetireStep(r) => LiveOn(db, r, port) && db.runtimes[r].state.Stopped? && port !in db.reservations
    case AbandonStep(r) => LiveOn(db, r, port) && db.runtimes[r].state.Starting? && port !in db.reservations
    case _ => false
  }

  lemma ReservationRemovalIsExact(db: Database, step: Step, now: Timestamp, port: Port)
    requires SchemaHolds(db) && (step.ReleasePortStep? || step.ConsumeStep?) && !IsFree(db, port)
    ensures IsFree(Apply(db, step, now), port) <==> FreesPort(db, step, port)
  {
    hide SchemaHolds;
    match step {
      case ReleasePortStep(d) => DroppingReservationsKeepsSchema(db, ReleasedReservations(db.reservations, d));
      case ConsumeStep(a, d, p) => DroppingReservationsKeepsSchema(db, db.reservations - {p});
      case _ =>
    }
  }

  lemma RuntimeRemovalIsExact(db: Database, r: RuntimeId, now: Timestamp, port: Port)
    requires SchemaHolds(db) && OneLiveEndpoint(db.runtimes) && !IsFree(db, port)
    ensures IsFree(MarkRuntimeRemoved(db, r, now).0, port) <==> FreesPort(db, RetireStep(r), port)
  {
    hide SchemaHolds;
    if r in db.runtimes && db.runtimes[r].state.Stopped? && IsLive(db.runtimes[r]) {
      RemovingKeepsSchema(db, r, db.runtimes[r].(removedAt := Some(now)));
      OneRemoved(db, r, db.runtimes[r].(removedAt := Some(now)), port);
    }
  }

  lemma AbandonmentIsExact(db: Database, r: RuntimeId, now: Timestamp, port: Port)
    requires SchemaHolds(db) && OneLiveEndpoint(db.runtimes) && !IsFree(db, port)
    ensures IsFree(MarkStartingRuntimeMissing(db, r, now).0, port) <==> FreesPort(db, AbandonStep(r), port)
  {
    hide SchemaHolds;
    if r in db.runtimes && db.runtimes[r].state.Starting? && IsLive(db.runtimes[r]) {
      var row := db.runtimes[r].(observed := ObservedState.Missing, observedAt := now, removedAt := Some(now));
      RemovingKeepsSchema(db, r, row);
      OneRemoved(db, r, row, port);
    }
  }

  // Removing the one runtime on a port leaves no live runtime there, and no other port changes.
  lemma OneRemoved(db: Database, r: RuntimeId, row: RuntimeRow, port: Port)
    requires OneLiveEndpoint(db.runtimes) && r in db.runtimes && IsLive(db.runtimes[r]) && row.removedAt.Some?
    ensures PortHeldByLiveRuntime(db.(runtimes := db.runtimes[r := row]), port) <==>
            PortHeldByLiveRuntime(db, port) && db.runtimes[r].hostPort != port
  {
    var next := db.(runtimes := db.runtimes[r := row]);
    if PortHeldByLiveRuntime(db, port) && db.runtimes[r].hostPort != port {
      var x :| x in db.runtimes && IsLive(db.runtimes[x]) && db.runtimes[x].hostPort == port;
      assert x in next.runtimes && next.runtimes[x] == db.runtimes[x];
    }
    if PortHeldByLiveRuntime(next, port) {
      var x :| x in next.runtimes && IsLive(next.runtimes[x]) && next.runtimes[x].hostPort == port;
      assert x != r && x in db.runtimes && db.runtimes[x] == next.runtimes[x];
    }
  }

  ghost predicate KeepsHolders(db: Database, next: Database, port: Port) {
    && (port in db.reservations ==> port in next.reservations)
    && (forall r :: LiveOn(db, r, port) ==> LiveOn(next, r, port))
  }

  lemma KeptHoldersHold(db: Database, next: Database, port: Port)
    requires !IsFree(db, port) && KeepsHolders(db, next, port)
    ensures !IsFree(next, port)
  {
    if port !in db.reservations {
      var r :| r in db.runtimes && IsLive(db.runtimes[r]) && db.runtimes[r].hostPort == port;
      assert LiveOn(db, r, port) && LiveOn(next, r, port);
    }
  }

  lemma ReservingKeepsHolders(db: Database, step: Step, now: Timestamp, port: Port)
    requires SchemaHolds(db) && ReservationsOk(db.reservations, db.deployments) && step.ReserveStep?
    ensures KeepsHolders(db, Apply(db, step, now), port)
  {
    hide SchemaHolds, ReservationsOk, IsFree, FirstFree;
  }

  lemma ObservingKeepsHolders(db: Database, step: Step, now: Timestamp, port: Port)
    requires SchemaHolds(db) && (step.ReplaceContainerStep? || step.ObserveStep?)
    ensures KeepsHolders(db, Apply(db, step, now), port)
  {
    hide SchemaHolds;
  }

  lemma RegisteringKeepsHolders(db: Database, step: Step, now: Timestamp, port: Port)
    requires SchemaHolds(db) && UniqueContainers(db.runtimes) && step.RegisterStep?
    ensures KeepsHolders(db, Apply(db, step, now), port)
  {
    hide SchemaHolds, UniqueContainers, RegisterCandidate;
    RegistrationAddsACandidate(db, step.runtime, step.deployment, step.container, step.port, step.containerPort, now);
  }

  // Reserving, registering, promoting and observing never give a held port back.
  lemma OtherStepsKeepHolders(db: Database, step: Step, now: Timestamp, port: Port)
    requires SchemaHolds(db) && Inv(db)
    requires !step.ReleasePortStep? && !step.ConsumeStep? && !step.RetireStep? && !step.AbandonStep?
    ensures KeepsHolders(db, Apply(db, step, now), port)
  {
    hide Inv, SchemaHolds, Apply, UniqueContainers, ReservationsOk;
    SchemaShowsContainers(db);
    if step.ReserveStep? {
      ReservingKeepsHolders(db, step, now, port);
    } else if step.RegisterStep? {
      RegisteringKeepsHolders(db, step, now, port);
    } else if step.ReplaceContainerStep? || step.ObserveStep? {
      ObservingKeepsHolders(db, step, now, port);
    } else if step.PromoteInternalStep? || step.PromotePublicStep? {
      PromotionStepOnlyMovesStates(db, step, now);
    } else {
      OtherStepsLeaveReservations(db, step, now);
      Histories.OtherStepsLeaveRuntimes(db, step, now);
    }
  }

  // A held port becomes free exactly at the steps `FreesPort` names.
  lemma PortsAreFreedExactly(db: Database, step: Step, now: Timestamp, port: Port)
    requires SchemaHolds(db) && Inv(db) && !IsFree(db, port)
    ensures IsFree(Apply(db, step, now), port) <==> FreesPort(db, step, port)
  {
    hide Inv, SchemaHolds, IsFree, KeepsHolders, MarkRuntimeRemoved, MarkStartingRuntimeMissing, UniqueContainers, OneLiveEndpoint;
    hide ReservationsOk, Import, CreateRelease, CreateDeployment, AdvanceDeployment, FailDeployment, ReservePort, RegisterCandidate;
    hide PromoteInternal, PromotePublic, ReconcileExternalRuntimeId, PersistObservation, SetDesiredState, UpdateExposure;
    hide ReleasePort, ConsumePortReservation;
    InvShowsEndpoints(db);
    match step {
      case ReleasePortStep(_) => ReservationRemovalIsExact(db, step, now, port);
      case ConsumeStep(_, _, _) => ReservationRemovalIsExact(db, step, now, port);
      case RetireStep(r) => RuntimeRemovalIsExact(db, r, now, port);
      case AbandonStep(r) => AbandonmentIsExact(db, r, now, port);
      case _ =>
        OtherStepsKeepHolders(db, step, now, port);
        KeptHoldersHold(db, Apply(db, step, now), port);
    }
  }

  // Registration on the reserved port, then consumption at any later moment while the runtime
  // lives: the port is held by the same deployment before, between and after.
  lemma HandoverNeverFreesThePort(
    db: Database, register: Step, now: Timestamp, later: Database, application: ApplicationId, at: Timestamp)
    requires SchemaHolds(db) && Inv(db) && UniqueContainers(db.runtimes) && register.RegisterStep?
    requires HoldsReservation(db, register.port, register.deployment) && Apply(db, register, now) != db
    requires SchemaHolds(later) && Inv(later) && LiveOn(later, register.runtime, register.port)
    ensures !IsFree(db, register.port) && !IsFree(Apply(db, register, now), register.port)
    ensures LiveOn(Apply(db, register, now), register.runtime, register.port)
    ensures Apply(db, register, now).runtimes[register.runtime].deploymentId == register.deployment
    ensures !IsFree(Apply(later, ConsumeStep(application, register.deployment, register.port), at), register.port)
  {
    hide Inv, SchemaHolds, UniqueContainers, RegisterCandidate, ConsumePortReservation;
    RegistrationAddsACandidate(db, register.runtime, register.deployment, register.container, register.port,
                               register.containerPort, now);
    RegisteringKeepsHolders(db, register, now, register.port);
    PortsAreFreedExactly(later, ConsumeStep(application, register.deployment, register.port), at, register.port);
  }
}
