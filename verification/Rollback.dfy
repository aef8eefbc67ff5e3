/** Rollback selection: what the newest inactive success is after promotions, and why two rollbacks undo each other. */
module Rollback {
  import opened Wrappers
  import opened Identity
  import opened Deployment
  import opened Schema
  import opened Statements
  import opened Workflows
  import opened Constraints
  import opened Invariants
  import opened Promotion
  import opened Runs
  import opened Histories

  predicate IsSuccess(db: Database, application: ApplicationId, d: DeploymentId) {
    && d in db.deployments && db.deployments[d].applicationId == application
    && db.deployments[d].status.Succeeded? && db.deployments[d].finishedAt.Some?
  }

  function FinishOf(db: Database, d: DeploymentId): Timestamp
    requires d in db.deployments && db.deployments[d].finishedAt.Some?
  {
    db.deployments[d].finishedAt.value
  }

  // A succeeded deployment no application has active.
  predicate IsInactiveSuccess(db: Database, application: ApplicationId, d: DeploymentId) {
    IsSuccess(db, application, d) && forall a :: a in db.applications ==> db.applications[a].active != Some(d)
  }

  // A row the newest-first query may return first; finish ties leave it a choice.
  ghost predicate IsRollbackTarget(db: Database, application: ApplicationId, d: DeploymentId) {
    && IsInactiveSuccess(db, application, d)
    && forall e :: IsInactiveSuccess(db, application, e) ==> FinishOf(db, e) <= FinishOf(db, d)
  }

  predicate IsActiveOrEarlier(db: Database, application: ApplicationId, d: DeploymentId)
    requires application in db.applications && IsSuccess(db, application, d)
  {
    && db.applications[application].active.Some?
    && var active := db.applications[application].active.value;
    && (d == active || (IsSuccess(db, application, active) && FinishOf(db, d) < FinishOf(db, active)))
  }

  // Every success of an application finished before its active deployment did.
  ghost predicate ActiveIsLatest(db: Database) {
    forall a, d :: a in db.applications && IsSuccess(db, a, d) ==> IsActiveOrEarlier(db, a, d)
  }

  ghost predicate FinishedBefore(db: Database, now: Timestamp) {
    forall d :: d in db.deployments && db.deployments[d].finishedAt.Some? ==> FinishOf(db, d) < now
  }

  // ---- after one promotion ----

  // What a promotion does to successes: exactly one is added, it finishes now and is active.
  lemma PromotionAddsOneSuccess(before: Database, after: Database, r: RuntimeId, now: Timestamp)
    requires OwnersAgree(before) && IsPromotion(before, after, r, now)
    requires !before.deployments[before.runtimes[r].deploymentId].status.Succeeded?
    ensures var a, promoted := before.runtimes[r].applicationId, before.runtimes[r].deploymentId;
            && after.applications.Keys == before.applications.Keys
            && after.applications[a].active == Some(promoted)
            && (forall x :: x in before.applications && x != a ==> after.applications[x] == before.applications[x])
            && IsSuccess(after, a, promoted) && FinishOf(after, promoted) == now
            && (forall x, d :: IsSuccess(after, x, d) <==> IsSuccess(before, x, d) || (x == a && d == promoted))
            && (forall x, d :: IsSuccess(before, x, d) ==> FinishOf(after, d) == FinishOf(before, d))
  {
  }

  ghost predicate OnlyTarget(db: Database, application: ApplicationId, d: DeploymentId) {
    forall e :: IsRollbackTarget(db, application, e) <==> e == d
  }

  // After a promotion the previously active deployment is the rollback target, and the only
  // one, exactly when no other success of the application finished at its time or later.
  lemma PreviousIsTheOnlyTargetExactly(before: Database, after: Database, r: RuntimeId, previous: DeploymentId, now: Timestamp)
    requires OwnersAgree(before) && IsPromotion(before, after, r, now)
    requires ActiveServes(before.applications, before.deployments, before.runtimes)
    requires !before.deployments[before.runtimes[r].deploymentId].status.Succeeded?
    requires before.applications[before.runtimes[r].applicationId].active == Some(previous)
    requires IsSuccess(before, before.runtimes[r].applicationId, previous)
    ensures OnlyTarget(after, before.runtimes[r].applicationId, previous) <==>
            forall e :: IsSuccess(before, before.runtimes[r].applicationId, e) && e != previous ==>
              FinishOf(before, e) < FinishOf(before, previous)
  {
    hide IsPromotion, OwnersAgree, HasRunning;
    PromotionFrame(before, after, r, now);
    var a := before.runtimes[r].applicationId;
    PromotionAddsOneSuccess(before, after, r, now);
    var promoted := before.runtimes[r].deploymentId;
    forall e | IsSuccess(before, a, e)
      ensures IsInactiveSuccess(after, a, e)
    {
      forall x | x in after.applications
        ensures after.applications[x].active != Some(e)
      {
      }
    }
    assert forall e :: IsInactiveSuccess(after, a, e) ==> IsSuccess(before, a, e);
    assert forall e :: IsSuccess(before, a, e) ==> FinishOf(after, e) == FinishOf(before, e);
    if OnlyTarget(after, a, previous) {
      assert IsRollbackTarget(after, a, previous);
      forall e | IsSuccess(before, a, e) && e != previous
        ensures FinishOf(before, e) < FinishOf(before, previous)
      {
        assert IsInactiveSuccess(after, a, e);
        assert FinishOf(before, e) == FinishOf(before, previous) ==> IsRollbackTarget(after, a, e);
      }
    }
  }

  lemma PromotionFrame(before: Database, after: Database, r: RuntimeId, now: Timestamp)
    requires IsPromotion(before, after, r, now)
    ensures r in before.runtimes && before.runtimes[r].applicationId in before.applications
    ensures before.runtimes[r].deploymentId in before.deployments
  {
  }

  // ---- over runs with a strictly increasing clock ----

  predicate IsPromotionStep(step: Step) { step.PromoteInternalStep? || step.PromotePublicStep? }

  // A deployment row after any other step: as before, or not succeeded and finished now if at all.
  predicate AddsNoSuccess(db: Database, next: Database, d: DeploymentId, now: Timestamp) {
    d in next.deployments ==>
      || (d in db.deployments && next.deployments[d] == db.deployments[d])
      || (!next.deployments[d].status.Succeeded? &&
          (next.deployments[d].finishedAt.Some? ==> next.deployments[d].finishedAt.value == now))
  }

  lemma AdvanceAddsNoSuccess(db: Database, id: DeploymentId, read: DeploymentStatus, event: DeploymentEvent, d: DeploymentId, now: Timestamp)
    requires SchemaHolds(db) && SchemaHolds(AdvanceDeployment(db, id, read, event, now))
    ensures AddsNoSuccess(db, AdvanceDeployment(db, id, read, event, now), d, now)
  {
    hide SchemaHolds;
    var next := AdvanceDeployment(db, id, read, event, now);
    if id in db.deployments && next != db {
      SchemaShowsEvidence(db, id);
      SchemaShowsEvidence(next, id);
    }
  }

  lemma CreationAddsNoSuccess(
    db: Database, id: DeploymentId, a: ApplicationId, release: ReleaseId, kind: DeploymentType, d: DeploymentId, now: Timestamp)
    ensures AddsNoSuccess(db, CreateDeployment(db, id, a, release, kind).0, d, now)
  {
    hide SchemaHolds, HasWorkInProgress, IsActiveLiveRelease;
  }

  lemma FailureAddsNoSuccess(db: Database, id: DeploymentId, code: FailureCode, message: string, d: DeploymentId, now: Timestamp)
    ensures AddsNoSuccess(db, FailDeployment(db, id, code, message, now).0, d, now)
  {
    hide SchemaHolds, AreFailureDetails;
  }

  lemma OtherStepsAddNoSuccess(db: Database, step: Step, now: Timestamp, d: DeploymentId)
    requires SchemaHolds(db) && !IsPromotionStep(step)
    ensures AddsNoSuccess(db, Apply(db, step, now), d, now)
  {
    hide SchemaHolds, CreateDeployment, AdvanceDeployment, FailDeployment, AddsNoSuccess, UniqueContainers, ReservationsOk;
    hide Import, CreateRelease, ReservePort, ReleasePort, RegisterCandidate, ConsumePortReservation, UpdateExposure;
    hide MarkRuntimeRemoved, MarkStartingRuntimeMissing, ReconcileExternalRuntimeId, PersistObservation, SetDesiredState;
    StepKeepsSchema(db, step, now);
    match step {
      case CreateDeploymentStep(id, a, release, kind) => CreationAddsNoSuccess(db, id, a, release, kind, d, now);
      case AdvanceStep(id, read, event) => AdvanceAddsNoSuccess(db, id, read, event, d, now);
      case FailStep(id, code, message) => FailureAddsNoSuccess(db, id, code, message, d, now);
      case PromoteInternalStep(_) =>
      case PromotePublicStep(_, _) =>
      case _ =>
        OtherStepsLeaveDeployments(db, step, now);
        SameRowsAddNoSuccess(db, Apply(db, step, now), d, now);
    }
  }

  lemma SameRowsAddNoSuccess(db: Database, next: Database, d: DeploymentId, now: Timestamp)
    requires next.deployments == db.deployments
    ensures AddsNoSuccess(db, next, d, now)
  {
  }

  // Applications keep their active deployment at every other step; new ones have none.
  lemma OtherStepsKeepActive(db: Database, step: Step, now: Timestamp, a: ApplicationId)
    requires SchemaHolds(db) && !IsPromotionStep(step)
    ensures a in db.applications ==> a in Apply(db, step, now).applications
    ensures a in Apply(db, step, now).applications ==>
              Apply(db, step, now).applications[a].active == if a in db.applications then db.applications[a].active else None
  {
    hide SchemaHolds, ReservationsOk, UniqueContainers, IsFree, UpdatedExposure, ExposureGuard;
    hide HasWorkInProgress, IsActiveLiveRelease, PortHeldByLiveRuntime;
  }

  lemma OtherStepsKeepLatest(db: Database, step: Step, now: Timestamp)
    requires SchemaHolds(db) && Inv(db) && !IsPromotionStep(step)
    requires ActiveIsLatest(db) && FinishedBefore(db, now)
    ensures ActiveIsLatest(Apply(db, step, now)) && FinishedBefore(Apply(db, step, now), now + 1)
  {
    hide Inv, SchemaHolds, Apply;
    var next := Apply(db, step, now);
    forall d | d in next.deployments
      ensures AddsNoSuccess(db, next, d, now)
      ensures next.deployments[d].finishedAt.Some? ==> FinishOf(next, d) < now + 1
    {
      OtherStepsAddNoSuccess(db, step, now, d);
    }
    forall a, d | a in next.applications && IsSuccess(next, a, d)
      ensures IsActiveOrEarlier(next, a, d)
    {
      assert AddsNoSuccess(db, next, d, now);
      assert IsSuccess(db, a, d);
      OwnerExists(db, d);
      OtherStepsKeepActive(db, step, now, a);
      assert IsActiveOrEarlier(db, a, d);
      var active := db.applications[a].active.value;
      if d != active {
        StepEvolvesDeployment(db, step, now, active);
      }
    }
  }

  lemma OwnerExists(db: Database, d: DeploymentId)
    requires SchemaHolds(db) && d in db.deployments
    ensures db.deployments[d].applicationId in db.applications
  {
    hide SchemaHolds;
    SchemaShowsEvidence(db, d);
  }

  lemma PromotionKeepsLatest(db: Database, next: Database, r: RuntimeId, now: Timestamp)
    requires OwnersAgree(db) && IsPromotion(db, next, r, now)
    requires !db.deployments[db.runtimes[r].deploymentId].status.Succeeded?
    requires ActiveIsLatest(db) && FinishedBefore(db, now)
    ensures ActiveIsLatest(next) && FinishedBefore(next, now + 1)
  {
    hide OwnersAgree, IsPromotion;
    PromotionFrame(db, next, r, now);
    PromotionAddsOneSuccess(db, next, r, now);
    PromotionFinishesOneDeployment(db, next, r, now);
  }

  // The promotion a promotion step performed, when it changed anything.
  lemma PromotionStepIsAPromotion(db: Database, step: Step, now: Timestamp)
    requires SchemaHolds(db) && Inv(db) && IsPromotionStep(step)
    ensures Apply(db, step, now) != db ==>
              && IsPromotion(db, Apply(db, step, now), step.runtime, now)
              && !db.deployments[db.runtimes[step.runtime].deploymentId].status.Succeeded?
  {
    hide Inv, SchemaHolds, PromoteInternal, PromotePublic, IsPromotion;
    match step {
      case PromoteInternalStep(r) => InternalPromotionIsExact(db, r, now);
      case PromotePublicStep(r, version) => PublicPromotionIsExact(db, r, version, now);
      case _ =>
    }
  }

  lemma StepKeepsLatest(db: Database, step: Step, now: Timestamp)
    requires SchemaHolds(db) && Inv(db) && ActiveIsLatest(db) && FinishedBefore(db, now)
    ensures ActiveIsLatest(Apply(db, step, now)) && FinishedBefore(Apply(db, step, now), now + 1)
  {
    hide Inv, SchemaHolds, Apply, IsPromotion, ActiveIsLatest;
    if !IsPromotionStep(step) {
      OtherStepsKeepLatest(db, step, now);
    } else if Apply(db, step, now) != db {
      PromotionStepIsAPromotion(db, step, now);
      SchemaShowsOwners(db);
      PromotionKeepsLatest(db, Apply(db, step, now), step.runtime, now);
    }
  }

  // Every reading of the clock is later than the one before, and the first is after `from`.
  predicate ClockAdvances(events: seq<Event>, from: Timestamp) {
    events != [] ==> from <= events[0].at && ClockAdvances(events[1..], events[0].at + 1)
  }

  lemma {:induction false} RunKeepsLatest(db: Database, events: seq<Event>, from: Timestamp)
    requires SchemaHolds(db) && Inv(db) && ActiveIsLatest(db) && FinishedBefore(db, from) && ClockAdvances(events, from)
    ensures ActiveIsLatest(Run(db, events))
    decreases |events|
  {
    hide Inv, SchemaHolds, Apply, ActiveIsLatest;
    if events != [] {
      assert FinishedBefore(db, events[0].at);
      StepKeepsSchema(db, events[0].step, events[0].at);
      StepKeepsInv(db, events[0].step, events[0].at);
      StepKeepsLatest(db, events[0].step, events[0].at);
      RunKeepsLatest(Apply(db, events[0].step, events[0].at), events[1..], events[0].at + 1);
    }
  }

  // With a clock that advances between steps, the active deployment of every application is
  // its latest success, in every state a run from the empty database passes through.
  lemma ActiveIsAlwaysLatest(events: seq<Event>)
    requires ClockAdvances(events, 0)
    ensures ActiveIsLatest(Run(EMPTY, events))
  {
    hide Inv, SchemaHolds;
    EmptyIsSound();
    RunKeepsLatest(EMPTY, events, 0);
  }

  // ---- the two theorems about rollback ----

  // Right after a promotion the rollback target is the deployment that was active before it.
  lemma PromotionMakesPreviousTheTarget(db: Database, step: Step, now: Timestamp, a: ApplicationId, previous: DeploymentId)
    requires SchemaHolds(db) && Inv(db) && ActiveIsLatest(db) && FinishedBefore(db, now)
    requires IsPromotionStep(step) && Apply(db, step, now) != db
    requires step.runtime in db.runtimes && db.runtimes[step.runtime].applicationId == a
    requires a in db.applications && db.applications[a].active == Some(previous)
    ensures OnlyTarget(Apply(db, step, now), a, previous)
  {
    hide SchemaHolds, Apply, IsPromotion, OnlyTarget, RunningIsActive, StartedByPromotion;
    PromotionStepIsAPromotion(db, step, now);
    SchemaShowsOwners(db);
    ActiveIsASuccess(db, a);
    PreviousIsTheOnlyTargetExactly(db, Apply(db, step, now), step.runtime, previous, now);
    forall e | IsSuccess(db, a, e) && e != previous
      ensures FinishOf(db, e) < FinishOf(db, previous)
    {
      assert IsActiveOrEarlier(db, a, e);
    }
  }

  lemma ActiveIsASuccess(db: Database, a: ApplicationId)
    requires Inv(db) && a in db.applications && db.applications[a].active.Some?
    ensures IsSuccess(db, a, db.applications[a].active.value)
  {
    hide SchemaHolds, RunningIsActive, StartedByPromotion, HasRunning, ExposuresLegal;
  }

  // Only its own application can have a deployment active.
  lemma InactiveIsLocal(db: Database, a: ApplicationId, d: DeploymentId)
    requires Inv(db) && a in db.applications
    ensures IsInactiveSuccess(db, a, d) <==> IsSuccess(db, a, d) && db.applications[a].active != Some(d)
  {
    hide SchemaHolds, RunningIsActive, StartedByPromotion, HasRunning, ExposuresLegal, DeploymentsLegal;
  }

  lemma NewSuccessFinishesNow(db: Database, step: Step, now: Timestamp, a: ApplicationId, d: DeploymentId)
    requires SchemaHolds(db) && Inv(db)
    requires IsSuccess(Apply(db, step, now), a, d)
    ensures IsSuccess(db, a, d) || FinishOf(Apply(db, step, now), d) == now
  {
    hide Inv, SchemaHolds, Apply, IsPromotion, OwnersAgree;
    if IsPromotionStep(step) && Apply(db, step, now) != db {
      PromotionStepIsAPromotion(db, step, now);
      SchemaShowsOwners(db);
      PromotionFrame(db, Apply(db, step, now), step.runtime, now);
      PromotionAddsOneSuccess(db, Apply(db, step, now), step.runtime, now);
    } else if !IsPromotionStep(step) {
      OtherStepsAddNoSuccess(db, step, now, d);
    }
  }

  lemma {:induction false} NewSuccessesAreLate(db: Database, events: seq<Event>, from: Timestamp, a: ApplicationId, d: DeploymentId)
    requires SchemaHolds(db) && Inv(db) && ClockAdvances(events, from)
    requires IsSuccess(Run(db, events), a, d)
    ensures IsSuccess(db, a, d) || FinishOf(Run(db, events), d) >= from
    decreases |events|
  {
    hide Inv, SchemaHolds, Apply;
    if events != [] {
      var next := Apply(db, events[0].step, events[0].at);
      StepKeepsSchema(db, events[0].step, events[0].at);
      StepKeepsInv(db, events[0].step, events[0].at);
      NewSuccessesAreLate(next, events[1..], events[0].at + 1, a, d);
      if IsSuccess(next, a, d) {
        NewSuccessFinishesNow(db, events[0].step, events[0].at, a, d);
        TerminalDeploymentsAreFinal(next, events[1..], d);
      }
    }
  }

  lemma SuccessesOnlyGrow(db: Database, events: seq<Event>, a: ApplicationId, d: DeploymentId)
    requires SchemaHolds(db) && Inv(db) && IsSuccess(db, a, d)
    ensures IsSuccess(Run(db, events), a, d) && FinishOf(Run(db, events), d) == FinishOf(db, d)
  {
    hide Inv, SchemaHolds, Run;
    TerminalDeploymentsAreFinal(db, events, d);
  }

  // While the active deployment is the same, so is every possible rollback target.
  lemma SameActiveSameTargets(db: Database, events: seq<Event>, from: Timestamp, a: ApplicationId, t: DeploymentId)
    requires SchemaHolds(db) && Inv(db) && ActiveIsLatest(db) && FinishedBefore(db, from) && ClockAdvances(events, from)
    requires a in db.applications && db.applications[a].active.Some?
    requires a in Run(db, events).applications && Run(db, events).applications[a].active == db.applications[a].active
    ensures IsRollbackTarget(Run(db, events), a, t) <==> IsRollbackTarget(db, a, t)
  {
    hide Inv, SchemaHolds, Run, IsInactiveSuccess, ClockAdvances;
    var later := Run(db, events);
    var active := db.applications[a].active.value;
    RunKeepsInv(db, events);
    RunKeepsLatest(db, events, from);
    ActiveIsASuccess(db, a);
    SuccessesOnlyGrow(db, events, a, active);
    forall e
      ensures IsSuccess(later, a, e) <==> IsSuccess(db, a, e)
      ensures IsSuccess(db, a, e) ==> FinishOf(later, e) == FinishOf(db, e)
      ensures IsInactiveSuccess(later, a, e) <==> IsInactiveSuccess(db, a, e)
    {
      if IsSuccess(db, a, e) {
        SuccessesOnlyGrow(db, events, a, e);
      }
      if IsSuccess(later, a, e) {
        NewSuccessesAreLate(db, events, from, a, e);
        assert IsActiveOrEarlier(later, a, e);
      }
      InactiveIsLocal(db, a, e);
      InactiveIsLocal(later, a, e);
    }
    assert forall e :: IsInactiveSuccess(db, a, e) ==> IsSuccess(db, a, e) by {
      forall e ensures IsInactiveSuccess(db, a, e) ==> IsSuccess(db, a, e) { InactiveIsLocal(db, a, e); }
    }
  }

  // The facts a rollback is run in: a reachable-shaped database at a reading of the clock.
  ghost predicate IsSettled(db: Database, now: Timestamp) {
    SchemaHolds(db) && Inv(db) && ActiveIsLatest(db) && FinishedBefore(db, now)
  }

  // A rollback deploys the release of its target again, as a new deployment.
  function RollBackTo(db: Database, target: DeploymentId, created: DeploymentId, a: ApplicationId)
    : (Database, Result<DeploymentId, CreationError>)
    requires target in db.deployments
  {
    CreateDeployment(db, created, a, db.deployments[target].releaseId, DeploymentType.Rollback)
  }

  // The deployment a rollback creates re-uses its target's release under a fresh identity.
  lemma RollbackReusesTheRelease(db: Database, target: DeploymentId, created: DeploymentId, a: ApplicationId)
    requires SchemaHolds(db) && Inv(db) && target in db.deployments
    requires RollBackTo(db, target, created, a).1.Ok?
    ensures var next := RollBackTo(db, target, created, a).0;
            && SchemaHolds(next) && Inv(next)
            && created in next.deployments && next.deployments[created].releaseId == db.deployments[target].releaseId
            && next.deployments[created].applicationId == a
  {
    hide Inv, SchemaHolds, HasWorkInProgress, IsActiveLiveRelease;
    var step := CreateDeploymentStep(created, a, db.deployments[target].releaseId, DeploymentType.Rollback);
    StepKeepsSchema(db, step, 0);
    StepKeepsInv(db, step, 0);
  }

  // Two successive rollbacks restore the release: a promotion replaces `original`; later, while
  // its deployment is still active, a rollback target is chosen, its release is deployed as
  // `created`, and `created` is promoted. The target was `original`, so the application serves
  // the original release again.
  lemma TwoRollbacksRestoreTheRelease(
    db: Database, first: Step, firstAt: Timestamp, between: seq<Event>, target: DeploymentId, created: DeploymentId,
    waiting: seq<Event>, second: Step, secondAt: Timestamp, a: ApplicationId, original: DeploymentId)
    requires IsSettled(db, firstAt) && IsPromotionStep(first) && Apply(db, first, firstAt) != db
    requires first.runtime in db.runtimes && db.runtimes[first.runtime].applicationId == a
    requires a in db.applications && db.applications[a].active == Some(original)
    requires SchemaHolds(Apply(db, first, firstAt)) && ClockAdvances(between, firstAt + 1)
    requires var rolled := Apply(db, first, firstAt);
             var loaded := Run(rolled, between);
             && a in rolled.applications && a in loaded.applications
             && loaded.applications[a].active == rolled.applications[a].active
             && IsRollbackTarget(loaded, a, target)
             && RollBackTo(loaded, target, created, a).1.Ok?
    requires var pending := RollBackTo(Run(Apply(db, first, firstAt), between), target, created, a).0;
             && SchemaHolds(pending) && SchemaHolds(Run(pending, waiting))
             && var ready := Run(pending, waiting);
             && IsPromotionStep(second) && Apply(ready, second, secondAt) != ready
             && second.runtime in ready.runtimes && ready.runtimes[second.runtime].deploymentId == created
    ensures target == original
    ensures var pending := RollBackTo(Run(Apply(db, first, firstAt), between), target, created, a).0;
            var restored := Apply(Run(pending, waiting), second, secondAt);
            && a in restored.applications && restored.applications[a].active == Some(created)
            && created in restored.deployments && original in db.deployments
            && restored.deployments[created].releaseId == db.deployments[original].releaseId
  {
    hide Inv, SchemaHolds, Apply, Run, RollBackTo, IsPromotion, ClockAdvances, OwnersAgree, IsInactiveSuccess;
    var rolled := Apply(db, first, firstAt);
    StepKeepsInv(db, first, firstAt);
    StepKeepsLatest(db, first, firstAt);
    PromotionMakesPreviousTheTarget(db, first, firstAt, a, original);
    PromotedIsActive(db, first, firstAt, a);
    SameActiveSameTargets(rolled, between, firstAt + 1, a, target);
    ActiveIsASuccess(db, a);
    StepEvolvesDeployment(db, first, firstAt, original);
    DeploymentsKeepIdentity(rolled, between, original);
    RunKeepsInv(rolled, between);
    var loaded := Run(rolled, between);
    RollbackReusesTheRelease(loaded, target, created, a);
    var pending := RollBackTo(loaded, target, created, a).0;
    RunKeepsInv(pending, waiting);
    DeploymentsKeepIdentity(pending, waiting, created);
    var ready := Run(pending, waiting);
    SchemaShowsOwners(ready);
    RuntimeOwner(ready, second.runtime);
    StepEvolvesDeployment(ready, second, secondAt, created);
    PromotedIsActive(ready, second, secondAt, a);
  }

  lemma RuntimeOwner(db: Database, r: RuntimeId)
    requires OwnersAgree(db) && r in db.runtimes
    ensures db.runtimes[r].deploymentId in db.deployments
    ensures db.deployments[db.runtimes[r].deploymentId].applicationId == db.runtimes[r].applicationId
  {
  }

  lemma PromotedIsActive(db: Database, step: Step, now: Timestamp, a: ApplicationId)
    requires SchemaHolds(db) && Inv(db) && IsPromotionStep(step) && Apply(db, step, now) != db
    requires step.runtime in db.runtimes && db.runtimes[step.runtime].applicationId == a
    ensures a in Apply(db, step, now).applications
    ensures Apply(db, step, now).applications[a].active == Some(db.runtimes[step.runtime].deploymentId)
  {
    hide Inv, SchemaHolds, Apply, IsPromotion, OwnersAgree;
    PromotionStepIsAPromotion(db, step, now);
    SchemaShowsOwners(db);
    PromotionFrame(db, Apply(db, step, now), step.runtime, now);
    PromotionAddsOneSuccess(db, Apply(db, step, now), step.runtime, now);
  }
}
