/** Promotion: exactly when it commits, and everything it changes when it does. */
module Promotion {
  import opened Wrappers
  import opened Identity
  import opened Deployment
  import opened Exposure
  import opened Schema
  import opened Statements
  import opened Workflows
  import opened Constraints
  import opened Hydration
  import opened Invariants

  // ---- the state after a promotion, row by row ----

  function PromotedRuntime(row: RuntimeRow, id: RuntimeId, application: ApplicationId, candidate: RuntimeId): RuntimeRow {
    if id == candidate then row.(state := RuntimeState.Running)
    else if row.applicationId == application && IsRunning(row) then row.(state := RuntimeState.Stopped)
    else row
  }

  // The candidate runs, every other running runtime of its application stopped, its deployment
  // succeeded at `now` and is active, the application is wanted running, and no other row moved.
  predicate IsPromotion(before: Database, after: Database, runtime: RuntimeId, now: Timestamp) {
    && runtime in before.runtimes
    && var candidate := before.runtimes[runtime];
    && candidate.deploymentId in before.deployments && candidate.applicationId in before.applications
    && after.runtimes.Keys == before.runtimes.Keys
    && (forall r :: r in before.runtimes ==>
          after.runtimes[r] == PromotedRuntime(before.runtimes[r], r, candidate.applicationId, runtime))
    && after.deployments == before.deployments[candidate.deploymentId :=
         before.deployments[candidate.deploymentId].(status := DeploymentStatus.Succeeded, finishedAt := Some(now))]
    && after.applications == before.applications[candidate.applicationId :=
         before.applications[candidate.applicationId].(active := Some(candidate.deploymentId), desired := DesiredState.Running)]
    && after.releases == before.releases && after.reservations == before.reservations
  }

  // ---- the transactions ----

  // Stopping the others leaves the candidate as the only runtime that can run.
  lemma StoppedOthersLeavesNone(db: Database, candidate: RuntimeId)
    requires candidate in db.runtimes && !IsRunning(db.runtimes[candidate])
    ensures var application := db.runtimes[candidate].applicationId;
            NoneRunning(StoppedOthers(db.runtimes, application, candidate), application)
  {
  }

  // The database each write of a promotion leaves behind, in their order.
  function AfterStop(db: Database, target: PromotionTarget): Database {
    db.(runtimes := StoppedOthers(db.runtimes, target.applicationId, target.runtimeId))
  }

  function AfterStart(db: Database, target: PromotionTarget): Database
    requires target.runtimeId in db.runtimes
  {
    db.(runtimes := db.runtimes[target.runtimeId := db.runtimes[target.runtimeId].(state := RuntimeState.Running)])
  }

  function AfterSuccess(db: Database, target: PromotionTarget, now: Timestamp): Database
    requires target.deploymentId in db.deployments
  {
    db.(deployments := db.deployments[target.deploymentId := SucceededRow(db.deployments[target.deploymentId], now)])
  }

  function AfterActivation(db: Database, target: PromotionTarget): Database
    requires target.applicationId in db.applications
  {
    db.(applications := db.applications[target.applicationId :=
      db.applications[target.applicationId].(active := Some(target.deploymentId), desired := DesiredState.Running)])
  }

  // What an unobstructed target says about the rows it was loaded from.
  predicate IsReady(db: Database, target: PromotionTarget) {
    && target.runtimeId in db.runtimes && target.deploymentId in db.deployments && target.applicationId in db.applications
    && var row := db.runtimes[target.runtimeId];
    && row.state.Starting? && IsLive(row) && row.applicationId == target.applicationId
    && db.deployments[target.deploymentId].applicationId == target.applicationId
    && db.deployments[target.deploymentId].status == target.status && target.status.IsNonterminal()
  }

  lemma InternalWritesCommit(db: Database, target: PromotionTarget, now: Timestamp)
    requires SchemaHolds(db) && IsReady(db, target)
    ensures InternalWrites(db, target, now) ==
              Ok(AfterActivation(AfterSuccess(AfterStart(AfterStop(db, target), target), target, now), target))
  {
    hide SchemaHolds;
    var runtime := target.runtimeId;
    StoppingKeepsSchema(db, target.applicationId, runtime);
    var stopped := AfterStop(db, target);
    assert StopOtherRunningRuntimes(db, target.applicationId, runtime) == (stopped, Updated);
    StoppedOthersLeavesNone(db, runtime);
    StartingKeepsSchema(stopped, runtime);
    var started := AfterStart(stopped, target);
    assert StartRuntime(stopped, runtime) == (started, Updated);
    SucceedingKeepsSchema(started, target.deploymentId, now);
    var succeeded := AfterSuccess(started, target, now);
    assert MarkSucceeded(started, target.deploymentId, target.status, now) == (succeeded, Updated);
    ActivatingKeepsSchema(succeeded, target.applicationId, target.deploymentId);
    assert ActivateDeployment(succeeded, target.applicationId, target.deploymentId) == (AfterActivation(succeeded, target), Updated);
  }

  function RouteRow(row: ExposureRow, runtime: RuntimeId, version: ConfigurationVersion, now: Timestamp): ExposureRow {
    UpdatedExposure(row, CompletePublicExposureChange(runtime, version), now)
  }

  function AfterRoute(db: Database, target: PromotionTarget, version: ConfigurationVersion, now: Timestamp): Database
    requires target.applicationId in db.exposures
  {
    db.(exposures := db.exposures[target.applicationId :=
      RouteRow(db.exposures[target.applicationId], target.runtimeId, version, now)])
  }

  // The public chain commits unless the exposure is no longer being applied.
  lemma PublicWritesCommit(db: Database, target: PromotionTarget, version: ConfigurationVersion, now: Timestamp)
    requires SchemaHolds(db) && IsReady(db, target) && target.applicationId in db.exposures
    ensures PublicWrites(db, target, version, now) ==
              if db.exposures[target.applicationId].visibility.Public? && db.exposures[target.applicationId].state.Applying? then
                Ok(AfterActivation(AfterSuccess(AfterRoute(AfterStart(AfterStop(db, target), target),
                  target, version, now), target, now), target))
              else Err(ChangedDuringPromotion)
  {
    hide SchemaHolds;
    var runtime := target.runtimeId;
    StoppingKeepsSchema(db, target.applicationId, runtime);
    var stopped := AfterStop(db, target);
    assert StopOtherRunningRuntimes(db, target.applicationId, runtime) == (stopped, Updated);
    StoppedOthersLeavesNone(db, runtime);
    StartingKeepsSchema(stopped, runtime);
    var started := AfterStart(stopped, target);
    assert StartRuntime(stopped, runtime) == (started, Updated);
    if db.exposures[target.applicationId].visibility.Public? && db.exposures[target.applicationId].state.Applying? {
      CompletingKeepsSchema(started, target.applicationId, runtime, version, now);
      var exposed := AfterRoute(started, target, version, now);
      assert UpdateExposure(started, target.applicationId, CompletePublicExposureChange(runtime, version), now) == (exposed, Updated);
      SucceedingKeepsSchema(exposed, target.deploymentId, now);
      var succeeded := AfterSuccess(exposed, target, now);
      assert MarkSucceeded(exposed, target.deploymentId, target.status, now) == (succeeded, Updated);
      ActivatingKeepsSchema(succeeded, target.applicationId, target.deploymentId);
      assert ActivateDeployment(succeeded, target.applicationId, target.deploymentId) == (AfterActivation(succeeded, target), Updated);
    }
  }

  // The committed database with some exposure table: a promotion finished at `now`.
  lemma WritesAreAPromotion(db: Database, next: Database, target: PromotionTarget, now: Timestamp)
    requires IsReady(db, target) && db.runtimes[target.runtimeId].deploymentId == target.deploymentId
    requires next.(exposures := db.exposures) ==
               AfterActivation(AfterSuccess(AfterStart(AfterStop(db, target), target), target, now), target)
    ensures IsPromotion(db, next, target.runtimeId, now)
    ensures LoadFinishedAt(next, target.deploymentId) == Ok(now)
  {
    var stopped := StoppedOthers(db.runtimes, target.applicationId, target.runtimeId);
    assert stopped.Keys == db.runtimes.Keys;
    var after := AfterActivation(AfterSuccess(AfterStart(AfterStop(db, target), target), target, now), target);
    assert next.applications == after.applications && next.deployments == after.deployments
        && next.runtimes == after.runtimes && next.releases == after.releases && next.reservations == after.reservations;
  }

  // ---- exactly when a promotion commits ----

  // Every join of the target query finds its row, and a running runtime has its evidence.
  predicate IsJoined(db: Database, runtime: RuntimeId) {
    && runtime in db.runtimes
    && var row := db.runtimes[runtime];
    && row.deploymentId in db.deployments && row.applicationId in db.applications && row.applicationId in db.exposures
    && db.deployments[row.deploymentId].applicationId == row.applicationId
    && (db.exposures[row.applicationId].visibility.Public? ==> db.exposures[row.applicationId].domain.Some?)
    && (row.state.Running? ==>
          db.deployments[row.deploymentId].status.Succeeded? && db.deployments[row.deploymentId].finishedAt.Some?)
  }

  lemma RuntimesAreJoined(db: Database, runtime: RuntimeId)
    requires Inv(db)
    ensures runtime in db.runtimes ==> IsJoined(db, runtime)
  {
    hide UniqueContainers, OneRunningPerApplication, OneLiveEndpoint, OneOwnerPerPublicDomain, OneInProgress, IsLegalDeployment;
  }

  // A starting, live, observed-running candidate with one deployment step left to take.
  predicate IsPromotable(db: Database, runtime: RuntimeId, visibility: Visibility) {
    && IsJoined(db, runtime)
    && var row := db.runtimes[runtime];
    && row.state.Starting? && IsLive(row) && row.observed.Running?
    && (db.deployments[row.deploymentId].status.Verifying? || db.deployments[row.deploymentId].status.Activating?)
    && db.exposures[row.applicationId].visibility == visibility
  }

  function Evidence(db: Database, runtime: RuntimeId): PromotedCandidate
    requires IsJoined(db, runtime) && db.runtimes[runtime].state.Running?
  {
    var deployment := db.runtimes[runtime].deploymentId;
    PromotedCandidate(runtime, deployment, db.deployments[deployment].finishedAt.value)
  }

  lemma UnobstructedTargetsArePromotable(db: Database, runtime: RuntimeId, visibility: Visibility)
    requires IsJoined(db, runtime)
    ensures LoadPromotionTarget(db, runtime).Some?
    ensures var target := LoadPromotionTarget(db, runtime).value;
            && target.runtimeId == runtime && target.deploymentId == db.runtimes[runtime].deploymentId
            && target.applicationId == db.runtimes[runtime].applicationId
            && (Obstacle(target, visibility).None? <==> IsPromotable(db, runtime, visibility))
            && (Obstacle(target, visibility).None? ==> IsReady(db, target))
            && (target.CompletedPromotion() ==
                  if db.runtimes[runtime].state.Running? then Some(Evidence(db, runtime)) else None)
  {
  }

  predicate ChangesNothing(db: Database, next: Database, result: Result<PromotedCandidate, PromotionError>) {
    next == db && result.Err? && result.error != PromotionError.Persistence
  }

  lemma InternalPromotionCommits(db: Database, runtime: RuntimeId, now: Timestamp)
    requires SchemaHolds(db) && IsPromotable(db, runtime, Visibility.Internal)
    ensures var (next, result) := PromoteInternal(db, runtime, now);
            && result == Ok(PromotedCandidate(runtime, db.runtimes[runtime].deploymentId, now))
            && IsPromotion(db, next, runtime, now) && next.exposures == db.exposures
  {
    hide SchemaHolds, InternalWrites, IsPromotion, LoadFinishedAt;
    UnobstructedTargetsArePromotable(db, runtime, Visibility.Internal);
    var target := LoadPromotionTarget(db, runtime).value;
    hide LoadPromotionTarget, Obstacle;
    InternalWritesCommit(db, target, now);
    WritesAreAPromotion(db, InternalWrites(db, target, now).value, target, now);
  }

  lemma PublicPromotionCommits(db: Database, runtime: RuntimeId, version: ConfigurationVersion, now: Timestamp)
    requires SchemaHolds(db) && IsPromotable(db, runtime, Visibility.Public)
    ensures var (next, result) := PromotePublic(db, runtime, version, now);
            var application := db.runtimes[runtime].applicationId;
            if db.exposures[application].state.Applying? then
              && result == Ok(PromotedCandidate(runtime, db.runtimes[runtime].deploymentId, now))
              && IsPromotion(db, next, runtime, now)
              && next.exposures == db.exposures[application := RouteRow(db.exposures[application], runtime, version, now)]
            else next == db && result == Err(ChangedDuringPromotion)
  {
    hide SchemaHolds, PublicWrites, IsPromotion, LoadFinishedAt;
    UnobstructedTargetsArePromotable(db, runtime, Visibility.Public);
    var target := LoadPromotionTarget(db, runtime).value;
    hide LoadPromotionTarget, Obstacle;
    PublicWritesCommit(db, target, version, now);
    if db.exposures[target.applicationId].state.Applying? {
      WritesAreAPromotion(db, PublicWrites(db, target, version, now).value, target, now);
    }
  }

  // An internal promotion repeats its evidence for a running runtime, commits for exactly the
  // promotable runtimes of internal applications, and changes nothing otherwise. No guarded
  // write inside the transaction can be stale or refused.
  lemma InternalPromotionIsExact(db: Database, runtime: RuntimeId, now: Timestamp)
    requires Inv(db)
    ensures var (next, result) := PromoteInternal(db, runtime, now);
            if IsJoined(db, runtime) && db.runtimes[runtime].state.Running? then
              next == db && result == Ok(Evidence(db, runtime))
            else if IsPromotable(db, runtime, Visibility.Internal) then
              && result == Ok(PromotedCandidate(runtime, db.runtimes[runtime].deploymentId, now))
              && IsPromotion(db, next, runtime, now) && next.exposures == db.exposures
            else ChangesNothing(db, next, result) && result.error != ChangedDuringPromotion
  {
    hide SchemaHolds, PromotionInvariant, DeploymentsLegal, ExposuresLegal, InternalWrites, IsPromotion, RouteRow;
    RuntimesAreJoined(db, runtime);
    if runtime in db.runtimes {
      UnobstructedTargetsArePromotable(db, runtime, Visibility.Internal);
      ObstaclesAreNotConflicts(LoadPromotionTarget(db, runtime).value, Visibility.Internal);
      if IsPromotable(db, runtime, Visibility.Internal) {
        InternalPromotionCommits(db, runtime, now);
      }
    }
  }

  // A public promotion commits exactly when its candidate is promotable and the exposure is
  // still being applied, and then confirms the route to the promoted runtime.
  lemma PublicPromotionIsExact(db: Database, runtime: RuntimeId, version: ConfigurationVersion, now: Timestamp)
    requires Inv(db)
    ensures var (next, result) := PromotePublic(db, runtime, version, now);
            if IsPromotable(db, runtime, Visibility.Public) && db.exposures[db.runtimes[runtime].applicationId].state.Applying? then
              && var application := db.runtimes[runtime].applicationId;
              && result == Ok(PromotedCandidate(runtime, db.runtimes[runtime].deploymentId, now))
              && IsPromotion(db, next, runtime, now)
              && next.exposures == db.exposures[application := RouteRow(db.exposures[application], runtime, version, now)]
            else
              && ChangesNothing(db, next, result)
              && (result.error == ChangedDuringPromotion <==> IsPromotable(db, runtime, Visibility.Public))
  {
    hide SchemaHolds, PromotionInvariant, DeploymentsLegal, ExposuresLegal, PublicWrites, IsPromotion, RouteRow;
    RuntimesAreJoined(db, runtime);
    if runtime in db.runtimes {
      UnobstructedTargetsArePromotable(db, runtime, Visibility.Public);
      ObstaclesAreNotConflicts(LoadPromotionTarget(db, runtime).value, Visibility.Public);
      if IsPromotable(db, runtime, Visibility.Public) {
        PublicPromotionCommits(db, runtime, version, now);
      }
    }
  }

  lemma ConfirmedRouteLoads(row: ExposureRow, runtime: RuntimeId, version: ConfigurationVersion, now: Timestamp)
    requires IsReadable(row)
    ensures HydrateExposure(row).Some?
    ensures HydrateExposure(RouteRow(row, runtime, version, now)) ==
              Some(Exposure(HydrateExposure(row).value.intent, Materialization.Active(ConfirmedRoute(runtime, version, now))))
  {
    ExposureLoadsExactlyReadableRows(row);
  }

  // What a public promotion wrote is what the next reader loads: the intent from before it and
  // an active route to the promoted runtime at the promoted version.
  lemma PromotedRouteReadsBack(db: Database, runtime: RuntimeId, version: ConfigurationVersion, now: Timestamp)
    requires Inv(db) && PromotePublic(db, runtime, version, now).1.Ok?
    ensures var next := PromotePublic(db, runtime, version, now).0;
            && runtime in db.runtimes && var a := db.runtimes[runtime].applicationId;
            && a in db.exposures && a in next.exposures && HydrateExposure(db.exposures[a]).Some?
            && HydrateExposure(next.exposures[a]) == Some(Exposure(
                 HydrateExposure(db.exposures[a]).value.intent, Materialization.Active(ConfirmedRoute(runtime, version, now))))
  {
    hide SchemaHolds, PromotionInvariant, DeploymentsLegal, PromotePublic, IsReadable, HydrateExposure, RouteRow, IsPromotion;
    PublicPromotionIsExact(db, runtime, version, now);
    ConfirmedRouteLoads(db.exposures[db.runtimes[runtime].applicationId], runtime, version, now);
  }

  lemma ObstaclesAreNotConflicts(target: PromotionTarget, visibility: Visibility)
    ensures Obstacle(target, visibility) != Some(ChangedDuringPromotion)
    ensures Obstacle(target, visibility) != Some(PromotionError.Persistence)
  {
  }

  // ---- what a promotion keeps ----

  lemma PromotionKeepsServing(before: Database, after: Database, runtime: RuntimeId, now: Timestamp)
    requires ActiveServes(before.applications, before.deployments, before.runtimes) && OwnersAgree(before)
    requires IsPromotion(before, after, runtime, now)
    requires before.deployments[before.runtimes[runtime].deploymentId].applicationId == before.runtimes[runtime].applicationId
    requires IsLive(before.runtimes[runtime])
    ensures ActiveServes(after.applications, after.deployments, after.runtimes)
  {
    var application := before.runtimes[runtime].applicationId;
    assert runtime in after.runtimes && IsRunning(after.runtimes[runtime]);
    forall a | a in after.applications && after.applications[a].active.Some?
      ensures HasRunning(after.runtimes, after.applications[a].active.value)
    {
      if a != application {
        var r :| r in before.runtimes && before.runtimes[r].deploymentId == before.applications[a].active.value
                 && IsRunning(before.runtimes[r]);
        assert before.runtimes[r].applicationId == a;
        assert r in after.runtimes && after.runtimes[r] == before.runtimes[r];
      }
    }
  }

  lemma PromotionKeepsRunning(before: Database, after: Database, runtime: RuntimeId, now: Timestamp)
    requires RunningIsActive(before.applications, before.runtimes)
    requires IsPromotion(before, after, runtime, now)
    requires IsLive(before.runtimes[runtime])
    ensures RunningIsActive(after.applications, after.runtimes)
  {
    forall r | r in after.runtimes && after.runtimes[r].state.Running?
      ensures IsLive(after.runtimes[r]) && after.runtimes[r].applicationId in after.applications
      ensures after.applications[after.runtimes[r].applicationId].active == Some(after.runtimes[r].deploymentId)
    {
      if r != runtime {
        assert before.runtimes[r].state.Running? && IsRunning(before.runtimes[r]);
      }
    }
  }

  lemma PromotionKeepsStarted(before: Database, after: Database, runtime: RuntimeId, now: Timestamp)
    requires StartedByPromotion(before.runtimes, before.deployments)
    requires IsPromotion(before, after, runtime, now)
    requires !before.deployments[before.runtimes[runtime].deploymentId].status.Succeeded?
    ensures StartedByPromotion(after.runtimes, after.deployments)
  {
    assert forall r :: r in before.runtimes && r != runtime ==> (IsStarted(after.runtimes[r]) <==> IsStarted(before.runtimes[r]));
    assert forall r :: r in before.runtimes ==> after.runtimes[r].deploymentId == before.runtimes[r].deploymentId;
  }
}
