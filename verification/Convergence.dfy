/** Iterating the decision against a host whose effects do what each decision asks. */
module Convergence {
  import opened Wrappers
  import opened Text
  import opened Identity
  import opened Release
  import opened Rendering
  import opened Deployment
  import opened Exposure
  import opened Schema
  import opened Statements
  import opened Reconciliation

  // ---- an idealised host ----

  // Everything one reconciliation reads: persisted facts and the host as observed.
  datatype World = World(input: Input, observation: Observation)

  function Decision(world: World): Result<Decision, DecisionError>
    requires HasRuntime(world.input)
  {
    Decide(world.input, world.observation, ExpectationsFor(world.input))
  }

  predicate IsEffectful(decision: Result<Decision, DecisionError>) {
    decision.Ok? && (decision.value.RepairRuntime? || decision.value.RematerializeRuntime?
                     || decision.value.RemoveInternalRoute? || decision.value.MaterializePublicRoute?)
  }

  function WithContainer(input: Input, container: string): Input
    requires HasRuntime(input)
  {
    input.(active := Some(input.active.value.(runtime := Some(RuntimeOf(input).(container := container)))))
  }

  function WithMaterialization(input: Input, materialization: Materialization): Input
    requires input.exposure.Some?
  {
    input.(exposure := Some(input.exposure.value.(materialization := materialization)))
  }

  predicate NamedMatches(world: World) {
    HasRuntime(world.input) &&
    world.observation.named.MatchesExpectedRuntime(
      ExpectationsFor(world.input).containerName, world.input.active.value.artifact, world.input.name,
      RuntimeOf(world.input).Endpoint())
  }

  // What the host and the rows look like after an effect that succeeded; anything the effect
  // does not concern (the unit's state, the timestamp, the new container identity) is arbitrary.
  ghost predicate Effect(before: World, after: World)
    requires HasRuntime(before.input)
  {
    match Decision(before)
    case Ok(RepairRuntime(_, id)) =>
      && after.input == WithContainer(before.input, id)
      && before.observation.named.Container?
      && after.observation == before.observation.(recorded := before.observation.named.observation)
    case Ok(RematerializeRuntime(writes)) =>
      && after.observation.named.Container?
      && after.input == WithContainer(before.input, after.observation.named.id)
      && NamedMatches(after)
      && after.observation.recorded == after.observation.named.observation
      && after.observation.quadlet == (if writes then File(ExpectationsFor(before.input).quadlet) else before.observation.quadlet)
      && after.observation.fragment == before.observation.fragment
    case Ok(RemoveInternalRoute(_)) =>
      && before.input.exposure.Some?
      && after.input == WithMaterialization(before.input, Materialization.NotMaterialized)
      && after.observation == before.observation.(fragment := NoFile)
    case Ok(MaterializePublicRoute(_)) =>
      && before.input.exposure.Some? && ExpectationsFor(before.input).fragment.Some?
      && var fragment := ExpectationsFor(before.input).fragment.value;
      && !IsBlank(fragment)
      && (exists at :: after.input == WithMaterialization(before.input,
            Materialization.Active(ConfirmedRoute(RuntimeOf(before.input).id, fragment, at))))
      && after.observation == before.observation.(fragment := File(fragment))
    case _ => false
  }

  // The idealised host is no empty promise: every effectful decision has an effect.
  lemma EveryEffectCanHappen(world: World) returns (after: World)
    requires HasRuntime(world.input) && IsEffectful(Decision(world))
    ensures Effect(world, after)
  {
    hide IsBlank, CanonicalFragment, CanonicalUnit, IsDomain, StableRuntimeName;
    var expected := ExpectationsFor(world.input);
    match Decision(world).value
    case RepairRuntime(_, id) =>
      after := World(WithContainer(world.input, id),
                     world.observation.(recorded := world.observation.named.observation));
    case RematerializeRuntime(writes) =>
      var quadlet := if writes then File(expected.quadlet) else world.observation.quadlet;
      var container := Container(
        "c0ffee", expected.containerName, world.input.active.value.artifact.reference, Some(world.input.name),
        Some(world.input.active.value.artifact.digest), ContainerFact.Running(RuntimeOf(world.input).Endpoint()));
      StableNamesHaveNoSlash(world.input.name, world.input.active.value.deploymentId);
      after := World(WithContainer(world.input, "c0ffee"),
                     world.observation.(recorded := container.observation, named := container, quadlet := quadlet));
    case RemoveInternalRoute(_) =>
      after := World(WithMaterialization(world.input, Materialization.NotMaterialized), world.observation.(fragment := NoFile));
    case MaterializePublicRoute(_) =>
      var fragment := expected.fragment.value;
      after := World(
        WithMaterialization(world.input, Materialization.Active(ConfirmedRoute(RuntimeOf(world.input).id, fragment, 0))),
        world.observation.(fragment := File(fragment)));
    case _ => after := world;
  }

  lemma StableNamesHaveNoSlash(application: CatalogName, deployment: DeploymentId)
    ensures TrimSlashes(StableRuntimeName(application, deployment)) == StableRuntimeName(application, deployment)
  {
    assert StableRuntimeName(application, deployment)[0] == "pneuma-"[0];
  }

  // ---- one effect at a time ----

  // No effect touches identity, desired state, intent, endpoint or the expected bytes.
  lemma EffectsKeepExpectations(before: World, after: World)
    requires HasRuntime(before.input) && Effect(before, after)
    ensures HasRuntime(after.input) && ExpectationsFor(after.input) == ExpectationsFor(before.input)
    ensures RuntimeOf(after.input).Endpoint() == RuntimeOf(before.input).Endpoint()
    ensures RuntimeOf(after.input).id == RuntimeOf(before.input).id
    ensures after.input.desired == before.input.desired && after.input.exposure.Some? == before.input.exposure.Some?
    ensures after.input.exposure.Some? ==> after.input.exposure.value.intent == before.input.exposure.value.intent
  {
    hide IsBlank, CanonicalFragment, CanonicalUnit, StableRuntimeName, IsDomain, Decide, NamedContainer.MatchesExpectedRuntime;
  }

  // The recorded container runs where it should, so no runtime effect can be asked for.
  predicate RuntimeServes(world: World) {
    HasRuntime(world.input) && world.observation.recorded == ContainerFact.Running(RuntimeOf(world.input).Endpoint())
  }

  lemma RuntimeEffectsServe(before: World, after: World)
    requires HasRuntime(before.input) && Effect(before, after)
    requires Decision(before).value.RepairRuntime? || Decision(before).value.RematerializeRuntime?
    ensures RuntimeServes(after)
    ensures after.observation.fragment == before.observation.fragment && after.input.exposure == before.input.exposure
    ensures before.input.desired.Running?
  {
    hide IsBlank, CanonicalFragment, CanonicalUnit, StableRuntimeName, IsDomain;
  }

  // After a runtime effect the unit on disk is canonical, written by it or found so.
  lemma RuntimeEffectsLeaveTheCanonicalUnit(before: World, after: World)
    requires HasRuntime(before.input) && Effect(before, after)
    requires Decision(before).value.RepairRuntime? || Decision(before).value.RematerializeRuntime?
    ensures after.observation.quadlet == File(ExpectationsFor(before.input).quadlet)
    ensures HasRuntime(after.input) && IsRecreated(after.input, after.observation.named, ExpectationsFor(after.input).containerName)
    ensures RuntimeOf(after.input).container == after.observation.named.id
  {
    hide IsBlank, CanonicalFragment, CanonicalUnit, StableRuntimeName, IsDomain, Decide, IsSlashed, TrimSlashes;
    EffectsKeepExpectations(before, after);
    var expected := ExpectationsFor(before.input);
    match Decision(before).value
    case RepairRuntime(runtime, container) =>
      RepairIsExact(before.input, before.observation, expected, runtime, container);
    case RematerializeRuntime(writes) =>
      RematerializationIsExact(before.input, before.observation, expected, writes);
      SlashesAreTrimmed(after.observation.named.name, ExpectationsFor(after.input).containerName);
    case _ =>
  }

  lemma RouteEffectsKeepRuntime(before: World, after: World)
    requires HasRuntime(before.input) && Effect(before, after)
    requires Decision(before).value.RemoveInternalRoute? || Decision(before).value.MaterializePublicRoute?
    ensures after.observation.recorded == before.observation.recorded && after.observation.named == before.observation.named
    ensures HasRuntime(after.input) && RuntimeOf(after.input) == RuntimeOf(before.input)
    ensures Decision(before).value.RemoveInternalRoute? ==>
              && after.observation.fragment.NoFile?
              && after.input.exposure.Some? && after.input.exposure.value.intent.Internal?
  {
    hide IsBlank, CanonicalFragment, CanonicalUnit, StableRuntimeName, IsDomain, NamedContainer.MatchesExpectedRuntime;
  }

  // Once the runtime serves: an internal route is withdrawn at most once, a public one is
  // published at most once, and nothing else is left to do.
  lemma ServingDecision(world: World)
    requires RuntimeServes(world) && world.input.desired.Running?
    ensures IsEffectful(Decision(world)) ==>
              && world.input.exposure.Some?
              && (Decision(world).value.RemoveInternalRoute? || Decision(world).value.MaterializePublicRoute?)
              && (Decision(world).value.RemoveInternalRoute? <==> world.input.exposure.value.intent.Internal?)
              && (world.input.exposure.value.intent.Internal? ==> !world.observation.fragment.NoFile?)
    ensures world.input.exposure.Some? && world.input.exposure.value.intent.Public?
              && !world.input.exposure.value.materialization.Diverged? ==>
              Decision(world) == Ok(InSync) || (Decision(world).Ok? && Decision(world).value.MaterializePublicRoute?)
  {
    hide IsBlank, CanonicalUnit, StableRuntimeName, IsDomain, NamedContainer.MatchesExpectedRuntime, CanonicalFragment;
    RunningIsAlwaysDecided(world.input, world.observation);
  }

  lemma MaterializingEndsInSync(before: World, after: World)
    requires HasRuntime(before.input) && Effect(before, after) && Decision(before).value.MaterializePublicRoute?
    ensures HasRuntime(after.input) && Decision(after) == Ok(InSync)
  {
    hide IsBlank, CanonicalUnit, StableRuntimeName, IsDomain, NamedContainer.MatchesExpectedRuntime, CanonicalFragment, Decide;
    MaterializationIsServed(before, after);
    InSyncExactly(after.input, after.observation, ExpectationsFor(after.input));
  }

  lemma MaterializationIsServed(before: World, after: World)
    requires HasRuntime(before.input) && Effect(before, after) && Decision(before).value.MaterializePublicRoute?
    ensures HasRuntime(after.input) && IsPubliclyServed(after.input, after.observation, ExpectationsFor(after.input))
  {
    hide IsBlank, CanonicalUnit, StableRuntimeName, IsDomain, NamedContainer.MatchesExpectedRuntime, CanonicalFragment;
  }

  // Withdrawing an internal route can leave one runtime effect, and only if Running is desired.
  lemma AfterRemoval(before: World, after: World)
    requires HasRuntime(before.input) && Effect(before, after) && Decision(before).value.RemoveInternalRoute?
    ensures HasRuntime(after.input)
    ensures IsEffectful(Decision(after)) ==> Decision(after).value.RepairRuntime? || Decision(after).value.RematerializeRuntime?
  {
    hide IsBlank, CanonicalUnit, StableRuntimeName, IsDomain, NamedContainer.MatchesExpectedRuntime, CanonicalFragment;
  }

  // ---- convergence ----

  // Two effects are always enough: whatever host reconciliation starts from, after at most two
  // effectful decisions it reports in sync, manual intervention, a recorded failure or a refusal.
  lemma AtMostTwoEffects(first: World, second: World, third: World)
    requires HasRuntime(first.input) && IsEffectful(Decision(first)) && Effect(first, second)
    requires HasRuntime(second.input) && IsEffectful(Decision(second)) && Effect(second, third)
    ensures HasRuntime(third.input) && !IsEffectful(Decision(third))
  {
    hide Decision, Effect, ExpectationsFor;
    EffectsKeepExpectations(first, second);
    EffectsKeepExpectations(second, third);
    if Decision(second).value.MaterializePublicRoute? {
      MaterializingEndsInSync(second, third);
    } else if Decision(first).value.MaterializePublicRoute? {
      MaterializingEndsInSync(first, second);
    } else if Decision(first).value.RemoveInternalRoute? {
      AfterRemoval(first, second);
      RouteEffectsKeepRuntime(first, second);
      RuntimeEffectsServe(second, third);
      ServingDecision(third);
    } else {
      RuntimeEffectsServe(first, second);
      ServingDecision(second);
      RouteEffectsKeepRuntime(second, third);
      ServingDecision(third);
    }
  }

  // A public application that is wanted running and not diverged ends in sync.
  lemma PublicApplicationsEndInSync(first: World, second: World)
    requires HasRuntime(first.input) && IsEffectful(Decision(first)) && Effect(first, second)
    requires first.input.desired.Running? && first.input.exposure.Some?
    requires first.input.exposure.value.intent.Public? && !first.input.exposure.value.materialization.Diverged?
    ensures HasRuntime(second.input)
    ensures Decision(second) == Ok(InSync) ||
            (IsEffectful(Decision(second)) && forall third :: Effect(second, third) ==>
               HasRuntime(third.input) && Decision(third) == Ok(InSync))
  {
    hide Decision, Effect, ExpectationsFor;
    EffectsKeepExpectations(first, second);
    if Decision(first).value.MaterializePublicRoute? {
      MaterializingEndsInSync(first, second);
    } else {
      PublicIsNeverRemoved(first);
      RuntimeEffectsServe(first, second);
      ServingDecision(second);
      forall third | Effect(second, third) && Decision(second) != Ok(InSync)
        ensures HasRuntime(third.input) && Decision(third) == Ok(InSync)
      {
        MaterializingEndsInSync(second, third);
      }
    }
  }

  lemma PublicIsNeverRemoved(world: World)
    requires HasRuntime(world.input) && IsEffectful(Decision(world))
    requires world.input.exposure.Some? && world.input.exposure.value.intent.Public?
    ensures !Decision(world).value.RemoveInternalRoute?
  {
    hide Decide;
    RouteDecisionsFollowIntent(world.input, world.observation, ExpectationsFor(world.input));
  }

  // ---- what canonical bytes prove ----

  // A repair adopts a container only when the unit on disk was rendered for exactly the
  // persisted application, deployment, artifact and ports.
  lemma RepairProvesIdentity(
    world: World, application: CatalogName, deployment: DeploymentId, artifact: OciArtifact, containerPort: Port, hostPort: Port)
    requires HasRuntime(world.input) && Decision(world).Ok? && Decision(world).value.RepairRuntime?
    requires IsArtifact(artifact) && IsArtifact(world.input.active.value.artifact)
    requires world.observation.quadlet == File(CanonicalUnit(application, deployment, artifact, containerPort, hostPort))
    ensures application == world.input.name && deployment == world.input.active.value.deploymentId
    ensures artifact == world.input.active.value.artifact
    ensures containerPort == RuntimeOf(world.input).containerPort && hostPort == RuntimeOf(world.input).hostPort
  {
    hide CanonicalUnit, StableRuntimeName, CanonicalFragment, IsArtifact, IsDomain, IsBlank;
    RepairNeedsCanonicalUnit(world);
    CanonicalUnitIsInjective(
      application, deployment, artifact, containerPort, hostPort,
      world.input.name, world.input.active.value.deploymentId, world.input.active.value.artifact,
      RuntimeOf(world.input).containerPort, RuntimeOf(world.input).hostPort);
  }

  lemma RepairNeedsCanonicalUnit(world: World)
    requires HasRuntime(world.input) && Decision(world).Ok? && Decision(world).value.RepairRuntime?
    ensures world.observation.quadlet == File(ExpectationsFor(world.input).quadlet)
  {
    hide CanonicalUnit, StableRuntimeName, CanonicalFragment, IsDomain, IsBlank, NamedContainer.MatchesExpectedRuntime;
  }

  // ---- the exposure row under reconciliation ----

  // The compare-and-set updates that executing a decision may issue.
  predicate Issues(decision: Decision, update: ExposureUpdate) {
    match decision
    case RemoveInternalRoute(expected) => (
      match update
      case BeginInternalExposureReconciliation(state) => state == expected
      case CompleteInternalExposureChange => true
      case RecordReconciliationExposureFailure(visibility, state, _, _) => visibility.Internal? && state.Removing?
      case _ => false)
    case MaterializePublicRoute(expected) => (
      match update
      case BeginPublicExposureReconciliation(state) => state == expected
      case CompletePublicExposureChange(_, _) => true
      case RecordReconciliationExposureFailure(visibility, state, _, _) => visibility.Public? && state.Applying?
      case _ => false)
    case RecordPublicExposureFailure(expected, _) => (
      match update
      case RecordReconciliationExposureFailure(visibility, state, outcome, _) =>
        visibility.Public? && state == expected && outcome == ExposureOutcome.Failed
      case _ => false)
    case _ => false
  }

  // An update some reconciliation issues, decided from any facts however old they have become.
  ghost predicate IsReconciliationUpdate(update: ExposureUpdate) {
    exists input, observation, expectations ::
      && Decide(input, observation, expectations).Ok?
      && Issues(Decide(input, observation, expectations).value, update)
  }

  // Against whatever the row has become: a diverged row is never matched, and a matched public
  // row stays public with its route evidence kept or renewed.
  lemma ReconciliationRespectsTheRow(update: ExposureUpdate, row: ExposureRow, now: Timestamp)
    requires IsReconciliationUpdate(update) && ExposureGuard(row, update)
    ensures !row.state.Diverged?
    ensures UpdatedExposure(row, update, now).visibility == row.visibility
    ensures row.visibility.Public? && row.activeRuntime.Some? ==> UpdatedExposure(row, update, now).activeRuntime.Some?
  {
    hide Decide, Issues;
    var input, observation, expectations :|
      && Decide(input, observation, expectations).Ok?
      && Issues(Decide(input, observation, expectations).value, update);
    RouteDecisionsFollowIntent(input, observation, expectations);
    IssuedUpdatesMatch(Decide(input, observation, expectations).value, update, row, now);
  }

  lemma IssuedUpdatesMatch(decision: Decision, update: ExposureUpdate, row: ExposureRow, now: Timestamp)
    requires Issues(decision, update) && ExposureGuard(row, update)
    requires decision.RemoveInternalRoute? || decision.MaterializePublicRoute? || decision.RecordPublicExposureFailure? ==>
               !decision.expectedState.Diverged?
    ensures !row.state.Diverged?
    ensures UpdatedExposure(row, update, now).visibility == row.visibility
    ensures row.visibility.Public? && row.activeRuntime.Some? ==> UpdatedExposure(row, update, now).activeRuntime.Some?
  {
  }

  // A sequence of reconciliation updates applied to one row, stale ones matching nothing.
  ghost function RowAfter(row: ExposureRow, updates: seq<(ExposureUpdate, Timestamp)>): ExposureRow
    decreases |updates|
  {
    if updates == [] then row
    else RowAfter(if ExposureGuard(row, updates[0].0) then UpdatedExposure(row, updates[0].0, updates[0].1) else row, updates[1..])
  }

  // No run of reconciliations, however interleaved, changes a diverged row, or turns a public
  // row internal.
  lemma {:induction false} ReconciliationKeepsDivergedRows(row: ExposureRow, updates: seq<(ExposureUpdate, Timestamp)>)
    requires forall i :: 0 <= i < |updates| ==> IsReconciliationUpdate(updates[i].0)
    ensures row.state.Diverged? ==> RowAfter(row, updates) == row
    ensures RowAfter(row, updates).visibility == row.visibility
    ensures row.visibility.Public? && row.activeRuntime.Some? ==> RowAfter(row, updates).activeRuntime.Some?
    decreases |updates|
  {
    hide IsReconciliationUpdate, ExposureGuard, UpdatedExposure;
    if updates != [] {
      assert IsReconciliationUpdate(updates[0].0);
      if ExposureGuard(row, updates[0].0) {
        ReconciliationRespectsTheRow(updates[0].0, row, updates[0].1);
        ReconciliationKeepsDivergedRows(UpdatedExposure(row, updates[0].0, updates[0].1), updates[1..]);
      } else {
        ReconciliationKeepsDivergedRows(row, updates[1..]);
      }
    }
  }
}
