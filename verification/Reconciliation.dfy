/** The reconciliation decision: its layers, and exactly when each answer is given. */
module Reconciliation {
  import opened Wrappers
  import opened Text
  import opened Identity
  import opened Release
  import opened Rendering
  import opened Deployment
  import opened Exposure
  import opened Schema

  // ---- facts ----

  datatype ContainerFact = Running(observedEndpoint: SocketAddr) | NotRunning(observed: ObservedState) {
    function State(): ObservedState {
      match this
      case Running(_) => ObservedState.Running
      case NotRunning(state) => state
    }

    function Endpoint(): Option<SocketAddr> {
      match this
      case Running(endpoint) => Some(endpoint)
      case NotRunning(_) => None
    }
  }

  // A running fact carries a loopback endpoint, and a fact that is not running never says it is.
  type ContainerObservation = c: ContainerFact |
      (c.Running? ==> IsLoopback(c.observedEndpoint)) && (c.NotRunning? ==> !c.observed.Running?)
    witness ContainerFact.NotRunning(ObservedState.Missing)

  datatype NamedContainer =
    | NoContainer
    | Container(
        id: string, name: string, image: string, applicationName: Option<string>, imageDigest: Option<string>,
        observation: ContainerObservation)
  {
    // Running under the expected name with the persisted artifact, labels and endpoint.
    predicate MatchesExpectedRuntime(expectedName: string, artifact: OciArtifact, application: string, endpoint: SocketAddr) {
      && Container?
      && observation.State().Running?
      && TrimSlashes(name) == expectedName
      && image == artifact.reference
      && applicationName == Some(application)
      && imageDigest == Some(artifact.digest)
      && observation.Endpoint() == Some(endpoint)
    }
  }

  // Container names are reported with leading slashes.
  function TrimSlashes(name: string): string {
    if name != "" && name[0] == '/' then TrimSlashes(name[1..]) else name
  }

  datatype FileFact = NoFile | File(contents: string)

  datatype UnitFact = NoUnit | Unit(activeState: string)

  datatype Observation = Observation(
    recorded: ContainerObservation, named: NamedContainer, quadlet: FileFact, unit: UnitFact, fragment: FileFact)

  datatype Expectations = Expectations(containerName: string, quadlet: string, fragment: Option<string>)

  datatype RuntimeFacts = RuntimeFacts(id: RuntimeId, container: string, hostPort: Port, containerPort: Port) {
    function Endpoint(): SocketAddr { Loopback(hostPort) }
  }

  datatype ActiveFacts = ActiveFacts(deploymentId: DeploymentId, artifact: OciArtifact, runtime: Option<RuntimeFacts>)

  datatype Input = Input(
    name: CatalogName, desired: DesiredState, exposure: Option<Exposure>, active: Option<ActiveFacts>, hasSpecification: bool)

  // ---- decisions ----

  datatype FailureKind = RuntimeMissing | RuntimeNotHealthy

  datatype Decision =
    | InSync
    | RepairRuntime(runtimeId: RuntimeId, containerId: string)
    | RematerializeRuntime(unitNeedsWrite: bool)
    | RemoveInternalRoute(expectedState: MaterializationState)
    | MaterializePublicRoute(expectedState: MaterializationState)
    | RecordPublicExposureFailure(expectedState: MaterializationState, kind: FailureKind)
    | RequireManualIntervention

  datatype DecisionError = UnhandledDrift | InvalidRouteFragment(fragment: string)

  predicate QuadletIsCanonical(observation: Observation, expectations: Expectations) {
    observation.quadlet == File(expectations.quadlet)
  }

  function ClassifyRepair(input: Input, observation: Observation, expectations: Expectations): Option<Decision> {
    if !input.desired.Running? || !observation.fragment.NoFile? || !observation.recorded.State().Missing? then None
    else match input.active
      case None => None
      case Some(active) =>
        match (active.runtime, observation.named)
        case (Some(runtime), Container(id, _, _, _, _, _)) =>
          if && observation.named.MatchesExpectedRuntime(
                  expectations.containerName, active.artifact, input.name, runtime.Endpoint())
             && QuadletIsCanonical(observation, expectations)
          then Some(RepairRuntime(runtime.id, id)) else None
        case _ => None
  }

  // The two unit states that leave room for a rematerialization; any other word rules it out.
  predicate IsKnownNotRunning(activeState: string) { activeState == "inactive" || activeState == "failed" }

  function ClassifyRematerialization(input: Input, observation: Observation, expectations: Expectations): Option<Decision> {
    if input.active.None? || !input.hasSpecification then None
    else
      var canonical := QuadletIsCanonical(observation, expectations);
      var canStart := observation.unit.NoUnit? || IsKnownNotRunning(observation.unit.activeState);
      if || !input.desired.Running? || !observation.recorded.State().Missing? || !observation.named.NoContainer?
         || (!observation.quadlet.NoFile? && !canonical) || !canStart
      then None
      else Some(RematerializeRuntime(!canonical))
  }

  function ClassifyPublic(
    exposure: Exposure, input: Input, observation: Observation, expectations: Expectations): Result<Decision, DecisionError>
  {
    var state := exposure.materialization.State();
    match input.active
    case None => Ok(RecordPublicExposureFailure(state, RuntimeMissing))
    case Some(active) =>
      match active.runtime
      case None => Ok(RecordPublicExposureFailure(state, RuntimeMissing))
      case Some(runtime) =>
        if || !input.desired.Running? || !observation.recorded.State().Running?
           || observation.recorded.Endpoint() != Some(runtime.Endpoint())
        then Ok(RecordPublicExposureFailure(state, RuntimeNotHealthy))
        else match expectations.fragment
          case None => Err(UnhandledDrift)
          case Some(fragment) =>
            if IsBlank(fragment) then Err(InvalidRouteFragment(fragment))
            else if && observation.fragment == File(fragment) && state.Active?
                    && RouteConfirms(exposure.materialization.Route(), runtime.id, fragment)
            then Ok(InSync)
            else Ok(MaterializePublicRoute(state))
  }

  predicate RouteConfirms(route: Option<ConfirmedRoute>, runtime: RuntimeId, version: string) {
    route.Some? && route.value.runtimeId == runtime && route.value.version == version
  }

  function ClassifyExposure(input: Input, observation: Observation, expectations: Expectations)
    : Result<Option<Decision>, DecisionError>
  {
    match input.exposure
    case None => Ok(None)
    case Some(exposure) =>
      if exposure.materialization.Diverged? then Ok(Some(RequireManualIntervention))
      else match exposure.intent
        case Internal(_) =>
          if observation.fragment.NoFile? then Ok(None)
          else Ok(Some(RemoveInternalRoute(exposure.materialization.State())))
        case Public(_) =>
          match ClassifyPublic(exposure, input, observation, expectations)
          case Ok(decision) => Ok(Some(decision))
          case Err(error) => Err(error)
  }

  predicate IsStoppedAndGone(input: Input, observation: Observation) {
    && input.desired.Stopped? && observation.recorded.State().Missing?
    && observation.named.NoContainer? && observation.fragment.NoFile?
  }

  // Converged stop first, then identity repair, rematerialization, exposure drift, fallbacks.
  function Decide(input: Input, observation: Observation, expectations: Expectations): Result<Decision, DecisionError> {
    if IsStoppedAndGone(input, observation) then Ok(InSync)
    else if ClassifyRepair(input, observation, expectations).Some? then
      Ok(ClassifyRepair(input, observation, expectations).value)
    else if ClassifyRematerialization(input, observation, expectations).Some? then
      Ok(ClassifyRematerialization(input, observation, expectations).value)
    else match ClassifyExposure(input, observation, expectations)
      case Err(error) => Err(error)
      case Ok(Some(decision)) => Ok(decision)
      case Ok(None) => if input.desired.Running? then Ok(RequireManualIntervention) else Err(UnhandledDrift)
  }

  // ---- expectations built at the boundary ----

  predicate HasRuntime(input: Input) {
    input.active.Some? && input.active.value.runtime.Some?
  }

  function RuntimeOf(input: Input): RuntimeFacts
    requires HasRuntime(input)
  {
    input.active.value.runtime.value
  }

  // The bytes reconciliation expects, rendered from the same active runtime it compares.
  function ExpectationsFor(input: Input): Expectations
    requires HasRuntime(input)
  {
    var active, runtime := input.active.value, RuntimeOf(input);
    Expectations(
      StableRuntimeName(input.name, active.deploymentId),
      CanonicalUnit(input.name, active.deploymentId, active.artifact, runtime.containerPort, runtime.hostPort),
      if input.exposure.Some? && input.exposure.value.intent.Public?
      then Some(CanonicalFragment(input.exposure.value.intent.domain, runtime.Endpoint())) else None)
  }

  // ---- exactly when a decision is made ----

  // A public route that agrees with its runtime in every compared fact.
  predicate IsPubliclyServed(input: Input, observation: Observation, expectations: Expectations) {
    && input.exposure.Some? && HasRuntime(input)
    && var exposure, runtime := input.exposure.value, RuntimeOf(input);
    && exposure.intent.Public? && input.desired.Running?
    && observation.recorded == ContainerFact.Running(runtime.Endpoint())
    && expectations.fragment.Some? && !IsBlank(expectations.fragment.value)
    && observation.fragment == File(expectations.fragment.value)
    && exposure.materialization.Active?
    && exposure.materialization.confirmed.runtimeId == runtime.id
    && exposure.materialization.confirmed.version == expectations.fragment.value
  }

  // In sync means exactly: stopped with nothing left, or publicly served as recorded.
  lemma InSyncExactly(input: Input, observation: Observation, expectations: Expectations)
    ensures Decide(input, observation, expectations) == Ok(InSync) <==>
              || (&& input.desired.Stopped? && observation.recorded == ContainerFact.NotRunning(ObservedState.Missing)
                  && observation.named.NoContainer? && observation.fragment.NoFile?)
              || IsPubliclyServed(input, observation, expectations)
  {
    hide IsBlank, NamedContainer.MatchesExpectedRuntime;
  }

  // The recorded container is gone although it should run.
  predicate IsLost(input: Input, observation: Observation) {
    input.desired.Running? && observation.recorded == ContainerFact.NotRunning(ObservedState.Missing)
  }

  // The expected name behind any number of slashes.
  predicate IsSlashed(name: string, expected: string) {
    && |expected| <= |name| && name[|name| - |expected|..] == expected
    && (forall i :: 0 <= i < |name| - |expected| ==> name[i] == '/')
    && (expected != "" ==> expected[0] != '/')
  }

  lemma {:induction false} SlashesAreTrimmed(name: string, expected: string)
    ensures TrimSlashes(name) == expected <==> IsSlashed(name, expected)
  {
    if name != "" && name[0] == '/' {
      SlashesAreTrimmed(name[1..], expected);
      if |expected| < |name| {
        assert name[1..][|name| - 1 - |expected|..] == name[|name| - |expected|..];
        assert forall i :: 1 <= i < |name| ==> name[i] == name[1..][i - 1];
      }
    } else if |expected| == |name| {
      assert name[0..] == name;
    }
  }

  // The container found under the stable name is this runtime, recreated: it runs under the name,
  // on the artifact, with both labels and on the loopback port that are recorded.
  predicate IsRecreated(input: Input, named: NamedContainer, containerName: string)
    requires HasRuntime(input)
  {
    && named.Container?
    && named.observation == ContainerFact.Running(SocketAddr("127.0.0.1", RuntimeOf(input).hostPort))
    && IsSlashed(named.name, containerName)
    && named.image == input.active.value.artifact.reference
    && named.applicationName == Some(input.name)
    && named.imageDigest == Some(input.active.value.artifact.digest)
  }

  predicate CanRepair(input: Input, observation: Observation, expectations: Expectations) {
    && IsLost(input, observation) && observation.fragment.NoFile? && HasRuntime(input)
    && IsRecreated(input, observation.named, expectations.containerName)
    && observation.quadlet == File(expectations.quadlet)
  }

  // Nothing is in the way of a clean start.
  predicate CanRematerialize(input: Input, observation: Observation, expectations: Expectations) {
    && IsLost(input, observation) && input.active.Some? && input.hasSpecification && observation.named.NoContainer?
    && (observation.quadlet.NoFile? || observation.quadlet == File(expectations.quadlet))
    && (observation.unit.NoUnit? || observation.unit.activeState == "inactive" || observation.unit.activeState == "failed")
  }

  // A repair swaps in exactly the recreated container, next to a canonical unit and no route.
  lemma RepairIsExact(input: Input, observation: Observation, expectations: Expectations, runtime: RuntimeId, container: string)
    ensures Decide(input, observation, expectations) == Ok(RepairRuntime(runtime, container)) <==>
              && CanRepair(input, observation, expectations)
              && runtime == RuntimeOf(input).id && container == observation.named.id
  {
    hide IsBlank, IsSlashed, TrimSlashes;
    if observation.named.Container? {
      SlashesAreTrimmed(observation.named.name, expectations.containerName);
    }
  }

  // A rematerialization is decided exactly for a lost runtime nothing is in the way of, and it
  // writes the unit exactly if there is none.
  lemma RematerializationIsExact(input: Input, observation: Observation, expectations: Expectations, writes: bool)
    ensures Decide(input, observation, expectations) == Ok(RematerializeRuntime(writes)) <==>
              CanRematerialize(input, observation, expectations) && (writes <==> observation.quadlet.NoFile?)
  {
    hide IsBlank, NamedContainer.MatchesExpectedRuntime;
  }

  // What is left to the exposure rules: neither a finished stop nor a lost runtime to bring back.
  predicate IsLeftToExposure(input: Input, observation: Observation, expectations: Expectations) {
    && !IsStoppedAndGone(input, observation)
    && !CanRepair(input, observation, expectations) && !CanRematerialize(input, observation, expectations)
  }

  predicate IsOpen(input: Input, visibility: Visibility) {
    && input.exposure.Some? && input.exposure.value.intent.DesiredVisibility() == visibility
    && !input.exposure.value.materialization.Diverged?
  }

  // The runtime is wanted and runs on its own loopback port.
  predicate IsHealthy(input: Input, observation: Observation)
    requires HasRuntime(input)
  {
    && input.desired.Running?
    && observation.recorded == ContainerFact.Running(SocketAddr("127.0.0.1", RuntimeOf(input).hostPort))
  }

  // A public failure is recorded exactly for a public exposure whose runtime is missing in the
  // rows, or is there and not wanted, not running or not on its port.
  lemma PublicFailureIsExact(
    input: Input, observation: Observation, expectations: Expectations, state: MaterializationState, kind: FailureKind)
    ensures Decide(input, observation, expectations) == Ok(RecordPublicExposureFailure(state, kind)) <==>
              && IsLeftToExposure(input, observation, expectations) && IsOpen(input, Visibility.Public)
              && state == input.exposure.value.materialization.State()
              && (kind.RuntimeMissing? <==> !HasRuntime(input))
              && (kind.RuntimeNotHealthy? ==> !IsHealthy(input, observation))
  {
    hide IsBlank, IsSlashed, TrimSlashes;
    ExposureRulesApply(input, observation, expectations);
  }

  // The layers before the exposure rules, in raw facts.
  lemma ExposureRulesApply(input: Input, observation: Observation, expectations: Expectations)
    ensures IsLeftToExposure(input, observation, expectations) <==>
              && !IsStoppedAndGone(input, observation)
              && ClassifyRepair(input, observation, expectations).None?
              && ClassifyRematerialization(input, observation, expectations).None?
  {
    hide IsSlashed, TrimSlashes;
    if observation.named.Container? {
      SlashesAreTrimmed(observation.named.name, expectations.containerName);
    }
  }

  // A route is removed exactly for internal intent with a fragment on disk.
  lemma RemovalIsExact(input: Input, observation: Observation, expectations: Expectations, state: MaterializationState)
    ensures Decide(input, observation, expectations) == Ok(RemoveInternalRoute(state)) <==>
              && IsLeftToExposure(input, observation, expectations) && IsOpen(input, Visibility.Internal)
              && observation.fragment.File? && state == input.exposure.value.materialization.State()
  {
    hide IsBlank, NamedContainer.MatchesExpectedRuntime, IsLeftToExposure;
    ExposureRulesApply(input, observation, expectations);
  }

  // A route is published exactly for a healthy public application that is not served as recorded.
  lemma PublicationIsExact(input: Input, observation: Observation, expectations: Expectations, state: MaterializationState)
    ensures Decide(input, observation, expectations) == Ok(MaterializePublicRoute(state)) <==>
              && IsLeftToExposure(input, observation, expectations) && IsOpen(input, Visibility.Public)
              && HasRuntime(input) && IsHealthy(input, observation)
              && expectations.fragment.Some? && !IsBlank(expectations.fragment.value)
              && !IsPubliclyServed(input, observation, expectations)
              && state == input.exposure.value.materialization.State()
  {
    hide IsBlank, NamedContainer.MatchesExpectedRuntime, IsLeftToExposure;
    ExposureRulesApply(input, observation, expectations);
  }

  // An operator is asked exactly for a diverged exposure, and for an application wanted running
  // that has no exposure or an internal one without a fragment.
  lemma InterventionIsExact(input: Input, observation: Observation, expectations: Expectations)
    ensures Decide(input, observation, expectations) == Ok(RequireManualIntervention) <==>
              && IsLeftToExposure(input, observation, expectations)
              && (|| (input.exposure.Some? && input.exposure.value.materialization.Diverged?)
                  || (&& input.desired.Running?
                      && (|| input.exposure.None?
                          || (input.exposure.value.intent.Internal? && observation.fragment.NoFile?))))
  {
    hide IsBlank, NamedContainer.MatchesExpectedRuntime, IsLeftToExposure;
    ExposureRulesApply(input, observation, expectations);
  }

  // The two refusals of the decision, with the fragment that is no version.
  lemma RefusalIsExact(input: Input, observation: Observation, expectations: Expectations, fragment: string)
    ensures Decide(input, observation, expectations) == Err(InvalidRouteFragment(fragment)) <==>
              && IsLeftToExposure(input, observation, expectations) && IsOpen(input, Visibility.Public)
              && HasRuntime(input) && IsHealthy(input, observation)
              && expectations.fragment == Some(fragment) && IsBlank(fragment)
    ensures Decide(input, observation, expectations) == Err(UnhandledDrift) <==>
              && IsLeftToExposure(input, observation, expectations)
              && (|| (&& IsOpen(input, Visibility.Public) && HasRuntime(input) && IsHealthy(input, observation)
                      && expectations.fragment.None?)
                  || (&& input.desired.Stopped?
                      && (|| input.exposure.None?
                          || (IsOpen(input, Visibility.Internal) && observation.fragment.NoFile?))))
  {
    hide IsBlank, NamedContainer.MatchesExpectedRuntime, IsLeftToExposure;
    ExposureRulesApply(input, observation, expectations);
  }

  // With boundary-built expectations and Running desired, the decision never refuses.
  lemma RunningIsAlwaysDecided(input: Input, observation: Observation)
    requires HasRuntime(input) && input.desired.Running?
    ensures Decide(input, observation, ExpectationsFor(input)).Ok?
  {
    hide IsBlank, CanonicalFragment, CanonicalUnit, StableRuntimeName, IsDomain, NamedContainer.MatchesExpectedRuntime;
    if input.exposure.Some? && input.exposure.value.intent.Public? {
      CanonicalFragmentIsNotBlank(input.exposure.value.intent.domain, RuntimeOf(input).Endpoint());
    }
  }

  // With Stopped desired nothing is repaired, started or published.
  lemma StoppedOnlyWithdraws(input: Input, observation: Observation, expectations: Expectations)
    requires input.desired.Stopped? && Decide(input, observation, expectations).Ok?
    ensures var decision := Decide(input, observation, expectations).value;
            !decision.RepairRuntime? && !decision.RematerializeRuntime? && !decision.MaterializePublicRoute?
  {
    hide IsBlank, NamedContainer.MatchesExpectedRuntime;
  }

  // Refusals of a stopped application: something is left, and no public failure can be recorded.
  lemma StoppedIsRefusedExactly(input: Input, observation: Observation, expectations: Expectations)
    requires input.desired.Stopped?
    ensures Decide(input, observation, expectations).Err? <==>
              && !IsStoppedAndGone(input, observation)
              && (input.exposure.None? ||
                  (&& !input.exposure.value.materialization.Diverged?
                   && input.exposure.value.intent.Internal? && observation.fragment.NoFile?))
  {
    hide IsBlank, NamedContainer.MatchesExpectedRuntime;
  }

  // An internal application that is wanted running is never in sync, however healthy: with no
  // drift left to repair the decision is manual intervention.
  lemma HealthyInternalNeedsManualIntervention(input: Input, observation: Observation, expectations: Expectations)
    requires input.desired.Running? && input.exposure.Some? && input.exposure.value.intent.Internal?
    ensures Decide(input, observation, expectations) != Ok(InSync)
    ensures observation.recorded.Running? && observation.fragment.NoFile? ==>
              Decide(input, observation, expectations) == Ok(RequireManualIntervention)
  {
    hide IsBlank, NamedContainer.MatchesExpectedRuntime;
  }

  // A route is removed only for internal intent, published only for public intent and a
  // running recorded container, and a diverged exposure is never acted upon.
  lemma RouteDecisionsFollowIntent(input: Input, observation: Observation, expectations: Expectations)
    requires Decide(input, observation, expectations).Ok?
    ensures var decision := Decide(input, observation, expectations).value;
            && (decision.RemoveInternalRoute? || decision.MaterializePublicRoute? || decision.RecordPublicExposureFailure? ==>
                  && input.exposure.Some? && !decision.expectedState.Diverged?
                  && decision.expectedState == input.exposure.value.materialization.State()
                  && (decision.RemoveInternalRoute? <==> input.exposure.value.intent.Internal?))
            && (decision.MaterializePublicRoute? ==> input.desired.Running? && observation.recorded.Running?)
  {
    hide IsBlank, NamedContainer.MatchesExpectedRuntime;
  }
}
