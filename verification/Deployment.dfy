/** Deployment lifecycle: transition table, typed evidence and the facts a promotion validates. */
module Deployment {
  import opened Wrappers
  import opened Text
  import opened Identity

  // One reading of the database clock; later readings are larger numbers.
  type Timestamp = nat

  datatype DeploymentStatus = Pending | Starting | Verifying | Activating | Succeeded | Failed {
    predicate IsTerminal() { Succeeded? || Failed? }

    predicate IsNonterminal() { !IsTerminal() }

    function Transition(event: DeploymentEvent): Option<DeploymentStatus> {
      match (this, event)
      case (Pending, Start) => Some(DeploymentStatus.Starting)
      case (Starting, RuntimeRunning) => Some(DeploymentStatus.Verifying)
      case (Verifying, Verified) => Some(DeploymentStatus.Activating)
      case (Verifying, Activated) => Some(DeploymentStatus.Succeeded)
      case (Activating, Activated) => Some(DeploymentStatus.Succeeded)
      case (_, Fail) => if IsNonterminal() then Some(DeploymentStatus.Failed) else None
      case (_, _) => None
    }
  }

  datatype DeploymentEvent = Start | RuntimeRunning | Verified | Activated | Fail

  // How far a deployment has come; the two terminal statuses are equally far.
  function Rank(status: DeploymentStatus): nat {
    match status
    case Pending => 0
    case Starting => 1
    case Verifying => 2
    case Activating => 3
    case _ => 4
  }

  // Progress goes one rank at a time, except that activation may skip its own rank; any work in
  // progress may fail; nothing leaves a terminal status.
  lemma TransitionsAreExact(from: DeploymentStatus, event: DeploymentEvent, to: DeploymentStatus)
    ensures from.Transition(event) == Some(to) <==>
              match event
              case Start => from.Pending? && to.Starting?
              case RuntimeRunning => from.Starting? && to.Verifying?
              case Verified => from.Verifying? && to.Activating?
              case Activated => (from.Verifying? || from.Activating?) && to.Succeeded?
              case Fail => Rank(from) < 4 && to.Failed?
    ensures from.Transition(event) == Some(to) ==> Rank(from) < Rank(to)
    ensures Rank(from) == 4 <==> forall e :: from.Transition(e).None?
  {
    if Rank(from) < 4 {
      assert from.Transition(Fail).Some?;
    }
  }

  datatype DeploymentType = Deploy | Rollback

  datatype FailureCode =
    | TestGate | RuntimeReconciliation | PublicConfigurationMissing | RuntimePortAllocation
    | RuntimeUnitCreation | RuntimeUnitReload | RuntimeStart | RuntimeResolution | RuntimeObservation
    | RuntimeRegistration | RuntimePortPersistence | DeploymentTransition | HealthCheck
    | ExposurePreparation | CaddyMaterialization | ExternalHealthCheck | CandidatePromotion
    | OperationInterrupted

  datatype DeploymentFailure =
    DeploymentFailure(code: FailureCode, stage: DeploymentStatus, message: string, finishedAt: Timestamp)

  predicate AreFailureDetails(stage: DeploymentStatus, message: string) {
    message != "" && IsTrimmed(message) && stage.IsNonterminal()
  }

  function NewFailure(code: FailureCode, stage: DeploymentStatus, message: string, finishedAt: Timestamp)
    : Option<DeploymentFailure>
  {
    if AreFailureDetails(stage, message) then Some(DeploymentFailure(code, stage, message, finishedAt)) else None
  }

  // Terminal results carry their evidence; work in progress carries none.
  datatype Lifecycle =
    | Pending | Starting | Verifying | Activating
    | Succeeded(finishedAt: Timestamp)
    | Failed(failure: DeploymentFailure)
  {
    function Status(): DeploymentStatus {
      match this
      case Pending => DeploymentStatus.Pending
      case Starting => DeploymentStatus.Starting
      case Verifying => DeploymentStatus.Verifying
      case Activating => DeploymentStatus.Activating
      case Succeeded(_) => DeploymentStatus.Succeeded
      case Failed(_) => DeploymentStatus.Failed
    }
  }

  datatype EvidenceError = TerminalEvidenceOnWork | SuccessRequiresOnlyFinish | IncompleteFailure | InvalidFailure

  // Rebuilds the typed lifecycle from nullable columns, refusing every other combination.
  function LifecycleFromValues(
    status: DeploymentStatus, finishedAt: Option<Timestamp>, code: Option<FailureCode>,
    stage: Option<DeploymentStatus>, message: Option<string>): Result<Lifecycle, EvidenceError>
  {
    var hasFailureFields := code.Some? || stage.Some? || message.Some?;
    match status
    case Succeeded =>
      if finishedAt.None? || hasFailureFields then Err(SuccessRequiresOnlyFinish)
      else Ok(Lifecycle.Succeeded(finishedAt.value))
    case Failed => (
      match (finishedAt, code, stage, message)
      case (Some(finished), Some(c), Some(s), Some(m)) => (
        match NewFailure(c, s, m, finished)
        case Some(failure) => Ok(Lifecycle.Failed(failure))
        case None => Err(InvalidFailure))
      case _ => Err(IncompleteFailure))
    case _ =>
      if finishedAt.Some? || hasFailureFields then Err(TerminalEvidenceOnWork)
      else Ok(match status
              case Pending => Lifecycle.Pending
              case Starting => Lifecycle.Starting
              case Verifying => Lifecycle.Verifying
              case _ => Lifecycle.Activating)
  }

  // The columns that form a lifecycle, and the error of those that do not.
  lemma LifecyclesLoadExactly(
    status: DeploymentStatus, finishedAt: Option<Timestamp>, code: Option<FailureCode>,
    stage: Option<DeploymentStatus>, message: Option<string>)
    ensures var loaded := LifecycleFromValues(status, finishedAt, code, stage, message);
            && (loaded.Ok? ==> loaded.value.Status() == status)
            && (loaded.Ok? <==>
                  if status.Succeeded? then finishedAt.Some? && code.None? && stage.None? && message.None?
                  else if status.Failed? then
                    && finishedAt.Some? && code.Some? && stage.Some? && message.Some?
                    && !stage.value.Succeeded? && !stage.value.Failed? && message.value != "" && IsTrimmed(message.value)
                  else finishedAt.None? && code.None? && stage.None? && message.None?)
            && (loaded.Ok? && status.Succeeded? ==> loaded.value.finishedAt == finishedAt.value)
            && (loaded.Ok? && status.Failed? ==>
                  loaded.value.failure == DeploymentFailure(code.value, stage.value, message.value, finishedAt.value))
            && (loaded.Err? ==>
                  && (loaded.error.SuccessRequiresOnlyFinish? <==> status.Succeeded?)
                  && (loaded.error.TerminalEvidenceOnWork? <==> !status.Succeeded? && !status.Failed?)
                  && (loaded.error.IncompleteFailure? <==>
                        status.Failed? && (finishedAt.None? || code.None? || stage.None? || message.None?)))
  {
  }

  datatype RuntimeState = Starting | Running | Stopped | Failed

  datatype ObservedState =
    | Missing | Created | Starting | Running | Stopping | Stopped | Failed | Unknown(status: string)

  datatype Visibility = Internal | Public

  datatype PromotedCandidate =
    PromotedCandidate(runtimeId: RuntimeId, deploymentId: DeploymentId, finishedAt: Timestamp)

  datatype CandidateRejection = NotStarting(actual: RuntimeState) | NotRunning(observed: ObservedState) | Removed

  // One runtime joined with its deployment and its application's route intent.
  datatype PromotionTarget = PromotionTarget(
    runtimeId: RuntimeId, applicationId: ApplicationId, deploymentId: DeploymentId, hostPort: Port,
    state: RuntimeState, observed: ObservedState, removedAt: Option<Timestamp>,
    status: DeploymentStatus, finishedAt: Option<Timestamp>,
    visibility: Visibility, domain: Option<string>)
  {
    function CompletedPromotion(): Option<PromotedCandidate> {
      if !state.Running? || !status.Succeeded? then None
      else match finishedAt
        case None => None
        case Some(finished) => Some(PromotedCandidate(runtimeId, deploymentId, finished))
    }

    function Rejection(): Option<CandidateRejection> {
      if !state.Starting? then Some(NotStarting(state))
      else if !observed.Running? then Some(NotRunning(observed))
      else if removedAt.Some? then Some(Removed)
      else None
    }
  }
}
