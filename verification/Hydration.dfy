/** Nullable rows read back as typed values, and the row-local evidence every step must keep. */
module Hydration {
  import opened Wrappers
  import opened Text
  import opened Rendering
  import opened Deployment
  import opened Exposure
  import opened Schema
  import opened Statements

  // ---- deployment rows ----

  function LifecycleOf(row: DeploymentRow): Result<Lifecycle, EvidenceError> {
    LifecycleFromValues(row.status, row.finishedAt, row.code, row.stage, row.message)
  }

  // A start time is absent exactly before the first advance and on work that failed before it.
  predicate StartEvidence(row: DeploymentRow) {
    row.startedAt.None? <==> row.status.Pending? || (row.status.Failed? && row.stage == Some(DeploymentStatus.Pending))
  }

  predicate IsLegalDeployment(row: DeploymentRow) { LifecycleOf(row).Ok? && StartEvidence(row) }

  // One move of the typed lifecycle, stated without rows.
  predicate LifecycleMove(before: Lifecycle, after: Lifecycle, event: DeploymentEvent, now: Timestamp) {
    && before.Status().Transition(event) == Some(after.Status())
    && match after
       case Succeeded(finishedAt) => finishedAt == now
       case Failed(failure) => failure.stage == before.Status() && failure.finishedAt == now && failure.message != ""
       case _ => true
  }

  lemma AdvancingMovesTheLifecycle(row: DeploymentRow, event: DeploymentEvent, now: Timestamp)
    requires IsLegalDeployment(row) && row.status.Transition(event).Some?
    requires EvidenceOk(AdvancedRow(row, row.status.Transition(event).value, now))
    ensures IsLegalDeployment(AdvancedRow(row, row.status.Transition(event).value, now))
    ensures LifecycleMove(
              LifecycleOf(row).value, LifecycleOf(AdvancedRow(row, row.status.Transition(event).value, now)).value, event, now)
  {
  }

  lemma FailingMovesTheLifecycle(row: DeploymentRow, code: FailureCode, message: string, now: Timestamp)
    requires IsLegalDeployment(row) && row.status.IsNonterminal() && AreFailureDetails(row.status, message)
    ensures var failed := FailedRow(row, row.status, code, message, now);
            && IsLegalDeployment(failed)
            && LifecycleMove(LifecycleOf(row).value, LifecycleOf(failed).value, Fail, now)
            && LifecycleOf(failed).value == Lifecycle.Failed(DeploymentFailure(code, row.status, message, now))
  {
  }

  lemma SucceedingMovesTheLifecycle(row: DeploymentRow, now: Timestamp)
    requires IsLegalDeployment(row) && row.status.Transition(Activated).Some?
    ensures var succeeded := SucceededRow(row, now);
            && IsLegalDeployment(succeeded) && EvidenceOk(succeeded)
            && LifecycleMove(LifecycleOf(row).value, LifecycleOf(succeeded).value, Activated, now)
            && LifecycleOf(succeeded).value == Lifecycle.Succeeded(now)
  {
  }

  // ---- exposure rows ----

  // Outer option: did the columns form a value; inner option: is the value present.
  function RouteOf(row: ExposureRow): Option<Option<ConfirmedRoute>> {
    match (row.activeRuntime, row.version, row.materializedAt)
    case (None, None, None) => Some(None)
    case (Some(runtime), Some(version), Some(at)) =>
      if !IsBlank(version) then Some(Some(ConfirmedRoute(runtime, version, at))) else None
    case _ => None
  }

  function DiagnosticOf(row: ExposureRow): Option<Option<ExposureDiagnostic>> {
    match (row.errorCode, row.errorMessage)
    case (None, None) => Some(None)
    case (Some(code), Some(message)) =>
      if IsDiagnosticText(code) && IsDiagnosticText(message) then Some(Some(Diagnostic(code, message))) else None
    case _ => None
  }

  function IntentOf(row: ExposureRow): Option<Intent> {
    match row.domain
    case None => NewIntent(row.visibility, None)
    case Some(domain) => if IsDomain(domain) then NewIntent(row.visibility, Some(domain)) else None
  }

  // Loads an exposure row, refusing every combination the domain has no value for.
  function HydrateExposure(row: ExposureRow): Option<Exposure> {
    match (IntentOf(row), RouteOf(row), DiagnosticOf(row))
    case (Some(intent), Some(route), Some(diagnostic)) => (
      match HydrateMaterialization(row.state, route, diagnostic)
      case Some(materialization) => Some(Exposure(intent, materialization))
      case None => None)
    case _ => None
  }

  // Exactly which columns load: valid texts, no partial evidence, and a
  // state that agrees with the evidence it carries.
  predicate IsReadable(row: ExposureRow) {
    && (row.visibility.Public? ==> row.domain.Some?)
    && (row.domain.Some? ==> IsDomain(row.domain.value))
    && (row.activeRuntime.Some? <==> row.version.Some?)
    && (row.activeRuntime.Some? <==> row.materializedAt.Some?)
    && (row.version.Some? ==> !IsBlank(row.version.value))
    && (row.errorCode.Some? <==> row.errorMessage.Some?)
    && (row.errorCode.Some? ==> IsDiagnosticText(row.errorCode.value) && IsDiagnosticText(row.errorMessage.value))
    && (row.errorCode.Some? <==> row.state.Failed? || row.state.Diverged?)
    && (row.state.Active? ==> row.activeRuntime.Some?)
    && (row.state.NotMaterialized? ==> row.activeRuntime.None?)
  }

  lemma IntentLoads(row: ExposureRow)
    ensures IntentOf(row).Some? <==>
              (row.visibility.Public? ==> row.domain.Some?) && (row.domain.Some? ==> IsDomain(row.domain.value))
    ensures IntentOf(row).Some? ==> IntentOf(row).value.DesiredVisibility() == row.visibility
  {
  }

  lemma RouteLoads(row: ExposureRow)
    ensures RouteOf(row).Some? <==>
              && (row.activeRuntime.Some? <==> row.version.Some?)
              && (row.activeRuntime.Some? <==> row.materializedAt.Some?)
              && (row.version.Some? ==> !IsBlank(row.version.value))
    ensures RouteOf(row).Some? ==> (RouteOf(row).value.Some? <==> row.activeRuntime.Some?)
  {
  }

  lemma DiagnosticLoads(row: ExposureRow)
    ensures DiagnosticOf(row).Some? <==>
              && (row.errorCode.Some? <==> row.errorMessage.Some?)
              && (row.errorCode.Some? ==> IsDiagnosticText(row.errorCode.value) && IsDiagnosticText(row.errorMessage.value))
    ensures DiagnosticOf(row).Some? ==> (DiagnosticOf(row).value.Some? <==> row.errorCode.Some?)
  {
  }

  lemma MaterializationLoads(state: MaterializationState, route: Option<ConfirmedRoute>, diagnostic: Option<ExposureDiagnostic>)
    ensures HydrateMaterialization(state, route, diagnostic).Some? <==>
              && (diagnostic.Some? <==> state.Failed? || state.Diverged?)
              && (state.Active? ==> route.Some?)
              && (state.NotMaterialized? ==> route.None?)
    ensures HydrateMaterialization(state, route, diagnostic).Some? ==>
              && HydrateMaterialization(state, route, diagnostic).value.State() == state
              && HydrateMaterialization(state, route, diagnostic).value.Route() == route
  {
  }

  lemma ExposureLoadsExactlyReadableRows(row: ExposureRow)
    ensures HydrateExposure(row).Some? <==> IsReadable(row)
    ensures IsReadable(row) ==>
              && HydrateExposure(row).value.materialization.State() == row.state
              && HydrateExposure(row).value.intent.DesiredVisibility() == row.visibility
  {
    IntentLoads(row);
    RouteLoads(row);
    DiagnosticLoads(row);
    if IntentOf(row).Some? && RouteOf(row).Some? && DiagnosticOf(row).Some? {
      MaterializationLoads(row.state, RouteOf(row).value, DiagnosticOf(row).value);
    }
  }

  predicate IsLegalExposure(row: ExposureRow) {
    && IsReadable(row)
    && (row.state.Active? || row.state.Applying? ==> row.visibility.Public?)
    && (row.state.Removing? ==> row.visibility.Internal?)
  }

  // Every guarded update keeps the row readable and its state consistent with its intent,
  // as long as public intent comes with a domain.
  lemma GuardedUpdateKeepsLegality(row: ExposureRow, update: ExposureUpdate, now: Timestamp)
    requires IsLegalExposure(row) && ExposureGuard(row, update)
    requires ExposureEvidenceOk(UpdatedExposure(row, update, now))
    ensures IsLegalExposure(UpdatedExposure(row, update, now))
  {
  }
}
