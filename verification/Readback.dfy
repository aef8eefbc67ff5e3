/** What the next reader loads after an exposure update, in the terms of the typed exposure. */
module Readback {
  import opened Wrappers
  import opened Text
  import opened Identity
  import opened Rendering
  import opened Deployment
  import opened Exposure
  import opened Schema
  import opened Statements
  import opened Workflows
  import opened Hydration
  import opened Constraints
  import opened Invariants
  import opened Exactness

  // ---- loading ----

  // A readable row shows its columns: the intent, the confirmed route and the diagnostic.
  lemma ReadableRowsShowTheirColumns(row: ExposureRow)
    requires IsReadable(row)
    ensures HydrateExposure(row).Some?
    ensures var loaded := HydrateExposure(row).value;
            && loaded.intent == (if row.visibility.Internal? then Intent.Internal(row.domain) else Intent.Public(row.domain.value))
            && loaded.materialization.State() == row.state
            && loaded.materialization.Route() == (
                 if row.activeRuntime.None? then None
                 else Some(ConfirmedRoute(row.activeRuntime.value, row.version.value, row.materializedAt.value)))
            && (row.state.Failed? ==>
                  loaded.materialization.Failed? && loaded.materialization.diagnostic ==
                  Diagnostic(row.errorCode.value, row.errorMessage.value))
            && (row.state.Diverged? ==>
                  loaded.materialization.Diverged? && loaded.materialization.diagnostic ==
                  Diagnostic(row.errorCode.value, row.errorMessage.value))
  {
    hide IsBlank, IsDomain, IsDiagnosticText;
    ExposureLoadsExactlyReadableRows(row);
    MaterializationLoads(row.state, RouteOf(row).value, DiagnosticOf(row).value);
  }

  // ---- the typed update ----

  function WithVisibility(intent: Intent, visibility: Visibility): Option<Intent> {
    match (intent, visibility)
    case (Internal(domain), Internal) => Some(Intent.Internal(domain))
    case (Internal(Some(domain)), Public) => Some(Intent.Public(domain))
    case (Internal(None), Public) => None
    case (Public(domain), Internal) => Some(Intent.Internal(Some(domain)))
    case (Public(domain), Public) => Some(Intent.Public(domain))
  }

  // The exposures an update applies to: what its caller expects to find.
  predicate Finds(exposure: Exposure, update: ExposureUpdate) {
    var intent, state := exposure.intent, exposure.materialization.State();
    match update
    case BeginExposureChange(expected, _) => intent.Public? <==> expected.Public?
    case CompletePublicExposureChange(_, _) => intent.Public? && state.Applying?
    case CompleteInternalExposureChange => intent.Internal? && state.Removing?
    case RecordExposureChangeFailure(visibility, _, _) => intent.Public? <==> visibility.Public?
    case BeginPublicExposure => intent.Public?
    case BeginPublicExposureReconciliation(expected) => intent.Public? && state == expected
    case BeginInternalExposureReconciliation(expected) => intent.Internal? && state == expected
    case RecordReconciliationExposureFailure(visibility, expected, _, _) =>
      (intent.Public? <==> visibility.Public?) && state == expected
    case RecordPublicExposureFailure(_, _) => intent.Public?
  }

  // A failure loads as its outcome says, with the route from before it and this diagnostic.
  predicate IsRecorded(
    before: Exposure, after: Exposure, outcome: ExposureOutcome, diagnostic: ExposureDiagnostic)
  {
    && after.intent == before.intent
    && after.materialization == (
         if outcome == ExposureOutcome.Failed then Materialization.Failed(before.materialization.Route(), diagnostic)
         else Materialization.Diverged(before.materialization.Route(), diagnostic))
  }

  // What each update turns a loaded exposure into.
  predicate Turns(before: Exposure, after: Exposure, update: ExposureUpdate, now: Timestamp) {
    var route := before.materialization.Route();
    match update
    case BeginExposureChange(_, desired) =>
      && Some(after.intent) == WithVisibility(before.intent, desired)
      && after.materialization == (if desired.Public? then Materialization.Applying(route) else Materialization.Removing(route))
    case CompletePublicExposureChange(runtime, version) =>
      after == Exposure(before.intent, Materialization.Active(ConfirmedRoute(runtime, version, now)))
    case CompleteInternalExposureChange => after == Exposure(before.intent, Materialization.NotMaterialized)
    case RecordExposureChangeFailure(_, outcome, diagnostic) => IsRecorded(before, after, outcome, diagnostic)
    case BeginPublicExposure => after == Exposure(before.intent, Materialization.Applying(route))
    case BeginPublicExposureReconciliation(_) => after == Exposure(before.intent, Materialization.Applying(route))
    case BeginInternalExposureReconciliation(_) => after == Exposure(before.intent, Materialization.Removing(route))
    case RecordReconciliationExposureFailure(_, _, outcome, diagnostic) => IsRecorded(before, after, outcome, diagnostic)
    case RecordPublicExposureFailure(outcome, diagnostic) => IsRecorded(before, after, outcome, diagnostic)
  }

  lemma GuardsFindLoadedExposures(row: ExposureRow, update: ExposureUpdate)
    requires IsReadable(row)
    ensures HydrateExposure(row).Some? && (ExposureGuard(row, update) <==> Finds(HydrateExposure(row).value, update))
  {
    hide IsReadable, HydrateExposure;
    ReadableRowsShowTheirColumns(row);
  }

  // The written row is readable and loads as the typed update says.
  lemma WrittenRowsLoad(row: ExposureRow, update: ExposureUpdate, now: Timestamp)
    requires IsReadable(row) && ExposureGuard(row, update)
    requires ExposureEvidenceOk(UpdatedExposure(row, update, now))
    ensures var written := UpdatedExposure(row, update, now);
            && IsReadable(written) && HydrateExposure(row).Some? && HydrateExposure(written).Some?
            && Turns(HydrateExposure(row).value, HydrateExposure(written).value, update, now)
  {
    hide HydrateExposure, IsBlank, IsDomain, IsDiagnosticText;
    ReadableRowsShowTheirColumns(row);
    ReadableRowsShowTheirColumns(UpdatedExposure(row, update, now));
  }

  // One update step: nothing changes exactly when the row is not as the caller expects, or a
  // constraint on its domain or its runtime refuses the change; otherwise only this exposure
  // changes, and the next reader loads the typed update of what the last one loaded.
  lemma ExposureStepReadsBack(db: Database, a: ApplicationId, update: ExposureUpdate, now: Timestamp)
    requires Inv(db)
    ensures var next := Apply(db, ExposureStep(a, update), now);
            && (a in db.exposures ==> HydrateExposure(db.exposures[a]).Some?)
            && if a in db.exposures && Finds(HydrateExposure(db.exposures[a]).value, update) && !Conflicts(db, a, update) then
                 && a in next.exposures && next == db.(exposures := db.exposures[a := next.exposures[a]])
                 && HydrateExposure(next.exposures[a]).Some?
                 && Turns(HydrateExposure(db.exposures[a]).value, HydrateExposure(next.exposures[a]).value, update, now)
               else next == db
  {
    hide SchemaHolds, PromotionInvariant, DeploymentsLegal, IsTaken, HydrateExposure, UpdatedExposure, UpdateExposure;
    hide ExposureGuard, Turns, Finds, IsReadable;
    ExposureUpdateIsExact(db, a, update, now);
    if a in db.exposures {
      var row := db.exposures[a];
      assert IsReadable(row);
      GuardsFindLoadedExposures(row, update);
      if ExposureGuard(row, update) && !Conflicts(db, a, update) {
        SchemaShowsExposureEvidence(db, a);
        UpdatedEvidence(row, update, now);
        WrittenRowsLoad(row, update, now);
      }
    }
  }

  // A new import loads as not materialized, with the intent it was given.
  lemma ImportReadsBack(db: Database, id: ApplicationId, name: string, intent: Intent)
    requires Inv(db) && CanImport(db, id, name, intent)
    ensures var next := Apply(db, ImportStep(id, name, intent), 0);
            && id in next.exposures
            && HydrateExposure(next.exposures[id]) == Some(Exposure(intent, Materialization.NotMaterialized))
  {
    hide SchemaHolds, PromotionInvariant, DeploymentsLegal, ExposuresLegal, IsTaken, Import, IsDomain, CanImport;
    ImportIsExact(db, id, name, intent);
  }
}
