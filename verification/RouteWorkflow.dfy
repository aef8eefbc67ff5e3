/** Reconciling a route: reserve the row, change the proxy, confirm, and compensate truthfully. */
module RouteWorkflow {
  import opened Wrappers
  import opened Text
  import opened Identity
  import opened Rendering
  import opened Deployment
  import opened Exposure
  import opened Schema
  import opened Statements
  import opened Caddy
  import opened Samples

  datatype Ending = Repaired | EndedFailed | EndedDiverged | NotConverged | StoreFailed

  // What a workflow leaves in the row and answers.
  datatype Report = Report(row: ExposureRow, ending: Ending)

  // Which of the store statements of one workflow fail without changing the row.
  datatype StoreFaults = StoreFaults(reserve: bool, confirm: bool, record: bool)

  // Everything around the effects on the proxy: the store's failures, what other processes write
  // to the row before its two later statements, the text of a failed effect's error, the clock.
  datatype Surroundings = Surroundings(
    store: StoreFaults, beforeConfirmation: Option<ExposureRow>, beforeRecord: Option<ExposureRow>,
    errorText: string, now: Timestamp)

  // The row is reserved for a change.
  predicate Reserves(row: ExposureRow, visibility: Visibility, state: MaterializationState) {
    row.visibility == visibility && row.state == state
  }

  // The reservation survives what another process wrote, if anything.
  predicate Survives(written: Option<ExposureRow>, visibility: Visibility, state: MaterializationState) {
    written.Some? ==> Reserves(written.value, visibility, state)
  }

  // ---- diagnostics ----

  const REMOVAL_FAILED := "caddy_removal_failed"
  const MATERIALIZATION_FAILED := "caddy_materialization_failed"
  const HEALTH_CHECK_FAILED := "external_health_check_failed"
  const EXPOSURE_CHANGED := "exposure_changed"
  const REMOVAL_LOST := "exposure changed while " + "Caddy route removal was being confirmed"
  const MATERIALIZATION_LOST := "exposure changed while " + "Caddy route materialization was being confirmed"

  function NewDiagnostic(code: string, message: string): Option<ExposureDiagnostic> {
    if IsDiagnosticText(code) && IsDiagnosticText(message) then Some(Diagnostic(code, message)) else None
  }

  lemma FixedTextsAreDiagnostics()
    ensures IsDiagnosticText(REMOVAL_FAILED) && IsDiagnosticText(MATERIALIZATION_FAILED)
    ensures IsDiagnosticText(HEALTH_CHECK_FAILED) && IsDiagnosticText(EXPOSURE_CHANGED)
    ensures IsDiagnosticText(REMOVAL_LOST) && IsDiagnosticText(MATERIALIZATION_LOST)
  {
    EndsAreTrimmed(REMOVAL_FAILED);
    EndsAreTrimmed(MATERIALIZATION_FAILED);
    EndsAreTrimmed(HEALTH_CHECK_FAILED);
    EndsAreTrimmed(EXPOSURE_CHANGED);
    EndsAreTrimmed(REMOVAL_LOST);
    EndsAreTrimmed(MATERIALIZATION_LOST);
  }

  lemma EndsAreTrimmed(text: string)
    requires text != "" && 'a' <= text[0] <= 'z' && text[|text| - 1] == 'd'
    ensures IsDiagnosticText(text)
  {
  }

  // ---- the row ----

  // One application's exposure row; other processes may write it between two statements.
  class Record {
    var row: ExposureRow

    constructor (row: ExposureRow)
      ensures this.row == row
    {
      this.row := row;
    }

    method TryUpdate(update: ExposureUpdate, now: Timestamp) returns (updated: bool)
      modifies this
      ensures updated == ExposureGuard(old(row), update)
      ensures row == if updated then UpdatedExposure(old(row), update, now) else old(row)
    {
      updated := ExposureGuard(row, update);
      if updated {
        row := UpdatedExposure(row, update, now);
      }
    }

    method Interfere(written: Option<ExposureRow>)
      modifies this
      ensures row == if written.Some? then written.value else old(row)
    {
      if written.Some? {
        row := written.value;
      }
    }
  }

  function WrittenOver(row: ExposureRow, written: Option<ExposureRow>): ExposureRow {
    if written.Some? then written.value else row
  }

  // A failure is recorded exactly while the reservation holds, the store accepts it and both its
  // texts are trimmed and not empty; otherwise the row stays as it was found.
  function Recorded(
    row: ExposureRow, visibility: Visibility, reserved: MaterializationState, code: string, message: string,
    outcome: ExposureOutcome, around: Surroundings): Report
  {
    var found, diagnostic := WrittenOver(row, around.beforeRecord), NewDiagnostic(code, message);
    if diagnostic.None? then Report(found, NotConverged)
    else if around.store.record then Report(found, StoreFailed)
    else if !Reserves(found, visibility, reserved) then Report(found, NotConverged)
    else Report(FailureRow(found, outcome, diagnostic.value), if outcome.Failed? then EndedFailed else EndedDiverged)
  }

  method RecordFailure(
    record: Record, visibility: Visibility, reserved: MaterializationState, code: string, message: string,
    outcome: ExposureOutcome, around: Surroundings) returns (result: Ending)
    modifies record
    ensures Report(record.row, result) == Recorded(old(record.row), visibility, reserved, code, message, outcome, around)
    ensures var found := WrittenOver(old(record.row), around.beforeRecord);
            if && IsDiagnosticText(code) && IsDiagnosticText(message)
               && !around.store.record && Reserves(found, visibility, reserved)
            then result == (if outcome.Failed? then EndedFailed else EndedDiverged)
                 && record.row.errorCode == Some(code) && record.row.errorMessage == Some(message)
            else record.row == found && (result == StoreFailed || result == NotConverged)
  {
    hide IsDiagnosticText;
    record.Interfere(around.beforeRecord);
    var diagnostic := NewDiagnostic(code, message);
    if diagnostic.None? { return NotConverged; }
    if around.store.record { return StoreFailed; }
    var recorded := record.TryUpdate(
      RecordReconciliationExposureFailure(visibility, reserved, outcome, diagnostic.value), around.now);
    if !recorded { return NotConverged; }
    result := if outcome.Failed? then EndedFailed else EndedDiverged;
  }

  function Outcome(compensationFailed: bool): ExposureOutcome {
    if compensationFailed then ExposureOutcome.Diverged else ExposureOutcome.Failed
  }

  // Undoes a change that is on the host already, then records why.
  method Compensate(
    record: Record, proxy: Proxy, change: Undo, undo: RecoveryFaults, visibility: Visibility, reserved: MaterializationState,
    code: string, message: string, around: Surroundings) returns (result: Ending)
    modifies record, proxy
    ensures !undo.Defeat(change.previous) ==>
              proxy.fragments == WithFragment(old(proxy.fragments), change.application, change.previous) && proxy.IsConsistent()
    ensures proxy.fragments - {change.application} == old(proxy.fragments) - {change.application}
    ensures Report(record.row, result) == Recorded(
              old(record.row), visibility, reserved, code, message, Outcome(undo.Defeat(change.previous)), around)
  {
    hide RecoveryFaults.Defeat, Recorded;
    var restored := proxy.Restore(change, undo);
    result := RecordFailure(record, visibility, reserved, code, message, Outcome(restored.Err?), around);
  }

  // Whether the reservation is there when a failure is recorded: as last written by another
  // process, and otherwise unless its loss is the failure.
  predicate IsReservedAtRecord(around: Surroundings, visibility: Visibility, state: MaterializationState, lost: bool) {
    if around.beforeRecord.Some? then Reserves(around.beforeRecord.value, visibility, state) else !lost
  }

  // ---- publication ----

  // Setting a fragment changes the fragments exactly if it had other content.
  lemma ChangesShow(fragments: map<string, string>, application: string, contents: Option<string>)
    ensures WithFragment(fragments, application, contents) == fragments <==> FragmentOf(fragments, application) == contents
  {
    if application !in fragments {
      assert fragments - {application} == fragments;
    }
  }

  twostate predicate HostIsAsBefore(proxy: Proxy)
    reads proxy
  {
    proxy.fragments == old(proxy.fragments) && proxy.IsConsistent()
  }

  // The change of the route reached the disk and the proxy under its reservation.
  predicate PublicationApplies(
    row: ExposureRow, expected: MaterializationState, faults: MaterializeFaults, around: Surroundings)
  {
    !around.store.reserve && Reserves(row, Visibility.Public, expected) && faults.LetThrough()
  }

  // A healthy route stays when its confirmation finds the reservation, or fails in the store.
  predicate PublicationStays(healthy: bool, around: Surroundings) {
    healthy && (around.store.confirm || Survives(around.beforeConfirmation, Visibility.Public, MaterializationState.Applying))
  }

  // A compensation that runs fails as well.
  predicate PublicationIsDefeated(
    row: ExposureRow, previous: Option<string>, expected: MaterializationState, faults: MaterializeFaults,
    healthy: bool, undo: RecoveryFaults, around: Surroundings)
  {
    && !around.store.reserve && Reserves(row, Visibility.Public, expected)
    && if faults.LetThrough() then !PublicationStays(healthy, around) && undo.Defeat(previous)
       else faults.DefeatRecovery(previous)
  }

  // The row and the answer of confirming a materialized route.
  function ConfirmedReport(
    row: ExposureRow, runtime: RuntimeId, version: ConfigurationVersion, healthy: bool, defeated: bool, around: Surroundings)
    : Report
  {
    var found := WrittenOver(row, around.beforeConfirmation);
    if !healthy then
      Recorded(row, Visibility.Public, MaterializationState.Applying, HEALTH_CHECK_FAILED, around.errorText,
               Outcome(defeated), around)
    else if around.store.confirm then Report(found, StoreFailed)
    else if Reserves(found, Visibility.Public, MaterializationState.Applying) then
      Report(UpdatedExposure(found, CompletePublicExposureChange(runtime, version), around.now), Repaired)
    else
      Recorded(found, Visibility.Public, MaterializationState.Applying, EXPOSURE_CHANGED, MATERIALIZATION_LOST,
               Outcome(defeated), around)
  }

  function PublicationReport(
    row: ExposureRow, expected: MaterializationState, runtime: RuntimeId, version: ConfigurationVersion,
    applied: bool, healthy: bool, defeated: bool, around: Surroundings): Report
  {
    var applying := InProgressRow(row, MaterializationState.Applying);
    if around.store.reserve then Report(row, StoreFailed)
    else if !Reserves(row, Visibility.Public, expected) then Report(row, NotConverged)
    else if applied then ConfirmedReport(applying, runtime, version, healthy, defeated, around)
    else Recorded(applying, Visibility.Public, MaterializationState.Applying, MATERIALIZATION_FAILED, around.errorText,
                  Outcome(defeated), around)
  }

  // Every ending of a publication, exactly. A confirmation lost to another process is recorded
  // only if the row has been reserved anew by then.
  lemma PublicationEndsExactly(
    row: ExposureRow, expected: MaterializationState, runtime: RuntimeId, version: ConfigurationVersion,
    applied: bool, healthy: bool, defeated: bool, around: Surroundings)
    requires applied ==> !around.store.reserve && Reserves(row, Visibility.Public, expected)
    ensures var report := PublicationReport(row, expected, runtime, version, applied, healthy, defeated, around);
            var reserved := !around.store.reserve && Reserves(row, Visibility.Public, expected);
            var stays := applied && PublicationStays(healthy, around);
            var legible := (applied && healthy) || IsDiagnosticText(around.errorText);
            var recorded := reserved && !stays && legible && !around.store.record &&
                            IsReservedAtRecord(around, Visibility.Public, MaterializationState.Applying, applied && healthy);
            && (report.ending.Repaired? <==> stays && !around.store.confirm)
            && (report.ending.EndedFailed? <==> recorded && !defeated)
            && (report.ending.EndedDiverged? <==> recorded && defeated)
            && (report.ending.StoreFailed? <==>
                  || around.store.reserve || (stays && around.store.confirm)
                  || (reserved && !stays && legible && around.store.record))
            && (report.ending.Repaired? ==>
                  && report.row.visibility.Public? && report.row.state.Active? && report.row.activeRuntime == Some(runtime)
                  && report.row.version == Some(version) && report.row.materializedAt == Some(around.now)
                  && report.row.errorCode.None? && report.row.errorMessage.None?)
            && (stays && around.store.confirm ==>
                  report.row == WrittenOver(InProgressRow(row, MaterializationState.Applying), around.beforeConfirmation))
            && (recorded ==>
                  && report.row.visibility.Public?
                  && report.row.errorCode == Some(
                       if !applied then "caddy_materialization_failed"
                       else if healthy then "exposure_changed" else "external_health_check_failed")
                  && report.row.state == (if defeated then MaterializationState.Diverged else MaterializationState.Failed)
                  && report.row.errorMessage == Some(if applied && healthy then MATERIALIZATION_LOST else around.errorText))
            && (!reserved ==> report.row == row)
  {
    hide IsDiagnosticText;
    FixedTextsAreDiagnostics();
  }

  // Confirms a materialized route or undoes it.
  method ConfirmPublication(
    record: Record, proxy: Proxy, change: Undo, runtime: RuntimeId, version: ConfigurationVersion, healthy: bool,
    undo: RecoveryFaults, around: Surroundings) returns (result: Ending)
    requires proxy.IsConsistent() && Reserves(record.row, Visibility.Public, MaterializationState.Applying)
    modifies record, proxy
    ensures Report(record.row, result) ==
            ConfirmedReport(old(record.row), runtime, version, healthy,
                            !PublicationStays(healthy, around) && undo.Defeat(change.previous), around)
    ensures if PublicationStays(healthy, around) then HostIsAsBefore(proxy)
            else !undo.Defeat(change.previous) ==>
              proxy.fragments == WithFragment(old(proxy.fragments), change.application, change.previous) && proxy.IsConsistent()
    ensures proxy.fragments - {change.application} == old(proxy.fragments) - {change.application}
  {
    hide RecoveryFaults.Defeat, Recorded, InProgressRow;
    if !healthy {
      result := Compensate(record, proxy, change, undo, Visibility.Public, MaterializationState.Applying,
                           HEALTH_CHECK_FAILED, around.errorText, around);
      return;
    }
    record.Interfere(around.beforeConfirmation);
    if around.store.confirm { return StoreFailed; }
    var confirmed := record.TryUpdate(CompletePublicExposureChange(runtime, version), around.now);
    if !confirmed {
      result := Compensate(record, proxy, change, undo, Visibility.Public, MaterializationState.Applying,
                           EXPOSURE_CHANGED, MATERIALIZATION_LOST, around);
      return;
    }
    result := Repaired;
  }

  // Publishes the canonical route of a running runtime. Unless a compensation is defeated, the
  // host ends as before or serves the new route, and it serves the new route without the row
  // confirming it exactly when the confirmation itself fails in the store.
  method PublishRoute(
    record: Record, proxy: Proxy, application: string, domain: DomainName, endpoint: SocketAddr, runtime: RuntimeId,
    expected: MaterializationState, faults: MaterializeFaults, healthy: bool, undo: RecoveryFaults, around: Surroundings)
    returns (result: Ending)
    requires proxy.IsConsistent() && IsSafeFragmentStem(application)
    modifies record, proxy
    ensures var row, previous := old(record.row), FragmentOf(old(proxy.fragments), application);
            var applied := PublicationApplies(row, expected, faults, around);
            var defeated := PublicationIsDefeated(row, previous, expected, faults, healthy, undo, around);
            && !IsBlank(CanonicalFragment(domain, endpoint))
            && Report(record.row, result) ==
               PublicationReport(row, expected, runtime, CanonicalFragment(domain, endpoint), applied, healthy, defeated, around)
            && (applied && PublicationStays(healthy, around) ==>
                  && proxy.fragments == old(proxy.fragments)[application := CanonicalFragment(domain, endpoint)]
                  && proxy.IsConsistent())
            && (!(applied && PublicationStays(healthy, around)) && !defeated ==> HostIsAsBefore(proxy))
            && (!defeated && !result.Repaired? ==>
                  (!HostIsAsBefore(proxy) <==>
                    applied && healthy && around.store.confirm && previous != Some(CanonicalFragment(domain, endpoint))))
    ensures proxy.fragments - {application} == old(proxy.fragments) - {application}
  {
    hide CanonicalFragment, IsBlank, IsSafeFragmentStem, MaterializeFaults.StopEarly, MaterializeFaults.LetThrough;
    hide MaterializeFaults.DefeatRecovery, RecoveryFaults.Defeat, Recorded, ConfirmedReport;
    hide MaterializeError.RecoveryFailed, IsDiagnosticText;
    var fragment := CanonicalFragment(domain, endpoint);
    CanonicalFragmentIsNotBlank(domain, endpoint);
    ghost var row, applied := record.row, PublicationApplies(record.row, expected, faults, around);
    ghost var defeated := PublicationIsDefeated(
      row, FragmentOf(proxy.fragments, application), expected, faults, healthy, undo, around);
    assert PublicationReport(row, expected, runtime, fragment, applied, healthy, defeated, around).ending.Repaired? <==>
           applied && PublicationStays(healthy, around) && !around.store.confirm by {
      PublicationEndsExactly(row, expected, runtime, fragment, applied, healthy, defeated, around);
    }
    ChangesShow(proxy.fragments, application, Some(fragment));
    if around.store.reserve { return StoreFailed; }
    var reserved := record.TryUpdate(BeginPublicExposureReconciliation(expected), around.now);
    if !reserved { return NotConverged; }
    var materialized := proxy.Materialize(application, domain, endpoint, faults);
    if materialized.Err? {
      result := RecordFailure(record, Visibility.Public, MaterializationState.Applying, MATERIALIZATION_FAILED,
                              around.errorText, Outcome(materialized.error.RecoveryFailed()), around);
      return;
    }
    PuttingBack(old(proxy.fragments), application, Some(fragment));
    result := ConfirmPublication(record, proxy, materialized.value, runtime, fragment, healthy, undo, around);
  }

  // ---- withdrawal ----

  predicate WithdrawalApplies(row: ExposureRow, expected: MaterializationState, faults: RemoveFaults, around: Surroundings) {
    !around.store.reserve && Reserves(row, Visibility.Internal, expected) && faults.LetThrough()
  }

  predicate WithdrawalStays(around: Surroundings) {
    around.store.confirm || Survives(around.beforeConfirmation, Visibility.Internal, MaterializationState.Removing)
  }

  predicate WithdrawalIsDefeated(
    row: ExposureRow, previous: Option<string>, expected: MaterializationState, faults: RemoveFaults, undo: RecoveryFaults,
    around: Surroundings)
  {
    && !around.store.reserve && Reserves(row, Visibility.Internal, expected)
    && if faults.LetThrough() then !WithdrawalStays(around) && undo.Defeat(previous) else faults.DefeatRecovery(previous)
  }

  // The row and the answer of confirming a removed route.
  function RemovedReport(row: ExposureRow, defeated: bool, around: Surroundings): Report {
    var found := WrittenOver(row, around.beforeConfirmation);
    if around.store.confirm then Report(found, StoreFailed)
    else if Reserves(found, Visibility.Internal, MaterializationState.Removing) then
      Report(UpdatedExposure(found, CompleteInternalExposureChange, around.now), Repaired)
    else
      Recorded(found, Visibility.Internal, MaterializationState.Removing, EXPOSURE_CHANGED, REMOVAL_LOST,
               Outcome(defeated), around)
  }

  function WithdrawalReport(
    row: ExposureRow, expected: MaterializationState, applied: bool, defeated: bool, around: Surroundings): Report
  {
    var removing := InProgressRow(row, MaterializationState.Removing);
    if around.store.reserve then Report(row, StoreFailed)
    else if !Reserves(row, Visibility.Internal, expected) then Report(row, NotConverged)
    else if applied then RemovedReport(removing, defeated, around)
    else Recorded(removing, Visibility.Internal, MaterializationState.Removing, REMOVAL_FAILED, around.errorText,
                  Outcome(defeated), around)
  }

  // Every ending of a withdrawal, exactly.
  lemma WithdrawalEndsExactly(
    row: ExposureRow, expected: MaterializationState, applied: bool, defeated: bool, around: Surroundings)
    requires applied ==> !around.store.reserve && Reserves(row, Visibility.Internal, expected)
    ensures var report := WithdrawalReport(row, expected, applied, defeated, around);
            var reserved := !around.store.reserve && Reserves(row, Visibility.Internal, expected);
            var stays := applied && WithdrawalStays(around);
            var legible := applied || IsDiagnosticText(around.errorText);
            var recorded := reserved && !stays && legible && !around.store.record &&
                            IsReservedAtRecord(around, Visibility.Internal, MaterializationState.Removing, applied);
            && (report.ending.Repaired? <==> stays && !around.store.confirm)
            && (report.ending.EndedFailed? <==> recorded && !defeated)
            && (report.ending.EndedDiverged? <==> recorded && defeated)
            && (report.ending.StoreFailed? <==>
                  || around.store.reserve || (stays && around.store.confirm)
                  || (reserved && !stays && legible && around.store.record))
            && (report.ending.Repaired? ==>
                  && report.row.visibility.Internal? && report.row.state.NotMaterialized? && report.row.activeRuntime.None?
                  && report.row.version.None? && report.row.materializedAt.None?
                  && report.row.errorCode.None? && report.row.errorMessage.None?)
            && (stays && around.store.confirm ==>
                  report.row == WrittenOver(InProgressRow(row, MaterializationState.Removing), around.beforeConfirmation))
            && (recorded ==>
                  && report.row.visibility.Internal?
                  && report.row.errorCode == Some(if applied then "exposure_changed" else "caddy_removal_failed")
                  && report.row.state == (if defeated then MaterializationState.Diverged else MaterializationState.Failed)
                  && report.row.errorMessage == Some(if applied then REMOVAL_LOST else around.errorText))
            && (!reserved ==> report.row == row)
  {
    hide IsDiagnosticText;
    FixedTextsAreDiagnostics();
  }

  // Confirms a removed route or puts it back.
  method ConfirmWithdrawal(record: Record, proxy: Proxy, change: Undo, undo: RecoveryFaults, around: Surroundings)
    returns (result: Ending)
    requires proxy.IsConsistent() && Reserves(record.row, Visibility.Internal, MaterializationState.Removing)
    modifies record, proxy
    ensures Report(record.row, result) ==
            RemovedReport(old(record.row), !WithdrawalStays(around) && undo.Defeat(change.previous), around)
    ensures if WithdrawalStays(around) then HostIsAsBefore(proxy)
            else !undo.Defeat(change.previous) ==>
              proxy.fragments == WithFragment(old(proxy.fragments), change.application, change.previous) && proxy.IsConsistent()
    ensures proxy.fragments - {change.application} == old(proxy.fragments) - {change.application}
  {
    hide RecoveryFaults.Defeat, Recorded, InProgressRow;
    record.Interfere(around.beforeConfirmation);
    if around.store.confirm { return StoreFailed; }
    var completed := record.TryUpdate(CompleteInternalExposureChange, around.now);
    if !completed {
      result := Compensate(record, proxy, change, undo, Visibility.Internal, MaterializationState.Removing,
                           EXPOSURE_CHANGED, REMOVAL_LOST, around);
      return;
    }
    result := Repaired;
  }

  // Withdraws the stale route of an internal application under the same discipline.
  method WithdrawRoute(
    record: Record, proxy: Proxy, application: string, expected: MaterializationState, faults: RemoveFaults,
    undo: RecoveryFaults, around: Surroundings) returns (result: Ending)
    requires proxy.IsConsistent()
    modifies record, proxy
    ensures var row, previous := old(record.row), FragmentOf(old(proxy.fragments), application);
            var applied := WithdrawalApplies(row, expected, faults, around);
            var defeated := WithdrawalIsDefeated(row, previous, expected, faults, undo, around);
            && Report(record.row, result) == WithdrawalReport(row, expected, applied, defeated, around)
            && (applied && WithdrawalStays(around) ==>
                  proxy.fragments == old(proxy.fragments) - {application} && proxy.IsConsistent())
            && (!(applied && WithdrawalStays(around)) && !defeated ==> HostIsAsBefore(proxy))
            && (!defeated && !result.Repaired? ==>
                  (!HostIsAsBefore(proxy) <==> applied && around.store.confirm && previous.Some?))
    ensures proxy.fragments - {application} == old(proxy.fragments) - {application}
  {
    hide RemoveFaults.StopEarly, RemoveFaults.LetThrough, RemoveFaults.DefeatRecovery, RecoveryFaults.Defeat, Recorded;
    hide RemovedReport, RecoveryError.RecoveryFailed, IsDiagnosticText;
    ghost var row, applied := record.row, WithdrawalApplies(record.row, expected, faults, around);
    ghost var defeated := WithdrawalIsDefeated(
      row, FragmentOf(proxy.fragments, application), expected, faults, undo, around);
    assert WithdrawalReport(row, expected, applied, defeated, around).ending.Repaired? <==>
           applied && WithdrawalStays(around) && !around.store.confirm by {
      WithdrawalEndsExactly(row, expected, applied, defeated, around);
    }
    ChangesShow(proxy.fragments, application, None);
    if around.store.reserve { return StoreFailed; }
    var reserved := record.TryUpdate(BeginInternalExposureReconciliation(expected), around.now);
    if !reserved { return NotConverged; }
    var removed := proxy.Remove(application, faults);
    if removed.Err? {
      result := RecordFailure(record, Visibility.Internal, MaterializationState.Removing, REMOVAL_FAILED,
                              around.errorText, Outcome(removed.error.RecoveryFailed()), around);
      return;
    }
    PuttingBack(old(proxy.fragments), application, None);
    result := ConfirmWithdrawal(record, proxy, removed.value, undo, around);
  }

  // ---- written out ----

  const NO_RESTORE_FAULTS := RestoreFaults(Written, false, false, false)
  const NO_RECOVERY_FAULTS := RecoveryFaults(NO_RESTORE_FAULTS, Reloaded)
  const NO_MATERIALIZE_FAULTS := MaterializeFaults(
    false, false, false, false, Written, false, false, false, false, NO_RESTORE_FAULTS, Reloaded, NO_RECOVERY_FAULTS)
  const NO_REMOVE_FAULTS := RemoveFaults(false, NO_RESTORE_FAULTS, false, NO_RESTORE_FAULTS, Reloaded, NO_RECOVERY_FAULTS)
  const CONFIRMATION_FAILS := Surroundings(StoreFaults(false, true, false), None, None, "", 1)

  // A first publication in which nothing goes wrong but the confirming statement: the route is
  // served and the row has no route.
  method UnconfirmedPublication() returns (result: Ending, served: map<string, string>, row: ExposureRow)
    ensures result.StoreFailed?
    ensures served == map[FIRST := CanonicalFragment("a", SocketAddr("127.0.0.1", 30000))]
    ensures row.state.Applying? && row.activeRuntime.None? && row.version.None?
  {
    var record := new Record(ExposureRow(Visibility.Public, Some("a"), MaterializationState.NotMaterialized,
                                         None, None, None, None, None));
    var proxy := new Proxy();
    CanonicalFragmentIsNotBlank("a", SocketAddr("127.0.0.1", 30000));
    result := PublishRoute(record, proxy, FIRST, "a", SocketAddr("127.0.0.1", 30000), RuntimeId(FIRST),
                           MaterializationState.NotMaterialized, NO_MATERIALIZE_FAULTS, true, NO_RECOVERY_FAULTS,
                           CONFIRMATION_FAILS);
    served, row := proxy.running, record.row;
  }

  // A withdrawal of that kind: nothing is served and the row still has its route.
  method UnconfirmedWithdrawal() returns (result: Ending, served: map<string, string>, row: ExposureRow)
    ensures result.StoreFailed? && served == map[]
    ensures row.state.Removing? && row.activeRuntime.Some? && row.version.Some?
  {
    var fragment := CanonicalFragment("a", SocketAddr("127.0.0.1", 30000));
    var record := new Record(ExposureRow(Visibility.Internal, Some("a"), MaterializationState.Active,
                                         Some(RuntimeId(FIRST)), Some(fragment), Some(1), None, None));
    var proxy := new Proxy();
    proxy.fragments, proxy.running := map[FIRST := fragment], map[FIRST := fragment];
    result := WithdrawRoute(record, proxy, FIRST, MaterializationState.Active, NO_REMOVE_FAULTS, NO_RECOVERY_FAULTS,
                            CONFIRMATION_FAILS);
    served, row := proxy.running, record.row;
  }
}
