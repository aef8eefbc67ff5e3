/** Managed route fragments on disk and in the running proxy, with compensation under any fault. */
module Caddy {
  import opened Wrappers
  import opened Identity
  import opened Rendering

  // ---- faults: one outcome per external effect, chosen by the environment ----

  // A failed reload may leave the running configuration in any state.
  datatype ReloadOutcome = Reloaded | ReloadFailed(left: map<string, string>)

  // A failed write may leave any bytes, or none, in the temporary file.
  datatype WriteOutcome = Written | WriteFailed(left: Option<string>)

  datatype RestoreFaults =
    RestoreFaults(write: WriteOutcome, renameFails: bool, removeFails: bool, cleanupFails: bool)
  {
    predicate Defeat(previous: Option<string>) {
      if previous.Some? then write.WriteFailed? || renameFails else removeFails
    }
  }

  datatype RecoveryFaults = RecoveryFaults(restore: RestoreFaults, reload: ReloadOutcome) {
    predicate Defeat(previous: Option<string>) { restore.Defeat(previous) || reload.ReloadFailed? }
  }

  datatype MaterializeFaults = MaterializeFaults(
    inspectFails: bool, notAFile: bool, createFails: bool, readFails: bool, write: WriteOutcome,
    fragmentRejected: bool, renameFails: bool, cleanupFails: bool,
    configurationRejected: bool, restore: RestoreFaults, reload: ReloadOutcome, recovery: RecoveryFaults)
  {
    // Any fault before the new fragment replaces the old one.
    predicate StopEarly() {
      inspectFails || notAFile || createFails || readFails || write.WriteFailed? || fragmentRejected || renameFails
    }

    // No fault at all between the first inspection and the reload.
    predicate LetThrough() { !StopEarly() && !configurationRejected && reload.Reloaded? }

    // The faults that also defeat the compensation of a later one.
    predicate DefeatRecovery(previous: Option<string>) {
      && !StopEarly()
      && if configurationRejected then restore.Defeat(previous) else reload.ReloadFailed? && recovery.Defeat(previous)
    }
  }

  datatype RemoveFaults = RemoveFaults(
    readFails: bool, remove: RestoreFaults, configurationRejected: bool, restore: RestoreFaults,
    reload: ReloadOutcome, recovery: RecoveryFaults)
  {
    predicate StopEarly() { readFails || remove.Defeat(None) }

    predicate LetThrough() { !StopEarly() && !configurationRejected && reload.Reloaded? }

    predicate DefeatRecovery(previous: Option<string>) {
      && !StopEarly()
      && if configurationRejected then restore.Defeat(previous) else reload.ReloadFailed? && recovery.Defeat(previous)
    }
  }

  // ---- results ----

  datatype RecoveryError =
    | RestoreFragment
    | ReloadRestored
    | ValidateAfterRemoval(recovery: Option<RecoveryError>)
    | ReloadRecovery(cause: RecoveryError)
  {
    // Meaningful for results of a removal.
    predicate RecoveryFailed() {
      ReloadRecovery? || (ValidateAfterRemoval? && recovery.Some?)
    }
  }

  datatype MaterializeError =
    | InvalidApplicationId
    | InvalidCaddyfile
    | Filesystem
    | ValidateFragment
    | ValidateConfiguration(recovery: Option<RecoveryError>)
    | Reload(recovery: Option<RecoveryError>)
  {
    predicate RecoveryFailed() {
      (ValidateConfiguration? || Reload?) && recovery.Some?
    }
  }

  // The exact error of a change that did not go through, in the order of its effects.
  predicate IsMaterializeError(error: MaterializeError, isSafe: bool, previous: Option<string>, faults: MaterializeFaults) {
    match error
    case InvalidApplicationId => !isSafe
    case InvalidCaddyfile => isSafe && !faults.inspectFails && faults.notAFile
    case Filesystem =>
      && isSafe
      && (|| faults.inspectFails
          || (&& !faults.notAFile
              && (|| faults.createFails || faults.readFails || faults.write.WriteFailed?
                  || (!faults.fragmentRejected && faults.renameFails))))
    case ValidateFragment =>
      && isSafe && !faults.inspectFails && !faults.notAFile && !faults.createFails && !faults.readFails
      && faults.write.Written? && faults.fragmentRejected
    case ValidateConfiguration(recovery) =>
      && isSafe && !faults.StopEarly() && faults.configurationRejected
      && recovery == (if faults.restore.Defeat(previous) then Some(RecoveryError.RestoreFragment) else None)
    case Reload(recovery) =>
      && isSafe && !faults.StopEarly() && !faults.configurationRejected && faults.reload.ReloadFailed?
      && recovery == IncompleteRecovery(previous, faults.recovery)
  }

  // How a recovery ends short, if it does.
  function IncompleteRecovery(previous: Option<string>, faults: RecoveryFaults): Option<RecoveryError> {
    if faults.restore.Defeat(previous) then Some(RecoveryError.RestoreFragment)
    else if faults.reload.ReloadFailed? then Some(ReloadRestored)
    else None
  }

  predicate IsRemoveError(error: RecoveryError, previous: Option<string>, faults: RemoveFaults) {
    match error
    case RestoreFragment => faults.StopEarly()
    case ValidateAfterRemoval(recovery) =>
      && !faults.StopEarly() && faults.configurationRejected
      && recovery == (if faults.restore.Defeat(previous) then Some(RecoveryError.RestoreFragment) else None)
    case ReloadRestored =>
      && !faults.StopEarly() && !faults.configurationRejected && faults.reload.ReloadFailed?
      && IncompleteRecovery(previous, faults.recovery).None?
    case ReloadRecovery(cause) =>
      && !faults.StopEarly() && !faults.configurationRejected && faults.reload.ReloadFailed?
      && IncompleteRecovery(previous, faults.recovery) == Some(cause)
  }

  // What a caller keeps to undo a change it later rejects.
  datatype Undo = Undo(application: string, previous: Option<string>)

  predicate IsSafeFragmentStem(application: string) {
    |application| == 32 &&
    forall i :: 0 <= i < 32 ==>
      '0' <= application[i] <= '9' || 'a' <= application[i] <= 'f' || 'A' <= application[i] <= 'F'
  }

  // Every store-generated identifier is a safe file stem.
  lemma EntityIdsAreSafeStems(id: ApplicationId)
    ensures IsSafeFragmentStem(id.text)
  {
  }

  function FragmentOf(fragments: map<string, string>, application: string): Option<string> {
    if application in fragments then Some(fragments[application]) else None
  }

  function WithFragment(fragments: map<string, string>, application: string, contents: Option<string>): map<string, string> {
    match contents
    case Some(bytes) => fragments[application := bytes]
    case None => fragments - {application}
  }

  lemma PuttingBack(fragments: map<string, string>, application: string, contents: Option<string>)
    ensures WithFragment(WithFragment(fragments, application, contents), application, FragmentOf(fragments, application)) == fragments
  {
    var changed := WithFragment(fragments, application, contents);
    if application in fragments {
      assert changed[application := fragments[application]] == fragments;
    } else {
      assert changed - {application} == fragments;
    }
  }

  class Proxy {
    var fragments: map<string, string>
    var temporaries: map<string, string>
    var running: map<string, string>

    // The proxy serves exactly what is on disk.
    predicate IsConsistent()
      reads this
    {
      running == fragments
    }

    // Only this application's temporary file may differ.
    twostate predicate OthersTemporariesKept(application: string)
      reads this
    {
      temporaries - {application} == old(temporaries) - {application}
    }

    constructor ()
      ensures IsConsistent() && fragments == map[] && temporaries == map[]
    {
      fragments, temporaries, running := map[], map[], map[];
    }

    // ---- external effects ----

    method WriteTemporary(application: string, contents: string, outcome: WriteOutcome) returns (ok: bool)
      modifies this`temporaries
      ensures ok == outcome.Written? && OthersTemporariesKept(application)
      ensures FragmentOf(temporaries, application) == if ok then Some(contents) else outcome.left
    {
      ok := outcome.Written?;
      temporaries := WithFragment(temporaries, application, if ok then Some(contents) else outcome.left);
    }

    method RemoveTemporary(application: string, fails: bool)
      modifies this`temporaries
      ensures OthersTemporariesKept(application)
      ensures if fails then temporaries == old(temporaries) else application !in temporaries
    {
      if !fails {
        temporaries := temporaries - {application};
      }
    }

    // Renaming replaces the fragment atomically or leaves it as it was.
    method ActivateTemporary(application: string, fails: bool) returns (ok: bool)
      requires application in temporaries
      modifies this`fragments, this`temporaries
      ensures ok == !fails && OthersTemporariesKept(application)
      ensures if ok then fragments == old(fragments)[application := old(temporaries)[application]] && application !in temporaries
              else fragments == old(fragments) && temporaries == old(temporaries)
    {
      ok := !fails;
      if ok {
        fragments := fragments[application := temporaries[application]];
        temporaries := temporaries - {application};
      }
    }

    method ReloadProxy(outcome: ReloadOutcome) returns (ok: bool)
      modifies this`running
      ensures ok == outcome.Reloaded?
      ensures running == if ok then fragments else outcome.left
    {
      match outcome
      case Reloaded => running := fragments; ok := true;
      case ReloadFailed(left) => running := left; ok := false;
    }

    // ---- compensation ----

    // Afterwards the fragment is `previous`, absence included, or a fault stopped every change of it.
    method RestoreFragment(application: string, previous: Option<string>, faults: RestoreFaults)
      returns (result: Result<(), RecoveryError>)
      modifies this`fragments, this`temporaries
      ensures OthersTemporariesKept(application)
      ensures result == if faults.Defeat(previous) then Err(RecoveryError.RestoreFragment) else Ok(())
      ensures fragments == if result.Ok? then WithFragment(old(fragments), application, previous) else old(fragments)
      ensures if previous.None? then
                if faults.removeFails || faults.cleanupFails then temporaries == old(temporaries) else application !in temporaries
              else
                FragmentOf(temporaries, application) ==
                if faults.write.WriteFailed? then faults.write.left
                else if faults.renameFails && faults.cleanupFails then previous
                else None
    {
      if previous.Some? {
        var written := WriteTemporary(application, previous.value, faults.write);
        if !written { return Err(RecoveryError.RestoreFragment); }
        var renamed := ActivateTemporary(application, faults.renameFails);
        if !renamed {
          RemoveTemporary(application, faults.cleanupFails);
          return Err(RecoveryError.RestoreFragment);
        }
      } else {
        if faults.removeFails { return Err(RecoveryError.RestoreFragment); }
        fragments := fragments - {application};
        RemoveTemporary(application, faults.cleanupFails);
      }
      result := Ok(());
    }

    // Disk and running configuration converge together, or the failure says which step broke.
    method RecoverPreviousConfiguration(application: string, previous: Option<string>, faults: RecoveryFaults)
      returns (result: Result<(), RecoveryError>)
      modifies this
      ensures OthersTemporariesKept(application)
      ensures result == match IncompleteRecovery(previous, faults) { case Some(error) => Err(error) case None => Ok(()) }
      ensures result.Ok? <==> !faults.Defeat(previous)
      ensures result.Ok? ==> IsConsistent()
      ensures fragments == if faults.restore.Defeat(previous) then old(fragments)
                           else WithFragment(old(fragments), application, previous)
      ensures faults.restore.Defeat(previous) ==> running == old(running)
    {
      result := RestoreFragment(application, previous, faults.restore);
      if result.Err? { return; }
      var reloaded := ReloadProxy(faults.reload);
      if !reloaded { return Err(ReloadRestored); }
    }

    // ---- materialization ----

    // Ok: the proxy serves the canonical fragment and everything else on disk. Err without the
    // flag: nothing on disk changed and, if it did before, the proxy still serves the disk.
    // The flag is raised exactly when a compensating step failed as well.
    method Materialize(application: string, domain: string, endpoint: SocketAddr, faults: MaterializeFaults)
      returns (result: Result<Undo, MaterializeError>)
      modifies this
      ensures result.Ok? <==> IsSafeFragmentStem(application) && faults.LetThrough()
      ensures result.Ok? ==>
                && fragments == old(fragments)[application := CanonicalFragment(domain, endpoint)]
                && IsConsistent()
                && result.value == Undo(application, FragmentOf(old(fragments), application))
      ensures result.Err? && !result.error.RecoveryFailed() ==>
                fragments == old(fragments) && (old(IsConsistent()) ==> IsConsistent())
      ensures result.Err? ==>
                (result.error.RecoveryFailed() <==>
                  IsSafeFragmentStem(application) && faults.DefeatRecovery(FragmentOf(old(fragments), application)))
      ensures result.Err? && result.error.ValidateConfiguration? && result.error.RecoveryFailed() ==>
                && fragments == old(fragments)[application := CanonicalFragment(domain, endpoint)]
                && running == old(running)
      ensures result.Err? ==>
                IsMaterializeError(result.error, IsSafeFragmentStem(application), FragmentOf(old(fragments), application), faults)
      ensures !IsSafeFragmentStem(application) || faults.StopEarly() ==> running == old(running)
      ensures result.Ok? ==> application !in temporaries
      ensures result.Err? && (result.error.ValidateFragment? || (result.error.Filesystem? && faults.renameFails
                && !faults.inspectFails && !faults.createFails && !faults.readFails && faults.write.Written?)) ==>
                FragmentOf(temporaries, application) ==
                if faults.cleanupFails then Some(CanonicalFragment(domain, endpoint)) else None
      ensures fragments - {application} == old(fragments) - {application}
      ensures OthersTemporariesKept(application)
    {
      if !IsSafeFragmentStem(application) { return Err(InvalidApplicationId); }
      if faults.inspectFails { return Err(Filesystem); }
      if faults.notAFile { return Err(InvalidCaddyfile); }
      if faults.createFails || faults.readFails { return Err(Filesystem); }
      var previous := FragmentOf(fragments, application);
      var written := WriteTemporary(application, CanonicalFragment(domain, endpoint), faults.write);
      if !written { return Err(Filesystem); }
      if faults.fragmentRejected {
        RemoveTemporary(application, faults.cleanupFails);
        return Err(ValidateFragment);
      }
      var renamed := ActivateTemporary(application, faults.renameFails);
      if !renamed {
        RemoveTemporary(application, faults.cleanupFails);
        return Err(Filesystem);
      }
      PuttingBack(old(fragments), application, Some(CanonicalFragment(domain, endpoint)));
      if faults.configurationRejected {
        var restored := RestoreFragment(application, previous, faults.restore);
        return Err(ValidateConfiguration(if restored.Err? then Some(restored.error) else None));
      }
      var reloaded := ReloadProxy(faults.reload);
      if !reloaded {
        var recovered := RecoverPreviousConfiguration(application, previous, faults.recovery);
        return Err(Reload(if recovered.Err? then Some(recovered.error) else None));
      }
      result := Ok(Undo(application, previous));
    }

    // ---- removal ----

    method Remove(application: string, faults: RemoveFaults) returns (result: Result<Undo, RecoveryError>)
      modifies this
      ensures result.Ok? <==> faults.LetThrough()
      ensures result.Ok? ==>
                && fragments == old(fragments) - {application}
                && IsConsistent()
                && result.value == Undo(application, FragmentOf(old(fragments), application))
      ensures result.Err? && !result.error.RecoveryFailed() ==>
                fragments == old(fragments) && (old(IsConsistent()) ==> IsConsistent())
      ensures result.Err? ==>
                (result.error.RecoveryFailed() <==> faults.DefeatRecovery(FragmentOf(old(fragments), application)))
      ensures result.Err? && result.error.ValidateAfterRemoval? && result.error.RecoveryFailed() ==>
                fragments == old(fragments) - {application} && running == old(running)
      ensures result.Err? ==> IsRemoveError(result.error, FragmentOf(old(fragments), application), faults)
      ensures faults.StopEarly() ==> running == old(running)
      ensures fragments - {application} == old(fragments) - {application}
      ensures OthersTemporariesKept(application)
    {
      if faults.readFails { return Err(RecoveryError.RestoreFragment); }
      var previous := FragmentOf(fragments, application);
      var removed := RestoreFragment(application, None, faults.remove);
      if removed.Err? { return Err(removed.error); }
      PuttingBack(old(fragments), application, None);
      if faults.configurationRejected {
        var restored := RestoreFragment(application, previous, faults.restore);
        return Err(ValidateAfterRemoval(if restored.Err? then Some(restored.error) else None));
      }
      var reloaded := ReloadProxy(faults.reload);
      if !reloaded {
        var recovered := RecoverPreviousConfiguration(application, previous, faults.recovery);
        return Err(if recovered.Ok? then ReloadRestored else ReloadRecovery(recovered.error));
      }
      result := Ok(Undo(application, previous));
    }

    // Undoes a materialization or a removal whose caller rejected it.
    method Restore(undo: Undo, faults: RecoveryFaults) returns (result: Result<(), RecoveryError>)
      modifies this
      ensures result.Ok? <==> !faults.Defeat(undo.previous)
      ensures result.Ok? ==> fragments == WithFragment(old(fragments), undo.application, undo.previous) && IsConsistent()
      ensures fragments - {undo.application} == old(fragments) - {undo.application}
      ensures OthersTemporariesKept(undo.application)
    {
      result := RecoverPreviousConfiguration(undo.application, undo.previous, faults);
    }

    // ---- round trips ----

    // Materializing and then restoring is the identity on disk and on the running proxy.
    method MaterializeThenRestore(
      application: string, domain: string, endpoint: SocketAddr, faults: MaterializeFaults, recovery: RecoveryFaults)
      returns (bothSucceeded: bool)
      requires IsConsistent()
      modifies this
      ensures bothSucceeded <==>
                && IsSafeFragmentStem(application) && faults.LetThrough()
                && !recovery.Defeat(FragmentOf(old(fragments), application))
      ensures bothSucceeded ==> fragments == old(fragments) && running == old(running)
    {
      var materialized := Materialize(application, domain, endpoint, faults);
      if materialized.Err? { return false; }
      PuttingBack(old(fragments), application, Some(CanonicalFragment(domain, endpoint)));
      var restored := Restore(materialized.value, recovery);
      bothSucceeded := restored.Ok?;
    }

    method RemoveThenRestore(application: string, faults: RemoveFaults, recovery: RecoveryFaults) returns (bothSucceeded: bool)
      requires IsConsistent()
      modifies this
      ensures bothSucceeded <==>
                && faults.LetThrough() && !recovery.Defeat(FragmentOf(old(fragments), application))
      ensures bothSucceeded ==> fragments == old(fragments) && running == old(running)
    {
      var removed := Remove(application, faults);
      if removed.Err? { return false; }
      PuttingBack(old(fragments), application, None);
      var restored := Restore(removed.value, recovery);
      bothSucceeded := restored.Ok?;
    }
  }
}
