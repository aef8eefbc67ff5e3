/** Replacing the database file: the restore procedure, and command processes it must not overlap. */
module DatabaseGenerations {
  import opened Wrappers

  // The main database file as opening it sees it: empty, or tables with a migration ledger.
  datatype Contents = Empty | Tables(isIntact: bool, ledger: seq<string>, data: nat)

  const BASELINE := "0001_current_schema"

  predicate CarriesCurrentLedger(contents: Contents) { contents.Tables? && contents.ledger == [BASELINE] }

  // What a restore accepts: an intact file with exactly the current ledger.
  predicate IsRestorable(contents: Contents) { CarriesCurrentLedger(contents) && contents.isIntact }

  // Opening initialises an empty file and rejects every other foreign schema.
  function Opened(contents: Contents): Option<Contents> {
    match contents
    case Empty => Some(Tables(true, [BASELINE], 0))
    case Tables(_, _, _) => if CarriesCurrentLedger(contents) then Some(contents) else None
  }

  datatype RestoreError =
    Busy | SourceUnreadable | SourceDamaged | IncompatibleSchema | SnapshotExists | CopyFailed | ReplaceFailed | ReopenFailed

  // ---- one restore, step by step, under any fault ----

  // A copy that fails may leave no file, or one with any contents.
  datatype CopyOutcome = Complete | Partial(left: Option<Contents>)

  datatype Faults = Faults(
    sourceUnreadable: bool, snapshot: CopyOutcome, clearFails: bool, copy: CopyOutcome, renameFails: bool,
    sidecarFails: bool, reopenFails: bool)

  // The file a copy of these contents leaves.
  function Left(outcome: CopyOutcome, contents: Contents): Option<Contents> {
    if outcome.Complete? then Some(contents) else outcome.left
  }

  function WithSnapshot(snapshots: map<nat, Contents>, stamp: nat, file: Option<Contents>): map<nat, Contents> {
    if file.Some? then snapshots[stamp := file.value] else snapshots
  }

  // The exact error of a restore that did not succeed, in the order of its effects.
  predicate IsRestoreError(
    error: RestoreError, source: Contents, snapshotExists: bool, temporaryExists: bool, faults: Faults)
  {
    var isAccepted := !faults.sourceUnreadable && IsRestorable(source);
    var isSnapshotted := isAccepted && !snapshotExists && faults.snapshot.Complete?;
    var isCleared := isSnapshotted && !(temporaryExists && faults.clearFails);
    var isReplaced := isCleared && faults.copy.Complete? && !faults.renameFails;
    match error
    case Busy => false
    case SourceUnreadable => faults.sourceUnreadable
    case SourceDamaged => !faults.sourceUnreadable && source.Tables? && !source.isIntact
    case IncompatibleSchema =>
      !faults.sourceUnreadable && (source.Empty? || (source.isIntact && source.ledger != ["0001_current_schema"]))
    case SnapshotExists => isAccepted && snapshotExists
    case CopyFailed =>
      || (isAccepted && !snapshotExists && faults.snapshot.Partial?)
      || (isCleared && faults.copy.Partial?)
    case ReplaceFailed =>
      || (isSnapshotted && temporaryExists && faults.clearFails)
      || (isCleared && faults.copy.Complete? && faults.renameFails)
      || (isReplaced && faults.sidecarFails)
    case ReopenFailed => isReplaced && !faults.sidecarFails && faults.reopenFails
  }

  class DatabaseFile {
    var live: Contents
    var temporary: Option<Contents>
    var snapshots: map<nat, Contents>

    constructor (live: Contents)
      ensures this.live == live && temporary == None && snapshots == map[]
    {
      this.live, temporary, snapshots := live, None, map[];
    }

    // An existing destination is never overwritten.
    method Backup(stamp: nat, outcome: CopyOutcome) returns (error: Option<RestoreError>)
      modifies this`snapshots
      ensures error ==
              if stamp in old(snapshots) then Some(SnapshotExists) else if outcome.Partial? then Some(CopyFailed) else None
      ensures snapshots ==
              if stamp in old(snapshots) then old(snapshots)
              else WithSnapshot(old(snapshots), stamp, Left(outcome, live))
    {
      if stamp in snapshots { return Some(SnapshotExists); }
      snapshots := WithSnapshot(snapshots, stamp, Left(outcome, live));
      error := if outcome.Complete? then None else Some(CopyFailed);
    }

    // A rejected source changes nothing. Otherwise the live file is the old or the source file
    // and never anything else, and before it changes its old bytes are in the snapshot. What a
    // failed copy leaves is only ever in the new snapshot or in the temporary file.
    method Restore(source: Contents, stamp: nat, faults: Faults) returns (error: Option<RestoreError>)
      modifies this
      ensures live == old(live) || live == source
      ensures faults.sourceUnreadable || !IsRestorable(source) ==>
                error.Some? && live == old(live) && snapshots == old(snapshots) && temporary == old(temporary)
      ensures live != old(live) ==>
                IsRestorable(source) && stamp !in old(snapshots) && snapshots == old(snapshots)[stamp := old(live)]
      ensures error.None? <==>
                && IsRestorable(source) && stamp !in old(snapshots)
                && !faults.sourceUnreadable && faults.snapshot.Complete? && !(old(temporary).Some? && faults.clearFails)
                && faults.copy.Complete? && !faults.renameFails && !faults.sidecarFails && !faults.reopenFails
      ensures error.Some? ==>
                IsRestoreError(error.value, source, stamp in old(snapshots), old(temporary).Some?, faults)
      ensures error.None? ==> live == source && temporary == None && snapshots == old(snapshots)[stamp := old(live)]
      ensures var snapshotting := !faults.sourceUnreadable && IsRestorable(source) && stamp !in old(snapshots);
              var copying := snapshotting && faults.snapshot.Complete? && !(old(temporary).Some? && faults.clearFails);
              var replacing := copying && faults.copy.Complete? && !faults.renameFails;
              && snapshots == (if snapshotting then WithSnapshot(old(snapshots), stamp, Left(faults.snapshot, old(live)))
                               else old(snapshots))
              && temporary == (if replacing then None else if copying then Left(faults.copy, source) else old(temporary))
              && live == (if replacing then source else old(live))
    {
      if faults.sourceUnreadable { return Some(SourceUnreadable); }
      if !source.Tables? || !source.isIntact { return Some(if source.Tables? then SourceDamaged else IncompatibleSchema); }
      if !CarriesCurrentLedger(source) { return Some(IncompatibleSchema); }
      error := Backup(stamp, faults.snapshot);
      if error.Some? { return; }
      if temporary.Some? {
        if faults.clearFails { return Some(ReplaceFailed); }
        temporary := None;
      }
      temporary := Left(faults.copy, source);
      if faults.copy.Partial? { return Some(CopyFailed); }
      if faults.renameFails { return Some(ReplaceFailed); }
      live, temporary := source, None;
      if faults.sidecarFails { return Some(ReplaceFailed); }
      if faults.reopenFails || Opened(live).None? { return Some(ReopenFailed); }
    }
  }

  // ---- processes ----

  // How far a restoring process has come; each phase ends at one file-system effect.
  datatype Phase = Locked | Validated | Snapshotted | Cleared | Copied | Replaced

  // A command holds the shared lock from before it opens the file until it ends; a restore
  // holds the exclusive lock. Death and completion both release the lock.
  datatype Process =
    | Command(generation: nat)
    | Restore(phase: Phase, source: Contents, stamp: nat, found: Contents)

  datatype Machine = Machine(
    live: Contents, temporary: Option<Contents>, snapshots: map<nat, Contents>,
    processes: map<nat, Process>, generation: nat)

  // `pid` acts, or tries to start. A restoring process may fail or die at any phase, and one that
  // is writing a file then may leave a part of it.
  datatype Move =
    | StartCommand(pid: nat)
    | Write(pid: nat, data: nat)
    | StartRestore(pid: nat, source: Contents, stamp: nat)
    | Advance(pid: nat)
    | Break(pid: nat, left: Option<Contents>)
    | End(pid: nat)

  predicate ExclusiveIsHeld(processes: map<nat, Process>) { exists p :: p in processes && processes[p].Restore? }

  function Release(machine: Machine, pid: nat): Machine {
    machine.(processes := machine.processes - {pid})
  }

  function InPhase(machine: Machine, pid: nat, phase: Phase): Machine
    requires pid in machine.processes && machine.processes[pid].Restore?
  {
    machine.(processes := machine.processes[pid := machine.processes[pid].(phase := phase)])
  }

  function AdvanceRestore(machine: Machine, pid: nat): Machine
    requires pid in machine.processes && machine.processes[pid].Restore?
  {
    var process := machine.processes[pid];
    match process.phase
    case Locked => if IsRestorable(process.source) then InPhase(machine, pid, Validated) else Release(machine, pid)
    case Validated =>
      if process.stamp in machine.snapshots then Release(machine, pid)
      else InPhase(machine, pid, Snapshotted).(snapshots := machine.snapshots[process.stamp := machine.live])
    case Snapshotted => InPhase(machine, pid, Cleared).(temporary := None)
    case Cleared => InPhase(machine, pid, Copied).(temporary := Some(process.source))
    case Copied =>
      if machine.temporary.Some? then
        InPhase(machine, pid, Replaced).(
          live := machine.temporary.value, temporary := None, generation := machine.generation + 1)
      else Release(machine, pid)
    case Replaced => Release(machine, pid)
  }

  // The process stops in the middle of its next effect.
  function BreakRestore(machine: Machine, pid: nat, left: Option<Contents>): Machine
    requires pid in machine.processes && machine.processes[pid].Restore?
  {
    var process := machine.processes[pid];
    match process.phase
    case Validated =>
      if process.stamp in machine.snapshots then Release(machine, pid)
      else Release(machine, pid).(snapshots := WithSnapshot(machine.snapshots, process.stamp, left))
    case Cleared => Release(machine, pid).(temporary := left)
    case _ => Release(machine, pid)
  }

  function Step(machine: Machine, move: Move): Machine {
    match move
    case StartCommand(pid) =>
      if pid in machine.processes || ExclusiveIsHeld(machine.processes) || Opened(machine.live).None? then machine
      else machine.(live := Opened(machine.live).value,
                    processes := machine.processes[pid := Command(machine.generation)])
    case Write(pid, data) =>
      if pid in machine.processes && machine.processes[pid].Command? && machine.live.Tables? then
        machine.(live := machine.live.(data := data))
      else machine
    case StartRestore(pid, source, stamp) =>
      if machine.processes != map[] then machine
      else machine.(processes := map[pid := Restore(Locked, source, stamp, machine.live)])
    case Advance(pid) =>
      if pid in machine.processes && machine.processes[pid].Restore? then AdvanceRestore(machine, pid) else machine
    case Break(pid, left) =>
      if pid in machine.processes && machine.processes[pid].Restore? then BreakRestore(machine, pid, left) else machine
    case End(pid) => Release(machine, pid)
  }

  // ---- invariant ----

  // What a restoring process can rely on in each phase.
  predicate PhaseHolds(machine: Machine, process: Process)
    requires process.Restore?
  {
    && (process.phase != Locked ==> IsRestorable(process.source))
    && (process.phase != Locked && process.phase != Validated ==>
          process.stamp in machine.snapshots && machine.snapshots[process.stamp] == process.found)
    && (process.phase.Cleared? ==> machine.temporary == None)
    && (process.phase.Copied? ==> machine.temporary == Some(process.source))
    && machine.live == (if process.phase.Replaced? then process.source else process.found)
  }

  predicate Inv(machine: Machine) {
    && (forall p, q :: p in machine.processes && q in machine.processes && machine.processes[p].Restore? ==> p == q)
    && (forall p :: p in machine.processes && machine.processes[p].Command? ==>
          machine.processes[p].generation == machine.generation && CarriesCurrentLedger(machine.live))
    && (forall p :: p in machine.processes && machine.processes[p].Restore? ==> PhaseHolds(machine, machine.processes[p]))
  }

  lemma StepKeepsInv(machine: Machine, move: Move)
    requires Inv(machine)
    ensures Inv(Step(machine, move))
  {
    match move
    case Advance(pid) =>
      if pid in machine.processes && machine.processes[pid].Restore? {
        AdvanceKeepsInv(machine, pid);
      }
    case _ =>
  }

  lemma AdvanceKeepsInv(machine: Machine, pid: nat)
    requires Inv(machine) && pid in machine.processes && machine.processes[pid].Restore?
    ensures Inv(AdvanceRestore(machine, pid))
  {
    assert machine.processes == map[pid := machine.processes[pid]];
  }

  function Run(machine: Machine, moves: seq<Move>): Machine
    decreases |moves|
  {
    if moves == [] then machine else Run(Step(machine, moves[0]), moves[1..])
  }

  lemma {:induction false} RunKeepsInv(machine: Machine, moves: seq<Move>)
    requires Inv(machine)
    ensures Inv(Run(machine, moves))
    decreases |moves|
  {
    hide Inv, Step;
    if moves != [] {
      StepKeepsInv(machine, moves[0]);
      RunKeepsInv(Step(machine, moves[0]), moves[1..]);
    }
  }

  // ---- serial generations ----

  // Every change of the live file has exactly one author: an opening or writing command, which
  // no restore overlaps, or a restore putting its validated source in place of the bytes its
  // snapshot keeps, while no command runs.
  lemma LiveFileChangesSerially(machine: Machine, move: Move)
    requires Inv(machine) && Step(machine, move).live != machine.live
    ensures var next := Step(machine, move);
            || (&& next.generation == machine.generation && !ExclusiveIsHeld(machine.processes)
                && CarriesCurrentLedger(next.live))
            || (&& next.generation == machine.generation + 1
                && move.Advance? && move.pid in machine.processes && machine.processes[move.pid].Restore?
                && machine.processes == map[move.pid := machine.processes[move.pid]]
                && next.live == machine.processes[move.pid].source && IsRestorable(next.live)
                && machine.processes[move.pid].stamp in next.snapshots
                && next.snapshots[machine.processes[move.pid].stamp] == machine.live)
  {
    if move.Advance? {
      assert machine.processes == map[move.pid := machine.processes[move.pid]];
    }
    if move.StartCommand? || move.Write? {
      assert Step(machine, move).live.Tables?;
    }
  }

  // A command sees one generation: from its start to any later moment before it ends, no
  // replacement happened.
  lemma {:induction false} NoCommandSpansAReplacement(machine: Machine, moves: seq<Move>, pid: nat)
    requires Inv(machine) && pid in machine.processes && machine.processes[pid].Command?
    requires forall i :: 0 <= i < |moves| ==> moves[i] != End(pid)
    ensures var later := Run(machine, moves);
            && pid in later.processes && later.processes[pid] == machine.processes[pid]
            && later.generation == machine.generation
    decreases |moves|
  {
    if moves != [] {
      var next := Step(machine, moves[0]);
      StepKeepsInv(machine, moves[0]);
      CommandsKeepTheGeneration(machine, moves[0], pid);
      NoCommandSpansAReplacement(next, moves[1..], pid);
    }
  }

  lemma CommandsKeepTheGeneration(machine: Machine, move: Move, pid: nat)
    requires Inv(machine) && pid in machine.processes && machine.processes[pid].Command? && move != End(pid)
    ensures var next := Step(machine, move);
            pid in next.processes && next.processes[pid] == machine.processes[pid] && next.generation == machine.generation
  {
  }

  // Snapshots are never overwritten or lost, by any process.
  lemma {:induction false} SnapshotsArePermanent(machine: Machine, moves: seq<Move>, stamp: nat)
    requires stamp in machine.snapshots
    ensures stamp in Run(machine, moves).snapshots && Run(machine, moves).snapshots[stamp] == machine.snapshots[stamp]
    decreases |moves|
  {
    if moves != [] {
      SnapshotsArePermanent(Step(machine, moves[0]), moves[1..], stamp);
    }
  }

  // The process is alive in every state the moves pass through.
  ghost predicate Stays(machine: Machine, moves: seq<Move>, pid: nat)
    decreases |moves|
  {
    pid in machine.processes && (moves != [] ==> Stays(Step(machine, moves[0]), moves[1..], pid))
  }

  lemma RestoreExcludesOthers(machine: Machine, move: Move, pid: nat)
    requires Inv(machine) && pid in machine.processes && machine.processes[pid].Restore?
    ensures var next := Step(machine, move);
            && (pid in next.processes ==>
                  && next.processes[pid] == machine.processes[pid].(phase := next.processes[pid].phase))
            && (move != Advance(pid) ==> next.live == machine.live)
            && (move != Advance(pid) && pid in next.processes ==>
                  && next.processes[pid] == machine.processes[pid]
                  && next.snapshots == machine.snapshots && next.temporary == machine.temporary)
            && (move == Advance(pid) && machine.processes[pid].phase.Locked? ==>
                  && next.live == machine.live && next.snapshots == machine.snapshots && next.temporary == machine.temporary
                  && (pid in next.processes ==> IsRestorable(machine.processes[pid].source)))
  {
    assert machine.processes == map[pid := machine.processes[pid]];
  }

  // From taking the exclusive lock to giving it up, whatever else tries to run, the live file is
  // the one the restore found or its validated source, and the source only once the found bytes
  // are in the snapshot.
  lemma {:induction false} RestoreIsAtomic(machine: Machine, moves: seq<Move>, pid: nat)
    requires Inv(machine) && Stays(machine, moves, pid) && machine.processes[pid].Restore?
    ensures var restore, later := machine.processes[pid], Run(machine, moves);
            && Inv(later) && pid in later.processes && later.processes[pid].Restore?
            && later.processes[pid] == restore.(phase := later.processes[pid].phase)
            && (if later.processes[pid].phase.Replaced? then
                  && later.live == restore.source && IsRestorable(restore.source)
                  && restore.stamp in later.snapshots && later.snapshots[restore.stamp] == restore.found
                else later.live == restore.found)
    decreases |moves|
  {
    if moves != [] {
      StepKeepsInv(machine, moves[0]);
      RestoreExcludesOthers(machine, moves[0], pid);
      RestoreIsAtomic(Step(machine, moves[0]), moves[1..], pid);
    }
  }

  // A source that is not restorable leaves no trace: whatever else is tried meanwhile, when its
  // process gives up, the live file, the temporary file and the snapshots are as it found them.
  lemma {:induction false} RejectedSourceLeavesNoTrace(machine: Machine, moves: seq<Move>, pid: nat)
    requires Inv(machine) && Stays(machine, moves, pid)
    requires machine.processes[pid].Restore? && machine.processes[pid].phase.Locked?
    requires !IsRestorable(machine.processes[pid].source)
    ensures var rejected := Step(Run(machine, moves), Advance(pid));
            && pid !in rejected.processes
            && rejected.live == machine.live && rejected.snapshots == machine.snapshots && rejected.temporary == machine.temporary
    decreases |moves|
  {
    if moves != [] {
      StepKeepsInv(machine, moves[0]);
      RestoreExcludesOthers(machine, moves[0], pid);
      RejectedSourceLeavesNoTrace(Step(machine, moves[0]), moves[1..], pid);
    }
  }

  // A restore that nothing breaks off replaces the file, whatever a broken one left behind: alone
  // on the machine, with a restorable source and a new stamp, it ends with the source live, the
  // found bytes in the snapshot, no temporary file, and the lock given up.
  lemma UndisturbedRestoreSucceeds(machine: Machine, pid: nat, source: Contents, stamp: nat)
    requires machine.processes == map[] && IsRestorable(source) && stamp !in machine.snapshots
    ensures var moves := [StartRestore(pid, source, stamp)] + seq(6, _ => Advance(pid));
            Run(machine, moves) == Machine(
              source, None, machine.snapshots[stamp := machine.live], map[], machine.generation + 1)
  {
    hide IsRestorable, AdvanceRestore, Step;
    var found, snapshots, generation := machine.live, machine.snapshots[stamp := machine.live], machine.generation;
    var m1 := Step(machine, StartRestore(pid, source, stamp));
    RestoreStarts(machine, pid, source, stamp);
    AdvancesAlone(m1, pid, Restore(Locked, source, stamp, found));
    var m2 := Step(m1, Advance(pid));
    AdvancesAlone(m2, pid, Restore(Validated, source, stamp, found));
    var m3 := Step(m2, Advance(pid));
    AdvancesAlone(m3, pid, Restore(Snapshotted, source, stamp, found));
    var m4 := Step(m3, Advance(pid));
    AdvancesAlone(m4, pid, Restore(Cleared, source, stamp, found));
    var m5 := Step(m4, Advance(pid));
    AdvancesAlone(m5, pid, Restore(Copied, source, stamp, found));
    var m6 := Step(m5, Advance(pid));
    AdvancesAlone(m6, pid, Restore(Replaced, source, stamp, found));
    var m7 := Step(m6, Advance(pid));
    assert m7 == Machine(source, None, snapshots, map[], generation + 1);
    var six := seq(6, _ => Advance(pid));
    assert ([StartRestore(pid, source, stamp)] + six)[1..] == six;
    SixAdvances(m1, pid, six);
  }

  lemma RestoreStarts(machine: Machine, pid: nat, source: Contents, stamp: nat)
    requires machine.processes == map[]
    ensures Step(machine, StartRestore(pid, source, stamp)) ==
            machine.(processes := map[pid := Restore(Locked, source, stamp, machine.live)])
  {
  }

  // What a restoring process alone on the machine does next.
  lemma AdvancesAlone(machine: Machine, pid: nat, process: Process)
    requires process.Restore? && machine.processes == map[pid := process] && IsRestorable(process.source)
    requires process.phase.Validated? ==> process.stamp !in machine.snapshots
    requires process.phase.Copied? ==> machine.temporary == Some(process.source)
    ensures Step(machine, Advance(pid)) ==
            match process.phase
            case Locked => machine.(processes := map[pid := process.(phase := Validated)])
            case Validated =>
              machine.(processes := map[pid := process.(phase := Snapshotted)],
                       snapshots := machine.snapshots[process.stamp := machine.live])
            case Snapshotted => machine.(processes := map[pid := process.(phase := Cleared)], temporary := None)
            case Cleared => machine.(processes := map[pid := process.(phase := Copied)], temporary := Some(process.source))
            case Copied =>
              machine.(processes := map[pid := process.(phase := Replaced)], live := process.source, temporary := None,
                       generation := machine.generation + 1)
            case Replaced => machine.(processes := map[])
  {
    assert map[pid := process] - {pid} == map[];
    assert forall phase :: machine.processes[pid := process.(phase := phase)] == map[pid := process.(phase := phase)];
  }

  lemma SixAdvances(machine: Machine, pid: nat, moves: seq<Move>)
    requires moves == seq(6, _ => Advance(pid))
    ensures Run(machine, moves) ==
            Step(Step(Step(Step(Step(Step(machine, Advance(pid)), Advance(pid)), Advance(pid)),
              Advance(pid)), Advance(pid)), Advance(pid))
  {
    hide Step;
    var one := Step(machine, Advance(pid));
    var two := Step(one, Advance(pid));
    var three := Step(two, Advance(pid));
    assert Run(machine, moves) == Run(one, moves[1..]) == Run(two, moves[2..]) == Run(three, moves[3..]) by {
      assert moves[1..][1..] == moves[2..] && moves[2..][1..] == moves[3..];
    }
    var four := Step(three, Advance(pid));
    var five := Step(four, Advance(pid));
    assert Run(three, moves[3..]) == Run(four, moves[4..]) == Run(five, moves[5..]) by {
      assert moves[3..][1..] == moves[4..] && moves[4..][1..] == moves[5..];
    }
    var six := Step(five, Advance(pid));
    assert moves[5] == Advance(pid) && moves[5..][1..] == [];
    assert Run(six, []) == six;
    assert Run(five, moves[5..]) == Run(six, moves[5..][1..]) == six;
  }

  // A command opens what it finds, initialising an empty file, exactly when no restore runs and
  // the schema is the current one; it writes only while it runs.
  lemma CommandsAreExact(machine: Machine, pid: nat, data: nat)
    requires Inv(machine) && pid !in machine.processes
    ensures var started := Step(machine, StartCommand(pid));
            if !ExclusiveIsHeld(machine.processes) && (machine.live.Empty? || machine.live.ledger == ["0001_current_schema"]) then
              && started.processes == machine.processes[pid := Command(machine.generation)]
              && started.live.Tables? && started.live.ledger == ["0001_current_schema"]
              && (machine.live.Tables? ==> started.live == machine.live)
              && started.temporary == machine.temporary && started.snapshots == machine.snapshots
              && Step(started, Write(pid, data)).live == started.live.(data := data)
              && Step(started, End(pid)).processes == machine.processes
            else started == machine
    ensures Step(machine, Write(pid, data)) == machine
  {
    assert machine.processes[pid := Command(machine.generation)] - {pid} == machine.processes;
  }
}
