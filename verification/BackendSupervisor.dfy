/**
 * The supervisor object itself: its fields, and its methods cut at every `await` and
 * status update.  Each method is proved to do exactly what the transition system of
 * module Lifecycle says; `Play` puts them together: whatever is done with the object is a run
 * of that system, and every run of that system can be done with the object.
 */
module BackendSupervisorObject {
  import opened Prelude
  import opened Lifecycle
  import opened LifecycleInvariant
  import opened LifecycleSafety

  class BackendSupervisor {
    var owned: seq<nat>
    var serving: Option<nat>
    var generation: nat
    var controller: Option<nat>
    var starting: Option<nat>
    var stopping: Option<nat>
    var restoring: Option<nat>
    var closing: bool
    var restoreRecoveryRequired: bool
    var backupScheduleTimer: bool
    var currentStatus: Status
    // what child handles, abort controllers and pending promises hold
    var children: seq<Child>
    var terminations: seq<Term>
    var operations: seq<Op>
    var updates: seq<UpdateTask>
    var aborted: set<nat>
    var clock: nat

    function Snapshot(): State
      reads this
    {
      State(Processes(owned, serving, children, terminations),
            Gate(generation, controller, aborted, closing, restoreRecoveryRequired),
            Ledger(operations, starting, stopping, restoring, updates),
            currentStatus, backupScheduleTimer, clock)
    }

    ghost predicate Valid()
      reads this
    {
      Inv(Snapshot())
    }

    constructor ()
      ensures Valid() && Snapshot() == INITIAL
    {
      owned, serving, children, terminations := [], None, [], [];
      generation, controller, aborted, closing, restoreRecoveryRequired := 0, None, {}, false, false;
      starting, stopping, restoring, operations, updates := None, None, None, [], [];
      currentStatus, backupScheduleTimer, clock := Status(Stopped, NotStarted), false, 0;
      new;
      InitialInv();
    }

    // ------------------------------------------------------------ private helpers

    method SetStatus(state: RunState, note: Note)
      modifies this`currentStatus
      ensures Snapshot() == Update(old(Snapshot()), state, note)
    {
      currentStatus := Status(state, note);
    }

    method StopBackupScheduler()
      modifies this`backupScheduleTimer
      ensures Snapshot() == old(Snapshot()).(timer := false)
    {
      if backupScheduleTimer {
        backupScheduleTimer := false;
      }
    }

    method AbortCurrentController()
      modifies this`aborted
      ensures Snapshot() == old(Snapshot()).(gate := Abort(old(Snapshot()).gate))
    {
      if controller.Some? {
        aborted := aborted + {controller.value};
      }
    }

    method NewGeneration() returns (g: nat)
      modifies this
      ensures Snapshot() == old(Snapshot()).(timer := false, gate := Renew(old(Snapshot()).gate)) && g == generation
    {
      AbortCurrentController();
      StopBackupScheduler();
      controller := Some(generation + 1);
      generation := generation + 1;
      g := generation;
    }

    /** `assertAdmission`; `blocked` is what inspecting the restore guard on disk reports. */
    method AssertAdmission(blocked: bool)
      modifies this
      ensures Snapshot() == if blocked then RefuseAdmission(old(Snapshot())) else old(Snapshot())
    {
      if blocked {
        StopBackupScheduler();
        if currentStatus != Status(Degraded, AdmissionBlocked) {
          SetStatus(Degraded, AdmissionBlocked);
        }
      }
    }

    method TrackOperation(slot: Slot, g: nat, pc: Pc, phase: Phase) returns (o: nat)
      modifies this
      ensures Snapshot() == old(Snapshot()).(ledger := Track(old(Snapshot()).ledger, slot, g, pc, phase))
      ensures o == |old(operations)|
    {
      o := |operations|;
      match slot {
        case StartSlot => starting := Some(o);
        case StopSlot => stopping := Some(o);
        case RestoreSlot => restoring := Some(o);
      }
      operations := operations + [Op(slot, g, pc, phase)];
    }

    method GotoPc(o: nat, pc: Pc)
      requires o < |operations|
      modifies this`operations
      ensures Snapshot() == Move(old(Snapshot()), o, pc)
    {
      operations := operations[o := operations[o].(pc := pc)];
    }

    method EnterPhase(o: nat, phase: Phase)
      requires o < |operations|
      modifies this`operations
      ensures Snapshot() == End(old(Snapshot()), o, phase)
    {
      operations := operations[o := operations[o].(phase := phase)];
    }

    method LaunchChild(kind: ChildKind, g: nat, hasPid: bool) returns (c: nat)
      modifies this
      ensures Snapshot() == old(Snapshot()).(procs := Launched(old(Snapshot()).procs, kind, g, hasPid))
      ensures c == |old(children)|
    {
      c := |children|;
      children := children + [Child(kind, g, hasPid, None, false, false, None, 0)];
      owned := owned + [c];
      if kind == Serve {
        serving := Some(c);
      }
    }

    method TerminateOwner(c: nat) returns (stop: TermAwait)
      requires c < |children|
      modifies this
      ensures
        var (procs, await) := Terminate(old(Snapshot()).procs, c, old(clock));
        Snapshot() == old(Snapshot()).(procs := procs) && stop == await
    {
      var owner := children[c];
      if owner.result.Some? {
        return NothingToStop;
      }
      if owner.termination.Some? {
        return Awaiting(owner.termination.value);
      }
      if owner.kind == Restore {
        return RefusesToKill;
      }
      var t := |terminations|;
      children := children[c := owner.(stopRequested := true, termination := Some(t), kills := owner.kills + 1)];
      terminations := terminations + [Term(c, SoftWait(clock + STOP_MS))];
      stop := Awaiting(t);
    }

    /** Folding from the left what `TerminateAll` describes from the right. */
    method TerminateEvery() returns (terms: set<nat>, refused: bool)
      requires InRange(owned, |children|)
      modifies this
      ensures
        var (procs, ts, r) := TerminateAll(old(Snapshot()).procs, old(owned), old(clock));
        Snapshot() == old(Snapshot()).(procs := procs) && terms == ts && refused == r
    {
      terms, refused := {}, false;
      var snapshot, i := owned, 0;
      ghost var s0 := Snapshot();
      while i < |snapshot|
        invariant 0 <= i <= |snapshot| == |s0.procs.owned| && snapshot == s0.procs.owned
        invariant Snapshot() == s0.(procs := Snapshot().procs) && |children| == |s0.procs.children|
        invariant InRange(snapshot[i..], |children|)
        invariant
          var (procs, ts, r) := TerminateAll(Snapshot().procs, snapshot[i..], clock);
          var (procs0, ts0, r0) := TerminateAll(s0.procs, snapshot, clock);
          procs0 == procs && ts0 == terms + ts && r0 == (refused || r)
      {
        assert snapshot[i..][0] == snapshot[i] && snapshot[i..][1..] == snapshot[i + 1..];
        var stop := TerminateOwner(snapshot[i]);
        match stop {
          case NothingToStop =>
          case Awaiting(t) => terms := terms + {t};
          case RefusesToKill => refused := true;
        }
        i := i + 1;
      }
    }

    method StopOwned() returns (o: nat)
      requires Known(Snapshot().procs)
      modifies this
      ensures Snapshot() == BeginStop(old(Snapshot())) && o == |old(operations)|
    {
      StopBackupScheduler();
      if exists c :: c in owned && children[c].kind == Restore {
        o := TrackOperation(StopSlot, generation, AwaitTerminations({}, true), Finishing(Rejected(StillRunning)));
        SetStatus(Degraded, StillRunning);
      } else {
        var terms, refused := TerminateEvery();
        o := TrackOperation(StopSlot, generation, AwaitTerminations(terms, refused), Running);
      }
    }

    method StopUnlessStopping() returns (o: nat)
      requires Known(Snapshot().procs)
      modifies this
      ensures (Snapshot(), o) == EnsureStopped(old(Snapshot()))
    {
      if stopping.Some? {
        o := stopping.value;
      } else {
        o := StopOwned();
      }
    }

    // ------------------------------------------------------------ public calls

    method Start(blocked: bool) returns (reply: Reply)
      requires Valid()
      modifies this
      ensures Valid() && (Snapshot(), reply) == CallStart(old(Snapshot()), blocked)
    {
      StartKeeps(Snapshot(), blocked);
      AssertAdmission(blocked);
      if blocked { return Refused(AdmissionBlocked); }
      if closing { return Refused(ShutdownBegun); }
      if restoring.Some? || restoreRecoveryRequired { return Refused(RecoveryRequired); }
      if stopping.Some? { return Refused(ShutdownInProgress); }
      if starting.Some? { return Promised(starting.value); }
      if serving.Some? && currentStatus.state == Ready { return AlreadyReady; }
      if |owned| > 0 { return Refused(StopUnconfirmed); }
      var g := NewGeneration();
      var o := TrackOperation(StartSlot, g, StartupAnnounced, Running);
      SetStatus(Starting, Preparing);
      reply := Promised(o);
    }

    method Stop() returns (o: nat)
      requires Valid()
      modifies this
      ensures Valid() && (Snapshot(), o) == CallStop(old(Snapshot()))
    {
      hide Ground, ReleasedOk, UpdatesOk, LedgerOk, GateOk, BeginStop;
      CallStopKeeps(Snapshot(), false);
      generation := generation + 1;
      AbortCurrentController();
      StopBackupScheduler();
      o := StopUnlessStopping();
    }

    method Shutdown() returns (o: nat)
      requires Valid()
      modifies this
      ensures Valid() && (Snapshot(), o) == CallShutdown(old(Snapshot()))
      ensures closing
    {
      hide Ground, ReleasedOk, UpdatesOk, LedgerOk, GateOk, BeginStop;
      CallStopKeeps(Snapshot(), true);
      closing := true;
      generation := generation + 1;
      AbortCurrentController();
      StopBackupScheduler();
      o := StopUnlessStopping();
    }

    method PrepareUpdate(blocked: bool) returns (reply: Reply)
      requires Valid()
      modifies this
      ensures Valid() && (Snapshot(), reply) == CallPrepareUpdate(old(Snapshot()), blocked)
    {
      PrepareUpdateKeeps(Snapshot(), blocked);
      AssertAdmission(blocked);
      if blocked { return Refused(AdmissionBlocked); }
      if restoreRecoveryRequired { return Refused(RecoveryRequired); }
      if restoring.Some? { return Refused(StillRunning); }
      var o := Shutdown();
      reply := UpdatePromised(|updates|);
      updates := updates + [AwaitShutdown(o)];
    }

    method ApplyOfflineRestore(blocked: bool) returns (reply: Reply)
      requires Valid()
      modifies this
      ensures Valid() && (Snapshot(), reply) == CallRestore(old(Snapshot()), blocked)
    {
      CallRestoreKeeps(Snapshot(), blocked);
      AssertAdmission(blocked);
      if blocked { return Refused(AdmissionBlocked); }
      if closing { return Refused(ShutdownBegun); }
      if restoring.Some? || restoreRecoveryRequired { return Refused(RecoveryRequired); }
      if starting.Some? || stopping.Some? { return Refused(StartupOrStopInProgress); }
      var g := NewGeneration();
      var o := TrackOperation(RestoreSlot, g, RestoreAnnounced, Running);
      SetStatus(Starting, StoppingForRestore);
      reply := Promised(o);
    }

    method ReportDegradedState(text: string)
      requires Valid()
      modifies this
      ensures Valid() && Snapshot() == MarkDegraded(old(Snapshot()), text)
    {
      DegradeKeeps(Snapshot(), Reported(text));
      StopBackupScheduler();
      SetStatus(Degraded, Reported(text));
    }

    // ------------------------------------------------------------ events

    /** The `completed` callback. */
    method OnChildExit(c: nat, code: Option<int>)
      requires Valid() && c < |children|
      modifies this
      ensures Valid() && Snapshot() == Completed(old(Snapshot()), c, code)
    {
      CompletedKeeps(Snapshot(), c, code);
      RecordExit(c, code);
    }

    method DisownChild(c: nat, code: Option<int>)
      requires c < |children|
      modifies this`children, this`owned, this`serving
      ensures Snapshot() == old(Snapshot()).(procs := Exit(old(Snapshot()).procs, c, code))
    {
      hide Without;
      children := children[c := children[c].(result := Some(code))];
      owned := Without(owned, c);
      if serving == Some(c) {
        serving := None;
      }
    }

    method RecordExit(c: nat, code: Option<int>)
      requires c < |children|
      modifies this
      ensures Snapshot() == Completed(old(Snapshot()), c, code)
    {
      hide Exit;
      var owner := children[c];
      if owner.result.Some? {
        return;
      }
      DisownChild(c, code);
      if owner.kind == Serve && owner.generation == generation && !owner.stopRequested {
        StopBackupScheduler();
        AbortCurrentController();
        SetStatus(Degraded, ExitedUnexpectedly);
      }
      if owner.kind == Restore && restoreRecoveryRequired {
        SetStatus(Degraded, RecoveryRequired);
      }
    }

    method OnChildError(c: nat)
      requires Valid() && c < |children|
      modifies this
      ensures Valid() && Snapshot() == ChildErrored(old(Snapshot()), c)
    {
      ChildErroredKeeps(Snapshot(), c);
      var owner := children[c];
      if owner.result.Some? {
        return;
      }
      children := children[c := owner.(failed := true)];
      if !owner.hasPid {
        RecordExit(c, None);
      }
    }

    method OnTerminationWaited(t: nat, w: WaitResult)
      requires Valid() && CanResumeTerm(Snapshot(), t, w)
      modifies this
      ensures Valid() && Snapshot() == Step(old(Snapshot()), ResumeTerm(t, w))
    {
      ResumeTermKeeps(Snapshot(), t, w);
      AdvanceTermination(t, w);
    }

    /** The body of `terminateOwned` between its waits. */
    method AdvanceTermination(t: nat, w: WaitResult)
      requires t < |terminations| && terminations[t].child < |children|
      modifies this
      ensures Snapshot() == old(Snapshot()).(procs := ResumeTermination(old(Snapshot()).procs, t, w, old(clock)))
    {
      var term := terminations[t];
      if w != TimedOut {
        terminations := terminations[t := term.(phase := TermFinished(true))];
        return;
      }
      if term.phase.SoftWait? {
        var owner := children[term.child];
        children := children[term.child := owner.(kills := owner.kills + 1)];
        var due := if owner.result.Some? then None else Some(clock + FORCE_STOP_MS);
        terminations := terminations[t := term.(phase := HardWait(due))];
      } else {
        terminations := terminations[t := term.(phase := TermFinished(false))];
      }
    }

    method OnTerminationFinished(t: nat)
      requires Valid() && t < |terminations| && terminations[t].phase.TermFinished?
      modifies this
      ensures Valid() && Snapshot() == old(Snapshot()).(procs := SettleTermination(old(Snapshot()).procs, t))
    {
      SettleTermKeeps(Snapshot(), t);
      var term := terminations[t];
      var owner := children[term.child];
      if owner.termination == Some(t) {
        children := children[term.child := owner.(termination := None)];
      } else {
        children := children[term.child := owner];
      }
      terminations := terminations[t := term.(phase := TermSettled(term.phase.ok))];
    }

    method OnOperationDone(o: nat)
      requires Valid() && o < |operations| && operations[o].phase.Finished?
      modifies this
      ensures Valid() && Snapshot() == Release(old(Snapshot()), o)
    {
      ReleaseKeeps(Snapshot(), o);
      var op := operations[o];
      match op.slot {
        case StartSlot => if starting == Some(o) { starting := None; }
        case StopSlot => if stopping == Some(o) { stopping := None; }
        case RestoreSlot => if restoring == Some(o) { restoring := None; }
      }
      EnterPhase(o, Released(op.phase.outcome, generation));
    }

    // ------------------------------------------------------------ continuations

    /** Whether operation `o` can go on now with the wait result `w`, from a program counter `pc`. */
    predicate Resumable(o: nat, w: WaitResult)
      reads this
    {
      o < |operations| && CanResume(Snapshot(), o, w)
    }

    method IsCurrentOperation(o: nat) returns (current: bool)
      requires o < |operations|
      ensures current == OpCurrent(Snapshot(), o)
    {
      current := operations[o].generation == generation && operations[o].generation !in aborted;
    }

    method ContinueStop(o: nat, w: WaitResult)
      requires Valid() && Resumable(o, w) && operations[o].pc.AwaitTerminations?
      modifies this
      ensures Valid() && Snapshot() == ResumeOp(old(Snapshot()), o, w, false, SpawnThrows, false)
    {
      hide Inv;
      ResumeKeeps(Snapshot(), o, w, false, SpawnThrows, false);
      var pc := operations[o].pc;
      var failed := pc.refused || SomeUnstopped(Snapshot().procs, pc.terms);
      if failed || |owned| > 0 {
        SetStatus(Degraded, StopUnconfirmed);
        EnterPhase(o, Finishing(Rejected(StopUnconfirmed)));
      } else {
        if restoreRecoveryRequired {
          SetStatus(Degraded, RecoveryRequired);
        } else {
          SetStatus(Stopped, BackendStopped);
        }
        EnterPhase(o, Finishing(Resolved));
      }
    }

    /** The catch block of `runStartup`. */
    method CatchInStartup(o: nat, error: Note)
      requires o < |operations| && operations[o].phase.Running? && !operations[o].pc.AwaitTerminations?
      modifies this
      ensures Snapshot() == FailStartup(old(Snapshot()), o, error)
    {
      var current := IsCurrentOperation(o);
      if !current {
        EnterPhase(o, Finished(Resolved));
      } else {
        StopBackupScheduler();
        SetStatus(Degraded, error);
        EnterPhase(o, Finishing(Rejected(error)));
      }
    }

    method ContinueStartup(o: nat, w: WaitResult, blocked: bool, spawn: Spawn)
      requires Valid() && Resumable(o, w) && operations[o].pc.StartupAnnounced?
      modifies this
      ensures Valid() && Snapshot() == ResumeOp(old(Snapshot()), o, w, blocked, spawn, false)
    {
      hide Inv;
      ResumeKeeps(Snapshot(), o, w, blocked, spawn, false);
      var current := IsCurrentOperation(o);
      if !current {
        EnterPhase(o, Finished(Resolved));
        return;
      }
      AssertAdmission(blocked);
      if blocked {
        GotoPc(o, CatchPending(AdmissionBlocked));
      } else if spawn.SpawnThrows? {
        CatchInStartup(o, StartupFailed);
      } else {
        var migration := LaunchChild(Migration, operations[o].generation, spawn.hasPid);
        GotoPc(o, AwaitMigration(migration, clock + MIGRATION_MS));
      }
    }

    method ContinueMigration(o: nat, w: WaitResult, blocked: bool, spawn: Spawn)
      requires Valid() && Resumable(o, w) && operations[o].pc.AwaitMigration?
      modifies this
      ensures Valid() && Snapshot() == ResumeOp(old(Snapshot()), o, w, blocked, spawn, false)
    {
      hide Inv;
      ResumeKeeps(Snapshot(), o, w, blocked, spawn, false);
      var current := IsCurrentOperation(o);
      if !current {
        EnterPhase(o, Finished(Resolved));
        return;
      }
      if w != Exited(Some(0)) {
        var stop := TerminateOwner(operations[o].pc.child);
        GotoPc(o, AwaitMigrationStop(stop));
        return;
      }
      AssertAdmission(blocked);
      if blocked {
        GotoPc(o, CatchPending(AdmissionBlocked));
      } else if spawn.SpawnThrows? {
        CatchInStartup(o, StartupFailed);
      } else {
        var server := LaunchChild(Serve, operations[o].generation, spawn.hasPid);
        GotoPc(o, AwaitHealth(server, clock + READINESS_MS));
      }
    }

    /** After a failed migration or an unready server has been terminated, or after a refused admission. */
    method ContinueFailedStartup(o: nat, w: WaitResult)
      requires Valid() && Resumable(o, w)
      requires operations[o].pc.AwaitMigrationStop? || operations[o].pc.AwaitServerStop? || operations[o].pc.CatchPending?
      modifies this
      ensures Valid() && Snapshot() == ResumeOp(old(Snapshot()), o, w, false, SpawnThrows, false)
    {
      hide Inv;
      ResumeKeeps(Snapshot(), o, w, false, SpawnThrows, false);
      var pc := operations[o].pc;
      if pc.CatchPending? {
        CatchInStartup(o, pc.error);
      } else if StopResult(Snapshot().procs, pc.stop).value || pc.stop.RefusesToKill? {
        CatchInStartup(o, StartupFailed);
      } else {
        CatchInStartup(o, StopUnconfirmed);
      }
    }

    method LeaveReadinessLoop(o: nat, c: nat)
      requires o < |operations| && c < |children| && operations[o].phase.Running? && !operations[o].pc.AwaitTerminations?
      modifies this
      ensures Snapshot() == LeaveReadyLoop(old(Snapshot()), o, c)
    {
      var current := IsCurrentOperation(o);
      if !current {
        EnterPhase(o, Finished(Resolved));
      } else {
        var stop := TerminateOwner(c);
        GotoPc(o, AwaitServerStop(stop));
      }
    }

    method ContinueHealth(o: nat, w: WaitResult, healthy: bool)
      requires Valid() && Resumable(o, w) && operations[o].pc.AwaitHealth?
      modifies this
      ensures Valid() && Snapshot() == ResumeOp(old(Snapshot()), o, w, false, SpawnThrows, healthy)
    {
      hide Inv;
      ResumeKeeps(Snapshot(), o, w, false, SpawnThrows, healthy);
      var c, deadline := operations[o].pc.child, operations[o].pc.deadline;
      var current := IsCurrentOperation(o);
      if healthy {
        if !current || children[c].result.Some? || serving != Some(c) {
          EnterPhase(o, Finished(Resolved));
        } else if clock >= deadline {
          LeaveReadinessLoop(o, c);
        } else {
          SetStatus(Ready, Connected);
          GotoPc(o, ReadyAnnounced(c));
        }
      } else if !current {
        EnterPhase(o, Finished(Resolved));
      } else {
        var left := if clock < deadline then deadline - clock else 0;
        var wait := if left < READINESS_POLL_MS then left else READINESS_POLL_MS;
        GotoPc(o, AwaitRetry(c, deadline, if children[c].result.Some? then None else Some(clock + wait)));
      }
    }

    method ContinueRetry(o: nat, w: WaitResult)
      requires Valid() && Resumable(o, w) && operations[o].pc.AwaitRetry?
      modifies this
      ensures Valid() && Snapshot() == ResumeOp(old(Snapshot()), o, w, false, SpawnThrows, false)
    {
      hide Inv;
      ResumeKeeps(Snapshot(), o, w, false, SpawnThrows, false);
      var c, deadline := operations[o].pc.child, operations[o].pc.deadline;
      var current := IsCurrentOperation(o);
      if w == TimedOut && current && children[c].result.None? && clock < deadline {
        GotoPc(o, AwaitHealth(c, deadline));
      } else {
        LeaveReadinessLoop(o, c);
      }
    }

    /** `startBackupScheduler`. */
    method ContinueReady(o: nat, w: WaitResult)
      requires Valid() && Resumable(o, w) && operations[o].pc.ReadyAnnounced?
      modifies this
      ensures Valid() && Snapshot() == ResumeOp(old(Snapshot()), o, w, false, SpawnThrows, false)
    {
      hide Inv;
      ResumeKeeps(Snapshot(), o, w, false, SpawnThrows, false);
      var c := operations[o].pc.child;
      var current := IsCurrentOperation(o);
      if !backupScheduleTimer && current && serving == Some(c) && children[c].result.None? && currentStatus.state == Ready {
        backupScheduleTimer := true;
      }
      EnterPhase(o, Finished(Resolved));
    }

    method ContinueRestore(o: nat, w: WaitResult)
      requires Valid() && Resumable(o, w) && operations[o].pc.RestoreAnnounced?
      modifies this
      ensures Valid() && Snapshot() == ResumeOp(old(Snapshot()), o, w, false, SpawnThrows, false)
    {
      hide Inv;
      ResumeKeeps(Snapshot(), o, w, false, SpawnThrows, false);
      var stopOp := StopUnlessStopping();
      GotoPc(o, AwaitStop(stopOp));
    }

    method ContinueRestoreStopped(o: nat, w: WaitResult)
      requires Valid() && Resumable(o, w) && operations[o].pc.AwaitStop?
      modifies this
      ensures Valid() && Snapshot() == ResumeOp(old(Snapshot()), o, w, false, SpawnThrows, false)
    {
      hide Inv;
      ResumeKeeps(Snapshot(), o, w, false, SpawnThrows, false);
      var stopped := operations[operations[o].pc.stopOp].phase.outcome;
      var current := IsCurrentOperation(o);
      if stopped.Rejected? {
        EnterPhase(o, Finished(stopped));
      } else if !current {
        EnterPhase(o, Finished(Rejected(RestoreCancelled)));
      } else {
        SetStatus(Starting, ApplyingRestore);
        GotoPc(o, RestoreApplying);
      }
    }

    method RequireRecoveryFor(o: nat, note: Note)
      requires o < |operations| && operations[o].phase.Running? && RestoreUnderWay(operations[o].pc)
      modifies this
      ensures Snapshot() == RequireRecovery(old(Snapshot()), o, note)
    {
      restoreRecoveryRequired := true;
      SetStatus(Degraded, note);
      EnterPhase(o, Finishing(Rejected(note)));
    }

    method ContinueApplying(o: nat, w: WaitResult, blocked: bool, spawn: Spawn)
      requires Valid() && Resumable(o, w) && (operations[o].pc.RestoreApplying? || operations[o].pc.RestoreRefused?)
      modifies this
      ensures Valid() && Snapshot() == ResumeOp(old(Snapshot()), o, w, blocked, spawn, false)
    {
      hide Inv;
      ResumeKeeps(Snapshot(), o, w, blocked, spawn, false);
      if operations[o].pc.RestoreRefused? {
        RequireRecoveryFor(o, RecoveryRequired);
        return;
      }
      var current := IsCurrentOperation(o);
      if !current {
        EnterPhase(o, Finished(Rejected(RestoreCancelled)));
        return;
      }
      AssertAdmission(blocked);
      if blocked {
        GotoPc(o, RestoreRefused);
      } else if spawn.SpawnThrows? {
        RequireRecoveryFor(o, RecoveryRequired);
      } else {
        var writer := LaunchChild(Restore, operations[o].generation, spawn.hasPid);
        GotoPc(o, AwaitRestore(writer, clock + RESTORE_OBSERVATION_MS));
      }
    }

    method ContinueRestored(o: nat, w: WaitResult, blocked: bool)
      requires Valid() && Resumable(o, w) && operations[o].pc.AwaitRestore?
      modifies this
      ensures Valid() && Snapshot() == ResumeOp(old(Snapshot()), o, w, blocked, SpawnThrows, false)
    {
      hide Inv;
      ResumeKeeps(Snapshot(), o, w, blocked, SpawnThrows, false);
      if w != Exited(Some(0)) {
        RequireRecoveryFor(o, if children[operations[o].pc.child].result.None? then StillRunning else RecoveryRequired);
        return;
      }
      AssertAdmission(blocked);
      if blocked {
        EnterPhase(o, Finishing(Rejected(AdmissionBlocked)));
        return;
      }
      var current := IsCurrentOperation(o);
      if !current {
        SetStatus(Stopped, RestoredNotRestarted);
        EnterPhase(o, Finishing(Resolved));
      } else {
        SetStatus(Starting, Preparing);
        GotoPc(o, StartupAnnounced);
      }
    }

    method ContinueUpdate(u: nat, blocked: bool)
      requires Valid() && Enabled(Snapshot(), ResumeUpdateTask(u, blocked))
      modifies this
      ensures Valid() && Snapshot() == Step(old(Snapshot()), ResumeUpdateTask(u, blocked))
    {
      StepKeeps(Snapshot(), ResumeUpdateTask(u, blocked));
      var stopped := operations[updates[u].stopOp].phase.outcome;
      if stopped.Rejected? {
        updates := updates[u := UpdateDone(stopped)];
        return;
      }
      AssertAdmission(blocked);
      if blocked {
        updates := updates[u := UpdateDone(Rejected(AdmissionBlocked))];
      } else if restoreRecoveryRequired {
        updates := updates[u := UpdateDone(Rejected(RecoveryRequired))];
      } else {
        updates := updates[u := UpdateDone(Resolved)];
      }
    }

    // ------------------------------------------------------------ whole runs

    /** The continuation at the program counter of operation `o`. */
    method Continue(o: nat, w: WaitResult, blocked: bool, spawn: Spawn, healthy: bool)
      requires Valid() && Resumable(o, w)
      modifies this
      ensures Valid() && Snapshot() == ResumeOp(old(Snapshot()), o, w, blocked, spawn, healthy)
    {
      hide Inv, CanResume, ResumeOp;
      UnusedChoices(Snapshot(), o, w, blocked, spawn, healthy);
      match operations[o].pc {
        case StartupAnnounced => ContinueStartup(o, w, blocked, spawn);
        case AwaitMigration(_, _) => ContinueMigration(o, w, blocked, spawn);
        case AwaitMigrationStop(_) => ContinueFailedStartup(o, w);
        case CatchPending(_) => ContinueFailedStartup(o, w);
        case AwaitHealth(_, _) => ContinueHealth(o, w, healthy);
        case AwaitRetry(_, _, _) => ContinueRetry(o, w);
        case ReadyAnnounced(_) => ContinueReady(o, w);
        case AwaitServerStop(_) => ContinueFailedStartup(o, w);
        case RestoreAnnounced => ContinueRestore(o, w);
        case AwaitStop(_) => ContinueRestoreStopped(o, w);
        case RestoreApplying => ContinueApplying(o, w, blocked, spawn);
        case RestoreRefused => ContinueApplying(o, w, blocked, spawn);
        case AwaitRestore(_, _) => ContinueRestored(o, w, blocked);
        case AwaitTerminations(_, _) => ContinueStop(o, w);
      }
    }

    /** One event of the system, by the method that performs it. */
    method Perform(e: Event)
      requires Valid() && Enabled(Snapshot(), e)
      modifies this
      ensures Valid() && Snapshot() == Step(old(Snapshot()), e)
    {
      hide Inv, CanResume, CanResumeTerm, ResumeOp, CallStart, CallStop, CallShutdown, CallPrepareUpdate, CallRestore;
      hide Completed, ChildErrored, ResumeTermination, SettleTermination, ResumeUpdate;
      StepKeeps(Snapshot(), e);
      match e {
        case Start(blocked) => var reply := Start(blocked);
        case Stop => var o := Stop();
        case Shutdown => var o := Shutdown();
        case PrepareUpdate(blocked) => var reply := PrepareUpdate(blocked);
        case RestoreOffline(blocked) => var reply := ApplyOfflineRestore(blocked);
        case ReportDegraded(text) => ReportDegradedState(text);
        case ChildExit(c, code) => OnChildExit(c, code);
        case ChildError(c) => OnChildError(c);
        case Tick(to) => clock := to;
        case Resume(o, w, blocked, spawn, healthy) => Continue(o, w, blocked, spawn, healthy);
        case Conclude(o) => EnterPhase(o, Finished(operations[o].phase.outcome));
        case ResumeTerm(t, w) => OnTerminationWaited(t, w);
        case SettleTerm(t) => OnTerminationFinished(t);
        case ReleaseOp(o) => OnOperationDone(o);
        case SettleOp(o) => EnterPhase(o, Settled(operations[o].phase.outcome, operations[o].phase.at));
        case ResumeUpdateTask(u, blocked) => ContinueUpdate(u, blocked);
      }
    }

    /**
     * Performs those of the events that are possible, in order.  What was performed is a run;
     * and a sequence of events that is a run is performed as it stands.
     */
    method Play(es: seq<Event>) returns (performed: seq<Event>, visited: seq<State>)
      requires Valid() && Snapshot() == INITIAL
      modifies this
      ensures Valid() && IsRun(visited, performed) && Snapshot() == visited[|performed|]
      ensures forall tr: seq<State> :: IsRun(tr, es) ==> performed == es && visited == tr
    {
      hide Inv, Step, Enabled;
      performed, visited := [], [Snapshot()];
      for i := 0 to |es|
        invariant Valid() && IsRun(visited, performed) && Snapshot() == visited[|performed|]
        invariant forall tr: seq<State> :: IsRun(tr, es) ==> performed == es[..i] && visited == tr[..i + 1]
      {
        ghost var before, earlier := Snapshot(), visited;
        if Enabled(Snapshot(), es[i]) {
          Perform(es[i]);
          performed, visited := performed + [es[i]], visited + [Snapshot()];
        }
        forall tr: seq<State> | IsRun(tr, es) ensures performed == es[..i + 1] && visited == tr[..i + 2] {
          assert StepsTo(tr[i], es[i], tr[i + 1]);
          assert tr[i] == before;
        }
      }
      assert es[..|es|] == es;
      forall tr: seq<State> | IsRun(tr, es) ensures visited == tr { assert tr[..|es| + 1] == tr; }
    }
  }

  /** A continuation that does not ask the environment does not depend on its choices. */
  lemma UnusedChoices(s: State, o: nat, w: WaitResult, blocked: bool, spawn: Spawn, healthy: bool)
    requires o < |s.ledger.ops| && CanResume(s, o, w)
    ensures
      var t := ResumeOp(s, o, w, blocked, spawn, healthy);
      match s.ledger.ops[o].pc
      case StartupAnnounced => t == ResumeOp(s, o, w, blocked, spawn, false)
      case AwaitMigration(_, _) => t == ResumeOp(s, o, w, blocked, spawn, false)
      case RestoreApplying => t == ResumeOp(s, o, w, blocked, spawn, false)
      case RestoreRefused => t == ResumeOp(s, o, w, blocked, spawn, false)
      case AwaitRestore(_, _) => t == ResumeOp(s, o, w, blocked, SpawnThrows, false)
      case AwaitHealth(_, _) => t == ResumeOp(s, o, w, false, SpawnThrows, healthy)
      case _ => t == ResumeOp(s, o, w, false, SpawnThrows, false)
  {
  }
}
