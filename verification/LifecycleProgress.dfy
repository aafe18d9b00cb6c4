/**
 * No operation of the supervisor waits in vain: whatever it awaits, within two minutes
 * some step that serves it can be taken, without any further call or child exit.
 */
module LifecycleProgress {
  import opened Prelude
  import opened Lifecycle
  import opened LifecycleInvariant
  import opened LifecycleSafety

  /** The longest time limit of the protocol. */
  const PATIENCE: nat := RESTORE_OBSERVATION_MS

  // ---------------------------------------------------------------- what is awaited exists and falls due

  predicate Due(now: nat, due: nat) { due <= now + PATIENCE }

  /** A termination is of a child that exists; its waits are timed, or began after the exit. */
  predicate TermFits(p: Processes, now: nat, t: nat)
    requires t < |p.terms|
  {
    && p.terms[t].child < |p.children|
    && match p.terms[t].phase
       case SoftWait(due) => Due(now, due)
       case HardWait(Some(due)) => Due(now, due)
       case HardWait(None) => p.children[p.terms[t].child].result.Some?
       case _ => true
  }

  predicate MarkFits(p: Processes, c: nat)
    requires c < |p.children|
  {
    p.children[c].termination.Some? ==> p.children[c].termination.value < |p.terms|
  }

  ghost predicate TermsFit(p: Processes, now: nat) {
    && (forall t: nat :: t < |p.terms| ==> TermFits(p, now, t))
    && (forall c: nat :: c < |p.children| ==> MarkFits(p, c))
  }

  predicate StopFits(p: Processes, stop: TermAwait) { stop.Awaiting? ==> stop.term < |p.terms| }

  predicate TermsKnown(p: Processes, terms: set<nat>) { forall t :: t in terms ==> t < |p.terms| }

  /** What an operation awaits exists, and every timed wait falls due soon. */
  predicate PcFits(p: Processes, ops: nat, now: nat, pc: Pc) {
    match pc
    case AwaitMigration(c, due) => c < |p.children| && Due(now, due)
    case AwaitMigrationStop(stop) => StopFits(p, stop)
    case AwaitHealth(c, _) => c < |p.children|
    case AwaitRetry(c, _, due) => c < |p.children| && (if due.Some? then Due(now, due.value) else p.children[c].result.Some?)
    case ReadyAnnounced(c) => c < |p.children|
    case AwaitServerStop(stop) => StopFits(p, stop)
    case AwaitStop(x) => x < ops
    case AwaitRestore(c, due) => c < |p.children| && Due(now, due)
    case AwaitTerminations(terms, _) => TermsKnown(p, terms)
    case _ => true
  }

  predicate OpFitsIn(s: State, o: nat)
    requires o < |s.ledger.ops|
  {
    PcFits(s.procs, |s.ledger.ops|, s.now, s.ledger.ops[o].pc)
  }

  ghost predicate Timely(s: State) {
    var terms := TermsFit(s.procs, s.now);
    var ops := forall o: nat :: o < |s.ledger.ops| ==> OpFitsIn(s, o);
    terms && ops
  }

  // ---------------------------------------------------------------- processes

  ghost predicate ProcessesGrow(p: Processes, q: Processes) {
    ChildrenGrow(p, q) && |p.terms| <= |q.terms|
  }

  lemma PcStays(p: Processes, q: Processes, ops: nat, more: nat, now: nat, later: nat, pc: Pc)
    requires PcFits(p, ops, now, pc) && ProcessesGrow(p, q) && ops <= more && now <= later
    ensures PcFits(q, more, later, pc)
  {
  }

  lemma LaunchedFits(p: Processes, kind: ChildKind, generation: nat, hasPid: bool, now: nat)
    requires TermsFit(p, now)
    ensures TermsFit(Launched(p, kind, generation, hasPid), now) && ProcessesGrow(p, Launched(p, kind, generation, hasPid))
  {
    var q := Launched(p, kind, generation, hasPid);
    forall t: nat | t < |q.terms| ensures TermFits(q, now, t) { assert TermFits(p, now, t); }
    forall c: nat | c < |q.children| ensures MarkFits(q, c) { if c < |p.children| { assert MarkFits(p, c); } }
  }

  lemma ExitFits(p: Processes, c: nat, code: Option<int>, now: nat)
    requires TermsFit(p, now) && c < |p.children| && p.children[c].result.None?
    ensures TermsFit(Exit(p, c, code), now) && ProcessesGrow(p, Exit(p, c, code))
  {
    hide Without;
    var q := Exit(p, c, code);
    forall t: nat | t < |q.terms| ensures TermFits(q, now, t) { assert TermFits(p, now, t); }
    forall d: nat | d < |q.children| ensures MarkFits(q, d) { assert MarkFits(p, d); }
  }

  lemma FailedFits(p: Processes, c: nat, now: nat)
    requires TermsFit(p, now) && c < |p.children|
    ensures
      var q := p.(children := p.children[c := p.children[c].(failed := true)]);
      TermsFit(q, now) && ProcessesGrow(p, q)
  {
    var q := p.(children := p.children[c := p.children[c].(failed := true)]);
    forall t: nat | t < |q.terms| ensures TermFits(q, now, t) { assert TermFits(p, now, t); }
    forall d: nat | d < |q.children| ensures MarkFits(q, d) { assert MarkFits(p, d); }
  }

  lemma TerminateFits(p: Processes, c: nat, now: nat)
    requires TermsFit(p, now) && c < |p.children|
    ensures
      var (q, stop) := Terminate(p, c, now);
      TermsFit(q, now) && ProcessesGrow(p, q) && StopFits(q, stop)
  {
    var q := Terminate(p, c, now).0;
    assert MarkFits(p, c);
    forall t: nat | t < |q.terms| ensures TermFits(q, now, t) { if t < |p.terms| { assert TermFits(p, now, t); } }
    forall d: nat | d < |q.children| ensures MarkFits(q, d) { assert MarkFits(p, d); }
  }

  lemma ResumeTerminationFits(p: Processes, t: nat, w: WaitResult, now: nat)
    requires TermsFit(p, now) && t < |p.terms| && p.terms[t].child < |p.children|
    ensures TermsFit(ResumeTermination(p, t, w, now), now) && ProcessesGrow(p, ResumeTermination(p, t, w, now))
  {
    var q := ResumeTermination(p, t, w, now);
    forall u: nat | u < |q.terms| ensures TermFits(q, now, u) { assert TermFits(p, now, u); }
    forall d: nat | d < |q.children| ensures MarkFits(q, d) { assert MarkFits(p, d); }
  }

  lemma SettleTerminationFits(p: Processes, t: nat, now: nat)
    requires TermsFit(p, now) && t < |p.terms| && p.terms[t].child < |p.children| && p.terms[t].phase.TermFinished?
    ensures TermsFit(SettleTermination(p, t), now) && ProcessesGrow(p, SettleTermination(p, t))
  {
    var q := SettleTermination(p, t);
    forall u: nat | u < |q.terms| ensures TermFits(q, now, u) { assert TermFits(p, now, u); }
    forall d: nat | d < |q.children| ensures MarkFits(q, d) { assert MarkFits(p, d); }
  }

  lemma LaterFits(p: Processes, now: nat, later: nat)
    requires TermsFit(p, now) && now <= later
    ensures TermsFit(p, later)
  {
    forall t: nat | t < |p.terms| ensures TermFits(p, later, t) { assert TermFits(p, now, t); }
  }

  // ---------------------------------------------------------------- whole states

  /** Growing processes and one operation moved or added keep everything timely. */
  lemma TimelyFrame(s: State, t: State, o: nat)
    requires Timely(s) && TermsFit(t.procs, t.now) && ProcessesGrow(s.procs, t.procs) && s.now <= t.now
    requires |s.ledger.ops| <= |t.ledger.ops|
    requires forall i: nat {:trigger t.ledger.ops[i]} :: i < |t.ledger.ops| && i != o ==>
      i < |s.ledger.ops| && t.ledger.ops[i].pc == s.ledger.ops[i].pc
    requires o < |t.ledger.ops| ==> OpFitsIn(t, o)
    ensures Timely(t)
  {
    hide PcFits, TermsFit, ProcessesGrow;
    forall i: nat | i < |t.ledger.ops| ensures OpFitsIn(t, i) {
      if i != o {
        assert t.ledger.ops[i].pc == s.ledger.ops[i].pc;
        assert OpFitsIn(s, i);
        PcStays(s.procs, t.procs, |s.ledger.ops|, |t.ledger.ops|, s.now, t.now, s.ledger.ops[i].pc);
      }
    }
  }

  /** Nothing but phases of operations changed, or nothing the operations await. */
  lemma TimelyQuietly(s: State, t: State)
    requires Timely(s) && t.procs == s.procs && t.now == s.now && |t.ledger.ops| == |s.ledger.ops|
    requires forall i: nat :: i < |t.ledger.ops| ==> t.ledger.ops[i].pc == s.ledger.ops[i].pc
    ensures Timely(t)
  {
    forall i: nat | i < |t.ledger.ops| ensures OpFitsIn(t, i) { assert OpFitsIn(s, i); }
  }

  lemma BeginStopTimely(s: State)
    requires Timely(s) && ProcessesOk(s.procs)
    ensures Timely(BeginStop(s)) && |BeginStop(s).ledger.ops| == |s.ledger.ops| + 1
    ensures BeginStop(s).ledger.ops[..|s.ledger.ops|] == s.ledger.ops
  {
    hide ProcessesGrow, TermsFit, Terminate, TermsKnown;
    var t := BeginStop(s);
    TerminateAllOwned(s.procs, s.now);
    NothingGrows(s.procs);
    if s.procs.owned != [] { TerminateFits(s.procs, s.procs.owned[0], s.now); }
    assert TermsKnown(t.procs, t.ledger.ops[|s.ledger.ops|].pc.terms) by { BeginStopTerms(s); }
    TimelyFrame(s, t, |s.ledger.ops|);
  }

  lemma NothingGrows(p: Processes)
    ensures ProcessesGrow(p, p)
  {
  }

  lemma BeginStopTerms(s: State)
    requires Timely(s) && ProcessesOk(s.procs)
    ensures
      var op := BeginStop(s).ledger.ops[|s.ledger.ops|];
      op.pc.AwaitTerminations? && TermsKnown(BeginStop(s).procs, op.pc.terms)
  {
    TerminateAllOwned(s.procs, s.now);
    if s.procs.owned != [] { TerminateFits(s.procs, s.procs.owned[0], s.now); }
  }

  lemma EnsureStoppedTimely(s: State)
    requires Timely(s) && ProcessesOk(s.procs) && LedgerOk(s.ledger)
    ensures
      var (t, x) := EnsureStopped(s);
      Timely(t) && x < |t.ledger.ops| && t.now == s.now
  {
    hide BeginStop, Timely;
    if s.ledger.stopping.None? { BeginStopTimely(s); BeginStopNow(s); }
  }

  lemma BeginStopNow(s: State)
    requires Known(s.procs)
    ensures BeginStop(s).now == s.now
  {
  }

  // ---------------------------------------------------------------- steps of operations

  /** The operation that steps awaits something that exists, and only its processes grew. */
  ghost predicate StepFits(s: State, t: State, o: nat)
    requires o < |s.ledger.ops| && o < |t.ledger.ops|
  {
    var processes := TermsFit(t.procs, s.now) && ProcessesGrow(s.procs, t.procs);
    var pc := PcFits(t.procs, |s.ledger.ops|, s.now, t.ledger.ops[o].pc);
    processes && pc && t.now == s.now
  }

  lemma FailFits(s: State, o: nat, error: Note)
    requires Timely(s) && o < |s.ledger.ops|
    requires s.ledger.ops[o].phase.Running? && !s.ledger.ops[o].pc.AwaitTerminations?
    ensures StepFits(s, FailStartup(s, o, error), o)
  {
    NothingGrows(s.procs);
    assert OpFitsIn(s, o);
  }

  lemma StartupFits(s: State, o: nat, blocked: bool, spawn: Spawn)
    requires Timely(s) && o < |s.ledger.ops|
    requires s.ledger.ops[o].phase.Running? && !s.ledger.ops[o].pc.AwaitTerminations?
    ensures StepFits(s, ResumeStartup(s, o, blocked, spawn), o)
  {
    hide Launched, FailStartup, ProcessesGrow, TermsFit;
    NothingGrows(s.procs);
    assert OpFitsIn(s, o);
    FailFits(s, o, StartupFailed);
    if spawn.Spawned? {
      LaunchedFits(s.procs, Migration, s.ledger.ops[o].generation, spawn.hasPid, s.now);
      LaunchedSize(s.procs, Migration, s.ledger.ops[o].generation, spawn.hasPid);
    }
  }

  lemma LaunchedSize(p: Processes, kind: ChildKind, generation: nat, hasPid: bool)
    ensures |Launched(p, kind, generation, hasPid).children| == |p.children| + 1
  {
  }

  lemma MigrationFits(s: State, o: nat, w: WaitResult, blocked: bool, spawn: Spawn)
    requires Timely(s) && o < |s.ledger.ops| && s.ledger.ops[o].pc.AwaitMigration? && s.ledger.ops[o].phase.Running?
    requires s.ledger.ops[o].pc.child < |s.procs.children|
    ensures StepFits(s, ResumeMigration(s, o, w, blocked, spawn), o)
  {
    hide Launched, FailStartup, ProcessesGrow, TermsFit, Terminate;
    NothingGrows(s.procs);
    assert OpFitsIn(s, o);
    FailFits(s, o, StartupFailed);
    TerminateFits(s.procs, s.ledger.ops[o].pc.child, s.now);
    if spawn.Spawned? {
      LaunchedFits(s.procs, Serve, s.ledger.ops[o].generation, spawn.hasPid, s.now);
      LaunchedSize(s.procs, Serve, s.ledger.ops[o].generation, spawn.hasPid);
    }
  }

  lemma LeaveFits(s: State, o: nat, c: nat)
    requires Timely(s) && o < |s.ledger.ops| && c < |s.procs.children|
    requires s.ledger.ops[o].phase.Running? && !s.ledger.ops[o].pc.AwaitTerminations?
    ensures StepFits(s, LeaveReadyLoop(s, o, c), o)
  {
    hide ProcessesGrow, TermsFit, Terminate;
    NothingGrows(s.procs);
    assert OpFitsIn(s, o);
    TerminateFits(s.procs, c, s.now);
  }

  lemma HealthFits(s: State, o: nat, healthy: bool)
    requires Timely(s) && o < |s.ledger.ops| && s.ledger.ops[o].pc.AwaitHealth? && s.ledger.ops[o].phase.Running?
    requires s.ledger.ops[o].pc.child < |s.procs.children|
    ensures StepFits(s, ResumeHealth(s, o, healthy), o)
  {
    hide LeaveReadyLoop, ProcessesGrow, TermsFit;
    NothingGrows(s.procs);
    assert OpFitsIn(s, o);
    LeaveFits(s, o, s.ledger.ops[o].pc.child);
  }

  lemma RetryFits(s: State, o: nat, w: WaitResult)
    requires Timely(s) && o < |s.ledger.ops| && s.ledger.ops[o].pc.AwaitRetry? && s.ledger.ops[o].phase.Running?
    requires s.ledger.ops[o].pc.child < |s.procs.children|
    ensures StepFits(s, ResumeRetry(s, o, w), o)
  {
    hide LeaveReadyLoop, ProcessesGrow, TermsFit;
    NothingGrows(s.procs);
    LeaveFits(s, o, s.ledger.ops[o].pc.child);
  }

  lemma ApplyingFits(s: State, o: nat, blocked: bool, spawn: Spawn)
    requires Timely(s) && o < |s.ledger.ops|
    requires s.ledger.ops[o].phase.Running? && s.ledger.ops[o].pc.RestoreApplying?
    ensures StepFits(s, ResumeApplying(s, o, blocked, spawn), o)
  {
    hide Launched, ProcessesGrow, TermsFit;
    NothingGrows(s.procs);
    assert OpFitsIn(s, o);
    if spawn.Spawned? {
      LaunchedFits(s.procs, Restore, s.ledger.ops[o].generation, spawn.hasPid, s.now);
      LaunchedSize(s.procs, Restore, s.ledger.ops[o].generation, spawn.hasPid);
    }
  }

  /** The remaining steps touch no process and await nothing timed. */
  lemma OtherFits(s: State, o: nat, w: WaitResult, blocked: bool, spawn: Spawn, healthy: bool)
    requires Timely(s) && o < |s.ledger.ops| && CanResume(s, o, w)
    requires
      var pc := s.ledger.ops[o].pc;
      pc.ReadyAnnounced? || pc.AwaitStop? || pc.RestoreRefused? || pc.AwaitRestore? || pc.AwaitTerminations?
    ensures
      var t := ResumeOp(s, o, w, blocked, spawn, healthy);
      o < |t.ledger.ops| && StepFits(s, t, o)
  {
    hide ProcessesGrow, TermsFit;
    NothingGrows(s.procs);
    assert OpFitsIn(s, o);
  }

  lemma ResumeFits(s: State, o: nat, w: WaitResult, blocked: bool, spawn: Spawn, healthy: bool)
    requires Timely(s) && o < |s.ledger.ops| && CanResume(s, o, w) && !s.ledger.ops[o].pc.RestoreAnnounced?
    ensures
      var t := ResumeOp(s, o, w, blocked, spawn, healthy);
      o < |t.ledger.ops| && StepFits(s, t, o)
  {
    hide StepFits, Timely, FailStartup, ResumeStartup, ResumeMigration, ResumeHealth, ResumeRetry, ResumeApplying;
    match s.ledger.ops[o].pc
    case StartupAnnounced => StartupFits(s, o, blocked, spawn);
    case AwaitMigration(_, _) => MigrationFits(s, o, w, blocked, spawn);
    case AwaitMigrationStop(stop) =>
      FailFits(s, o, StartupFailed);
      FailFits(s, o, StopUnconfirmed);
    case CatchPending(error) => FailFits(s, o, error);
    case AwaitHealth(_, _) => HealthFits(s, o, healthy);
    case AwaitRetry(_, _, _) => RetryFits(s, o, w);
    case AwaitServerStop(stop) =>
      FailFits(s, o, StartupFailed);
      FailFits(s, o, StopUnconfirmed);
    case RestoreApplying => ApplyingFits(s, o, blocked, spawn);
    case _ => OtherFits(s, o, w, blocked, spawn, healthy);
  }

  lemma ResumeFrame(s: State, o: nat, w: WaitResult, blocked: bool, spawn: Spawn, healthy: bool)
    requires o < |s.ledger.ops| && CanResume(s, o, w) && !s.ledger.ops[o].pc.RestoreAnnounced?
    ensures
      var t := ResumeOp(s, o, w, blocked, spawn, healthy);
      && |t.ledger.ops| == |s.ledger.ops|
      && forall i: nat :: i < |s.ledger.ops| && i != o ==> t.ledger.ops[i] == s.ledger.ops[i]
  {
    var t := ResumeOp(s, o, w, blocked, spawn, healthy);
    if !s.ledger.ops[o].pc.AwaitTerminations? { assert OwnStep(s, t, o); }
  }

  lemma ResumeTimely(s: State, o: nat, w: WaitResult, blocked: bool, spawn: Spawn, healthy: bool)
    requires Inv(s) && Timely(s) && o < |s.ledger.ops| && CanResume(s, o, w)
    ensures Timely(ResumeOp(s, o, w, blocked, spawn, healthy))
  {
    hide Timely, ResumeOp, PcFits, TermsFit, ProcessesGrow, EnsureStopped;
    var t := ResumeOp(s, o, w, blocked, spawn, healthy);
    if s.ledger.ops[o].pc.RestoreAnnounced? {
      RestoreBegins(s, o, w, blocked, spawn, healthy);
    } else {
      ResumeFits(s, o, w, blocked, spawn, healthy);
      ResumeFrame(s, o, w, blocked, spawn, healthy);
      TimelyFrame(s, t, o);
    }
  }

  lemma RestoreBegins(s: State, o: nat, w: WaitResult, blocked: bool, spawn: Spawn, healthy: bool)
    requires Inv(s) && Timely(s) && o < |s.ledger.ops| && CanResume(s, o, w) && s.ledger.ops[o].pc.RestoreAnnounced?
    ensures Timely(ResumeOp(s, o, w, blocked, spawn, healthy))
  {
    hide TermsFit, ProcessesGrow, EnsureStopped;
    EnsureStoppedTimely(s);
    var (s1, x) := EnsureStopped(s);
    NothingGrows(s1.procs);
    TimelyFrame(s1, ResumeRestore(s, o), o);
  }

  // ---------------------------------------------------------------- every event

  lemma AdmitTimely(s: State, slot: Slot, pc: Pc, note: Note)
    requires Timely(s) && (pc.StartupAnnounced? || pc.RestoreAnnounced?)
    ensures Timely(Admit(s, slot, pc, note))
  {
    NothingGrows(s.procs);
    TimelyFrame(s, Admit(s, slot, pc, note), |s.ledger.ops|);
  }

  lemma CallsTimely(s: State, e: Event)
    requires Inv(s) && Timely(s) && Enabled(s, e)
    requires e.Start? || e.RestoreOffline? || e.ReportDegraded? || e.ResumeUpdateTask?
    ensures Timely(Step(s, e))
  {
    hide Timely;
    AdmitTimely(s, StartSlot, StartupAnnounced, Preparing);
    AdmitTimely(s, RestoreSlot, RestoreAnnounced, StoppingForRestore);
    if Step(s, e).ledger.ops == s.ledger.ops { TimelyQuietly(s, Step(s, e)); }
  }

  lemma StopCallsTimely(s: State, closing: bool)
    requires Inv(s) && Timely(s)
    ensures
      var t := s.(gate := Invalidate(s.gate.(closing := closing)), timer := false);
      Known(s.procs) && Timely(EnsureStopped(t).0)
  {
    hide TermsFit, PcFits;
    var t := s.(gate := Invalidate(s.gate.(closing := closing)), timer := false);
    TimelyQuietly(s, t);
    EnsureStoppedTimely(t);
  }

  lemma StopEventsTimely(s: State, e: Event)
    requires Inv(s) && Timely(s) && Enabled(s, e) && (e.Stop? || e.Shutdown? || e.PrepareUpdate?)
    ensures Timely(Step(s, e))
  {
    hide Timely, EnsureStopped;
    StopCallsTimely(s, s.gate.closing);
    StopCallsTimely(s, true);
    assert s.gate.(closing := s.gate.closing) == s.gate;
    if e.PrepareUpdate? {
      if e.blocked || s.gate.recovery || s.ledger.restoring.Some? { TimelyQuietly(s, Step(s, e)); }
      else { TimelyQuietly(CallShutdown(s).0, Step(s, e)); }
    }
  }

  lemma ChildEventsTimely(s: State, e: Event)
    requires Inv(s) && Timely(s) && Enabled(s, e) && (e.ChildExit? || e.ChildError? || e.ResumeTerm? || e.SettleTerm?)
    ensures Timely(Step(s, e))
  {
    hide Exit, TermsFit, ProcessesGrow, PcFits, ResumeTermination, SettleTermination;
    NothingGrows(s.procs);
    match e
    case ChildExit(c, code) =>
      if s.procs.children[c].result.None? { ExitFits(s.procs, c, code, s.now); }
      TimelyFrame(s, Step(s, e), |s.ledger.ops|);
    case ChildError(c) =>
      if s.procs.children[c].result.None? { ErrorTimely(s, c); }
    case ResumeTerm(t, w) =>
      ResumeTerminationFits(s.procs, t, w, s.now);
      TimelyFrame(s, Step(s, e), |s.ledger.ops|);
    case SettleTerm(t) =>
      SettleTerminationFits(s.procs, t, s.now);
      TimelyFrame(s, Step(s, e), |s.ledger.ops|);
  }

  lemma ErrorTimely(s: State, c: nat)
    requires Timely(s) && c < |s.procs.children| && s.procs.children[c].result.None?
    ensures Timely(ChildErrored(s, c))
  {
    hide Exit, TermsFit, ProcessesGrow, PcFits;
    var failed := s.(procs := s.procs.(children := s.procs.children[c := s.procs.children[c].(failed := true)]));
    FailedFits(s.procs, c, s.now);
    TimelyFrame(s, failed, |s.ledger.ops|);
    if !s.procs.children[c].hasPid {
      ExitFits(failed.procs, c, None, s.now);
      TimelyFrame(failed, Completed(failed, c, None), |s.ledger.ops|);
    }
  }

  lemma TickTimely(s: State, to: nat)
    requires Timely(s) && s.now <= to
    ensures Timely(s.(now := to))
  {
    NothingGrows(s.procs);
    LaterFits(s.procs, s.now, to);
    TimelyFrame(s, s.(now := to), |s.ledger.ops|);
  }

  lemma StepTimely(s: State, e: Event)
    requires Inv(s) && Timely(s) && Enabled(s, e)
    ensures Timely(Step(s, e))
  {
    hide Inv, Timely;
    match e
    case Resume(o, w, blocked, spawn, healthy) => ResumeTimely(s, o, w, blocked, spawn, healthy);
    case Tick(to) => TickTimely(s, to);
    case Conclude(o) => TimelyQuietly(s, Step(s, e));
    case ReleaseOp(o) => TimelyQuietly(s, Step(s, e));
    case SettleOp(o) => TimelyQuietly(s, Step(s, e));
    case _ =>
      if e.Stop? || e.Shutdown? || e.PrepareUpdate? { StopEventsTimely(s, e); }
      else if e.ChildExit? || e.ChildError? || e.ResumeTerm? || e.SettleTerm? { ChildEventsTimely(s, e); }
      else { CallsTimely(s, e); }
  }

  lemma {:induction false} RunIsTimely(tr: seq<State>, es: seq<Event>, i: nat)
    requires IsRun(tr, es) && i < |tr|
    ensures Timely(tr[i])
  {
    hide Timely, Inv, Step, Enabled;
    if i == 0 {
      InitialTimely();
    } else {
      RunIsTimely(tr, es, i - 1);
      RunStep(tr, es, i - 1);
      StepTimely(tr[i - 1], es[i - 1]);
    }
  }

  lemma InitialTimely()
    ensures Timely(INITIAL)
  {
  }

  // ---------------------------------------------------------------- progress

  /** The supervisor's own steps on operation `o`. */
  predicate On(e: Event, o: nat) {
    (e.Resume? || e.Conclude? || e.ReleaseOp? || e.SettleOp?) && e.op == o
  }

  predicate OnTerm(e: Event, t: nat) { (e.ResumeTerm? || e.SettleTerm?) && e.term == t }

  /** The terminations an operation awaits. */
  function AwaitedTerms(pc: Pc): set<nat> {
    match pc
    case AwaitMigrationStop(Awaiting(t)) => {t}
    case AwaitServerStop(Awaiting(t)) => {t}
    case AwaitTerminations(terms, _) => terms
    case _ => {}
  }

  /** A step of the operation itself or of a termination it awaits. */
  predicate ServesDirectly(s: State, e: Event, o: nat)
    requires o < |s.ledger.ops|
  {
    On(e, o) || ((e.ResumeTerm? || e.SettleTerm?) && e.term in AwaitedTerms(s.ledger.ops[o].pc))
  }

  /** A step of the operation, of what it awaits, or of what the stop it awaits awaits. */
  predicate Serves(s: State, e: Event, o: nat)
    requires o < |s.ledger.ops|
  {
    || ServesDirectly(s, e, o)
    || (s.ledger.ops[o].pc.AwaitStop? && s.ledger.ops[o].pc.stopOp < |s.ledger.ops|
        && ServesDirectly(s, e, s.ledger.ops[o].pc.stopOp))
  }

  /** Some step serving `o` becomes possible within the longest limit, by the passage of time alone. */
  ghost predicate Progresses(s: State, o: nat)
    requires o < |s.ledger.ops|
  {
    exists to: nat, e: Event :: s.now <= to <= s.now + PATIENCE && Serves(s, e, o) && Enabled(s.(now := to), e)
  }

  ghost predicate Moves(s: State, o: nat, to: nat, e: Event)
    requires o < |s.ledger.ops|
  {
    var soon := s.now <= to <= s.now + PATIENCE;
    var served := ServesDirectly(s, e, o) && Enabled(s.(now := to), e);
    soon && served
  }

  function Later(now: nat, due: nat): nat { if now < due then due else now }

  /** An unsettled termination can go on. */
  lemma TermMoves(s: State, t: nat) returns (to: nat, e: Event)
    requires TermsFit(s.procs, s.now) && t < |s.procs.terms| && !s.procs.terms[t].phase.TermSettled?
    ensures s.now <= to <= s.now + PATIENCE && OnTerm(e, t) && Enabled(s.(now := to), e)
  {
    assert TermFits(s.procs, s.now, t);
    to := s.now;
    match s.procs.terms[t].phase
    case SoftWait(due) => to, e := Later(s.now, due), ResumeTerm(t, TimedOut);
    case HardWait(Some(due)) => to, e := Later(s.now, due), ResumeTerm(t, TimedOut);
    case HardWait(None) => e := ResumeTerm(t, Exited(s.procs.children[s.procs.terms[t].child].result.value));
    case TermFinished(_) => e := SettleTerm(t);
  }

  /** Waiting for one termination: either it has settled, or it can go on. */
  lemma StopMoves(s: State, o: nat, stop: TermAwait) returns (to: nat, e: Event)
    requires TermsFit(s.procs, s.now) && o < |s.ledger.ops| && s.ledger.ops[o].phase.Running? && StopFits(s.procs, stop)
    requires s.ledger.ops[o].pc == AwaitMigrationStop(stop) || s.ledger.ops[o].pc == AwaitServerStop(stop)
    ensures Moves(s, o, to, e)
  {
    hide TermsFit;
    if StopResult(s.procs, stop).Some? {
      to, e := s.now, Resume(o, TimedOut, false, SpawnThrows, false);
    } else {
      to, e := TermMoves(s, stop.term);
    }
  }

  lemma TerminationsMove(s: State, o: nat) returns (to: nat, e: Event)
    requires TermsFit(s.procs, s.now) && o < |s.ledger.ops| && s.ledger.ops[o].phase.Running?
    requires s.ledger.ops[o].pc.AwaitTerminations? && TermsKnown(s.procs, s.ledger.ops[o].pc.terms)
    ensures Moves(s, o, to, e)
  {
    hide TermsFit;
    var terms, refused := s.ledger.ops[o].pc.terms, s.ledger.ops[o].pc.refused;
    if refused || SomeUnstopped(s.procs, terms) || AllStopped(s.procs, terms) {
      to, e := s.now, Resume(o, TimedOut, false, SpawnThrows, false);
    } else {
      var t :| t in terms && StopResult(s.procs, Awaiting(t)) != Some(true);
      assert StopResult(s.procs, Awaiting(t)) != Some(false);
      to, e := TermMoves(s, t);
    }
  }

  /** A timed wait for a child ends by its due time at the latest. */
  lemma WaitMoves(s: State, o: nat) returns (to: nat, e: Event)
    requires o < |s.ledger.ops| && s.ledger.ops[o].phase.Running? && OpFitsIn(s, o)
    requires s.ledger.ops[o].pc.AwaitMigration? || s.ledger.ops[o].pc.AwaitRestore? || s.ledger.ops[o].pc.AwaitRetry?
    ensures Moves(s, o, to, e)
  {
    to := s.now;
    match s.ledger.ops[o].pc
    case AwaitMigration(_, due) => to, e := Later(s.now, due), Resume(o, TimedOut, false, SpawnThrows, false);
    case AwaitRestore(_, due) => to, e := Later(s.now, due), Resume(o, TimedOut, false, SpawnThrows, false);
    case AwaitRetry(c, _, due) =>
      if due.Some? {
        to, e := Later(s.now, due.value), Resume(o, TimedOut, false, SpawnThrows, false);
      } else {
        e := Resume(o, Exited(s.procs.children[c].result.value), false, SpawnThrows, false);
      }
  }

  /** Every unsettled operation that does not await another one can be served directly. */
  lemma OpMoves(s: State, o: nat) returns (to: nat, e: Event)
    requires Inv(s) && Timely(s) && o < |s.ledger.ops| && !s.ledger.ops[o].phase.Settled?
    requires s.ledger.ops[o].pc.AwaitStop? ==> !s.ledger.ops[o].phase.Running?
    ensures Moves(s, o, to, e)
  {
    hide TermsFit, TermsKnown, LedgerOk, GateOk, Ground, ReleasedOk, UpdatesOk;
    assert OpFitsIn(s, o);
    to := s.now;
    match s.ledger.ops[o].phase
    case Finishing(_) => e := Conclude(o);
    case Finished(_) => e := ReleaseOp(o);
    case Released(_, _) => e := SettleOp(o);
    case Running =>
      var pc := s.ledger.ops[o].pc;
      if pc.AwaitMigrationStop? || pc.AwaitServerStop? { to, e := StopMoves(s, o, pc.stop); }
      else if pc.AwaitTerminations? { to, e := TerminationsMove(s, o); }
      else if pc.AwaitMigration? || pc.AwaitRestore? || pc.AwaitRetry? { to, e := WaitMoves(s, o); }
      else { e := Resume(o, TimedOut, false, SpawnThrows, false); }
  }

  /** In every reachable state each unsettled operation can go on, by itself or through what it awaits, within two minutes. */
  lemma NoOperationWaitsInVain(tr: seq<State>, es: seq<Event>, i: nat, o: nat)
    requires IsRun(tr, es) && i < |tr| && o < |tr[i].ledger.ops| && !tr[i].ledger.ops[o].phase.Settled?
    ensures Progresses(tr[i], o)
  {
    hide Inv, Timely;
    var s := tr[i];
    RunKeepsInv(tr, es, i);
    RunIsTimely(tr, es, i);
    if s.ledger.ops[o].phase.Running? && s.ledger.ops[o].pc.AwaitStop? {
      AwaitedIsAStop(s, o);
      var x := s.ledger.ops[o].pc.stopOp;
      if s.ledger.ops[x].phase.Settled? {
        assert Enabled(s.(now := s.now), Resume(o, TimedOut, false, SpawnThrows, false));
        assert Serves(s, Resume(o, TimedOut, false, SpawnThrows, false), o);
      } else {
        var to, e := OpMoves(s, x);
        assert Serves(s, e, o);
      }
    } else {
      var to, e := OpMoves(s, o);
      assert Serves(s, e, o);
    }
  }

  /** A restore awaits a stop, and a stop never awaits another operation. */
  lemma AwaitedIsAStop(s: State, o: nat)
    requires Inv(s) && Timely(s) && o < |s.ledger.ops|
    requires s.ledger.ops[o].phase.Running? && s.ledger.ops[o].pc.AwaitStop?
    ensures s.ledger.ops[o].pc.stopOp < |s.ledger.ops|
    ensures s.ledger.ops[s.ledger.ops[o].pc.stopOp].pc.AwaitTerminations?
  {
    hide TermsFit, ReleasedOk, UpdatesOk, GateOk, ProcessesOk;
    assert OpFitsIn(s, o) && OpFits(s.ledger, o);
    assert Main(s) == s.ledger.ops[o];
    assert OpFits(s.ledger, s.ledger.ops[o].pc.stopOp);
  }
}
