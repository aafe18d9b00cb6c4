/**
 * How many steps an operation takes: in no run, whatever the environment answers and whatever
 * else is called, does one take more than a fixed number before its promise settles.
 */
module LifecycleSteps {
  import opened Prelude
  import opened Lifecycle
  import opened LifecycleInvariant
  import opened LifecycleSafety
  import opened LifecycleProgress

  // ---------------------------------------------------------------- an event touches one operation

  lemma StopTouchesNone(s: State, i: nat)
    requires ProcessesOk(s.procs) && LedgerOk(s.ledger) && i < |s.ledger.ops|
    ensures
      var t := EnsureStopped(s).0;
      i < |t.ledger.ops| && t.ledger.ops[i] == s.ledger.ops[i]
  {
    if s.ledger.stopping.None? { BeginStopParts(s); }
  }

  lemma ResumeTouchesOne(s: State, o: nat, w: WaitResult, blocked: bool, spawn: Spawn, healthy: bool, i: nat)
    requires Inv(s) && o < |s.ledger.ops| && CanResume(s, o, w) && i < |s.ledger.ops| && i != o
    ensures
      var t := ResumeOp(s, o, w, blocked, spawn, healthy);
      i < |t.ledger.ops| && t.ledger.ops[i] == s.ledger.ops[i]
  {
    hide Ground, ReleasedOk, UpdatesOk, GateOk, OpCurrent;
    var t := ResumeOp(s, o, w, blocked, spawn, healthy);
    if s.ledger.ops[o].pc.RestoreAnnounced? { StopTouchesNone(s, i); }
    else if !s.ledger.ops[o].pc.AwaitTerminations? { assert OwnStep(s, t, o); }
  }

  lemma CallsTouchNone(s: State, e: Event, i: nat)
    requires Inv(s) && Enabled(s, e) && i < |s.ledger.ops|
    requires e.Start? || e.Stop? || e.Shutdown? || e.PrepareUpdate? || e.RestoreOffline?
    ensures i < |Step(s, e).ledger.ops| && Step(s, e).ledger.ops[i] == s.ledger.ops[i]
  {
    hide Ground, ReleasedOk, UpdatesOk, GateOk, EnsureStopped;
    match e
    case Stop => StopTouchesNone(s.(gate := Invalidate(s.gate), timer := false), i);
    case Shutdown => StopTouchesNone(s.(gate := Invalidate(s.gate.(closing := true)), timer := false), i);
    case PrepareUpdate(_) => StopTouchesNone(s.(gate := Invalidate(s.gate.(closing := true)), timer := false), i);
    case _ =>
  }

  lemma OtherEventsTouchOne(s: State, e: Event, i: nat)
    requires Enabled(s, e) && !On(e, i) && i < |s.ledger.ops|
    requires !(e.Start? || e.Stop? || e.Shutdown? || e.PrepareUpdate? || e.RestoreOffline? || e.Resume?)
    ensures i < |Step(s, e).ledger.ops| && Step(s, e).ledger.ops[i] == s.ledger.ops[i]
  {
    hide Exit, ResumeTermination, SettleTermination;
  }

  /** An operation changes only by its own steps. */
  lemma OthersUntouched(s: State, e: Event, i: nat)
    requires Inv(s) && Enabled(s, e) && !On(e, i) && i < |s.ledger.ops|
    ensures i < |Step(s, e).ledger.ops| && Step(s, e).ledger.ops[i] == s.ledger.ops[i]
  {
    hide Inv, ResumeOp, CallStart, CallStop, CallShutdown, CallPrepareUpdate, CallRestore;
    if e.Resume? { ResumeTouchesOne(s, e.op, e.wait, e.blocked, e.spawn, e.healthy, i); }
    else if e.Start? || e.Stop? || e.Shutdown? || e.PrepareUpdate? || e.RestoreOffline? { CallsTouchNone(s, e, i); }
    else { OtherEventsTouchOne(s, e, i); }
  }

  // ---------------------------------------------------------------- the steps an operation has left

  /** The health polls that fit into the time left. */
  function PollsIn(left: nat): nat { (left + READINESS_POLL_MS - 1) / READINESS_POLL_MS }

  function Left(now: nat, deadline: nat): nat { if now < deadline then deadline - now else 0 }

  /** Each poll takes a request and a wait; then the server is ready or is stopped. */
  function PollingSteps(left: nat): nat { 3 + 2 * PollsIn(left) }

  /** The most steps of its own that an operation at `pc` may still take until it stops running. */
  function StepsFrom(pc: Pc, now: nat): nat {
    match pc
    case AwaitRetry(_, deadline, due) =>
      if due.Some? && Later(now, due.value) < deadline then 1 + PollingSteps(deadline - Later(now, due.value)) else 2
    case AwaitHealth(_, deadline) => PollingSteps(Left(now, deadline))
    case AwaitMigration(_, _) => 1 + PollingSteps(READINESS_MS)
    case StartupAnnounced => 2 + PollingSteps(READINESS_MS)
    case AwaitRestore(_, _) => 3 + PollingSteps(READINESS_MS)
    case RestoreApplying => 4 + PollingSteps(READINESS_MS)
    case AwaitStop(_) => 5 + PollingSteps(READINESS_MS)
    case RestoreAnnounced => 6 + PollingSteps(READINESS_MS)
    case _ => 1
  }

  /** The most steps of its own until its promise has settled. */
  function StepsLeft(op: Op, now: nat): nat {
    match op.phase
    case Running => 3 + StepsFrom(op.pc, now)
    case Finishing(_) => 3
    case Finished(_) => 2
    case Released(_, _) => 1
    case Settled(_, _) => 0
  }

  /** What an operation may take from its call on. */
  function MaxSteps(slot: Slot): nat {
    match slot
    case StartSlot => 168
    case StopSlot => 4
    case RestoreSlot => 172
  }

  lemma PollsShrink(left: nat, passed: nat)
    requires READINESS_POLL_MS <= passed <= left
    ensures PollsIn(left - passed) + 1 <= PollsIn(left)
  {
  }

  lemma PollsGrow(left: nat, more: nat)
    requires left <= more
    ensures PollsIn(left) <= PollsIn(more)
  {
  }

  lemma LaterIsFewer(pc: Pc, now: nat, later: nat)
    requires now <= later
    ensures StepsFrom(pc, later) <= StepsFrom(pc, now)
  {
    hide PollsIn;
    match pc
    case AwaitHealth(_, deadline) => PollsGrow(Left(later, deadline), Left(now, deadline));
    case AwaitRetry(_, deadline, Some(due)) =>
      PollsGrow(Left(Later(later, due), deadline), Left(Later(now, due), deadline));
    case _ =>
  }

  /** A poll that fails goes on to one fewer. */
  lemma HealthStep(s: State, o: nat, healthy: bool)
    requires o < |s.ledger.ops| && s.ledger.ops[o].pc.AwaitHealth? && s.ledger.ops[o].pc.child < |s.procs.children|
    requires s.ledger.ops[o].phase.Running?
    ensures StepsLeft(ResumeHealth(s, o, healthy).ledger.ops[o], s.now) < StepsLeft(s.ledger.ops[o], s.now)
  {
    hide Terminate, OpCurrent;
    var left := Left(s.now, s.ledger.ops[o].pc.deadline);
    if left >= READINESS_POLL_MS { PollsShrink(left, READINESS_POLL_MS); }
  }

  lemma RetryStep(s: State, o: nat, w: WaitResult)
    requires o < |s.ledger.ops| && s.ledger.ops[o].phase.Running? && s.ledger.ops[o].pc.AwaitRetry?
    requires CanResume(s, o, w)
    ensures StepsLeft(ResumeRetry(s, o, w).ledger.ops[o], s.now) < StepsLeft(s.ledger.ops[o], s.now)
  {
    hide Terminate, OpCurrent, PollsIn;
  }

  lemma StartupStep(s: State, o: nat, blocked: bool, spawn: Spawn)
    requires o < |s.ledger.ops| && s.ledger.ops[o].phase.Running? && s.ledger.ops[o].pc.StartupAnnounced?
    ensures StepsLeft(ResumeStartup(s, o, blocked, spawn).ledger.ops[o], s.now) < StepsLeft(s.ledger.ops[o], s.now)
  {
    hide Launched, OpCurrent, PollsIn;
  }

  lemma MigrationStep(s: State, o: nat, w: WaitResult, blocked: bool, spawn: Spawn)
    requires o < |s.ledger.ops| && s.ledger.ops[o].phase.Running? && s.ledger.ops[o].pc.AwaitMigration?
    requires s.ledger.ops[o].pc.child < |s.procs.children|
    ensures StepsLeft(ResumeMigration(s, o, w, blocked, spawn).ledger.ops[o], s.now) < StepsLeft(s.ledger.ops[o], s.now)
  {
    hide Launched, Terminate, OpCurrent, PollsIn;
  }

  lemma ApplyingStep(s: State, o: nat, blocked: bool, spawn: Spawn)
    requires o < |s.ledger.ops| && s.ledger.ops[o].phase.Running? && s.ledger.ops[o].pc.RestoreApplying?
    ensures StepsLeft(ResumeApplying(s, o, blocked, spawn).ledger.ops[o], s.now) < StepsLeft(s.ledger.ops[o], s.now)
  {
    hide Launched, OpCurrent, PollsIn;
  }

  lemma RestoredStep(s: State, o: nat, w: WaitResult, blocked: bool)
    requires o < |s.ledger.ops| && s.ledger.ops[o].phase.Running? && s.ledger.ops[o].pc.AwaitRestore?
    requires s.ledger.ops[o].pc.child < |s.procs.children|
    ensures StepsLeft(ResumeRestored(s, o, w, blocked).ledger.ops[o], s.now) < StepsLeft(s.ledger.ops[o], s.now)
  {
    hide OpCurrent, PollsIn;
  }

  lemma RestoreBeginStep(s: State, o: nat)
    requires Inv(s) && o < |s.ledger.ops| && s.ledger.ops[o].phase.Running? && s.ledger.ops[o].pc.RestoreAnnounced?
    ensures
      var t := ResumeRestore(s, o);
      o < |t.ledger.ops| && StepsLeft(t.ledger.ops[o], s.now) < StepsLeft(s.ledger.ops[o], s.now)
  {
    hide Ground, ReleasedOk, UpdatesOk, GateOk, EnsureStopped, PollsIn;
    StopTouchesNone(s, o);
  }

  lemma OtherStep(s: State, o: nat, w: WaitResult, blocked: bool, spawn: Spawn, healthy: bool)
    requires o < |s.ledger.ops| && CanResume(s, o, w)
    requires
      var pc := s.ledger.ops[o].pc;
      pc.AwaitMigrationStop? || pc.CatchPending? || pc.ReadyAnnounced? || pc.AwaitServerStop? || pc.AwaitStop?
      || pc.RestoreRefused? || pc.AwaitTerminations?
    ensures
      var t := ResumeOp(s, o, w, blocked, spawn, healthy);
      o < |t.ledger.ops| && StepsLeft(t.ledger.ops[o], s.now) < StepsLeft(s.ledger.ops[o], s.now)
  {
    hide OpCurrent, PollsIn;
  }

  /** Wherever it is, an operation that goes on has fewer steps left. */
  lemma ResumeStep(s: State, o: nat, w: WaitResult, blocked: bool, spawn: Spawn, healthy: bool)
    requires Inv(s) && o < |s.ledger.ops| && CanResume(s, o, w)
    ensures
      var t := ResumeOp(s, o, w, blocked, spawn, healthy);
      o < |t.ledger.ops| && StepsLeft(t.ledger.ops[o], s.now) < StepsLeft(s.ledger.ops[o], s.now)
  {
    hide ProcessesOk, GateOk, LedgerOk, Ground, ReleasedOk, UpdatesOk, OpCurrent, StepsFrom;
    hide ResumeStartup, ResumeMigration, ResumeHealth, ResumeRetry, ResumeRestore, ResumeApplying, ResumeRestored;
    match s.ledger.ops[o].pc
    case StartupAnnounced => StartupStep(s, o, blocked, spawn);
    case AwaitMigration(_, _) => MigrationStep(s, o, w, blocked, spawn);
    case AwaitHealth(_, _) => HealthStep(s, o, healthy);
    case AwaitRetry(_, _, _) => RetryStep(s, o, w);
    case RestoreAnnounced => RestoreBeginStep(s, o);
    case RestoreApplying => ApplyingStep(s, o, blocked, spawn);
    case AwaitRestore(_, _) => RestoredStep(s, o, w, blocked);
    case _ => OtherStep(s, o, w, blocked, spawn, healthy);
  }

  lemma OwnEventStep(s: State, e: Event, o: nat)
    requires Inv(s) && Enabled(s, e) && On(e, o) && o < |s.ledger.ops|
    ensures Step(s, e).now == s.now && o < |Step(s, e).ledger.ops|
    ensures StepsLeft(Step(s, e).ledger.ops[o], s.now) < StepsLeft(s.ledger.ops[o], s.now)
  {
    hide Inv, ResumeOp, CanResume, StepsFrom;
    if e.Resume? {
      ResumeStep(s, o, e.wait, e.blocked, e.spawn, e.healthy);
      ResumeTakesNoTime(s, o, e.wait, e.blocked, e.spawn, e.healthy);
    }
  }

  lemma ResumeTakesNoTime(s: State, o: nat, w: WaitResult, blocked: bool, spawn: Spawn, healthy: bool)
    requires Inv(s) && o < |s.ledger.ops| && CanResume(s, o, w)
    ensures ResumeOp(s, o, w, blocked, spawn, healthy).now == s.now
  {
    hide ProcessesOk, GateOk, LedgerOk, Ground, ReleasedOk, UpdatesOk, TerminateAll;
    var pc := s.ledger.ops[o].pc;
    if !pc.RestoreAnnounced? && !pc.AwaitTerminations? { assert OwnStep(s, ResumeOp(s, o, w, blocked, spawn, healthy), o); }
  }

  lemma TimeOnlyPasses(s: State, e: Event)
    requires Inv(s) && Enabled(s, e)
    ensures s.now <= Step(s, e).now
  {
    hide ResumeOp, Inv, BeginStop;
    if e.Resume? { ResumeTakesNoTime(s, e.op, e.wait, e.blocked, e.spawn, e.healthy); }
    else if e.Stop? || e.Shutdown? || e.PrepareUpdate? { StopCallsTakeNoTime(s, e); }
  }

  lemma StopCallsTakeNoTime(s: State, e: Event)
    requires Inv(s) && Enabled(s, e) && (e.Stop? || e.Shutdown? || e.PrepareUpdate?)
    ensures Step(s, e).now == s.now
  {
    hide TerminateAll;
  }

  /** A step of the operation leaves it fewer, and any other event no more. */
  lemma StepsShrink(s: State, e: Event, o: nat)
    requires Inv(s) && Enabled(s, e) && o < |s.ledger.ops|
    ensures o < |Step(s, e).ledger.ops|
    ensures
      StepsLeft(Step(s, e).ledger.ops[o], Step(s, e).now) + (if On(e, o) then 1 else 0) <= StepsLeft(s.ledger.ops[o], s.now)
  {
    hide Inv, Step, Enabled, StepsFrom;
    if On(e, o) {
      OwnEventStep(s, e, o);
    } else {
      OthersUntouched(s, e, o);
      TimeOnlyPasses(s, e);
      LaterIsFewer(s.ledger.ops[o].pc, s.now, Step(s, e).now);
    }
  }

  // ---------------------------------------------------------------- whole runs

  /** The events of a run that are steps of operation `o`. */
  function StepsOf(es: seq<Event>, o: nat): nat {
    if es == [] then 0 else StepsOf(es[..|es| - 1], o) + if On(es[|es| - 1], o) then 1 else 0
  }

  /** A new operation is at the beginning of its body. */
  predicate Fresh(op: Op) {
    match op.slot
    case StartSlot => op.pc.StartupAnnounced?
    case StopSlot => op.pc.AwaitTerminations?
    case RestoreSlot => op.pc.RestoreAnnounced?
  }

  lemma FreshHasMaxSteps(op: Op, now: nat)
    requires Fresh(op)
    ensures StepsLeft(op, now) <= MaxSteps(op.slot)
  {
    assert PollsIn(READINESS_MS) == 80;
  }

  lemma StopIsFresh(s: State, i: nat)
    requires ProcessesOk(s.procs) && LedgerOk(s.ledger)
    ensures
      var t := EnsureStopped(s).0;
      |s.ledger.ops| <= i < |t.ledger.ops| ==> Fresh(t.ledger.ops[i])
  {
    hide BeginStop;
    if s.ledger.stopping.None? {
      BeginStopParts(s);
      assert OpFits(BeginStop(s).ledger, |s.ledger.ops|);
    }
  }

  /** Whatever an event adds to the operations is at the beginning of its body. */
  lemma NewOpsAreFresh(s: State, e: Event, i: nat)
    requires Inv(s) && Enabled(s, e) && |s.ledger.ops| <= i < |Step(s, e).ledger.ops|
    ensures Fresh(Step(s, e).ledger.ops[i])
  {
    hide Ground, ReleasedOk, UpdatesOk, GateOk, ProcessesOk, LedgerOk, EnsureStopped, Fresh, Exit, ResumeTermination, SettleTermination;
    match e
    case Start(blocked) => AdmittedIsFresh(s, e, i);
    case RestoreOffline(blocked) => AdmittedIsFresh(s, e, i);
    case Stop => StopIsFresh(s.(gate := Invalidate(s.gate), timer := false), i);
    case Shutdown => StopIsFresh(s.(gate := Invalidate(s.gate.(closing := true)), timer := false), i);
    case PrepareUpdate(_) => StopIsFresh(s.(gate := Invalidate(s.gate.(closing := true)), timer := false), i);
    case Resume(o, w, blocked, spawn, healthy) => ResumedIsFresh(s, o, w, blocked, spawn, healthy, i);
    case _ =>
  }

  lemma AdmittedIsFresh(s: State, e: Event, i: nat)
    requires Enabled(s, e) && (e.Start? || e.RestoreOffline?) && |s.ledger.ops| <= i < |Step(s, e).ledger.ops|
    ensures Fresh(Step(s, e).ledger.ops[i])
  {
  }

  lemma ResumedIsFresh(s: State, o: nat, w: WaitResult, blocked: bool, spawn: Spawn, healthy: bool, i: nat)
    requires Inv(s) && o < |s.ledger.ops| && CanResume(s, o, w)
    requires |s.ledger.ops| <= i < |ResumeOp(s, o, w, blocked, spawn, healthy).ledger.ops|
    ensures Fresh(ResumeOp(s, o, w, blocked, spawn, healthy).ledger.ops[i])
  {
    hide Inv, EnsureStopped, Fresh, ResumeOp;
    if s.ledger.ops[o].pc.RestoreAnnounced? { RestoreAddsFresh(s, o, w, blocked, spawn, healthy, i); }
    else { ResumeAddsNone(s, o, w, blocked, spawn, healthy); }
  }

  lemma RestoreAddsFresh(s: State, o: nat, w: WaitResult, blocked: bool, spawn: Spawn, healthy: bool, i: nat)
    requires Inv(s) && o < |s.ledger.ops| && CanResume(s, o, w) && s.ledger.ops[o].pc.RestoreAnnounced?
    requires |s.ledger.ops| <= i < |ResumeOp(s, o, w, blocked, spawn, healthy).ledger.ops|
    ensures Fresh(ResumeOp(s, o, w, blocked, spawn, healthy).ledger.ops[i])
  {
    hide Ground, ReleasedOk, UpdatesOk, GateOk, EnsureStopped, Fresh;
    StopIsFresh(s, i);
  }

  lemma ResumeAddsNone(s: State, o: nat, w: WaitResult, blocked: bool, spawn: Spawn, healthy: bool)
    requires o < |s.ledger.ops| && CanResume(s, o, w) && !s.ledger.ops[o].pc.RestoreAnnounced?
    ensures |ResumeOp(s, o, w, blocked, spawn, healthy).ledger.ops| == |s.ledger.ops|
  {
    hide OpCurrent;
    if !s.ledger.ops[o].pc.AwaitTerminations? { assert OwnStep(s, ResumeOp(s, o, w, blocked, spawn, healthy), o); }
  }

  /** The steps an operation has taken and those it has left are never more than it may take. */
  predicate WithinBounds(s: State, taken: nat, o: nat) {
    if o < |s.ledger.ops| then taken + StepsLeft(s.ledger.ops[o], s.now) <= MaxSteps(s.ledger.ops[o].slot) else taken == 0
  }

  lemma BoundsStep(s: State, e: Event, taken: nat, o: nat)
    requires Inv(s) && Enabled(s, e) && WithinBounds(s, taken, o)
    ensures WithinBounds(Step(s, e), taken + (if On(e, o) then 1 else 0), o)
  {
    hide Inv, Step, Fresh, StepsLeft, MaxSteps;
    var t := Step(s, e);
    if o < |s.ledger.ops| {
      StepsShrink(s, e, o);
      NothingIsUndone(s, e);
      assert OpKept(s.ledger.ops[o], t.ledger.ops[o]);
    } else {
      assert !On(e, o);
      if o < |t.ledger.ops| {
        NewOpsAreFresh(s, e, o);
        FreshHasMaxSteps(t.ledger.ops[o], t.now);
      }
    }
  }

  /**
   * In no run does a startup take more than 168 steps of its own until its promise has
   * settled, a stop more than 4, and a restore, with the startup behind it, more than 172.
   */
  lemma {:induction false} OperationsSettleInSteps(tr: seq<State>, es: seq<Event>, n: nat, o: nat)
    requires IsRun(tr, es) && n < |tr|
    ensures WithinBounds(tr[n], StepsOf(es[..n], o), o)
  {
    hide Step, Enabled, Inv, WithinBounds;
    if n == 0 {
      NothingBegun(o);
    } else {
      OperationsSettleInSteps(tr, es, n - 1, o);
      RunStep(tr, es, n - 1);
      BoundsStep(tr[n - 1], es[n - 1], StepsOf(es[..n - 1], o), o);
      assert es[..n][..n - 1] == es[..n - 1];
    }
  }

  lemma NothingBegun(o: nat)
    ensures WithinBounds(INITIAL, 0, o)
  {
  }

  // ---------------------------------------------------------------- terminations

  function TermStepsLeft(term: Term): nat {
    match term.phase
    case SoftWait(_) => 3
    case HardWait(_) => 2
    case TermFinished(_) => 1
    case TermSettled(_) => 0
  }

  /** The terminations that were there are as they were, and a new one is at its first wait. */
  predicate TermsKept(p: Processes, q: Processes, t: nat) {
    if t < |p.terms| then t < |q.terms| && q.terms[t] == p.terms[t]
    else t < |q.terms| ==> q.terms[t].phase.SoftWait?
  }

  lemma TerminateKeepsTerms(p: Processes, c: nat, now: nat, t: nat)
    requires c < |p.children|
    ensures TermsKept(p, Terminate(p, c, now).0, t)
  {
  }

  lemma StopKeepsTerms(s: State, t: nat)
    requires ProcessesOk(s.procs)
    ensures TermsKept(s.procs, EnsureStopped(s).0.procs, t)
  {
    if s.ledger.stopping.None? {
      TerminateAllOwned(s.procs, s.now);
      if s.procs.owned != [] { TerminateKeepsTerms(s.procs, s.procs.owned[0], s.now, t); }
    }
  }

  lemma RestoreProcesses(s: State, o: nat, w: WaitResult, blocked: bool, spawn: Spawn, healthy: bool)
    requires o < |s.ledger.ops| && CanResume(s, o, w) && s.ledger.ops[o].pc.RestoreAnnounced?
    ensures ResumeOp(s, o, w, blocked, spawn, healthy).procs == EnsureStopped(s).0.procs
  {
    hide EnsureStopped;
  }

  lemma ResumeKeepsTerms(s: State, o: nat, w: WaitResult, blocked: bool, spawn: Spawn, healthy: bool, t: nat)
    requires Inv(s) && o < |s.ledger.ops| && CanResume(s, o, w)
    ensures TermsKept(s.procs, ResumeOp(s, o, w, blocked, spawn, healthy).procs, t)
  {
    hide Ground, ReleasedOk, UpdatesOk, GateOk, LedgerOk, OpCurrent, ResumeOp, Terminate;
    var pc := s.ledger.ops[o].pc;
    if pc.RestoreAnnounced? { StopKeepsTerms(s, t); RestoreProcesses(s, o, w, blocked, spawn, healthy); }
    else if !Launching(pc) {
      OtherSitesLaunchNothing(s, o, w, blocked, spawn, healthy);
      if pc.AwaitHealth? || pc.AwaitRetry? { TerminateKeepsTerms(s.procs, pc.child, s.now, t); }
    }
    else {
      LaunchSitesLaunchOne(s, o, w, blocked, spawn, healthy);
      if pc.AwaitMigration? { TerminateKeepsTerms(s.procs, pc.child, s.now, t); }
    }
  }

  lemma EventKeepsTerms(s: State, e: Event, t: nat)
    requires Inv(s) && Enabled(s, e) && !OnTerm(e, t)
    ensures TermsKept(s.procs, Step(s, e).procs, t)
  {
    hide Ground, ReleasedOk, UpdatesOk, GateOk, LedgerOk, ResumeOp, Without, EnsureStopped;
    match e
    case Stop => StopKeepsTerms(s.(gate := Invalidate(s.gate), timer := false), t);
    case Shutdown => StopKeepsTerms(s.(gate := Invalidate(s.gate.(closing := true)), timer := false), t);
    case PrepareUpdate(_) => StopKeepsTerms(s.(gate := Invalidate(s.gate.(closing := true)), timer := false), t);
    case Resume(o, w, blocked, spawn, healthy) => ResumeKeepsTerms(s, o, w, blocked, spawn, healthy, t);
    case _ =>
  }

  lemma TermEventStep(s: State, e: Event, t: nat)
    requires Enabled(s, e) && OnTerm(e, t)
    ensures t < |s.procs.terms| && t < |Step(s, e).procs.terms|
    ensures TermStepsLeft(Step(s, e).procs.terms[t]) < TermStepsLeft(s.procs.terms[t])
  {
  }

  function TermStepsOf(es: seq<Event>, t: nat): nat {
    if es == [] then 0 else TermStepsOf(es[..|es| - 1], t) + if OnTerm(es[|es| - 1], t) then 1 else 0
  }

  /** No termination takes more than three steps: two waits at most, and its settling. */
  lemma {:induction false} TerminationsSettleInSteps(tr: seq<State>, es: seq<Event>, n: nat, t: nat)
    requires IsRun(tr, es) && n < |tr|
    ensures
      var terms := tr[n].procs.terms;
      TermStepsOf(es[..n], t) + (if t < |terms| then TermStepsLeft(terms[t]) else 3) <= 3
  {
    hide Step, Enabled, Inv, OnTerm, TermStepsLeft;
    if n > 0 {
      TerminationsSettleInSteps(tr, es, n - 1, t);
      RunStep(tr, es, n - 1);
      assert es[..n][..n - 1] == es[..n - 1];
      if OnTerm(es[n - 1], t) { TermEventStep(tr[n - 1], es[n - 1], t); }
      else { EventKeepsTerms(tr[n - 1], es[n - 1], t); SoftWaitHasThree(tr[n].procs, t); }
    }
  }

  lemma SoftWaitHasThree(p: Processes, t: nat)
    ensures t < |p.terms| && p.terms[t].phase.SoftWait? ==> TermStepsLeft(p.terms[t]) == 3
  {
  }
}
