/**
 * Which event may do what, over whole runs: which child is launched behind what, what a
 * failed migration comes to, when ready is reported, when a recovery is required, how a
 * termination escalates, and what a stop and an update need to resolve.
 */
module LifecycleLaws {
  import opened Prelude
  import opened Lifecycle
  import opened LifecycleInvariant
  import opened LifecycleSafety
  import opened LifecycleProgress
  import opened LifecycleSteps

  // ---------------------------------------------------------------- launches

  /** A migration that is awaited is the operation's own. */
  predicate OwnMigration(s: State, o: nat)
    requires o < |s.ledger.ops|
  {
    var op := s.ledger.ops[o];
    op.pc.AwaitMigration? ==>
      && op.pc.child < |s.procs.children| && s.procs.children[op.pc.child].kind == Migration
      && s.procs.children[op.pc.child].generation == op.generation
  }

  lemma StartupOwnsMigration(s: State, o: nat, blocked: bool, spawn: Spawn)
    requires o < |s.ledger.ops| && s.ledger.ops[o].phase.Running? && s.ledger.ops[o].pc.StartupAnnounced?
    ensures OwnMigration(ResumeStartup(s, o, blocked, spawn), o)
  {
    hide OpCurrent;
  }

  /** Only the beginning of a startup leads to awaiting a migration. */
  predicate AwaitsNone(s: State, t: State, o: nat)
    requires o < |s.ledger.ops|
  {
    o < |t.ledger.ops| && (t.ledger.ops[o].pc.AwaitMigration? ==> t.ledger.ops[o].pc == s.ledger.ops[o].pc)
  }

  lemma MigrationAwaitsNoMigration(s: State, o: nat, w: WaitResult, blocked: bool, spawn: Spawn)
    requires o < |s.ledger.ops| && s.ledger.ops[o].phase.Running?
    requires s.ledger.ops[o].pc.AwaitMigration? && s.ledger.ops[o].pc.child < |s.procs.children|
    ensures AwaitsNone(s, ResumeMigration(s, o, w, blocked, spawn), o)
  {
    hide OpCurrent, Terminate, Launched;
  }

  lemma HealthAwaitsNoMigration(s: State, o: nat, healthy: bool)
    requires o < |s.ledger.ops| && s.ledger.ops[o].phase.Running?
    requires s.ledger.ops[o].pc.AwaitHealth? && s.ledger.ops[o].pc.child < |s.procs.children|
    ensures AwaitsNone(s, ResumeHealth(s, o, healthy), o)
  {
    hide OpCurrent, Terminate, Launched;
  }

  lemma RetryAwaitsNoMigration(s: State, o: nat, w: WaitResult)
    requires o < |s.ledger.ops| && s.ledger.ops[o].phase.Running?
    requires s.ledger.ops[o].pc.AwaitRetry? && s.ledger.ops[o].pc.child < |s.procs.children|
    ensures AwaitsNone(s, ResumeRetry(s, o, w), o)
  {
    hide OpCurrent, Terminate, Launched;
  }

  lemma ApplyingAwaitsNoMigration(s: State, o: nat, blocked: bool, spawn: Spawn)
    requires o < |s.ledger.ops| && s.ledger.ops[o].phase.Running?
    requires s.ledger.ops[o].pc.RestoreApplying?
    ensures AwaitsNone(s, ResumeApplying(s, o, blocked, spawn), o)
  {
    hide OpCurrent, Terminate, Launched;
  }

  lemma RestoredAwaitsNoMigration(s: State, o: nat, w: WaitResult, blocked: bool)
    requires o < |s.ledger.ops| && s.ledger.ops[o].phase.Running?
    requires s.ledger.ops[o].pc.AwaitRestore? && s.ledger.ops[o].pc.child < |s.procs.children|
    ensures AwaitsNone(s, ResumeRestored(s, o, w, blocked), o)
  {
    hide OpCurrent, Terminate, Launched;
  }

  lemma RestoreAwaitsNoMigration(s: State, o: nat)
    requires Inv(s) && o < |s.ledger.ops| && s.ledger.ops[o].pc.RestoreAnnounced?
    ensures AwaitsNone(s, ResumeRestore(s, o), o)
  {
    hide Ground, ReleasedOk, UpdatesOk, GateOk, EnsureStopped;
    StopTouchesNone(s, o);
  }

  lemma OthersAwaitNoMigration(s: State, o: nat, w: WaitResult, blocked: bool, spawn: Spawn, healthy: bool)
    requires o < |s.ledger.ops| && CanResume(s, o, w)
    requires
      var pc := s.ledger.ops[o].pc;
      pc.AwaitMigrationStop? || pc.CatchPending? || pc.ReadyAnnounced? || pc.AwaitServerStop? || pc.AwaitStop?
      || pc.RestoreRefused? || pc.AwaitTerminations?
    ensures AwaitsNone(s, ResumeOp(s, o, w, blocked, spawn, healthy), o)
  {
    hide OpCurrent;
  }

  lemma AwaitsMigrationNewly(s: State, o: nat, w: WaitResult, blocked: bool, spawn: Spawn, healthy: bool)
    requires Inv(s) && o < |s.ledger.ops| && CanResume(s, o, w) && !s.ledger.ops[o].pc.StartupAnnounced?
    ensures AwaitsNone(s, ResumeOp(s, o, w, blocked, spawn, healthy), o)
  {
    hide Inv, OpCurrent, AwaitsNone;
    hide ResumeMigration, ResumeHealth, ResumeRetry, ResumeRestore, ResumeApplying, ResumeRestored;
    match s.ledger.ops[o].pc
    case AwaitMigration(_, _) => MigrationAwaitsNoMigration(s, o, w, blocked, spawn);
    case AwaitHealth(_, _) => HealthAwaitsNoMigration(s, o, healthy);
    case AwaitRetry(_, _, _) => RetryAwaitsNoMigration(s, o, w);
    case RestoreAnnounced => RestoreAwaitsNoMigration(s, o);
    case RestoreApplying => ApplyingAwaitsNoMigration(s, o, blocked, spawn);
    case AwaitRestore(_, _) => RestoredAwaitsNoMigration(s, o, w, blocked);
    case _ => OthersAwaitNoMigration(s, o, w, blocked, spawn, healthy);
  }

  lemma OwnMigrationStep(s: State, e: Event, o: nat)
    requires Inv(s) && Enabled(s, e) && o < |s.ledger.ops| && OwnMigration(s, o)
    ensures o < |Step(s, e).ledger.ops| && OwnMigration(Step(s, e), o)
  {
    hide Inv, Step, Enabled;
    ExitsAreFinal(s, e);
    NothingIsUndone(s, e);
    var t := Step(s, e);
    assert OpKept(s.ledger.ops[o], t.ledger.ops[o]);
    if !On(e, o) { OthersUntouched(s, e, o); }
    else { OwnMigrationOwnStep(s, e, o); }
  }

  lemma OwnMigrationOwnStep(s: State, e: Event, o: nat)
    requires Inv(s) && Enabled(s, e) && o < |s.ledger.ops| && OwnMigration(s, o) && On(e, o)
    requires ChildrenGrow(s.procs, Step(s, e).procs) && o < |Step(s, e).ledger.ops|
    requires Step(s, e).ledger.ops[o].generation == s.ledger.ops[o].generation
    ensures OwnMigration(Step(s, e), o)
  {
    hide Inv, ResumeOp, CanResume;
    if e.Resume? {
      if s.ledger.ops[o].pc.StartupAnnounced? { ResumesAsStartup(s, e, o); StartupOwnsMigration(s, o, e.blocked, e.spawn); }
      else { AwaitsMigrationNewly(s, o, e.wait, e.blocked, e.spawn, e.healthy); }
    }
  }

  lemma ResumesAsStartup(s: State, e: Event, o: nat)
    requires Enabled(s, e) && e.Resume? && e.op == o && o < |s.ledger.ops| && s.ledger.ops[o].pc.StartupAnnounced?
    ensures s.ledger.ops[o].phase.Running? && Step(s, e) == ResumeStartup(s, o, e.blocked, e.spawn)
  {
    hide ResumeStartup;
  }

  lemma {:induction false} RunOwnsMigrations(tr: seq<State>, es: seq<Event>, i: nat, o: nat)
    requires IsRun(tr, es) && i < |tr| && o < |tr[i].ledger.ops|
    ensures OwnMigration(tr[i], o)
  {
    hide Inv, Step, Enabled, OwnMigration, IsRun;
    RunBegins(tr, es);
    if i > 0 {
      RunStep(tr, es, i - 1);
      if o < |tr[i - 1].ledger.ops| {
        RunOwnsMigrations(tr, es, i - 1, o);
        OwnMigrationStep(tr[i - 1], es[i - 1], o);
      } else {
        NewOpsAreFresh(tr[i - 1], es[i - 1], o);
        FreshOwnsNothing(tr[i], o);
      }
    }
  }

  lemma RunBegins(tr: seq<State>, es: seq<Event>)
    requires IsRun(tr, es)
    ensures |tr| == |es| + 1 && tr[0].ledger.ops == []
  {
  }

  lemma FreshOwnsNothing(s: State, o: nat)
    requires o < |s.ledger.ops| && Fresh(s.ledger.ops[o])
    ensures OwnMigration(s, o)
  {
  }

  /** What launches a child of each kind, what it has awaited, and what it awaits from then on. */
  ghost predicate LaunchedInOrder(s: State, e: Event, t: State)
    requires |t.procs.children| == |s.procs.children| + 1
  {
    var c := |s.procs.children|;
    && e.Resume? && e.op < |s.ledger.ops| && e.op < |t.ledger.ops| && !e.blocked && e.spawn.Spawned?
    && var before, after := s.ledger.ops[e.op], t.ledger.ops[e.op];
       && before.phase.Running? && t.procs.children[c].generation == before.generation
       && match t.procs.children[c].kind
          case Migration => before.pc.StartupAnnounced? && after.pc == AwaitMigration(c, s.now + 60_000)
          case Serve =>
            && before.pc.AwaitMigration? && e.wait == Exited(Some(0)) && after.pc == AwaitHealth(c, s.now + 20_000)
            && before.pc.child < c && s.procs.children[before.pc.child].kind == Migration
            && s.procs.children[before.pc.child].generation == before.generation
            && s.procs.children[before.pc.child].result == Some(Some(0))
          case Restore => before.pc.RestoreApplying? && after.pc == AwaitRestore(c, s.now + 120_000)
  }

  lemma StartupLaunches(s: State, o: nat, blocked: bool, spawn: Spawn)
    requires o < |s.ledger.ops| && s.ledger.ops[o].phase.Running? && s.ledger.ops[o].pc.StartupAnnounced?
    ensures
      var t, c := ResumeStartup(s, o, blocked, spawn), |s.procs.children|;
      |t.procs.children| == c + 1 ==>
        !blocked && spawn.Spawned? && t.procs.children[c].kind == Migration && t.ledger.ops[o].pc == AwaitMigration(c, s.now + 60_000)
  {
    hide OpCurrent;
  }

  lemma MigrationLaunches(s: State, o: nat, w: WaitResult, blocked: bool, spawn: Spawn)
    requires o < |s.ledger.ops| && s.ledger.ops[o].phase.Running? && s.ledger.ops[o].pc.AwaitMigration?
    requires s.ledger.ops[o].pc.child < |s.procs.children|
    ensures
      var t, c := ResumeMigration(s, o, w, blocked, spawn), |s.procs.children|;
      |t.procs.children| == c + 1 ==>
        && !blocked && spawn.Spawned? && w == Exited(Some(0))
        && t.procs.children[c].kind == Serve && t.ledger.ops[o].pc == AwaitHealth(c, s.now + 20_000)
  {
    hide OpCurrent, Terminate;
    TerminateLaunchesNothing(s.procs, s.ledger.ops[o].pc.child, s.now);
  }

  lemma ApplyingLaunches(s: State, o: nat, blocked: bool, spawn: Spawn)
    requires o < |s.ledger.ops| && s.ledger.ops[o].phase.Running? && s.ledger.ops[o].pc.RestoreApplying?
    ensures
      var t, c := ResumeApplying(s, o, blocked, spawn), |s.procs.children|;
      |t.procs.children| == c + 1 ==>
        !blocked && spawn.Spawned? && t.procs.children[c].kind == Restore && t.ledger.ops[o].pc == AwaitRestore(c, s.now + 120_000)
  {
    hide OpCurrent;
  }

  lemma ResumeLaunchesInOrder(s: State, e: Event)
    requires Inv(s) && Enabled(s, e) && e.Resume? && OwnMigration(s, e.op)
    requires |Step(s, e).procs.children| == |s.procs.children| + 1
    requires e.op < |Step(s, e).ledger.ops| && Step(s, e).procs.children[|s.procs.children|].generation == s.ledger.ops[e.op].generation
    ensures LaunchedInOrder(s, e, Step(s, e))
  {
    hide Inv, ResumeStartup, ResumeMigration, ResumeApplying, Terminate, Launched, OpCurrent;
    var o := e.op;
    var pc := s.ledger.ops[o].pc;
    if pc.RestoreAnnounced? { RestoreLaunchesNothing(s, o, e.wait, e.blocked, e.spawn, e.healthy); }
    else if !Launching(pc) {
      OtherSitesLaunchNothing(s, o, e.wait, e.blocked, e.spawn, e.healthy);
      if pc.AwaitHealth? || pc.AwaitRetry? { TerminateLaunchesNothing(s.procs, pc.child, s.now); }
    }
    else if pc.StartupAnnounced? { StartupLaunches(s, o, e.blocked, e.spawn); }
    else if pc.AwaitMigration? { MigrationLaunches(s, o, e.wait, e.blocked, e.spawn); }
    else { ApplyingLaunches(s, o, e.blocked, e.spawn); }
  }

  /**
   * In every run: a migration is launched by an announced startup, a server behind a migration of
   * the same generation that exited with zero, a restore by a restore whose stop has resolved;
   * never while admission is blocked; and each is then awaited for its own time.
   */
  lemma EveryLaunchIsInOrder(tr: seq<State>, es: seq<Event>, j: nat)
    requires IsRun(tr, es) && j < |es| && LaunchesAt(tr, j)
    ensures |tr[j + 1].procs.children| == |tr[j].procs.children| + 1 && LaunchedInOrder(tr[j], es[j], tr[j + 1])
  {
    hide Inv, Step, Enabled, LaunchedInOrder, IsRun, OwnMigration;
    RunBegins(tr, es);
    RunStep(tr, es, j);
    EveryLaunchIsExclusive(tr, es, j);
    LaunchesAreExclusive(tr[j], es[j]);
    RunGrows(tr, es, j);
    RunOwnsMigrations(tr, es, j, es[j].op);
    ResumeLaunchesInOrder(tr[j], es[j]);
  }

  // ---------------------------------------------------------------- a failed migration

  /** The startup is past its migration without a server. */
  predicate PastMigration(op: Op) { !op.phase.Running? || op.pc.AwaitMigrationStop? }

  /** Event `e` brings startup `o` the end of its migration, and not an exit with zero. */
  predicate MigrationFails(s: State, e: Event, o: nat) {
    && e.Resume? && e.op == o && o < |s.ledger.ops| && s.ledger.ops[o].phase.Running?
    && s.ledger.ops[o].pc.AwaitMigration? && e.wait != Exited(Some(0))
  }

  lemma FailedMigrationStep(s: State, e: Event, o: nat)
    requires Enabled(s, e) && MigrationFails(s, e, o)
    ensures
      var t := Step(s, e);
      && o < |t.ledger.ops|
      && if OpCurrent(s, o) then t.ledger.ops[o].phase.Running? && t.ledger.ops[o].pc.AwaitMigrationStop?
         else t.ledger.ops[o].phase == Finished(Resolved)
  {
    hide OpCurrent, Terminate;
  }

  lemma PastMigrationStep(s: State, e: Event, o: nat)
    requires Inv(s) && Enabled(s, e) && o < |s.ledger.ops| && PastMigration(s.ledger.ops[o])
    ensures
      var t := Step(s, e);
      && o < |t.ledger.ops| && PastMigration(t.ledger.ops[o])
      && (s.ledger.ops[o].phase.Running? && !t.ledger.ops[o].phase.Running? && OpCurrent(s, o) ==>
            t.ledger.ops[o].phase.outcome.Rejected?)
  {
    hide Inv, Step, Enabled, OpCurrent;
    if On(e, o) { PastMigrationOwnStep(s, e, o); } else { OthersUntouched(s, e, o); }
  }

  lemma PastMigrationOwnStep(s: State, e: Event, o: nat)
    requires Enabled(s, e) && o < |s.ledger.ops| && PastMigration(s.ledger.ops[o]) && On(e, o)
    ensures
      var t := Step(s, e);
      && o < |t.ledger.ops| && PastMigration(t.ledger.ops[o])
      && (s.ledger.ops[o].phase.Running? && OpCurrent(s, o) ==> !t.ledger.ops[o].phase.Running? && t.ledger.ops[o].phase.outcome.Rejected?)
  {
    hide OpCurrent;
  }

  lemma {:induction false} PastMigrationStays(tr: seq<State>, es: seq<Event>, i: nat, j: nat, o: nat)
    requires IsRun(tr, es) && i <= j < |tr| && o < |tr[i].ledger.ops| && PastMigration(tr[i].ledger.ops[o])
    ensures o < |tr[j].ledger.ops| && PastMigration(tr[j].ledger.ops[o])
  {
    hide Inv, Step, Enabled, IsRun, PastMigration;
    RunBegins(tr, es);
    if i < j {
      PastMigrationStays(tr, es, i, j - 1, o);
      RunStep(tr, es, j - 1);
      PastMigrationStep(tr[j - 1], es[j - 1], o);
    }
  }

  /**
   * A startup whose migration ended in any other way than an exit with zero launches nothing
   * any more, and is rejected if nobody has invalidated it by the time it ends.
   */
  lemma FailedMigrationEndsStartup(tr: seq<State>, es: seq<Event>, i: nat, j: nat, o: nat)
    requires IsRun(tr, es) && i < j < |es| && MigrationFails(tr[i], es[i], o)
    ensures LaunchesAt(tr, j) ==> es[j].Resume? && es[j].op != o
    ensures o < |tr[j].ledger.ops| && o < |tr[j + 1].ledger.ops|
    ensures
      tr[j].ledger.ops[o].phase.Running? && !tr[j + 1].ledger.ops[o].phase.Running? && OpCurrent(tr[j], o) ==>
        tr[j + 1].ledger.ops[o].phase.outcome.Rejected?
  {
    hide Inv, Step, Enabled, IsRun, OpCurrent, LaunchedInOrder;
    RunBegins(tr, es);
    RunStep(tr, es, i);
    RunStep(tr, es, j);
    FailedMigrationStep(tr[i], es[i], o);
    PastMigrationStays(tr, es, i + 1, j, o);
    PastMigrationStep(tr[j], es[j], o);
    if LaunchesAt(tr, j) {
      EveryLaunchIsInOrder(tr, es, j);
      LaunchesFromSite(tr[j], es[j], tr[j + 1]);
    }
  }

  lemma LaunchesFromSite(s: State, e: Event, t: State)
    requires |t.procs.children| == |s.procs.children| + 1 && LaunchedInOrder(s, e, t)
    ensures e.Resume? && e.op < |s.ledger.ops| && s.ledger.ops[e.op].phase.Running? && Launching(s.ledger.ops[e.op].pc)
  {
  }

  // ---------------------------------------------------------------- ready

  /** A healthy answer, in time, to the operation that still owns the live server. */
  predicate ReportsReady(s: State, e: Event) {
    && e.Resume? && e.op < |s.ledger.ops| && s.ledger.ops[e.op].phase.Running? && s.ledger.ops[e.op].pc.AwaitHealth?
    && OpCurrent(s, e.op) && e.healthy && s.now < s.ledger.ops[e.op].pc.deadline
    && var c := s.ledger.ops[e.op].pc.child;
       c < |s.procs.children| && s.procs.children[c].result.None? && s.procs.serving == Some(c)
  }

  lemma HealthReports(s: State, e: Event)
    requires Enabled(s, e) && e.Resume? && s.ledger.ops[e.op].pc.AwaitHealth?
    ensures Step(s, e).status.state == Ready && s.status.state != Ready ==> ReportsReady(s, e)
    ensures ReportsReady(s, e) ==> Step(s, e).status == Status(Ready, Connected)
  {
    hide OpCurrent, Terminate;
  }

  lemma OtherResumesReportNothing(s: State, e: Event)
    requires Inv(s) && Enabled(s, e) && e.Resume? && !s.ledger.ops[e.op].pc.AwaitHealth?
    ensures Step(s, e).status.state == Ready ==> s.status.state == Ready
  {
    hide Ground, ReleasedOk, UpdatesOk, GateOk, OpCurrent, TerminateAll;
    var o := e.op;
    if s.ledger.ops[o].pc.RestoreAnnounced? { BeginStopReports(s); }
    else if !s.ledger.ops[o].pc.AwaitTerminations? {
      assert OwnStep(s, ResumeOp(s, o, e.wait, e.blocked, e.spawn, e.healthy), o);
    }
  }

  lemma BeginStopReports(s: State)
    requires Known(s.procs)
    ensures BeginStop(s).status == s.status || BeginStop(s).status.state == Degraded
  {
    hide TerminateAll;
  }

  lemma OtherEventsReportNothing(s: State, e: Event)
    requires Inv(s) && Enabled(s, e) && !e.Resume?
    ensures Step(s, e).status.state == Ready ==> s.status.state == Ready
  {
    hide Ground, ReleasedOk, UpdatesOk, GateOk, TerminateAll, Exit, ResumeTermination, SettleTermination;
  }

  /** In every run: ready is reported exactly on a healthy answer, before the deadline, for the current live server. */
  lemma ReadyExactly(tr: seq<State>, es: seq<Event>, j: nat)
    requires IsRun(tr, es) && j < |es|
    ensures tr[j].status.state != Ready && tr[j + 1].status.state == Ready ==> ReportsReady(tr[j], es[j])
    ensures ReportsReady(tr[j], es[j]) ==> tr[j + 1].status == Status(Ready, Connected)
  {
    hide Inv, Step, Enabled, IsRun, OpCurrent;
    RunBegins(tr, es);
    RunStep(tr, es, j);
    var s, e := tr[j], es[j];
    if !e.Resume? { OtherEventsReportNothing(s, e); }
    else {
      NeedsItsOp(s, e);
      if s.ledger.ops[e.op].pc.AwaitHealth? { HealthReports(s, e); } else { OtherResumesReportNothing(s, e); }
    }
  }

  lemma NeedsItsOp(s: State, e: Event)
    requires e.Resume? && Enabled(s, e)
    ensures e.op < |s.ledger.ops| && s.ledger.ops[e.op].phase.Running?
  {
  }

  // ---------------------------------------------------------------- recovery

  /** A restore whose outcome is not known to be a success. */
  predicate RestoreIsUncertain(s: State, e: Event) {
    && e.Resume? && e.op < |s.ledger.ops| && s.ledger.ops[e.op].phase.Running?
    && match s.ledger.ops[e.op].pc
       case RestoreApplying => OpCurrent(s, e.op) && !e.blocked && e.spawn.SpawnThrows?
       case RestoreRefused => true
       case AwaitRestore(_, _) => e.wait != Exited(Some(0))
       case _ => false
  }

  lemma RestoresRecover(s: State, e: Event)
    requires Enabled(s, e) && e.Resume? && RestoreUnderWay(s.ledger.ops[e.op].pc)
    ensures Step(s, e).gate.recovery <==> s.gate.recovery || RestoreIsUncertain(s, e)
    ensures
      RestoreIsUncertain(s, e) ==>
        && e.op < |Step(s, e).ledger.ops| && Step(s, e).ledger.ops[e.op].phase.Finishing?
        && Step(s, e).ledger.ops[e.op].phase.outcome.Rejected? && Step(s, e).status.state == Degraded
  {
    hide OpCurrent, Launched;
  }

  lemma OtherResumesRecoverNothing(s: State, e: Event)
    requires Inv(s) && Enabled(s, e) && e.Resume? && !RestoreUnderWay(s.ledger.ops[e.op].pc)
    ensures Step(s, e).gate.recovery == s.gate.recovery
  {
    hide Ground, ReleasedOk, UpdatesOk, GateOk, OpCurrent, TerminateAll;
    var o := e.op;
    if s.ledger.ops[o].pc.RestoreAnnounced? { BeginStopGate(s); }
    else if !s.ledger.ops[o].pc.AwaitTerminations? {
      assert OwnStep(s, ResumeOp(s, o, e.wait, e.blocked, e.spawn, e.healthy), o);
    }
  }

  lemma BeginStopGate(s: State)
    requires Known(s.procs)
    ensures BeginStop(s).gate == s.gate
  {
    hide TerminateAll;
  }

  lemma StopRecoversNothing(s: State)
    requires Known(s.procs)
    ensures EnsureStopped(s).0.gate == s.gate
  {
    BeginStopGate(s);
    hide BeginStop;
  }

  lemma OtherEventsRecoverNothing(s: State, e: Event)
    requires Inv(s) && Enabled(s, e) && !e.Resume?
    ensures Step(s, e).gate.recovery == s.gate.recovery
  {
    if e.Stop? {
      hide ProcessesOk, GateOk, LedgerOk, Ground, ReleasedOk, UpdatesOk, EnsureStopped;
      StopRecoversNothing(s.(gate := Invalidate(s.gate), timer := false));
    } else if e.Shutdown? || e.PrepareUpdate? {
      hide ProcessesOk, GateOk, LedgerOk, Ground, ReleasedOk, UpdatesOk, EnsureStopped;
      StopRecoversNothing(s.(gate := Invalidate(s.gate.(closing := true)), timer := false));
    } else {
      hide Inv;
      QuietEventsRecoverNothing(s, e);
    }
  }

  lemma QuietEventsRecoverNothing(s: State, e: Event)
    requires Enabled(s, e) && !e.Resume? && !e.Stop? && !e.Shutdown? && !e.PrepareUpdate?
    ensures Step(s, e).gate.recovery == s.gate.recovery
  {
    hide Exit, Without, ResumeTermination, SettleTermination;
  }

  /**
   * In every run: a recovery becomes required exactly when a restore child could not be started,
   * its admission was refused, or its end was anything but an exit with zero; that restore is
   * rejected.
   */
  lemma RecoveryExactly(tr: seq<State>, es: seq<Event>, j: nat)
    requires IsRun(tr, es) && j < |es|
    ensures tr[j + 1].gate.recovery <==> tr[j].gate.recovery || RestoreIsUncertain(tr[j], es[j])
    ensures
      RestoreIsUncertain(tr[j], es[j]) ==>
        && es[j].op < |tr[j + 1].ledger.ops| && tr[j + 1].ledger.ops[es[j].op].phase.Finishing?
        && tr[j + 1].ledger.ops[es[j].op].phase.outcome.Rejected? && tr[j + 1].status.state == Degraded
  {
    hide Inv, Step, Enabled, IsRun, OpCurrent;
    RunBegins(tr, es);
    RunStep(tr, es, j);
    var s, e := tr[j], es[j];
    if !e.Resume? { OtherEventsRecoverNothing(s, e); }
    else {
      NeedsItsOp(s, e);
      if RestoreUnderWay(s.ledger.ops[e.op].pc) { RestoresRecover(s, e); } else { OtherResumesRecoverNothing(s, e); }
    }
  }

  // ---------------------------------------------------------------- reports

  /** A body that has just failed behind its last update has reported just that. */
  predicate Reports(s: State, t: State, o: nat)
    requires o < |t.ledger.ops|
  {
    var fails := t.ledger.ops[o].phase.Finishing? && t.ledger.ops[o].phase.outcome.Rejected?
                 && (o >= |s.ledger.ops| || s.ledger.ops[o].phase.Running?);
    fails ==> t.status == Status(Degraded, t.ledger.ops[o].phase.outcome.note)
  }

  lemma BeginningReports(s: State, o: nat, blocked: bool, spawn: Spawn)
    requires o < |s.ledger.ops| && s.ledger.ops[o].phase.Running? && s.ledger.ops[o].pc.StartupAnnounced?
    ensures Reports(s, ResumeStartup(s, o, blocked, spawn), o)
  {
    hide OpCurrent, Launched;
  }

  lemma MigrationReports(s: State, o: nat, w: WaitResult, blocked: bool, spawn: Spawn)
    requires o < |s.ledger.ops| && s.ledger.ops[o].phase.Running?
    requires s.ledger.ops[o].pc.AwaitMigration? && s.ledger.ops[o].pc.child < |s.procs.children|
    ensures Reports(s, ResumeMigration(s, o, w, blocked, spawn), o)
  {
    hide OpCurrent, Terminate, Launched;
  }

  lemma PollingReports(s: State, e: Event, o: nat)
    requires Enabled(s, e) && e.Resume? && e.op == o && o < |Step(s, e).ledger.ops|
    requires var pc := s.ledger.ops[o].pc; pc.AwaitHealth? || pc.AwaitRetry? || pc.ReadyAnnounced?
    ensures Reports(s, Step(s, e), o)
  {
    hide OpCurrent, Terminate, CanYield;
  }

  lemma CatchReports(s: State, e: Event, o: nat)
    requires Enabled(s, e) && e.Resume? && e.op == o && o < |Step(s, e).ledger.ops|
    requires
      var pc := s.ledger.ops[o].pc;
      pc.AwaitMigrationStop? || pc.CatchPending? || pc.AwaitServerStop? || pc.AwaitStop?
    ensures Reports(s, Step(s, e), o)
  {
    hide OpCurrent;
  }

  lemma StartupReports(s: State, e: Event, o: nat)
    requires Enabled(s, e) && e.Resume? && e.op == o && !s.ledger.ops[o].pc.RestoreAnnounced?
    requires !RestoreUnderWay(s.ledger.ops[o].pc) && !s.ledger.ops[o].pc.AwaitTerminations?
    requires o < |Step(s, e).ledger.ops|
    ensures Reports(s, Step(s, e), o)
  {
    var pc := s.ledger.ops[o].pc;
    if pc.StartupAnnounced? {
      ResumesAsStartup(s, e, o);
      BeginningReports(s, o, e.blocked, e.spawn);
    } else if pc.AwaitMigration? {
      hide ResumeMigration, Reports;
      MigrationReports(s, o, e.wait, e.blocked, e.spawn);
    } else if pc.AwaitHealth? || pc.AwaitRetry? || pc.ReadyAnnounced? {
      hide Step, Enabled, Reports;
      PollingReports(s, e, o);
    } else {
      hide Step, Enabled, Reports;
      CatchReports(s, e, o);
    }
  }

  lemma RestoreReports(s: State, e: Event, o: nat)
    requires Enabled(s, e) && e.Resume? && e.op == o && o < |s.ledger.ops|
    requires RestoreUnderWay(s.ledger.ops[o].pc) || s.ledger.ops[o].pc.AwaitTerminations?
    requires o < |Step(s, e).ledger.ops|
    ensures Reports(s, Step(s, e), o)
  {
    hide OpCurrent, Launched, SomeUnstopped;
  }

  lemma StopReports(s: State, o: nat)
    requires Known(s.procs) && o < |EnsureStopped(s).0.ledger.ops|
    ensures Reports(s, EnsureStopped(s).0, o)
  {
    hide TerminateAll;
  }

  lemma RestoreBeginsReporting(s: State, e: Event, o: nat)
    requires Inv(s) && Enabled(s, e) && e.Resume? && e.op < |s.ledger.ops| && s.ledger.ops[e.op].pc.RestoreAnnounced?
    requires o < |Step(s, e).ledger.ops|
    ensures Reports(s, Step(s, e), o)
  {
    hide Ground, ReleasedOk, UpdatesOk, GateOk, LedgerOk, EnsureStopped;
    StopTouchesNone(s, e.op);
    StopReports(s, o);
  }

  lemma EventReports(s: State, e: Event, o: nat)
    requires Inv(s) && Enabled(s, e) && !e.Resume? && o < |Step(s, e).ledger.ops|
    ensures Reports(s, Step(s, e), o)
  {
    if e.Stop? {
      hide Ground, ReleasedOk, UpdatesOk, GateOk, LedgerOk, EnsureStopped;
      StopReports(s.(gate := Invalidate(s.gate), timer := false), o);
    } else if e.Shutdown? {
      hide Ground, ReleasedOk, UpdatesOk, GateOk, LedgerOk, EnsureStopped;
      StopReports(s.(gate := Invalidate(s.gate.(closing := true)), timer := false), o);
    } else if e.PrepareUpdate? {
      hide Ground, ReleasedOk, UpdatesOk, GateOk, LedgerOk, EnsureStopped;
      if !e.blocked && !s.gate.recovery && s.ledger.restoring.None? {
        StopReports(s.(gate := Invalidate(s.gate.(closing := true)), timer := false), o);
      }
    } else {
      hide Inv;
      QuietEventReports(s, e, o);
    }
  }

  lemma QuietEventReports(s: State, e: Event, o: nat)
    requires Enabled(s, e) && !e.Resume? && !e.Stop? && !e.Shutdown? && !e.PrepareUpdate? && o < |Step(s, e).ledger.ops|
    ensures Reports(s, Step(s, e), o)
  {
    hide Exit, Without, ResumeTermination, SettleTermination;
  }

  /**
   * In every run: a startup, restore or stop whose body fails behind an update has published
   * exactly the reason it is rejected for, as a degraded status.
   */
  lemma FailuresAreReported(tr: seq<State>, es: seq<Event>, j: nat, o: nat)
    requires IsRun(tr, es) && j < |es| && o < |tr[j + 1].ledger.ops|
    requires tr[j + 1].ledger.ops[o].phase.Finishing? && tr[j + 1].ledger.ops[o].phase.outcome.Rejected?
    requires o >= |tr[j].ledger.ops| || tr[j].ledger.ops[o].phase.Running?
    ensures tr[j + 1].status == Status(Degraded, tr[j + 1].ledger.ops[o].phase.outcome.note)
  {
    hide Inv, Step, Enabled, IsRun;
    RunBegins(tr, es);
    RunStep(tr, es, j);
    var s, e := tr[j], es[j];
    if !e.Resume? { EventReports(s, e, o); }
    else {
      NeedsItsOp(s, e);
      if s.ledger.ops[e.op].pc.RestoreAnnounced? { RestoreBeginsReporting(s, e, o); }
      else {
        OnlyItsOpMoves(s, e, o);
        if RestoreUnderWay(s.ledger.ops[o].pc) || s.ledger.ops[o].pc.AwaitTerminations? { RestoreReports(s, e, o); }
        else { StartupReports(s, e, o); }
      }
    }
  }

  lemma OnlyItsOpMoves(s: State, e: Event, o: nat)
    requires Inv(s) && Enabled(s, e) && e.Resume? && e.op < |s.ledger.ops| && !s.ledger.ops[e.op].pc.RestoreAnnounced?
    requires o < |Step(s, e).ledger.ops| && (o < |s.ledger.ops| ==> s.ledger.ops[o].phase.Running?)
    requires Step(s, e).ledger.ops[o].phase.Finishing?
    ensures o == e.op
  {
    hide Inv, ResumeOp, CanResume;
    if s.ledger.ops[e.op].pc.AwaitTerminations? { StopResumesItself(s, e); }
    else { assert OwnStep(s, ResumeOp(s, e.op, e.wait, e.blocked, e.spawn, e.healthy), e.op) by { IsOwnStep(s, e); } }
  }

  lemma StopResumesItself(s: State, e: Event)
    requires Enabled(s, e) && e.Resume? && s.ledger.ops[e.op].pc.AwaitTerminations?
    ensures
      var t := Step(s, e);
      && |t.ledger.ops| == |s.ledger.ops|
      && forall k :: 0 <= k < |s.ledger.ops| && k != e.op ==> t.ledger.ops[k] == s.ledger.ops[k]
  {
  }

  lemma IsOwnStep(s: State, e: Event)
    requires Enabled(s, e) && e.Resume? && !s.ledger.ops[e.op].pc.AwaitTerminations? && !s.ledger.ops[e.op].pc.RestoreAnnounced?
    ensures OwnStep(s, ResumeOp(s, e.op, e.wait, e.blocked, e.spawn, e.healthy), e.op)
  {
    hide OpCurrent, OwnStep;
  }

  // ---------------------------------------------------------------- how startups and restores end

  predicate InStartup(pc: Pc) {
    || pc.StartupAnnounced? || pc.AwaitMigration? || pc.AwaitMigrationStop? || pc.CatchPending?
    || pc.AwaitHealth? || pc.AwaitRetry? || pc.ReadyAnnounced? || pc.AwaitServerStop?
  }

  /** How the body of startup `o` may end at event `e`. */
  predicate EndsStartup(s: State, e: Event, t: State, o: nat)
    requires o < |s.ledger.ops| && o < |t.ledger.ops| && e.Resume?
  {
    var pc, phase := s.ledger.ops[o].pc, t.ledger.ops[o].phase;
    && (phase == Finished(Resolved) <==>
          || !OpCurrent(s, o) || pc.ReadyAnnounced?
          || (pc.AwaitHealth? && e.healthy && !(Live(s, pc.child) && s.procs.serving == Some(pc.child))))
    && (phase == Finished(Resolved) || phase.Running? || (phase.Finishing? && phase.outcome.Rejected? && OpCurrent(s, o)))
  }

  lemma LaunchingStartupEnds(s: State, e: Event, o: nat)
    requires Enabled(s, e) && e.Resume? && e.op == o && o < |Step(s, e).ledger.ops|
    requires s.ledger.ops[o].pc.StartupAnnounced? || s.ledger.ops[o].pc.AwaitMigration?
    ensures EndsStartup(s, e, Step(s, e), o)
  {
    hide OpCurrent, Terminate, Launched, CanYield;
  }

  lemma OtherStartupEnds(s: State, e: Event, o: nat)
    requires Enabled(s, e) && e.Resume? && e.op == o && o < |Step(s, e).ledger.ops|
    requires InStartup(s.ledger.ops[o].pc) && !s.ledger.ops[o].pc.StartupAnnounced? && !s.ledger.ops[o].pc.AwaitMigration?
    ensures EndsStartup(s, e, Step(s, e), o)
  {
    hide OpCurrent, Terminate, Launched, CanYield;
  }

  /**
   * A startup resolves exactly when it has been superseded, has reported ready, or finds its
   * answering server already gone; and it is rejected only while it is the current one.
   */
  lemma StartupEndsExactly(tr: seq<State>, es: seq<Event>, j: nat, o: nat)
    requires IsRun(tr, es) && j < |es| && es[j].Resume? && es[j].op == o && o < |tr[j].ledger.ops|
    requires InStartup(tr[j].ledger.ops[o].pc)
    ensures o < |tr[j + 1].ledger.ops|
    ensures EndsStartup(tr[j], es[j], tr[j + 1], o)
  {
    hide Inv, Step, Enabled, EndsStartup, IsRun;
    RunBegins(tr, es);
    RunStep(tr, es, j);
    NothingIsUndone(tr[j], es[j]);
    if tr[j].ledger.ops[o].pc.StartupAnnounced? || tr[j].ledger.ops[o].pc.AwaitMigration? {
      LaunchingStartupEnds(tr[j], es[j], o);
    } else {
      OtherStartupEnds(tr[j], es[j], o);
    }
  }

  /**
   * The readiness loop of the current startup: after an answer that is not healthy, the next poll
   * is due in 250 milliseconds or at the deadline; past the deadline, or when the server has
   * ended or failed, there is no further poll and the server is stopped.
   */
  lemma PollsExactly(tr: seq<State>, es: seq<Event>, j: nat, o: nat)
    requires IsRun(tr, es) && j < |es| && es[j].Resume? && es[j].op == o && o < |tr[j].ledger.ops|
    requires OpCurrent(tr[j], o)
    ensures o < |tr[j + 1].ledger.ops|
    ensures
      var s, pc, next := tr[j], tr[j].ledger.ops[o].pc, tr[j + 1].ledger.ops[o].pc;
      && (pc.AwaitHealth? && !es[j].healthy && Live(s, pc.child) ==>
            next == AwaitRetry(pc.child, pc.deadline,
                               Some(if pc.deadline <= s.now then s.now else if s.now + 250 <= pc.deadline then s.now + 250 else pc.deadline)))
      && (pc.AwaitRetry? ==>
            if es[j].wait == TimedOut && Live(s, pc.child) && s.now < pc.deadline
            then next == AwaitHealth(pc.child, pc.deadline)
            else next.AwaitServerStop?)
  {
    hide Inv, OpCurrent, Terminate, Launched;
    RunStep(tr, es, j);
  }

  /**
   * A restore goes on to start the backend exactly when it is still current as its child has
   * exited with zero, and resolves without that only when it is not; every other end rejects it.
   */
  lemma RestoreEndsExactly(tr: seq<State>, es: seq<Event>, j: nat, o: nat)
    requires IsRun(tr, es) && j < |es| && es[j].Resume? && es[j].op == o && o < |tr[j].ledger.ops|
    requires tr[j].ledger.ops[o].pc.AwaitStop? || RestoreUnderWay(tr[j].ledger.ops[o].pc)
    ensures o < |tr[j + 1].ledger.ops|
    ensures
      var s, pc, op := tr[j], tr[j].ledger.ops[o].pc, tr[j + 1].ledger.ops[o];
      var applied := pc.AwaitRestore? && es[j].wait == Exited(Some(0)) && !es[j].blocked;
      && (op.pc.StartupAnnounced? <==> applied && OpCurrent(s, o))
      && (!op.phase.Running? ==> (op.phase.outcome == Resolved <==> applied && !OpCurrent(s, o)))
      && (!op.phase.Running? && op.phase.outcome == Resolved ==> tr[j + 1].status == Status(Stopped, RestoredNotRestarted))
      && (pc.AwaitRestore? && es[j].wait != Exited(Some(0)) ==>
            op.phase == Finishing(Rejected(if Live(s, pc.child) then StillRunning else RecoveryRequired)))
      && (applied ==> pc.child < |s.procs.children| && s.procs.children[pc.child].result == Some(Some(0)))
      && (pc.AwaitStop? && op.phase.Running? ==>
            OpCurrent(s, o) && pc.stopOp < |s.ledger.ops| && s.ledger.ops[pc.stopOp].phase.Settled?
            && s.ledger.ops[pc.stopOp].phase.outcome == Resolved)
  {
    hide Inv, OpCurrent, Launched;
    RunStep(tr, es, j);
  }

  /**
   * Any other exit is silent, but for that of a restore child behind which a recovery is required;
   * and an error of a child that runs changes nothing but its record.
   */
  lemma OtherExitsAreSilent(tr: seq<State>, es: seq<Event>, j: nat, c: nat)
    requires IsRun(tr, es) && j < |es| && c < |tr[j].procs.children|
    ensures
      var s, t, child := tr[j], tr[j + 1], tr[j].procs.children[c];
      && es[j].ChildExit? && es[j].child == c
      && !(child.kind == Serve && !child.stopRequested && child.generation == s.gate.generation)
      && !(child.kind == Restore && s.gate.recovery)
      ==> t.status == s.status && t.timer == s.timer && t.gate == s.gate && t.ledger == s.ledger
    ensures es[j].ChildExit? && es[j].child == c && Live(tr[j], c) && tr[j].procs.children[c].kind == Restore && tr[j].gate.recovery ==>
      tr[j + 1].status == Status(Degraded, RecoveryRequired) && tr[j + 1].gate == tr[j].gate && tr[j + 1].ledger == tr[j].ledger
    ensures
      var s, t, child := tr[j], tr[j + 1], tr[j].procs.children[c];
      && es[j] == ChildError(c) && child.hasPid && child.result.None?
      ==> Live(t, c) && t == s.(procs := s.procs.(children := s.procs.children[c := child.(failed := true)]))
    ensures es[j] == ChildError(c) && !tr[j].procs.children[c].hasPid ==> !Live(tr[j + 1], c) && c !in tr[j + 1].procs.owned
  {
    hide Ground, ReleasedOk, UpdatesOk, GateOk, LedgerOk;
    RunStep(tr, es, j);
    if es[j] == ChildError(c) && Live(tr[j], c) { ExitOk(tr[j].procs, c, None); }
  }

  // ---------------------------------------------------------------- terminations and stops

  /** A termination begins with a first kill, of no restore child, and five seconds for the exit. */
  ghost predicate BeginsTermination(p: Processes, q: Processes, t: nat, now: nat) {
    |p.terms| <= t < |q.terms| ==>
      && q.terms[t].phase == SoftWait(now + 5_000)
      && q.terms[t].child < |p.children| <= |q.children|
      && p.children[q.terms[t].child].kind != Restore && p.children[q.terms[t].child].result.None?
      && q.children[q.terms[t].child].stopRequested && q.children[q.terms[t].child].termination == Some(t)
      && q.children[q.terms[t].child].kills == p.children[q.terms[t].child].kills + 1
  }

  lemma TerminateBegins(p: Processes, c: nat, now: nat, t: nat)
    requires c < |p.children|
    ensures BeginsTermination(p, Terminate(p, c, now).0, t, now)
  {
  }

  lemma StopBegins(s: State, t: nat)
    requires ProcessesOk(s.procs)
    ensures BeginsTermination(s.procs, EnsureStopped(s).0.procs, t, s.now)
  {
    hide BeginsTermination;
    NothingBegins(s.procs, t, s.now);
    if s.ledger.stopping.None? {
      TerminateAllOwned(s.procs, s.now);
      if s.procs.owned != [] { TerminateBegins(s.procs, s.procs.owned[0], s.now, t); }
    }
  }

  lemma NothingBegins(p: Processes, t: nat, now: nat)
    ensures BeginsTermination(p, p, t, now)
  {
  }

  lemma ResumeBegins(s: State, e: Event, t: nat)
    requires Inv(s) && Enabled(s, e) && e.Resume?
    ensures BeginsTermination(s.procs, Step(s, e).procs, t, s.now)
  {
    hide Ground, ReleasedOk, UpdatesOk, GateOk, LedgerOk, OpCurrent, ResumeOp, Terminate, BeginsTermination;
    NothingBegins(s.procs, t, s.now);
    var pc := s.ledger.ops[e.op].pc;
    if pc.RestoreAnnounced? {
      StopBegins(s, t);
      RestoreProcesses(s, e.op, e.wait, e.blocked, e.spawn, e.healthy);
    } else if !Launching(pc) {
      OtherSitesLaunchNothing(s, e.op, e.wait, e.blocked, e.spawn, e.healthy);
      if pc.AwaitHealth? || pc.AwaitRetry? { TerminateBegins(s.procs, pc.child, s.now, t); }
    } else {
      LaunchSitesLaunchOne(s, e.op, e.wait, e.blocked, e.spawn, e.healthy);
      if pc.AwaitMigration? { TerminateBegins(s.procs, pc.child, s.now, t); }
      if e.spawn.Spawned? { LaunchBeginsNothing(s.procs, KindAt(pc), s.ledger.ops[e.op].generation, e.spawn.hasPid, t, s.now); }
    }
  }

  lemma LaunchBeginsNothing(p: Processes, kind: ChildKind, generation: nat, hasPid: bool, t: nat, now: nat)
    ensures BeginsTermination(p, Launched(p, kind, generation, hasPid), t, now)
  {
  }

  lemma EventBegins(s: State, e: Event, t: nat)
    requires Inv(s) && Enabled(s, e) && !e.Resume?
    ensures BeginsTermination(s.procs, Step(s, e).procs, t, s.now)
  {
    hide Ground, ReleasedOk, UpdatesOk, GateOk, LedgerOk, Without, EnsureStopped, BeginsTermination;
    NothingBegins(s.procs, t, s.now);
    match e
    case Stop => StopBegins(s.(gate := Invalidate(s.gate), timer := false), t);
    case Shutdown => StopBegins(s.(gate := Invalidate(s.gate.(closing := true)), timer := false), t);
    case PrepareUpdate(_) => StopBegins(s.(gate := Invalidate(s.gate.(closing := true)), timer := false), t);
    case _ => SameTermsBegin(s, e, t);
  }

  lemma SameTermsBegin(s: State, e: Event, t: nat)
    requires Enabled(s, e) && !e.Resume? && !e.Stop? && !e.Shutdown? && !e.PrepareUpdate?
    ensures BeginsTermination(s.procs, Step(s, e).procs, t, s.now)
  {
    hide Without;
  }

  /** In every run a termination begins with a first kill and five seconds, and never for a restore child. */
  lemma TerminationsBegin(tr: seq<State>, es: seq<Event>, j: nat, t: nat)
    requires IsRun(tr, es) && j < |es|
    ensures BeginsTermination(tr[j].procs, tr[j + 1].procs, t, tr[j].now)
  {
    hide Inv, Step, Enabled, IsRun, BeginsTermination;
    RunBegins(tr, es);
    RunStep(tr, es, j);
    if es[j].Resume? { ResumeBegins(tr[j], es[j], t); } else { EventBegins(tr[j], es[j], t); }
  }

  /**
   * The first wait that runs out brings the second kill and two more seconds, the second one a
   * failure; an exit in time is a success.
   */
  lemma TerminationsEscalate(tr: seq<State>, es: seq<Event>, j: nat)
    requires IsRun(tr, es) && j < |es| && es[j].ResumeTerm?
    ensures es[j].term < |tr[j].procs.terms| == |tr[j + 1].procs.terms|
    ensures
      var p, q, t := tr[j].procs, tr[j + 1].procs, es[j].term;
      var c := p.terms[t].child;
      && c < |p.children| == |q.children| && q.terms[t].child == c && q.owned == p.owned
      && if es[j].wait.Exited? then p.children[c].result.Some? && q.terms[t].phase == TermFinished(true) && q.children == p.children
         else match p.terms[t].phase
           case SoftWait(due) =>
             && due <= tr[j].now && q.children[c].kills == p.children[c].kills + 1
             && q.terms[t].phase == HardWait(if p.children[c].result.Some? then None else Some(tr[j].now + 2_000))
           case HardWait(due) => due.Some? && due.value <= tr[j].now && q.terms[t].phase == TermFinished(false) && q.children == p.children
           case _ => false
  {
    hide Inv;
    RunStep(tr, es, j);
  }

  /** A stop resolves exactly when every termination it awaited has succeeded and nothing is owned, and says so. */
  lemma StopResolvesExactly(tr: seq<State>, es: seq<Event>, j: nat)
    requires IsRun(tr, es) && j < |es| && es[j].Resume? && es[j].op < |tr[j].ledger.ops|
    requires tr[j].ledger.ops[es[j].op].pc.AwaitTerminations?
    ensures es[j].op < |tr[j + 1].ledger.ops|
    ensures
      var pc, phase := tr[j].ledger.ops[es[j].op].pc, tr[j + 1].ledger.ops[es[j].op].phase;
      var stopped :=
        && !pc.refused && tr[j].procs.owned == []
        && forall t :: t in pc.terms ==> t < |tr[j].procs.terms| && tr[j].procs.terms[t].phase == TermSettled(true);
      && phase == Finishing(if stopped then Resolved else Rejected(StopUnconfirmed))
      && tr[j + 1].status == (if !stopped then Status(Degraded, StopUnconfirmed)
                              else if tr[j].gate.recovery then Status(Degraded, RecoveryRequired)
                              else Status(Stopped, BackendStopped))
  {
    hide Inv;
    RunStep(tr, es, j);
    var s, o := tr[j], es[j].op;
    var terms := s.ledger.ops[o].pc.terms;
    assert forall t :: t in terms && t < |s.procs.terms| && s.procs.terms[t].phase == TermSettled(true) ==>
        StopResult(s.procs, Awaiting(t)) == Some(true);
  }

  /** What a new stop awaits: the termination of the one owned child, if there is one that may be killed. */
  lemma StopTerminatesOwned(s: State)
    requires Inv(s) && s.ledger.stopping.None?
    ensures
      var (t, o) := CallStop(s);
      && o == |s.ledger.ops| < |t.ledger.ops| && t.ledger.ops[o].slot == StopSlot && t.gate.generation == s.gate.generation + 1
      && (s.procs.owned == [] ==> t.ledger.ops[o].phase.Running? && t.ledger.ops[o].pc == AwaitTerminations({}, false))
      && (s.procs.owned != [] ==>
            var c := s.procs.owned[0];
            && c < |s.procs.children| == |t.procs.children|
            && if s.procs.children[c].kind == Restore then t.ledger.ops[o].phase == Finishing(Rejected(StillRunning))
               else
                 && t.ledger.ops[o].phase.Running? && t.procs.children[c].termination.Some?
                 && t.ledger.ops[o].pc == AwaitTerminations({t.procs.children[c].termination.value}, false))
  {
    hide Ground, ReleasedOk, UpdatesOk, GateOk, LedgerOk;
    var q := s.(gate := Invalidate(s.gate), timer := false);
    TerminateAllOwned(q.procs, q.now);
    if s.procs.owned != [] {
      var c := s.procs.owned[0];
      assert s.procs.owned == [c];
      assert s.procs.children[c].result.None?;
    }
  }

  /** The serving child that exits unasked is reported at once, and its generation goes on no more. */
  lemma CrashIsReported(tr: seq<State>, es: seq<Event>, j: nat, c: nat)
    requires IsRun(tr, es) && j < |es| && es[j].ChildExit? && es[j].child == c && Live(tr[j], c)
    requires
      var child := tr[j].procs.children[c];
      child.kind == Serve && !child.stopRequested && child.generation == tr[j].gate.generation
    ensures tr[j + 1].status == Status(Degraded, ExitedUnexpectedly) && !tr[j + 1].timer
    ensures tr[j + 1].procs.owned == [] && tr[j + 1].procs.serving.None? && !Live(tr[j + 1], c)
    ensures tr[j].gate.controller.Some? ==> tr[j].gate.controller.value in tr[j + 1].gate.aborted
  {
    hide Ground, ReleasedOk, UpdatesOk, GateOk, LedgerOk;
    RunStep(tr, es, j);
    ExitOk(tr[j].procs, c, es[j].code);
  }

  /** An update is prepared exactly when its stop has resolved, admission is not blocked and no recovery is required. */
  lemma UpdateResolvesExactly(tr: seq<State>, es: seq<Event>, j: nat)
    requires IsRun(tr, es) && j < |es| && es[j].ResumeUpdateTask?
    ensures es[j].task < |tr[j].ledger.updates| == |tr[j + 1].ledger.updates| && tr[j].ledger.updates[es[j].task].AwaitShutdown?
    ensures tr[j].ledger.updates[es[j].task].stopOp < |tr[j].ledger.ops|
    ensures
      var stop := tr[j].ledger.ops[tr[j].ledger.updates[es[j].task].stopOp];
      && stop.phase.Settled?
      && (tr[j + 1].ledger.updates[es[j].task] == UpdateDone(Resolved)
          <==> stop.phase.outcome == Resolved && !es[j].blocked && !tr[j].gate.recovery)
  {
    hide Inv;
    RunStep(tr, es, j);
  }

  /** Why a current startup is rejected: its admission, its own failure, or a child that could not be stopped. */
  lemma StartupReasons(tr: seq<State>, es: seq<Event>, j: nat, o: nat)
    requires IsRun(tr, es) && j < |es| && es[j].Resume? && es[j].op == o && o < |tr[j].ledger.ops|
    requires OpCurrent(tr[j], o)
    ensures o < |tr[j + 1].ledger.ops|
    ensures
      var s, pc, op := tr[j], tr[j].ledger.ops[o].pc, tr[j + 1].ledger.ops[o];
      var launches := pc.StartupAnnounced? || (pc.AwaitMigration? && es[j].wait == Exited(Some(0)));
      && (launches && es[j].blocked ==> op.phase.Running? && op.pc == CatchPending(AdmissionBlocked)
                                        && tr[j + 1].status == Status(Degraded, AdmissionBlocked))
      && (launches && !es[j].blocked && es[j].spawn.SpawnThrows? ==> op.phase == Finishing(Rejected(StartupFailed)))
      && (pc.CatchPending? ==> op.phase == Finishing(Rejected(pc.error)))
      && (pc.AwaitMigrationStop? || pc.AwaitServerStop? ==>
            var stopped := pc.stop.NothingToStop? || pc.stop.RefusesToKill?
                           || (pc.stop.term < |s.procs.terms| && s.procs.terms[pc.stop.term].phase == TermSettled(true));
            op.phase == Finishing(Rejected(if stopped then StartupFailed else StopUnconfirmed)))
  {
    hide Inv, OpCurrent, Terminate, Launched;
    RunStep(tr, es, j);
  }

  /** What `start` and `applyOfflineRestore` hand back, when exactly they refuse, and that a refusal begins nothing. */
  lemma CallsReply(s: State, blocked: bool)
    requires Inv(s)
    ensures
      var (t, reply) := CallStart(s, blocked);
      match reply
      case Promised(o) => t.ledger.starting == Some(o) && o < |t.ledger.ops| && Active(t.ledger.ops[o])
      case AlreadyReady => t == s && s.status.state == Ready && s.procs.serving.Some? && Live(s, s.procs.serving.value)
      case Refused(_) => t == if blocked then s.(timer := false, status := Status(Degraded, AdmissionBlocked)) else s
      case UpdatePromised(_) => false
    ensures CallStart(s, blocked).1.Promised? ==>
      CallStart(s, blocked).0 == s || (CallStart(s, blocked).0.status == Status(Starting, Preparing) && !CallStart(s, blocked).0.timer)
    ensures
      var barred := blocked || s.gate.closing || s.gate.recovery || s.ledger.restoring.Some? || s.ledger.stopping.Some?;
      var ready := s.procs.serving.Some? && s.status.state == Ready;
      && (CallStart(s, blocked).1.Refused? <==> barred || (s.ledger.starting.None? && !ready && s.procs.owned != []))
      && (CallStart(s, blocked).1.AlreadyReady? <==> !barred && s.ledger.starting.None? && ready)
    ensures
      var (t, reply) := CallRestore(s, blocked);
      match reply
      case Promised(o) => s.ledger.restoring.None? && t.ledger.restoring == Some(o) && o < |t.ledger.ops| && Active(t.ledger.ops[o])
      case Refused(_) => t == if blocked then s.(timer := false, status := Status(Degraded, AdmissionBlocked)) else s
      case _ => false
    ensures CallRestore(s, blocked).1.Promised? ==>
      CallRestore(s, blocked).0.status == Status(Starting, StoppingForRestore) && !CallRestore(s, blocked).0.timer
    ensures
      CallRestore(s, blocked).1.Refused? <==>
        || blocked || s.gate.closing || s.gate.recovery
        || s.ledger.starting.Some? || s.ledger.stopping.Some? || s.ledger.restoring.Some?
    ensures
      (CallPrepareUpdate(s, blocked).1.Refused? <==> blocked || s.gate.recovery || s.ledger.restoring.Some?)
      && (blocked ==> CallStart(s, blocked).1 == CallRestore(s, blocked).1 == CallPrepareUpdate(s, blocked).1 == Refused(AdmissionBlocked))
  {
    hide Ground, ReleasedOk, UpdatesOk, GateOk, CallStop, CallShutdown;
    if s.ledger.starting.Some? { assert OpFits(s.ledger, s.ledger.starting.value); }
    if s.procs.serving.Some? { assert s.procs.owned == [s.procs.serving.value]; }
  }
}
