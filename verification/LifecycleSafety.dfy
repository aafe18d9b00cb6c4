/**
 * What the lifecycle protocol guarantees over whole runs: for every sequence of calls,
 * child exits and errors, timeouts and re-entrant listeners.
 */
module LifecycleSafety {
  import opened Prelude
  import opened Lifecycle
  import opened LifecycleInvariant

  predicate StepsTo(s: State, e: Event, t: State) {
    var possible := Enabled(s, e);
    possible && t == Step(s, e)
  }

  /** The states `tr` visited by the events `es` from the initial state. */
  ghost predicate IsRun(tr: seq<State>, es: seq<Event>) {
    var begins := |tr| == |es| + 1 && tr[0] == INITIAL;
    begins && forall i: nat {:trigger es[i]} :: i < |es| ==> StepsTo(tr[i], es[i], tr[i + 1])
  }

  lemma {:induction false} RunKeepsInv(tr: seq<State>, es: seq<Event>, i: nat)
    requires IsRun(tr, es) && i < |tr|
    ensures Inv(tr[i])
  {
    hide Step, Enabled, Inv;
    if i == 0 {
      InitialInv();
    } else {
      RunKeepsInv(tr, es, i - 1);
      assert StepsTo(tr[i - 1], es[i - 1], tr[i]);
      StepKeeps(tr[i - 1], es[i - 1]);
    }
  }

  predicate Live(s: State, c: nat) { c < |s.procs.children| && s.procs.children[c].result.None? }

  // ---------------------------------------------------------------- launches

  /** The circumstances under which a child may be launched. */
  predicate MayLaunch(s: State, generation: nat) {
    && generation == s.gate.generation && generation !in s.gate.aborted && s.gate.controller == Some(generation)
    && !s.gate.closing && !s.gate.recovery
    && s.procs.owned == [] && s.ledger.stopping.None?
  }

  predicate SameChildren(s: State, t: State) { |t.procs.children| == |s.procs.children| }

  lemma StopLaunchesNothing(s: State)
    requires ProcessesOk(s.procs) && LedgerOk(s.ledger)
    ensures SameChildren(s, EnsureStopped(s).0)
  {
    if s.ledger.stopping.None? { BeginStopParts(s); }
  }

  predicate Launching(pc: Pc) { pc.StartupAnnounced? || pc.AwaitMigration? || pc.RestoreApplying? }

  /** A current operation at one of the three launch sites meets every condition for launching. */
  lemma LaunchSitesAreGuarded(s: State, o: nat, w: WaitResult)
    requires View(s, o) && OwnedExact(s.procs) && Launching(s.ledger.ops[o].pc) && CanResume(s, o, w) && OpCurrent(s, o)
    requires s.ledger.ops[o].pc.AwaitMigration? ==> w.Exited?
    ensures MayLaunch(s, s.ledger.ops[o].generation)
  {
  }

  /** Away from the launch sites an operation at most terminates the server it waits for. */
  lemma OtherSitesLaunchNothing(s: State, o: nat, w: WaitResult, blocked: bool, spawn: Spawn, healthy: bool)
    requires o < |s.ledger.ops| && CanResume(s, o, w)
    requires !Launching(s.ledger.ops[o].pc) && !s.ledger.ops[o].pc.RestoreAnnounced?
    ensures
      var pc := s.ledger.ops[o].pc;
      var procs := ResumeOp(s, o, w, blocked, spawn, healthy).procs;
      procs == s.procs || ((pc.AwaitHealth? || pc.AwaitRetry?) && procs == Terminate(s.procs, pc.child, s.now).0)
  {
  }

  function KindAt(pc: Pc): ChildKind {
    if pc.StartupAnnounced? then Migration else if pc.AwaitMigration? then Serve else Restore
  }

  /** At a launch site an operation launches its one child, if it is current; a failed migration is terminated instead. */
  lemma LaunchSitesLaunchOne(s: State, o: nat, w: WaitResult, blocked: bool, spawn: Spawn, healthy: bool)
    requires o < |s.ledger.ops| && CanResume(s, o, w) && Launching(s.ledger.ops[o].pc)
    ensures
      var op := s.ledger.ops[o];
      var procs := ResumeOp(s, o, w, blocked, spawn, healthy).procs;
      || procs == s.procs
      || (op.pc.AwaitMigration? && procs == Terminate(s.procs, op.pc.child, s.now).0)
      || (&& OpCurrent(s, o) && spawn.Spawned? && (op.pc.AwaitMigration? ==> w.Exited?)
          && procs == Launched(s.procs, KindAt(op.pc), op.generation, spawn.hasPid))
  {
    hide Terminate, Launched, OpCurrent;
  }

  lemma TerminateLaunchesNothing(p: Processes, c: nat, now: nat)
    requires c < |p.children|
    ensures |Terminate(p, c, now).0.children| == |p.children|
  {
  }

  lemma LaunchedIsNew(p: Processes, kind: ChildKind, generation: nat, hasPid: bool)
    ensures
      var q := Launched(p, kind, generation, hasPid);
      && |q.children| == |p.children| + 1
      && q.children[|p.children|].generation == generation && q.children[|p.children|].result.None?
  {
  }

  lemma ResumeLaunches(s: State, o: nat, w: WaitResult, blocked: bool, spawn: Spawn, healthy: bool)
    requires Inv(s) && o < |s.ledger.ops| && CanResume(s, o, w)
    ensures
      var t := ResumeOp(s, o, w, blocked, spawn, healthy);
      || SameChildren(s, t)
      || (&& |t.procs.children| == |s.procs.children| + 1
          && t.procs.children[|s.procs.children|].generation == s.ledger.ops[o].generation
          && t.procs.children[|s.procs.children|].result.None?
          && MayLaunch(s, s.ledger.ops[o].generation))
  {
    hide ResumeOp, Terminate, Launched, OpCurrent, MayLaunch, ReleasedOk, UpdatesOk, GateOk;
    assert OpFits(s.ledger, o);
    var op := s.ledger.ops[o];
    if op.pc.RestoreAnnounced? { RestoreLaunchesNothing(s, o, w, blocked, spawn, healthy); }
    else if !Launching(op.pc) {
      OtherSitesLaunchNothing(s, o, w, blocked, spawn, healthy);
      if op.pc.AwaitHealth? || op.pc.AwaitRetry? { TerminateLaunchesNothing(s.procs, op.pc.child, s.now); }
    } else {
      LaunchSitesLaunchOne(s, o, w, blocked, spawn, healthy);
      if op.pc.AwaitMigration? { TerminateLaunchesNothing(s.procs, op.pc.child, s.now); }
      if spawn.Spawned? { LaunchedIsNew(s.procs, KindAt(op.pc), op.generation, spawn.hasPid); }
      assert View(s, o);
      if OpCurrent(s, o) && (op.pc.AwaitMigration? ==> w.Exited?) { LaunchSitesAreGuarded(s, o, w); }
    }
  }

  lemma RestoreLaunchesNothing(s: State, o: nat, w: WaitResult, blocked: bool, spawn: Spawn, healthy: bool)
    requires Inv(s) && o < |s.ledger.ops| && CanResume(s, o, w) && s.ledger.ops[o].pc.RestoreAnnounced?
    ensures SameChildren(s, ResumeOp(s, o, w, blocked, spawn, healthy))
  {
    hide EnsureStopped, ProcessesOk, LedgerOk, Ground, ReleasedOk, UpdatesOk, GateOk;
    StopLaunchesNothing(s);
  }

  /**
   * Any event launches at most one child, and only for the operation that is current,
   * with nothing owned, nothing being stopped, and neither closing nor recovery begun.
   */
  lemma LaunchesAreExclusive(s: State, e: Event)
    requires Inv(s) && Enabled(s, e)
    ensures
      var t := Step(s, e);
      || SameChildren(s, t)
      || (&& e.Resume?
          && |t.procs.children| == |s.procs.children| + 1
          && t.procs.children[|s.procs.children|].generation == s.ledger.ops[e.op].generation
          && MayLaunch(s, s.ledger.ops[e.op].generation))
  {
    hide ProcessesOk, GateOk, LedgerOk, Ground, ReleasedOk, UpdatesOk, ResumeOp, CanResume, MayLaunch, Without, EnsureStopped;
    match e
    case Stop => CallStopKeeps(s, false);
    case Shutdown => CallStopKeeps(s, true);
    case PrepareUpdate(_) => CallStopKeeps(s, true);
    case Resume(o, w, blocked, spawn, healthy) => ResumeLaunches(s, o, w, blocked, spawn, healthy);
    case _ =>
  }

  // ---------------------------------------------------------------- what is never undone

  predicate GateGrows(g: Gate, h: Gate) {
    && g.generation <= h.generation
    && (g.closing ==> h.closing) && (g.recovery ==> h.recovery)
    && (g.generation == h.generation ==> g.controller == h.controller)
  }

  ghost predicate ChildrenGrow(p: Processes, q: Processes) {
    && |p.children| <= |q.children|
    && forall c: nat :: c < |p.children| ==>
         && q.children[c].kind == p.children[c].kind && q.children[c].generation == p.children[c].generation
         && (p.children[c].result.Some? ==> q.children[c].result == p.children[c].result)
  }

  /** An operation's identity is fixed, and its verdict too once it has one. */
  predicate OpKept(a: Op, b: Op) {
    && a.slot == b.slot && a.generation == b.generation
    && (if a.phase.Running? then Active(b) else !b.phase.Running? && b.phase.outcome == a.phase.outcome)
    && (a.phase.Settled? ==> b.phase == a.phase)
  }

  ghost predicate OpsGrow(s: State, t: State) {
    && |s.ledger.ops| <= |t.ledger.ops|
    && (forall o: nat :: o < |s.ledger.ops| ==> OpKept(s.ledger.ops[o], t.ledger.ops[o]))
    && forall o: nat :: |s.ledger.ops| <= o < |t.ledger.ops| ==> t.ledger.ops[o].generation <= t.gate.generation
  }

  lemma StopGrows(s: State)
    requires ProcessesOk(s.procs) && LedgerOk(s.ledger)
    ensures
      var t := EnsureStopped(s).0;
      t.gate == s.gate && ChildrenGrow(s.procs, t.procs) && OpsGrow(s, t)
  {
    if s.ledger.stopping.None? {
      BeginStopParts(s);
      var t := BeginStop(s);
      forall c: nat | c < |s.procs.children|
        ensures
          && t.procs.children[c].kind == s.procs.children[c].kind && t.procs.children[c].generation == s.procs.children[c].generation
          && t.procs.children[c].result == s.procs.children[c].result
      {
        assert Unmarked(t.procs.children[c]) == Unmarked(s.procs.children[c]);
      }
    }
  }

  /** An operation that steps keeps its slot and generation, and so do all the others. */
  lemma OwnStepGrows(s: State, t: State, o: nat)
    requires o < |s.ledger.ops| && !s.ledger.ops[o].phase.Settled? && o < |t.ledger.ops|
    requires t.ledger == s.ledger.(ops := s.ledger.ops[o := t.ledger.ops[o]])
    requires t.ledger.ops[o] == s.ledger.ops[o].(pc := t.ledger.ops[o].pc, phase := t.ledger.ops[o].phase)
    requires OpKept(s.ledger.ops[o], t.ledger.ops[o])
    ensures OpsGrow(s, t)
  {
  }

  lemma RestoreBeginGrows(s: State, o: nat)
    requires ProcessesOk(s.procs) && LedgerOk(s.ledger)
    requires o < |s.ledger.ops| && s.ledger.ops[o].phase.Running?
    ensures GateGrows(s.gate, ResumeRestore(s, o).gate) && OpsGrow(s, ResumeRestore(s, o))
    ensures ChildrenGrow(s.procs, ResumeRestore(s, o).procs)
  {
    StopGrows(s);
    var s1 := EnsureStopped(s).0;
    assert OpKept(s.ledger.ops[o], s1.ledger.ops[o]);
    if s.ledger.stopping.None? { BeginStopParts(s); }
  }

  lemma ResumeGrows(s: State, o: nat, w: WaitResult, blocked: bool, spawn: Spawn, healthy: bool)
    requires Inv(s) && o < |s.ledger.ops| && CanResume(s, o, w)
    ensures
      var t := ResumeOp(s, o, w, blocked, spawn, healthy);
      GateGrows(s.gate, t.gate) && OpsGrow(s, t)
  {
    if s.ledger.ops[o].pc.RestoreAnnounced? { RestoreBeginGrows(s, o); }
    else {
      assert OpFits(s.ledger, o);
      var t := ResumeOp(s, o, w, blocked, spawn, healthy);
      if !s.ledger.ops[o].pc.AwaitTerminations? { assert OwnStep(s, t, o); }
      OwnStepGrows(s, t, o);
    }
  }

  lemma CallsGrow(s: State, e: Event)
    requires Inv(s) && Enabled(s, e)
    requires e.Start? || e.Stop? || e.Shutdown? || e.PrepareUpdate? || e.RestoreOffline?
    ensures GateGrows(s.gate, Step(s, e).gate) && OpsGrow(s, Step(s, e))
  {
    hide Inv, Step, Enabled, GateGrows, OpsGrow;
    if e.Start? || e.RestoreOffline? { AdmissionsGrow(s, e); } else { StopCallsGrow(s, e); }
  }

  lemma AdmissionsGrow(s: State, e: Event)
    requires Enabled(s, e) && (e.Start? || e.RestoreOffline?)
    ensures GateGrows(s.gate, Step(s, e).gate) && OpsGrow(s, Step(s, e))
  {
  }

  lemma StopCallsGrow(s: State, e: Event)
    requires Inv(s) && Enabled(s, e) && (e.Stop? || e.Shutdown? || e.PrepareUpdate?)
    ensures GateGrows(s.gate, Step(s, e).gate) && OpsGrow(s, Step(s, e))
  {
    hide Ground, ReleasedOk, UpdatesOk, GateOk, EnsureStopped, OpKept;
    OpsStay(s);
    match e
    case Stop => StopGrows(s.(gate := Invalidate(s.gate), timer := false));
    case Shutdown => StopGrows(s.(gate := Invalidate(s.gate.(closing := true)), timer := false));
    case PrepareUpdate(_) => StopGrows(s.(gate := Invalidate(s.gate.(closing := true)), timer := false));
  }

  lemma OpsStay(s: State)
    ensures forall o: nat :: o < |s.ledger.ops| ==> OpKept(s.ledger.ops[o], s.ledger.ops[o])
  {
  }

  lemma PhaseEventsGrow(s: State, e: Event)
    requires Enabled(s, e) && (e.Conclude? || e.ReleaseOp? || e.SettleOp?)
    ensures GateGrows(s.gate, Step(s, e).gate) && OpsGrow(s, Step(s, e))
  {
  }

  lemma EnvironmentGrows(s: State, e: Event)
    requires Enabled(s, e)
    requires e.ReportDegraded? || e.ChildExit? || e.ChildError? || e.Tick? || e.ResumeTerm? || e.SettleTerm? || e.ResumeUpdateTask?
    ensures GateGrows(s.gate, Step(s, e).gate) && OpsGrow(s, Step(s, e))
  {
    hide Exit, ResumeTermination, SettleTermination;
  }

  /** No event lowers the generation, clears a sticky flag, or rewrites an operation's identity or verdict. */
  lemma NothingIsUndone(s: State, e: Event)
    requires Inv(s) && Enabled(s, e)
    ensures GateGrows(s.gate, Step(s, e).gate) && OpsGrow(s, Step(s, e))
  {
    hide Inv, ResumeOp, CallStart, CallStop, CallShutdown, CallPrepareUpdate, CallRestore, GateGrows, OpsGrow;
    if e.Resume? { ResumeGrows(s, e.op, e.wait, e.blocked, e.spawn, e.healthy); }
    else if e.Start? || e.Stop? || e.Shutdown? || e.PrepareUpdate? || e.RestoreOffline? { CallsGrow(s, e); }
    else if e.Conclude? || e.ReleaseOp? || e.SettleOp? { PhaseEventsGrow(s, e); }
    else { EnvironmentGrows(s, e); }
  }

  lemma TerminateGrows(p: Processes, c: nat, now: nat)
    requires c < |p.children|
    ensures ChildrenGrow(p, Terminate(p, c, now).0)
  {
  }

  lemma LaunchSitesGrow(s: State, o: nat, w: WaitResult, blocked: bool, spawn: Spawn, healthy: bool)
    requires o < |s.ledger.ops| && CanResume(s, o, w) && Launching(s.ledger.ops[o].pc)
    ensures ChildrenGrow(s.procs, ResumeOp(s, o, w, blocked, spawn, healthy).procs)
  {
    hide ResumeOp, Terminate;
    var pc := s.ledger.ops[o].pc;
    LaunchSitesLaunchOne(s, o, w, blocked, spawn, healthy);
    if pc.AwaitMigration? { TerminateGrows(s.procs, pc.child, s.now); }
  }

  lemma ResumeChildrenGrow(s: State, o: nat, w: WaitResult, blocked: bool, spawn: Spawn, healthy: bool)
    requires ProcessesOk(s.procs) && LedgerOk(s.ledger) && o < |s.ledger.ops| && CanResume(s, o, w)
    ensures ChildrenGrow(s.procs, ResumeOp(s, o, w, blocked, spawn, healthy).procs)
  {
    var pc := s.ledger.ops[o].pc;
    if pc.RestoreAnnounced? { RestoreBeginGrows(s, o); }
    else if Launching(pc) { LaunchSitesGrow(s, o, w, blocked, spawn, healthy); }
    else {
      OtherSitesLaunchNothing(s, o, w, blocked, spawn, healthy);
      if pc.AwaitHealth? || pc.AwaitRetry? { TerminateGrows(s.procs, pc.child, s.now); }
    }
  }

  lemma ChildEventsGrow(s: State, e: Event)
    requires Enabled(s, e) && (e.ChildExit? || e.ChildError? || e.ResumeTerm? || e.SettleTerm?)
    ensures ChildrenGrow(s.procs, Step(s, e).procs)
  {
    hide Without, ResumeOp;
  }

  lemma StopChildrenGrow(s: State, e: Event)
    requires Inv(s) && Enabled(s, e) && (e.Stop? || e.Shutdown? || e.PrepareUpdate?)
    ensures ChildrenGrow(s.procs, Step(s, e).procs)
  {
    StopGrows(s.(gate := Invalidate(s.gate.(closing := !e.Stop? || s.gate.closing)), timer := false));
  }

  /** An exit, once recorded, is final, and no child ever changes its kind. */
  lemma ExitsAreFinal(s: State, e: Event)
    requires Inv(s) && Enabled(s, e)
    ensures ChildrenGrow(s.procs, Step(s, e).procs)
  {
    hide ResumeOp;
    if e.Stop? || e.Shutdown? || e.PrepareUpdate? { StopChildrenGrow(s, e); }
    else if e.Resume? { ResumeChildrenGrow(s, e.op, e.wait, e.blocked, e.spawn, e.healthy); }
    else if e.ChildExit? || e.ChildError? || e.ResumeTerm? || e.SettleTerm? { ChildEventsGrow(s, e); }
  }

  // ---------------------------------------------------------------- whole runs

  lemma RunStep(tr: seq<State>, es: seq<Event>, i: nat)
    requires IsRun(tr, es) && i < |es|
    ensures Inv(tr[i]) && Enabled(tr[i], es[i]) && tr[i + 1] == Step(tr[i], es[i]) && Inv(tr[i + 1])
  {
    hide Step, Enabled, Inv;
    RunKeepsInv(tr, es, i);
    RunKeepsInv(tr, es, i + 1);
    assert StepsTo(tr[i], es[i], tr[i + 1]);
  }

  /** One event of a run undoes nothing. */
  lemma RunGrows(tr: seq<State>, es: seq<Event>, i: nat)
    requires IsRun(tr, es) && i < |es|
    ensures GateGrows(tr[i].gate, tr[i + 1].gate) && OpsGrow(tr[i], tr[i + 1])
    ensures ChildrenGrow(tr[i].procs, tr[i + 1].procs)
  {
    hide Step, Enabled, Inv;
    RunStep(tr, es, i);
    NothingIsUndone(tr[i], es[i]);
    ExitsAreFinal(tr[i], es[i]);
  }

  /** At any moment at most one child is live. */
  lemma AtMostOneLiveChild(tr: seq<State>, es: seq<Event>, i: nat, c: nat, d: nat)
    requires IsRun(tr, es) && i < |tr| && Live(tr[i], c) && Live(tr[i], d)
    ensures c == d && tr[i].procs.owned == [c]
  {
    RunKeepsInv(tr, es, i);
    assert [c][0] == [d][0];
  }

  predicate LaunchesAt(tr: seq<State>, j: nat)
    requires j + 1 < |tr|
  {
    |tr[j + 1].procs.children| != |tr[j].procs.children|
  }

  /** Every launch: one child, nothing live before it, by the current un-aborted operation. */
  lemma EveryLaunchIsExclusive(tr: seq<State>, es: seq<Event>, j: nat)
    requires IsRun(tr, es) && j < |es| && LaunchesAt(tr, j)
    ensures es[j].Resume? && es[j].op < |tr[j].ledger.ops|
    ensures MayLaunch(tr[j], tr[j].ledger.ops[es[j].op].generation)
    ensures forall c: nat :: !Live(tr[j], c)
    ensures Live(tr[j + 1], |tr[j].procs.children|) && |tr[j + 1].procs.children| == |tr[j].procs.children| + 1
  {
    hide Step;
    RunStep(tr, es, j);
    LaunchesAreExclusive(tr[j], es[j]);
    ExitsAreFinal(tr[j], es[j]);
    forall c: nat ensures !Live(tr[j], c) { assert tr[j].procs.owned != [c]; }
    NewChildIsLive(tr[j], es[j]);
  }

  lemma NewChildIsLive(s: State, e: Event)
    requires Inv(s) && Enabled(s, e) && |Step(s, e).procs.children| == |s.procs.children| + 1
    ensures Step(s, e).procs.children[|s.procs.children|].result.None?
  {
    hide Inv, ResumeOp, MayLaunch;
    LaunchesAreExclusive(s, e);
    ResumeLaunches(s, e.op, e.wait, e.blocked, e.spawn, e.healthy);
  }

  /** No operation is numbered above the current generation. */
  lemma {:induction false} OpsAreBounded(tr: seq<State>, es: seq<Event>, i: nat)
    requires IsRun(tr, es) && i < |tr|
    ensures forall o: nat :: o < |tr[i].ledger.ops| ==> tr[i].ledger.ops[o].generation <= tr[i].gate.generation
  {
    hide Step, Enabled, Inv;
    if i > 0 {
      OpsAreBounded(tr, es, i - 1);
      RunGrows(tr, es, i - 1);
      forall o: nat | o < |tr[i].ledger.ops|
        ensures tr[i].ledger.ops[o].generation <= tr[i].gate.generation
      {
        if o < |tr[i - 1].ledger.ops| { assert OpKept(tr[i - 1].ledger.ops[o], tr[i].ledger.ops[o]); }
      }
    }
  }

  /** Whatever is newer than generation `g`: the first `n` operations are not, and none of them is current. */
  ghost predicate Outdated(s: State, g: nat, n: nat) {
    && n <= |s.ledger.ops|
    && (forall o: nat :: o < n ==> s.ledger.ops[o].generation <= g)
    && (s.gate.generation > g || (s.gate.generation == g && s.gate.controller != Some(g)))
  }

  lemma {:induction false} OutdatedStays(tr: seq<State>, es: seq<Event>, i: nat, j: nat, g: nat, n: nat)
    requires IsRun(tr, es) && i <= j < |tr| && Outdated(tr[i], g, n)
    ensures Outdated(tr[j], g, n)
  {
    hide Step, Enabled, Inv;
    if i < j {
      OutdatedStays(tr, es, i, j - 1, g, n);
      RunGrows(tr, es, j - 1);
      forall o: nat | o < n ensures tr[j].ledger.ops[o].generation <= g {
        assert OpKept(tr[j - 1].ledger.ops[o], tr[j].ledger.ops[o]);
      }
    }
  }

  /**
   * Once `stop` (or `shutdown`) has returned control, no operation admitted before it
   * launches another child: whatever launches later was admitted later.
   */
  lemma StopSilencesEarlierOperations(tr: seq<State>, es: seq<Event>, i: nat, j: nat)
    requires IsRun(tr, es) && i < j < |es| && (es[i].Stop? || es[i].Shutdown?) && LaunchesAt(tr, j)
    ensures es[j].Resume? && |tr[i + 1].ledger.ops| <= es[j].op
  {
    hide ResumeOp, CallStart, CallRestore, CallPrepareUpdate;
    RunStep(tr, es, i);
    CallStopKeeps(tr[i], es[i].Shutdown?);
    OpsAreBounded(tr, es, i + 1);
    var g := tr[i + 1].gate.generation;
    RunKeepsInv(tr, es, i);
    OutdatedStays(tr, es, i + 1, j, g, |tr[i + 1].ledger.ops|);
    EveryLaunchIsExclusive(tr, es, j);
  }

  /** The sticky flags of an earlier state still hold later. */
  lemma {:induction false} FlagsStick(tr: seq<State>, es: seq<Event>, i: nat, j: nat)
    requires IsRun(tr, es) && i <= j < |tr|
    ensures tr[i].gate.closing ==> tr[j].gate.closing
    ensures tr[i].gate.recovery ==> tr[j].gate.recovery
  {
    hide Step, Enabled, Inv;
    if i < j {
      FlagsStick(tr, es, i, j - 1);
      RunGrows(tr, es, j - 1);
    }
  }

  /** After `shutdown`, and after an uncertain restore, nothing is ever launched again. */
  lemma {:induction false} ClosingAndRecoveryAreFinal(tr: seq<State>, es: seq<Event>, i: nat, j: nat)
    requires IsRun(tr, es) && i <= j < |tr| && (tr[i].gate.closing || tr[i].gate.recovery)
    ensures |tr[j].procs.children| == |tr[i].procs.children|
    ensures tr[j].gate.closing || tr[j].gate.recovery
  {
    hide Step, Enabled, Inv;
    FlagsStick(tr, es, i, j);
    if i < j {
      ClosingAndRecoveryAreFinal(tr, es, i, j - 1);
      if LaunchesAt(tr, j - 1) { EveryLaunchIsExclusive(tr, es, j - 1); }
    }
  }

  lemma {:induction false} ExitSticks(tr: seq<State>, es: seq<Event>, i: nat, j: nat, c: nat)
    requires IsRun(tr, es) && i <= j < |tr| && c < |tr[i].procs.children| && Live(tr[j], c)
    ensures Live(tr[i], c) && tr[j].procs.children[c].kind == tr[i].procs.children[c].kind
    decreases j - i
  {
    hide Step, Enabled, Inv;
    if i < j {
      RunGrows(tr, es, i);
      ExitSticks(tr, es, i + 1, j, c);
    }
  }

  /**
   * From its launch until its exit a restore writer is never killed and no other child is
   * launched, and it is either still observed or the session is marked for recovery.
   */
  lemma {:induction false} RestoreWriterIsUndisturbed(tr: seq<State>, es: seq<Event>, i: nat, j: nat, c: nat)
    requires IsRun(tr, es) && i <= j < |tr| && Live(tr[i], c) && Live(tr[j], c)
    requires tr[i].procs.children[c].kind == Restore
    ensures tr[j].procs.children[c].kills == 0 && !tr[j].procs.children[c].stopRequested
    ensures |tr[j].procs.children| == |tr[i].procs.children|
    ensures tr[j].gate.recovery || (HasMain(tr[j]) && Main(tr[j]).pc.AwaitRestore? && Main(tr[j]).pc.child == c)
    decreases j
  {
    hide Step, Enabled;
    ExitSticks(tr, es, i, j, c);
    RunKeepsInv(tr, es, j);
    AtMostOneLiveChild(tr, es, j, c, c);
    if i < j {
      RunStep(tr, es, j - 1);
      var s := tr[j - 1];
      RunKeepsInv(tr, es, i);
      ChildrenOnlyGrow(tr, es, i, j - 1);
      ExitSticks(tr, es, j - 1, j, c);
      RestoreWriterIsUndisturbed(tr, es, i, j - 1, c);
      if LaunchesAt(tr, j - 1) { EveryLaunchIsExclusive(tr, es, j - 1); }
    }
  }

  lemma {:induction false} ChildrenOnlyGrow(tr: seq<State>, es: seq<Event>, i: nat, j: nat)
    requires IsRun(tr, es) && i <= j < |tr|
    ensures |tr[i].procs.children| <= |tr[j].procs.children|
  {
    if i < j {
      ChildrenOnlyGrow(tr, es, i, j - 1);
      RunGrows(tr, es, j - 1);
    }
  }
}
