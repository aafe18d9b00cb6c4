/**
 * What it means when a promise of the supervisor settles, what the published status and
 * the backup timer say about the processes.
 */
module LifecyclePromises {
  import opened Prelude
  import opened Lifecycle
  import opened LifecycleInvariant
  import opened LifecycleSafety

  // ---------------------------------------------------------------- status and timer

  /** A running backup timer means: ready, over a live serving child of the current generation that nobody stops. */
  lemma TimerMeansServing(tr: seq<State>, es: seq<Event>, i: nat)
    requires IsRun(tr, es) && i < |tr| && tr[i].timer
    ensures var s := tr[i];
      && s.status.state == Ready && s.ledger.stopping.None?
      && s.procs.serving.Some? && Live(s, s.procs.serving.value)
      && var c := s.procs.children[s.procs.serving.value];
         && c.kind == Serve && !c.stopRequested && c.generation == s.gate.generation && c.generation !in s.gate.aborted
  {
    hide Step, Enabled;
    RunKeepsInv(tr, es, i);
  }

  /** Status ready means a live serving child, or a stop in progress that will replace the status. */
  lemma ReadyMeansServing(tr: seq<State>, es: seq<Event>, i: nat)
    requires IsRun(tr, es) && i < |tr| && tr[i].status.state == Ready
    ensures tr[i].ledger.stopping.Some? || (tr[i].procs.serving.Some? && Live(tr[i], tr[i].procs.serving.value))
  {
    hide Step, Enabled;
    RunKeepsInv(tr, es, i);
  }

  // ---------------------------------------------------------------- stop and shutdown

  /** When a stop that succeeded gives up its slot nothing is owned. */
  lemma ReleasedStopOwnsNothing(tr: seq<State>, es: seq<Event>, i: nat, o: nat)
    requires IsRun(tr, es) && i < |es| && es[i] == ReleaseOp(o)
    requires o < |tr[i].ledger.ops| && tr[i].ledger.ops[o].slot == StopSlot && Succeeded(tr[i].ledger.ops[o])
    ensures tr[i + 1].procs.owned == [] && tr[i + 1].ledger.stopping.None?
  {
    RunStep(tr, es, i);
    assert OpFits(tr[i].ledger, o);
  }

  /**
   * When the promise of a successful stop settles nothing is owned, unless a startup or
   * restore was admitted (or another stop called) since the slot was released.
   */
  lemma SettledStopOwnsNothing(tr: seq<State>, es: seq<Event>, i: nat, o: nat)
    requires IsRun(tr, es) && i < |es| && es[i] == SettleOp(o)
    requires o < |tr[i].ledger.ops| && tr[i].ledger.ops[o].slot == StopSlot && Succeeded(tr[i].ledger.ops[o])
    ensures tr[i + 1].procs.owned == [] || tr[i].ledger.ops[o].phase.at < tr[i].gate.generation
  {
    RunStep(tr, es, i);
    assert ReleaseOk(tr[i], o);
  }

  /** The exception is real: a run in which a stop's promise settles over a freshly launched child. */
  lemma StopCanSettleOverNewStartup()
    ensures exists tr: seq<State>, es: seq<Event> :: IsRun(tr, es) && SettlesOverAChild(tr, es)
  {
    var s1, s2 := StoppedRun();
    var s3, s4 := ReleasedRun(s2);
    var s5, s6, s7 := RestartedRun(s4);
    var tr1, es1 := Extend([INITIAL], [], Stop, s1);
    var tr2, es2 := Extend(tr1, es1, Resume(0, TimedOut, false, SpawnThrows, false), s2);
    var tr3, es3 := Extend(tr2, es2, Conclude(0), s3);
    var tr4, es4 := Extend(tr3, es3, ReleaseOp(0), s4);
    var tr5, es5 := Extend(tr4, es4, Start(false), s5);
    var tr6, es6 := Extend(tr5, es5, Resume(1, TimedOut, false, Spawned(true), false), s6);
    var tr7, es7 := Extend(tr6, es6, SettleOp(0), s7);
    assert SettlesOverAChild(tr7, es7);
  }

  lemma Extend(tr: seq<State>, es: seq<Event>, e: Event, t: State) returns (tr1: seq<State>, es1: seq<Event>)
    requires IsRun(tr, es) && StepsTo(tr[|es|], e, t)
    ensures IsRun(tr1, es1) && |es1| == |es| + 1 && es1[|es|] == e && tr1[|es1|] == t
    ensures tr <= tr1 && es <= es1
  {
    tr1, es1 := tr + [t], es + [e];
    forall i: nat | i < |es1| ensures StepsTo(tr1[i], es1[i], tr1[i + 1]) {
      if i < |es| { assert es1[i] == es[i]; }
    }
  }

  predicate SettlesOverAChild(tr: seq<State>, es: seq<Event>) {
    && |es| > 0 && |tr| == |es| + 1 && es[|es| - 1] == SettleOp(0)
    && tr[|es|].procs.owned != [] && |tr[|es|].ledger.ops| > 0
    && tr[|es|].ledger.ops[0].slot == StopSlot && tr[|es|].ledger.ops[0].phase.Settled?
    && tr[|es|].ledger.ops[0].phase.outcome == Resolved
  }

  /** The state after `stop` on an idle supervisor, with the stop in the given phase. */
  function Idle(phase: Phase, slot: Option<nat>): State {
    State(Processes([], None, [], []), Gate(1, None, {}, false, false),
          Ledger([Op(StopSlot, 1, AwaitTerminations({}, false), phase)], None, slot, None, []),
          Status(Stopped, BackendStopped), false, 0)
  }

  lemma StoppedRun() returns (s1: State, s2: State)
    ensures StepsTo(INITIAL, Stop, s1)
    ensures StepsTo(s1, Resume(0, TimedOut, false, SpawnThrows, false), s2)
    ensures s2 == Idle(Finishing(Resolved), Some(0))
  {
    s1 := Step(INITIAL, Stop);
    TerminateAllOwned(INITIAL.procs, 0);
    assert s1.ledger.ops == [Op(StopSlot, 1, AwaitTerminations({}, false), Running)];
    assert AllStopped(s1.procs, {}) && !SomeUnstopped(s1.procs, {});
    s2 := Step(s1, Resume(0, TimedOut, false, SpawnThrows, false));
  }

  lemma ReleasedRun(s2: State) returns (s3: State, s4: State)
    requires s2 == Idle(Finishing(Resolved), Some(0))
    ensures StepsTo(s2, Conclude(0), s3) && StepsTo(s3, ReleaseOp(0), s4)
    ensures s4 == Idle(Released(Resolved, 1), None)
  {
    s3 := Step(s2, Conclude(0));
    s4 := Step(s3, ReleaseOp(0));
  }

  lemma RestartedRun(s4: State) returns (s5: State, s6: State, s7: State)
    requires s4 == Idle(Released(Resolved, 1), None)
    ensures StepsTo(s4, Start(false), s5)
    ensures StepsTo(s5, Resume(1, TimedOut, false, Spawned(true), false), s6)
    ensures StepsTo(s6, SettleOp(0), s7)
    ensures s7.procs.owned == [0] && |s7.ledger.ops| == 2
    ensures s7.ledger.ops[0] == Op(StopSlot, 1, AwaitTerminations({}, false), Settled(Resolved, 1))
  {
    hide CallStop, CallShutdown, CallPrepareUpdate, CallRestore, Completed, ChildErrored, ResumeUpdate;
    hide ResumeTermination, SettleTermination;
    hide ResumeMigration, ResumeAfterStop, FailStartup, ResumeHealth, ResumeRetry, ResumeReady, ResumeRestore, ResumeRestoreStopped;
    hide ResumeApplying, RequireRecovery, ResumeRestored, ResumeStop, CanResumeTerm;
    s5 := Step(s4, Start(false));
    assert s5.ledger.ops[1] == Op(StartSlot, 2, StartupAnnounced, Running);
    s6 := Step(s5, Resume(1, TimedOut, false, Spawned(true), false));
    s7 := Step(s6, SettleOp(0));
  }

  // ---------------------------------------------------------------- settling over a child

  /** In the run that ends here, the promise of stop `o` has just settled although a child is owned. */
  predicate JustSettledOverChild(tr: seq<State>, es: seq<Event>, o: nat) {
    |es| > 0 && |tr| == |es| + 1 && es[|es| - 1] == SettleOp(o) && tr[|es|].procs.owned != []
  }

  ghost predicate CanSettleOverChild(tr: seq<State>, es: seq<Event>, o: nat) {
    exists tr1: seq<State>, es1: seq<Event> :: IsRun(tr1, es1) && tr <= tr1 && es <= es1 && JustSettledOverChild(tr1, es1, o)
  }

  /** Under a closed gate, or with recovery required, nothing owned stays nothing owned. */
  lemma GateKeepsOwnedEmpty(tr: seq<State>, es: seq<Event>, i: nat, j: nat)
    requires IsRun(tr, es) && i <= j < |tr| && tr[i].procs.owned == []
    requires tr[i].gate.closing || tr[i].gate.recovery
    ensures tr[j].procs.owned == []
  {
    hide Inv, IsRun, Step, Enabled;
    ClosingAndRecoveryAreFinal(tr, es, i, j);
    OwnedIsLive(tr, es, j);
    if tr[j].procs.owned != [] {
      ExitSticks(tr, es, i, j, tr[j].procs.owned[0]);
      LiveIsOwned(tr, es, i, tr[j].procs.owned[0]);
    }
  }

  lemma OwnedIsLive(tr: seq<State>, es: seq<Event>, i: nat)
    requires IsRun(tr, es) && i < |tr|
    ensures tr[i].procs.owned != [] ==> Live(tr[i], tr[i].procs.owned[0])
  {
    hide Ground, ReleasedOk, UpdatesOk, LedgerOk, GateOk;
    RunKeepsInv(tr, es, i);
    if tr[i].procs.owned != [] { assert tr[i].procs.owned == [tr[i].procs.owned[0]]; }
  }

  lemma LiveIsOwned(tr: seq<State>, es: seq<Event>, i: nat, c: nat)
    requires IsRun(tr, es) && i < |tr| && Live(tr[i], c)
    ensures tr[i].procs.owned == [c]
  {
    hide Ground, ReleasedOk, UpdatesOk, LedgerOk, GateOk;
    RunKeepsInv(tr, es, i);
  }

  /** With the gate open and nothing in progress, a startup is admitted and launches before the promise settles. */
  lemma RestartBeforeSettling(s: State, o: nat) returns (s1: State, s2: State, s3: State)
    requires Inv(s) && o < |s.ledger.ops| && s.ledger.ops[o].phase.Released? && s.procs.owned == []
    requires s.ledger.starting.None? && s.ledger.restoring.None? && s.ledger.stopping.None?
    requires !s.gate.closing && !s.gate.recovery
    ensures StepsTo(s, Start(false), s1)
    ensures StepsTo(s1, Resume(|s.ledger.ops|, TimedOut, false, Spawned(true), false), s2)
    ensures StepsTo(s2, SettleOp(o), s3) && s3.procs.owned != []
  {
    s1 := Step(s, Start(false));
    var n := |s.ledger.ops|;
    assert s1.ledger.ops[n] == Op(StartSlot, s1.gate.generation, StartupAnnounced, Running);
    assert IsCurrent(s1.gate, s1.gate.generation);
    s2 := Step(s1, Resume(n, TimedOut, false, Spawned(true), false));
    assert s2.procs.owned == [|s.procs.children|];
    s3 := Step(s2, SettleOp(o));
  }

  lemma RunLength(tr: seq<State>, es: seq<Event>)
    requires IsRun(tr, es)
    ensures |tr| == |es| + 1
  {
  }

  /** A stop awaited under a closed gate stays one that will leave nothing owned. */
  lemma {:induction false} DrainingStays(tr: seq<State>, es: seq<Event>, i: nat, j: nat, o: nat)
    requires IsRun(tr, es) && i <= j < |tr| && Draining(tr[i], o)
    ensures Draining(tr[j], o)
  {
    if i < j {
      DrainingStays(tr, es, i, j - 1, o);
      DrainingStep(tr, es, j - 1, o);
    }
  }

  /** Under a closed gate the owned set can only empty. */
  lemma ClosedGateOwnsNothingNew(tr: seq<State>, es: seq<Event>, i: nat)
    requires IsRun(tr, es) && i < |es| && tr[i].gate.closing && tr[i].procs.owned == []
    ensures tr[i + 1].procs.owned == []
  {
    RunKeepsInv(tr, es, i);
    RunKeepsInv(tr, es, i + 1);
    if tr[i + 1].procs.owned != [] {
      var c := tr[i + 1].procs.owned[0];
      assert tr[i + 1].procs.owned == [c];
      ClosingAndRecoveryAreFinal(tr, es, i, i + 1);
      ExitSticks(tr, es, i, i + 1, c);
      assert false;
    }
  }

  lemma DrainingStep(tr: seq<State>, es: seq<Event>, i: nat, o: nat)
    requires IsRun(tr, es) && i < |es| && Draining(tr[i], o)
    ensures Draining(tr[i + 1], o)
  {
    RunGrows(tr, es, i);
    assert OpKept(tr[i].ledger.ops[o], tr[i + 1].ledger.ops[o]);
    if tr[i].ledger.ops[o].phase.Running? {
      RunKeepsInv(tr, es, i + 1);
      assert OpFits(tr[i + 1].ledger, o);
    } else if Succeeded(tr[i].ledger.ops[o]) {
      ClosedGateOwnsNothingNew(tr, es, i);
    }
  }

  /** When the promise returned by `shutdown` has resolved nothing is owned, then and ever after. */
  lemma ShutdownDrains(tr: seq<State>, es: seq<Event>, i: nat, j: nat)
    requires IsRun(tr, es) && i < j < |tr| && es[i] == Shutdown
    ensures
      var o := CallShutdown(tr[i]).1;
      && o < |tr[j].ledger.ops|
      && (tr[j].ledger.ops[o].phase.Settled? && tr[j].ledger.ops[o].phase.outcome == Resolved ==> tr[j].procs.owned == [])
  {
    RunStep(tr, es, i);
    CallStopKeeps(tr[i], true);
    var o := CallShutdown(tr[i]).1;
    assert OpFits(tr[i + 1].ledger, o);
    DrainingStays(tr, es, i + 1, j, o);
  }

  predicate UpdateResolved(s: State, u: nat) {
    u < |s.ledger.updates| && s.ledger.updates[u] == UpdateDone(Resolved)
  }

  /**
   * `prepareUpdate` resolves only when no recovery is required, and with nothing owned and the
   * gate closed, then and ever after.
   */
  lemma PreparedUpdateIsSafe(tr: seq<State>, es: seq<Event>, i: nat, j: nat, u: nat)
    requires IsRun(tr, es) && i < j < |tr| && !UpdateResolved(tr[i], u) && UpdateResolved(tr[i + 1], u)
    ensures !tr[i + 1].gate.recovery
    ensures tr[j].procs.owned == [] && tr[j].gate.closing
  {
    hide Inv, IsRun;
    RunLength(tr, es);
    ResolvingIsSafe(tr, es, i, u);
    GateKeepsOwnedEmpty(tr, es, i + 1, j);
    FlagsStick(tr, es, i + 1, j);
  }

  lemma ResolvingIsSafe(tr: seq<State>, es: seq<Event>, i: nat, u: nat)
    requires IsRun(tr, es) && i < |es| && !UpdateResolved(tr[i], u) && UpdateResolved(tr[i + 1], u)
    ensures tr[i + 1].procs.owned == [] && !tr[i + 1].gate.recovery && tr[i + 1].gate.closing
  {
    RunStep(tr, es, i);
    UpdatesOnlyByTasks(tr[i], es[i], u);
    assert Draining(tr[i], tr[i].ledger.updates[u].stopOp);
  }

  lemma UpdatesOnlyByTasks(s: State, e: Event, u: nat)
    requires Inv(s) && Enabled(s, e) && !UpdateResolved(s, u) && UpdateResolved(Step(s, e), u)
    ensures e.ResumeUpdateTask? && e.task == u && !e.blocked && !s.gate.recovery
    ensures s.ledger.ops[s.ledger.updates[u].stopOp].phase.outcome == Resolved
  {
    hide Inv, ResumeOp, CallStart, CallStop, CallShutdown, CallPrepareUpdate, CallRestore, Completed, ChildErrored, CanResume;
    if e.ResumeUpdateTask? { }
    else if e.Resume? { ResumeKeepsUpdates(s, e.op, e.wait, e.blocked, e.spawn, e.healthy); }
    else if e.Stop? || e.Shutdown? || e.PrepareUpdate? { StopKeepsUpdates(s, e, u); }
    else { OthersKeepUpdates(s, e); }
  }

  lemma StopKeepsUpdates(s: State, e: Event, u: nat)
    requires Inv(s) && Enabled(s, e) && (e.Stop? || e.Shutdown? || e.PrepareUpdate?)
    ensures UpdateResolved(Step(s, e), u) ==> UpdateResolved(s, u)
  {
    hide ProcessesOk, GateOk, Ground, ReleasedOk, BeginStop;
    if s.ledger.stopping.None? { BeginStopLedgers(s); }
  }

  lemma BeginStopLedgers(s: State)
    requires Known(s.procs)
    ensures forall gate :: BeginStop(s.(gate := gate, timer := false)).ledger.updates == s.ledger.updates
  {
    hide TerminateAll;
  }

  lemma OthersKeepUpdates(s: State, e: Event)
    requires Enabled(s, e)
    requires !(e.Stop? || e.Shutdown? || e.PrepareUpdate? || e.Resume? || e.ResumeUpdateTask?)
    ensures Step(s, e).ledger.updates == s.ledger.updates
  {
    hide Exit, ResumeTermination, SettleTermination;
  }

  lemma ResumeKeepsUpdates(s: State, o: nat, w: WaitResult, blocked: bool, spawn: Spawn, healthy: bool)
    requires Inv(s) && o < |s.ledger.ops| && CanResume(s, o, w)
    ensures ResumeOp(s, o, w, blocked, spawn, healthy).ledger.updates == s.ledger.updates
  {
    var t := ResumeOp(s, o, w, blocked, spawn, healthy);
    if s.ledger.ops[o].pc.RestoreAnnounced? { if s.ledger.stopping.None? { BeginStopParts(s); } }
    else if !s.ledger.ops[o].pc.AwaitTerminations? { assert OwnStep(s, t, o); }
  }
}
