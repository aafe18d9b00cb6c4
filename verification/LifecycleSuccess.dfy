/**
 * What the supervisor can always still achieve: from every reachable idle state a start can
 * bring the backend up, and a restore can be applied and the backend brought up behind it.
 */
module LifecycleSuccess {
  import opened Prelude
  import opened Lifecycle
  import opened LifecycleInvariant
  import opened LifecycleSafety
  import opened LifecyclePromises

  /** Nothing is owned, nothing is under way, and nothing bars a new operation. */
  predicate IdleAndOpen(s: State) {
    && s.procs.owned == [] && s.procs.serving.None?
    && s.ledger.starting.None? && s.ledger.stopping.None? && s.ledger.restoring.None?
    && !s.gate.closing && !s.gate.recovery
  }

  /** Operation `n` runs, is the current one, and is at `pc`. */
  predicate At(s: State, n: nat, slot: Slot, pc: Pc) {
    && n < |s.ledger.ops| && s.ledger.ops[n] == Op(slot, s.gate.generation, pc, Running)
    && s.gate.generation !in s.gate.aborted
  }

  /** The backend serves: a live server, reported as ready, with its backups scheduled. */
  predicate Serves(s: State) {
    && s.status == Status(Ready, Connected) && s.timer
    && s.procs.serving.Some? && s.procs.owned == [s.procs.serving.value]
    && Live(s, s.procs.serving.value) && s.procs.children[s.procs.serving.value].kind == Serve
  }

  lemma LastStep(tr: seq<State>, es: seq<Event>, e: Event) returns (tr1: seq<State>, es1: seq<Event>)
    requires IsRun(tr, es) && |tr| == |es| + 1 && Enabled(tr[|es|], e)
    ensures IsRun(tr1, es1) && |tr1| == |es1| + 1 == |es| + 2 && es1[|es|] == e && es <= es1 && tr <= tr1
    ensures tr1[|es1|] == Step(tr[|es|], e)
  {
    hide Step, Enabled;
    tr1, es1 := Extend(tr, es, e, Step(tr[|es|], e));
    hide IsRun;
    RunLength(tr1, es1);
  }

  // ---------------------------------------------------------------- one step each

  lemma MigrationStarts(s: State, n: nat, slot: Slot)
    requires At(s, n, slot, StartupAnnounced) && s.procs.owned == []
    ensures Enabled(s, Resume(n, TimedOut, false, Spawned(true), false))
    ensures
      var t, c := Step(s, Resume(n, TimedOut, false, Spawned(true), false)), |s.procs.children|;
      && At(t, n, slot, AwaitMigration(c, s.now + 60_000)) && t.procs.owned == [c]
      && Live(t, c) && t.procs.children[c].kind == Migration && t.procs.serving == s.procs.serving
  {
  }

  lemma MigrationEnds(s: State, n: nat, slot: Slot, c: nat, due: nat)
    requires At(s, n, slot, AwaitMigration(c, due)) && s.procs.owned == [c]
    requires Live(s, c) && s.procs.children[c].kind == Migration && s.procs.serving.None?
    ensures Enabled(s, ChildExit(c, Some(0)))
    ensures
      var t := Step(s, ChildExit(c, Some(0)));
      && At(t, n, slot, AwaitMigration(c, due)) && t.procs.owned == [] && t.procs.serving.None?
      && c < |t.procs.children| && t.procs.children[c].result == Some(Some(0))
  {
    assert Without([c], c) == [];
  }

  lemma ServerStarts(s: State, n: nat, slot: Slot, c: nat, due: nat)
    requires At(s, n, slot, AwaitMigration(c, due)) && s.procs.owned == []
    requires c < |s.procs.children| && s.procs.children[c].result == Some(Some(0))
    ensures Enabled(s, Resume(n, Exited(Some(0)), false, Spawned(true), false))
    ensures
      var t, d := Step(s, Resume(n, Exited(Some(0)), false, Spawned(true), false)), |s.procs.children|;
      && At(t, n, slot, AwaitHealth(d, s.now + 20_000)) && t.procs.owned == [d] && t.procs.serving == Some(d)
      && Live(t, d) && t.procs.children[d].kind == Serve && t.now == s.now
  {
  }

  lemma ServerAnswers(s: State, n: nat, slot: Slot, d: nat, deadline: nat)
    requires At(s, n, slot, AwaitHealth(d, deadline)) && s.now < deadline
    requires Live(s, d) && s.procs.serving == Some(d)
    ensures Enabled(s, Resume(n, TimedOut, false, SpawnThrows, true))
    ensures
      var t := Step(s, Resume(n, TimedOut, false, SpawnThrows, true));
      At(t, n, slot, ReadyAnnounced(d)) && t.procs == s.procs && t.status == Status(Ready, Connected)
  {
  }

  lemma BackupsStart(s: State, n: nat, slot: Slot, d: nat)
    requires At(s, n, slot, ReadyAnnounced(d)) && s.status == Status(Ready, Connected)
    requires Live(s, d) && s.procs.serving == Some(d)
    ensures Enabled(s, Resume(n, TimedOut, false, SpawnThrows, false))
    ensures
      var t := Step(s, Resume(n, TimedOut, false, SpawnThrows, false));
      && t.timer && t.procs == s.procs && t.status == s.status
      && n < |t.ledger.ops| && t.ledger.ops[n].phase == Finished(Resolved)
  {
  }

  lemma PromiseSettles(s: State, n: nat, outcome: Outcome)
    requires n < |s.ledger.ops| && s.ledger.ops[n].phase == Finished(outcome)
    ensures Enabled(s, ReleaseOp(n)) && Enabled(Step(s, ReleaseOp(n)), SettleOp(n))
    ensures
      var t := Step(Step(s, ReleaseOp(n)), SettleOp(n));
      && t.procs == s.procs && t.status == s.status && t.timer == s.timer && t.gate == s.gate && t.now == s.now
      && |t.ledger.ops| == |s.ledger.ops| && t.ledger.ops[n].phase == Settled(outcome, s.gate.generation)
      && (forall k :: 0 <= k < |s.ledger.ops| && k != n ==> t.ledger.ops[k] == s.ledger.ops[k])
  {
  }

  // ---------------------------------------------------------------- a startup

  /** An announced startup that is current can end with a serving backend. */
  lemma StartupCanSucceed(tr: seq<State>, es: seq<Event>, n: nat, slot: Slot)
    returns (tr1: seq<State>, es1: seq<Event>)
    requires IsRun(tr, es) && |tr| == |es| + 1 && At(tr[|es|], n, slot, StartupAnnounced)
    requires tr[|es|].procs.owned == [] && tr[|es|].procs.serving.None?
    ensures IsRun(tr1, es1) && |tr1| == |es1| + 1 && es <= es1 && tr <= tr1 && Serves(tr1[|es1|])
    ensures n < |tr1[|es1|].ledger.ops| && tr1[|es1|].ledger.ops[n].phase.Settled?
    ensures tr1[|es1|].ledger.ops[n].phase.outcome == Resolved
  {
    hide Step, Enabled, IsRun, At;
    var s := tr[|es|];
    var c := |s.procs.children|;
    MigrationStarts(s, n, slot);
    tr1, es1 := LastStep(tr, es, Resume(n, TimedOut, false, Spawned(true), false));
    MigrationEnds(tr1[|es1|], n, slot, c, s.now + 60_000);
    tr1, es1 := LastStep(tr1, es1, ChildExit(c, Some(0)));
    ServerStarts(tr1[|es1|], n, slot, c, s.now + 60_000);
    var now, d := tr1[|es1|].now, |tr1[|es1|].procs.children|;
    tr1, es1 := LastStep(tr1, es1, Resume(n, Exited(Some(0)), false, Spawned(true), false));
    ServerAnswers(tr1[|es1|], n, slot, d, now + 20_000);
    tr1, es1 := LastStep(tr1, es1, Resume(n, TimedOut, false, SpawnThrows, true));
    BackupsStart(tr1[|es1|], n, slot, d);
    tr1, es1 := LastStep(tr1, es1, Resume(n, TimedOut, false, SpawnThrows, false));
    PromiseSettles(tr1[|es1|], n, Resolved);
    tr1, es1 := LastStep(tr1, es1, ReleaseOp(n));
    tr1, es1 := LastStep(tr1, es1, SettleOp(n));
  }

  lemma StartAdmits(s: State)
    requires Inv(s) && IdleAndOpen(s)
    ensures Enabled(s, Start(false))
    ensures
      var t, n := Step(s, Start(false)), |s.ledger.ops|;
      && CallStart(s, false) == (t, Promised(n)) && At(t, n, StartSlot, StartupAnnounced)
      && t.procs == s.procs
  {
    hide Ground, ReleasedOk, UpdatesOk, LedgerOk, ProcessesOk;
  }

  /** In every run: a call to `start` on an idle supervisor that is open can bring the backend up. */
  lemma StartCanSucceed(tr: seq<State>, es: seq<Event>) returns (tr1: seq<State>, es1: seq<Event>)
    requires IsRun(tr, es) && |tr| == |es| + 1 && IdleAndOpen(tr[|es|])
    ensures IsRun(tr1, es1) && |tr1| == |es1| + 1 && es + [Start(false)] <= es1 && Serves(tr1[|es1|])
    ensures
      var n := |tr[|es|].ledger.ops|;
      && CallStart(tr[|es|], false).1 == Promised(n) && n < |tr1[|es1|].ledger.ops|
      && tr1[|es1|].ledger.ops[n].phase.Settled? && tr1[|es1|].ledger.ops[n].phase.outcome == Resolved
  {
    hide Step, Enabled, IsRun, At, Inv, CallStart;
    RunKeepsInv(tr, es, |es|);
    StartAdmits(tr[|es|]);
    tr1, es1 := LastStep(tr, es, Start(false));
    var begun := es1;
    tr1, es1 := StartupCanSucceed(tr1, es1, |tr[|es|].ledger.ops|, StartSlot);
    assert es + [Start(false)] == begun;
  }

  // ---------------------------------------------------------------- a restore

  lemma RestoreAdmits(s: State)
    requires Inv(s) && IdleAndOpen(s)
    ensures Enabled(s, RestoreOffline(false))
    ensures
      var t, n := Step(s, RestoreOffline(false)), |s.ledger.ops|;
      && CallRestore(s, false) == (t, Promised(n)) && At(t, n, RestoreSlot, RestoreAnnounced)
      && |t.ledger.ops| == n + 1 && t.procs == s.procs && t.ledger.stopping.None? && !t.gate.recovery
  {
    hide Ground, ReleasedOk, UpdatesOk, LedgerOk, ProcessesOk;
  }

  lemma RestoreStops(s: State, n: nat)
    requires At(s, n, RestoreSlot, RestoreAnnounced) && |s.ledger.ops| == n + 1
    requires s.procs.owned == [] && s.ledger.stopping.None?
    ensures Enabled(s, Resume(n, TimedOut, false, SpawnThrows, false))
    ensures
      var t := Step(s, Resume(n, TimedOut, false, SpawnThrows, false));
      && At(t, n, RestoreSlot, AwaitStop(n + 1)) && At(t, n + 1, StopSlot, AwaitTerminations({}, false))
      && t.procs == s.procs && t.gate == s.gate
  {
  }

  lemma EmptyStopEnds(s: State, n: nat)
    requires At(s, n, RestoreSlot, AwaitStop(n + 1)) && At(s, n + 1, StopSlot, AwaitTerminations({}, false))
    requires s.procs.owned == [] && !s.gate.recovery
    ensures Enabled(s, Resume(n + 1, TimedOut, false, SpawnThrows, false))
    ensures
      var r := Step(s, Resume(n + 1, TimedOut, false, SpawnThrows, false));
      && Enabled(r, Conclude(n + 1))
      && var t := Step(r, Conclude(n + 1));
         && At(t, n, RestoreSlot, AwaitStop(n + 1)) && n + 1 < |t.ledger.ops| && t.ledger.ops[n + 1].phase == Finished(Resolved)
         && t.procs == s.procs && t.gate == s.gate
  {
  }

  lemma RestoreApplies(s: State, n: nat)
    requires At(s, n, RestoreSlot, AwaitStop(n + 1)) && n + 1 < |s.ledger.ops|
    requires s.ledger.ops[n + 1].phase.Settled? && s.ledger.ops[n + 1].phase.outcome == Resolved
    ensures Enabled(s, Resume(n, TimedOut, false, SpawnThrows, false))
    ensures
      var t := Step(s, Resume(n, TimedOut, false, SpawnThrows, false));
      At(t, n, RestoreSlot, RestoreApplying) && t.procs == s.procs && t.gate == s.gate
  {
  }

  lemma RestoreRuns(s: State, n: nat)
    requires At(s, n, RestoreSlot, RestoreApplying) && s.procs.owned == [] && !s.gate.recovery
    ensures Enabled(s, Resume(n, TimedOut, false, Spawned(true), false))
    ensures
      var t, c := Step(s, Resume(n, TimedOut, false, Spawned(true), false)), |s.procs.children|;
      && At(t, n, RestoreSlot, AwaitRestore(c, s.now + 120_000)) && t.procs.owned == [c]
      && Live(t, c) && t.procs.children[c].kind == Restore && t.procs.serving == s.procs.serving && t.gate == s.gate
  {
  }

  lemma RestoreEnds(s: State, n: nat, c: nat, due: nat)
    requires At(s, n, RestoreSlot, AwaitRestore(c, due)) && s.procs.owned == [c]
    requires Live(s, c) && s.procs.children[c].kind == Restore && s.procs.serving.None? && !s.gate.recovery
    ensures Enabled(s, ChildExit(c, Some(0)))
    ensures
      var t := Step(s, ChildExit(c, Some(0)));
      && At(t, n, RestoreSlot, AwaitRestore(c, due)) && t.procs.owned == [] && t.procs.serving.None?
      && c < |t.procs.children| && t.procs.children[c].result == Some(Some(0))
  {
    assert Without([c], c) == [];
  }

  lemma RestoreGoesOn(s: State, n: nat, c: nat, due: nat)
    requires At(s, n, RestoreSlot, AwaitRestore(c, due)) && c < |s.procs.children|
    requires s.procs.children[c].result == Some(Some(0))
    ensures Enabled(s, Resume(n, Exited(Some(0)), false, SpawnThrows, false))
    ensures
      var t := Step(s, Resume(n, Exited(Some(0)), false, SpawnThrows, false));
      At(t, n, RestoreSlot, StartupAnnounced) && t.procs == s.procs
  {
  }

  /** The way from a called restore to the end of the stop it waits for. */
  lemma RestoreCanStop(tr: seq<State>, es: seq<Event>, n: nat) returns (tr1: seq<State>, es1: seq<Event>)
    requires IsRun(tr, es) && |tr| == |es| + 1 && At(tr[|es|], n, RestoreSlot, RestoreAnnounced)
    requires |tr[|es|].ledger.ops| == n + 1 && tr[|es|].procs.owned == [] && tr[|es|].ledger.stopping.None?
    requires !tr[|es|].gate.recovery && tr[|es|].procs.serving.None?
    ensures IsRun(tr1, es1) && |tr1| == |es1| + 1 && es <= es1 && tr <= tr1 && At(tr1[|es1|], n, RestoreSlot, RestoreApplying)
    ensures tr1[|es1|].procs == tr[|es|].procs && !tr1[|es1|].gate.recovery
  {
    hide Step, Enabled, IsRun;
    RestoreStops(tr[|es|], n);
    tr1, es1 := LastStep(tr, es, Resume(n, TimedOut, false, SpawnThrows, false));
    EmptyStopEnds(tr1[|es1|], n);
    tr1, es1 := LastStep(tr1, es1, Resume(n + 1, TimedOut, false, SpawnThrows, false));
    tr1, es1 := LastStep(tr1, es1, Conclude(n + 1));
    PromiseSettles(tr1[|es1|], n + 1, Resolved);
    tr1, es1 := LastStep(tr1, es1, ReleaseOp(n + 1));
    tr1, es1 := LastStep(tr1, es1, SettleOp(n + 1));
    RestoreApplies(tr1[|es1|], n);
    tr1, es1 := LastStep(tr1, es1, Resume(n, TimedOut, false, SpawnThrows, false));
  }

  /**
   * In every run: a restore called on an idle supervisor that is open can be applied, by a restore
   * child that exits with zero at event `at`, and bring the backend up behind it.
   */
  lemma RestoreCanSucceed(tr: seq<State>, es: seq<Event>) returns (tr1: seq<State>, es1: seq<Event>, at: nat)
    requires IsRun(tr, es) && |tr| == |es| + 1 && IdleAndOpen(tr[|es|])
    ensures IsRun(tr1, es1) && |tr1| == |es1| + 1 && es + [RestoreOffline(false)] <= es1 && Serves(tr1[|es1|])
    ensures
      var n, c := |tr[|es|].ledger.ops|, |tr[|es|].procs.children|;
      && CallRestore(tr[|es|], false).1 == Promised(n) && n < |tr1[|es1|].ledger.ops|
      && tr1[|es1|].ledger.ops[n].phase.Settled? && tr1[|es1|].ledger.ops[n].phase.outcome == Resolved
      && |es| < at < |es1| && es1[at] == ChildExit(c, Some(0)) && Live(tr1[at], c) && tr1[at].procs.children[c].kind == Restore
  {
    hide Step, Enabled, IsRun, At, Inv, CallRestore;
    RunKeepsInv(tr, es, |es|);
    var n, c := |tr[|es|].ledger.ops|, |tr[|es|].procs.children|;
    RestoreAdmits(tr[|es|]);
    tr1, es1 := LastStep(tr, es, RestoreOffline(false));
    var begun := es1;
    tr1, es1 := RestoreCanStop(tr1, es1, n);
    var now := tr1[|es1|].now;
    RestoreRuns(tr1[|es1|], n);
    tr1, es1 := LastStep(tr1, es1, Resume(n, TimedOut, false, Spawned(true), false));
    at := |es1|;
    var running := tr1[at];
    RestoreEnds(running, n, c, now + 120_000);
    tr1, es1 := LastStep(tr1, es1, ChildExit(c, Some(0)));
    assert tr1[at] == running;
    RestoreGoesOn(tr1[|es1|], n, c, now + 120_000);
    var tr2, es2 := LastStep(tr1, es1, Resume(n, Exited(Some(0)), false, SpawnThrows, false));
    assert tr2[at] == running && es2[at] == ChildExit(c, Some(0));
    tr1, es1 := StartupCanSucceed(tr2, es2, n, RestoreSlot);
    assert tr1[at] == running && es1[at] == ChildExit(c, Some(0));
    assert es + [RestoreOffline(false)] == begun;
  }
}
