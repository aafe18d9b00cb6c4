/**
 * One inductive invariant of the lifecycle protocol, kept by every event.
 */
module LifecycleInvariant {
  import opened Prelude
  import opened Lifecycle

  // ---------------------------------------------------------------- processes

  /** The owned set is exactly the children without an exit, and there is at most one. */
  ghost predicate OwnedExact(p: Processes) {
    && |p.owned| <= 1
    && Known(p)
    && forall c: nat :: c < |p.children| ==> (p.children[c].result.None? <==> p.owned == [c])
  }

  /** A restore writer is never killed; whatever a termination kills is not one. */
  ghost predicate WritersSpared(p: Processes) {
    && (forall t: nat :: t < |p.terms| ==>
          p.terms[t].child < |p.children| && p.children[p.terms[t].child].kind != Restore)
    && (forall c: nat :: c < |p.children| && p.children[c].kind == Restore ==>
          p.children[c].kills == 0 && !p.children[c].stopRequested)
  }

  predicate ServingOwned(p: Processes) {
    p.serving.Some? ==>
      p.owned == [p.serving.value] && p.serving.value < |p.children| && p.children[p.serving.value].kind == Serve
  }

  ghost predicate ProcessesOk(p: Processes) {
    var ownership := OwnedExact(p) && ServingOwned(p);
    ownership && WritersSpared(p)
  }

  lemma WithoutOnly(owned: seq<nat>, c: nat)
    requires |owned| <= 1
    ensures Without(owned, c) == if owned == [c] then [] else owned
  {
    if |owned| == 1 { assert owned[1..] == []; assert owned == [owned[0]]; }
  }

  lemma LaunchedOk(p: Processes, kind: ChildKind, generation: nat, hasPid: bool)
    requires ProcessesOk(p) && p.owned == []
    ensures ProcessesOk(Launched(p, kind, generation, hasPid))
    ensures Launched(p, kind, generation, hasPid).owned == [|p.children|]
  {
    var q := Launched(p, kind, generation, hasPid);
    assert q.owned == [|p.children|];
    forall c: nat | c < |q.children|
      ensures q.children[c].result.None? <==> q.owned == [c]
    {
      if c < |p.children| {
        assert q.children[c] == p.children[c];
        assert q.owned[0] != [c][0];
      }
    }
  }

  lemma ExitOk(p: Processes, c: nat, code: Option<int>)
    requires ProcessesOk(p) && c < |p.children| && p.children[c].result.None?
    ensures ProcessesOk(Exit(p, c, code)) && Exit(p, c, code).owned == []
    ensures Exit(p, c, code).serving.None?
  {
    WithoutOnly(p.owned, c);
    var q := Exit(p, c, code);
    forall d: nat | d < |q.children|
      ensures q.children[d].result.None? <==> q.owned == [d]
    {
      assert p.owned == [c] && ([c] == [d] ==> c == d) by { assert [c][0] == c && [d][0] == d; }
    }
    if p.serving.Some? { assert p.owned[0] == p.serving.value; assert p.owned[0] == c; }
  }

  lemma TerminateOk(p: Processes, c: nat, now: nat)
    requires ProcessesOk(p) && c < |p.children|
    ensures ProcessesOk(Terminate(p, c, now).0)
    ensures Terminate(p, c, now).0.owned == p.owned && Terminate(p, c, now).0.serving == p.serving
    ensures Terminate(p, c, now).1.RefusesToKill? ==> p.children[c].kind == Restore
  {
  }

  /** With at most one owned child, stopping the owned set is stopping that child. */
  lemma TerminateAllOwned(p: Processes, now: nat)
    requires |p.owned| <= 1 && Known(p)
    ensures
      TerminateAll(p, p.owned, now) ==
      if p.owned == [] then (p, {}, false)
      else
        var (q, stop) := Terminate(p, p.owned[0], now);
        (q, if stop.Awaiting? then {stop.term} else {}, stop.RefusesToKill?)
  {
    if p.owned != [] {
      var (q, stop) := Terminate(p, p.owned[0], now);
      assert p.owned[1..] == [];
      assert TerminateAll(q, p.owned[1..], now) == (q, {}, false);
      if stop.Awaiting? { assert {} + {stop.term} == {stop.term}; }
    }
  }

  /** Children differ at most in what a termination marks on them. */
  predicate SameButMarks(p: Processes, q: Processes)  {
    && q.owned == p.owned && q.serving == p.serving && |q.children| == |p.children|
    && forall c: nat :: c < |p.children| ==> Unmarked(q.children[c]) == Unmarked(p.children[c])
  }

  function Unmarked(c: Child): Child { c.(stopRequested := false, termination := None, kills := 0) }

  lemma TerminateAllOk(p: Processes, now: nat)
    requires ProcessesOk(p)
    ensures ProcessesOk(TerminateAll(p, p.owned, now).0) && SameButMarks(p, TerminateAll(p, p.owned, now).0)
  {
    TerminateAllOwned(p, now);
    if p.owned != [] { TerminateOk(p, p.owned[0], now); }
  }

  lemma FailedOk(p: Processes, c: nat)
    requires ProcessesOk(p) && c < |p.children|
    ensures ProcessesOk(p.(children := p.children[c := p.children[c].(failed := true)]))
  {
  }

  lemma ResumeTerminationOk(p: Processes, t: nat, w: WaitResult, now: nat)
    requires ProcessesOk(p) && t < |p.terms|
    ensures ProcessesOk(ResumeTermination(p, t, w, now))
  {
  }

  lemma SettleTerminationOk(p: Processes, t: nat)
    requires ProcessesOk(p) && t < |p.terms| && p.terms[t].phase.TermFinished?
    ensures ProcessesOk(SettleTermination(p, t))
  {
  }

  // ---------------------------------------------------------------- gate

  ghost predicate GateOk(g: Gate) {
    && (forall a :: a in g.aborted ==> a <= g.generation)
    && (g.controller.Some? ==> g.controller.value <= g.generation)
  }

  // ---------------------------------------------------------------- ledger

  predicate SlotHolds(l: Ledger, slot: Slot) {
    var v := SlotOf(l, slot);
    v.Some? ==> v.value < |l.ops| && l.ops[v.value].slot == slot
  }

  predicate OpFits(l: Ledger, o: nat)
    requires o < |l.ops|
  {
    && (Active(l.ops[o]) <==> SlotOf(l, l.ops[o].slot) == Some(o))
    && (l.ops[o].slot == StopSlot <==> l.ops[o].pc.AwaitTerminations?)
  }

  /** An operation is unfinished exactly while it occupies its slot; startup excludes restore. */
  ghost predicate LedgerOk(l: Ledger) {
    && (forall o: nat :: o < |l.ops| ==> OpFits(l, o))
    && SlotHolds(l, StartSlot) && SlotHolds(l, StopSlot) && SlotHolds(l, RestoreSlot)
    && (l.starting.None? || l.restoring.None?)
  }

  lemma TrackOk(l: Ledger, slot: Slot, generation: nat, pc: Pc, phase: Phase)
    requires LedgerOk(l) && SlotOf(l, slot).None?
    requires slot == StopSlot <==> pc.AwaitTerminations?
    requires phase.Running? || phase.Finishing?
    requires slot != StopSlot ==> l.starting.None? && l.restoring.None?
    ensures LedgerOk(Track(l, slot, generation, pc, phase))
  {
    var m := Track(l, slot, generation, pc, phase);
    forall o: nat | o < |m.ops| ensures OpFits(m, o) {
      if o < |l.ops| { assert m.ops[o] == l.ops[o] && OpFits(l, o); }
    }
  }

  lemma ChangeOk(l: Ledger, o: nat, op: Op)
    requires LedgerOk(l) && o < |l.ops|
    requires op.slot == l.ops[o].slot && Active(op) == Active(l.ops[o])
    requires op.slot == StopSlot <==> op.pc.AwaitTerminations?
    ensures LedgerOk(l.(ops := l.ops[o := op]))
  {
    var m := l.(ops := l.ops[o := op]);
    forall i: nat | i < |m.ops| ensures OpFits(m, i) { assert OpFits(l, i); }
  }

  lemma ReleaseSlotOk(l: Ledger, o: nat, at: nat)
    requires LedgerOk(l) && o < |l.ops| && l.ops[o].phase.Finished?
    ensures LedgerOk(ReleaseSlot(l, o, at))
    ensures SlotOf(l, l.ops[o].slot) == Some(o)
  {
    var m := ReleaseSlot(l, o, at);
    assert OpFits(l, o);
    forall i: nat | i < |m.ops| ensures OpFits(m, i) { assert OpFits(l, i); }
  }

  // ---------------------------------------------------------------- across the parts

  /** The startup or restore in progress; the two exclude each other. */
  function MainOp(l: Ledger): Option<nat> {
    if l.starting.Some? then l.starting else l.restoring
  }

  predicate HasMain(s: State) {
    MainOp(s.ledger).Some? && MainOp(s.ledger).value < |s.ledger.ops|
  }

  function Main(s: State): Op
    requires HasMain(s)
  {
    s.ledger.ops[MainOp(s.ledger).value]
  }

  predicate MainCurrent(s: State) { HasMain(s) && IsCurrent(s.gate, Main(s).generation) }

  predicate Calm(s: State) { !s.timer && s.status.state != Ready }

  predicate OwnsAtMost(p: Processes, c: nat) { p.owned == [] || p.owned == [c] }

  predicate ChildIs(p: Processes, c: nat, kind: ChildKind) { c < |p.children| && p.children[c].kind == kind }

  /** What the running startup or restore may rely on; `current` says nobody invalidated it. */
  predicate RunningOk(s: State, op: Op, current: bool) {
    match op.pc
    case StartupAnnounced => current ==> s.procs.owned == [] && !s.gate.recovery && Calm(s)
    case AwaitMigration(c, _) =>
      ChildIs(s.procs, c, Migration) && (current ==> OwnsAtMost(s.procs, c) && !s.gate.recovery && Calm(s))
    case AwaitHealth(c, _) => ServerOk(s, op, c) && (current ==> Calm(s) && !s.procs.children[c].stopRequested)
    case AwaitRetry(c, _, _) => ServerOk(s, op, c) && (current ==> Calm(s) && !s.procs.children[c].stopRequested)
    case ReadyAnnounced(c) => ServerOk(s, op, c) && (current ==> !s.procs.children[c].stopRequested)
    case RestoreAnnounced => !s.timer && (current ==> !s.gate.recovery && Calm(s))
    case AwaitStop(x) =>
      && !s.timer
      && x < |s.ledger.ops| && s.ledger.ops[x].slot == StopSlot
      && (current ==>
            && !s.gate.recovery && Calm(s)
            && (!Active(s.ledger.ops[x]) ==> s.ledger.ops[x].phase.at == s.gate.generation)
            && (s.ledger.ops[x].phase.Settled? && s.ledger.ops[x].phase.outcome == Resolved ==> s.procs.owned == []))
    case RestoreApplying => !s.timer && (current ==> s.procs.owned == [] && !s.gate.recovery && Calm(s))
    case RestoreRefused => !s.timer
    case AwaitRestore(c, _) => !s.timer && ChildIs(s.procs, c, Restore) && OwnsAtMost(s.procs, c) && !s.gate.recovery
    case _ => true
  }

  predicate ServerOk(s: State, op: Op, c: nat) {
    ChildIs(s.procs, c, Serve) && s.procs.children[c].generation == op.generation
  }

  predicate MainOk(s: State, op: Op) {
    var current := IsCurrent(s.gate, op.generation);
    && op.generation <= s.gate.generation
    && (current ==> s.gate.controller == Some(op.generation) && !s.gate.closing)
    && (current && s.ledger.stopping.Some? ==> op.phase.Running? && op.pc == AwaitStop(s.ledger.stopping.value))
    && (op.phase.Running? ==> RunningOk(s, op, current))
  }

  predicate MainsOk(s: State) { HasMain(s) ==> MainOk(s, Main(s)) }

  predicate Succeeded(op: Op) { !op.phase.Running? && op.phase.outcome == Resolved }

  /** While the backend is being stopped no backup timer runs; the verdict is visible before it is reported. */
  predicate StopOk(s: State) {
    s.ledger.stopping.Some? && s.ledger.stopping.value < |s.ledger.ops| ==>
      var op := s.ledger.ops[s.ledger.stopping.value];
      && !s.timer
      && (!op.phase.Running? ==> s.status.state != Ready)
      && (Succeeded(op) ==> s.procs.owned == [])
  }

  /** The serving child is live, unharmed and of the current, un-aborted generation. */
  predicate Healthy(s: State) {
    && s.procs.serving.Some? && s.procs.serving.value < |s.procs.children|
    && s.procs.children[s.procs.serving.value].generation == s.gate.generation
    && s.gate.generation !in s.gate.aborted
    && !s.procs.children[s.procs.serving.value].stopRequested
  }

  predicate ReadyOk(s: State) {
    && (s.status.state == Ready ==> s.ledger.stopping.Some? || Healthy(s))
    && (s.timer ==> s.status.state == Ready && s.ledger.stopping.None?)
  }

  /** A live restore writer is still observed, or the session is marked for recovery. */
  predicate WriterOk(s: State) {
    s.procs.owned != [] && ChildIs(s.procs, s.procs.owned[0], Restore) ==>
      || s.gate.recovery
      || (HasMain(s) && Main(s).phase.Running? && Main(s).pc.AwaitRestore? && Main(s).pc.child == s.procs.owned[0])
  }

  predicate Ground(s: State) {
    var operations := MainsOk(s) && StopOk(s);
    var children := ReadyOk(s) && WriterOk(s);
    operations && children
  }

  /** A stop that succeeded left nothing owned, as long as its generation lasts. */
  predicate ReleaseOk(s: State, o: nat)
    requires o < |s.ledger.ops| && s.ledger.ops[o].phase.Released?
  {
    var op := s.ledger.ops[o];
    && op.phase.at <= s.gate.generation
    && (op.slot == StopSlot && op.phase.outcome == Resolved && op.phase.at == s.gate.generation ==>
          s.procs.owned == [] && (MainCurrent(s) ==> Main(s).phase.Running? && Main(s).pc == AwaitStop(o)))
  }

  ghost predicate ReleasedOk(s: State) {
    forall o: nat :: o < |s.ledger.ops| && s.ledger.ops[o].phase.Released? ==> ReleaseOk(s, o)
  }

  /** A stop awaited after closing: once it has succeeded nothing is owned any more. */
  predicate Draining(s: State, o: nat) {
    && s.gate.closing && o < |s.ledger.ops| && s.ledger.ops[o].slot == StopSlot
    && (Succeeded(s.ledger.ops[o]) ==> s.procs.owned == [])
  }

  ghost predicate UpdatesOk(s: State) {
    forall u: nat :: u < |s.ledger.updates| && s.ledger.updates[u].AwaitShutdown? ==>
      Draining(s, s.ledger.updates[u].stopOp)
  }

  ghost predicate Inv(s: State) {
    var parts := ProcessesOk(s.procs) && GateOk(s.gate) && LedgerOk(s.ledger);
    var agreement := Ground(s) && ReleasedOk(s) && UpdatesOk(s);
    parts && agreement
  }

  lemma InitialInv()
    ensures Inv(INITIAL)
  {
  }

  // ---------------------------------------------------------------- steps of the startup or restore

  /** A step of the main operation leaves finished stops and pending updates as they were. */
  lemma MainStepFrame(s: State, t: State, o: nat)
    requires LedgerOk(s.ledger) && MainsOk(s) && ReleasedOk(s) && UpdatesOk(s)
    requires MainOp(s.ledger) == Some(o) && o < |s.ledger.ops| && s.ledger.ops[o].slot != StopSlot
    requires o < |t.ledger.ops| && t.ledger == s.ledger.(ops := s.ledger.ops[o := t.ledger.ops[o]])
    requires t.ledger.ops[o].generation == s.ledger.ops[o].generation && t.ledger.ops[o].slot == s.ledger.ops[o].slot
    requires !t.ledger.ops[o].phase.Released?
    requires t.gate.(recovery := false) == s.gate.(recovery := false)
    requires !OpCurrent(s, o) ==> t.procs.owned == s.procs.owned
    requires OpCurrent(s, o) && s.ledger.ops[o].pc.AwaitStop? && s.ledger.ops[o].pc.stopOp < |s.ledger.ops| ==>
               !s.ledger.ops[s.ledger.ops[o].pc.stopOp].phase.Released?
    ensures ReleasedOk(t) && UpdatesOk(t)
  {
    assert MainOp(t.ledger) == Some(o);
    forall i: nat | i < |t.ledger.ops| && t.ledger.ops[i].phase.Released?
      ensures ReleaseOk(t, i)
    {
      assert i != o && t.ledger.ops[i] == s.ledger.ops[i] && ReleaseOk(s, i);
    }
    forall u: nat | u < |t.ledger.updates| && t.ledger.updates[u].AwaitShutdown?
      ensures Draining(t, t.ledger.updates[u].stopOp)
    {
      assert Draining(s, s.ledger.updates[u].stopOp);
    }
  }

  /** The part of the invariant that speaks of single operations and children only. */
  predicate View(s: State, o: nat) {
    && Ground(s) && ServingOwned(s.procs) && |s.procs.owned| <= 1
    && SlotHolds(s.ledger, StartSlot) && SlotHolds(s.ledger, StopSlot) && SlotHolds(s.ledger, RestoreSlot)
    && MainOp(s.ledger) == Some(o) && o < |s.ledger.ops|
    && s.ledger.ops[o].slot != StopSlot && s.ledger.ops[o].phase.Running?
  }

  lemma StartupGround(s: State, o: nat, blocked: bool, spawn: Spawn)
    requires View(s, o) && s.ledger.ops[o].pc.StartupAnnounced?
    ensures Ground(ResumeStartup(s, o, blocked, spawn))
  {
  }

  lemma MigrationGround(s: State, o: nat, w: WaitResult, blocked: bool, spawn: Spawn)
    requires View(s, o) && s.ledger.ops[o].pc.AwaitMigration? && s.ledger.ops[o].pc.child < |s.procs.children|
    requires w.Exited? ==> s.procs.owned != [s.ledger.ops[o].pc.child]
    ensures Ground(ResumeMigration(s, o, w, blocked, spawn))
  {
  }

  lemma FailGround(s: State, o: nat, error: Note)
    requires View(s, o) && !s.ledger.ops[o].pc.AwaitRestore? && !s.ledger.ops[o].pc.AwaitStop? && !s.ledger.ops[o].pc.AwaitTerminations?
    ensures Ground(FailStartup(s, o, error))
  {
    var t := FailStartup(s, o, error);
    assert HasMain(t) && Main(t) == t.ledger.ops[o] && !Main(t).phase.Running?;
    assert MainsOk(t);
    assert StopOk(t) && ReadyOk(t);
  }

  lemma HealthGround(s: State, o: nat, healthy: bool)
    requires View(s, o) && s.ledger.ops[o].pc.AwaitHealth? && s.ledger.ops[o].pc.child < |s.procs.children|
    ensures Ground(ResumeHealth(s, o, healthy))
  {
  }

  lemma RetryGround(s: State, o: nat, w: WaitResult)
    requires View(s, o) && s.ledger.ops[o].pc.AwaitRetry? && s.ledger.ops[o].pc.child < |s.procs.children|
    ensures Ground(ResumeRetry(s, o, w))
  {
  }

  lemma ReadyGround(s: State, o: nat)
    requires View(s, o) && s.ledger.ops[o].pc.ReadyAnnounced? && s.ledger.ops[o].pc.child < |s.procs.children|
    ensures Ground(ResumeReady(s, o))
  {
  }

  lemma RestoreStoppedGround(s: State, o: nat, stopped: Outcome)
    requires View(s, o) && s.ledger.ops[o].pc.AwaitStop?
    requires s.ledger.ops[s.ledger.ops[o].pc.stopOp].phase.Settled? && stopped == s.ledger.ops[s.ledger.ops[o].pc.stopOp].phase.outcome
    requires s.ledger.stopping != Some(s.ledger.ops[o].pc.stopOp)
    ensures Ground(ResumeRestoreStopped(s, o, stopped))
  {
  }

  lemma ApplyingGround(s: State, o: nat, blocked: bool, spawn: Spawn)
    requires View(s, o) && s.ledger.ops[o].pc.RestoreApplying?
    ensures Ground(ResumeApplying(s, o, blocked, spawn))
  {
  }

  lemma RefusedGround(s: State, o: nat)
    requires View(s, o) && s.ledger.ops[o].pc.RestoreRefused?
    ensures Ground(RequireRecovery(s, o, RecoveryRequired))
  {
  }

  lemma RestoredGround(s: State, o: nat, w: WaitResult, blocked: bool)
    requires View(s, o) && s.ledger.ops[o].pc.AwaitRestore? && s.ledger.ops[o].pc.child < |s.procs.children|
    requires w.Exited? ==> s.procs.owned != [s.ledger.ops[o].pc.child]
    ensures Ground(ResumeRestored(s, o, w, blocked))
  {
  }

  // ---------------------------------------------------------------- stopping

  /** What opening a stop does to the processes and the ledger. */
  lemma BeginStopParts(s: State)
    requires ProcessesOk(s.procs) && LedgerOk(s.ledger) && s.ledger.stopping.None?
    ensures
      var t := BeginStop(s);
      && ProcessesOk(t.procs) && SameButMarks(s.procs, t.procs) && LedgerOk(t.ledger)
      && t.gate == s.gate && !t.timer
      && |t.ledger.ops| == |s.ledger.ops| + 1
      && var op := t.ledger.ops[|s.ledger.ops|];
         && op.slot == StopSlot && !Succeeded(op) && Active(op)
         && t.ledger == s.ledger.(ops := s.ledger.ops + [op], stopping := Some(|s.ledger.ops|))
         && (if op.phase.Running? then t.status == s.status else t.status.state == Degraded)
  {
    TerminateAllOk(s.procs, s.now);
    var op := BeginStop(s).ledger.ops[|s.ledger.ops|];
    TrackOk(s.ledger, StopSlot, op.generation, op.pc, op.phase);
  }

  /** Opening a stop keeps everything but, possibly, the agreement with a restore that opened it. */
  lemma BeginStopKeeps(s: State)
    requires ProcessesOk(s.procs) && LedgerOk(s.ledger) && s.ledger.stopping.None?
    requires MainsOk(s) && WriterOk(s) && ReleasedOk(s) && UpdatesOk(s)
    requires MainCurrent(s) ==> Main(s).phase.Running? && Main(s).pc.RestoreAnnounced?
    ensures
      var t := BeginStop(s);
      && ProcessesOk(t.procs) && LedgerOk(t.ledger) && StopOk(t) && ReadyOk(t) && WriterOk(t)
      && ReleasedOk(t) && UpdatesOk(t) && (!MainCurrent(s) ==> MainsOk(t))
      && MainOp(t.ledger) == MainOp(s.ledger) && t.gate == s.gate && !t.timer && t.procs.owned == s.procs.owned
      && (s.status.state != Ready ==> t.status.state != Ready)
      && t.ledger.stopping == Some(|s.ledger.ops|) && |t.ledger.ops| == |s.ledger.ops| + 1
      && t.ledger.ops[..|s.ledger.ops|] == s.ledger.ops && Active(t.ledger.ops[|s.ledger.ops|])
  {
    hide BeginStop, WritersSpared, ServingOwned, ReleasedOk, UpdatesOk, RunningOk;
    BeginStopParts(s);
    var t := BeginStop(s);
    BeginStopFrame(s, t);
    if HasMain(s) && !MainCurrent(s) && Main(s).phase.Running? { StaleStaysOk(s, t, Main(s)); }
  }

  /** What an invalidated operation may rely on does not depend on what a stop changes. */
  lemma StaleStaysOk(s: State, t: State, op: Op)
    requires RunningOk(s, op, false) && SameButMarks(s.procs, t.procs) && s.gate == t.gate && !t.timer
    requires |s.ledger.ops| <= |t.ledger.ops| && t.ledger.ops[..|s.ledger.ops|] == s.ledger.ops
    ensures RunningOk(t, op, false)
  {
    forall c: nat | c < |s.procs.children|
      ensures t.procs.children[c].kind == s.procs.children[c].kind && t.procs.children[c].generation == s.procs.children[c].generation
    {
      assert Unmarked(t.procs.children[c]) == Unmarked(s.procs.children[c]);
    }
    if op.pc.AwaitStop? { assert t.ledger.ops[op.pc.stopOp] == t.ledger.ops[..|s.ledger.ops|][op.pc.stopOp]; }
  }

  lemma BeginStopFrame(s: State, t: State)
    requires MainsOk(s) && ReleasedOk(s) && UpdatesOk(s)
    requires |t.ledger.ops| == |s.ledger.ops| + 1 && t.gate == s.gate && t.procs.owned == s.procs.owned
    requires t.ledger == s.ledger.(ops := s.ledger.ops + [t.ledger.ops[|s.ledger.ops|]], stopping := t.ledger.stopping)
    requires Active(t.ledger.ops[|s.ledger.ops|])
    requires MainOp(s.ledger).Some? ==> MainOp(s.ledger).value < |s.ledger.ops|
    ensures ReleasedOk(t) && UpdatesOk(t)
  {
    forall o: nat | o < |t.ledger.ops| && t.ledger.ops[o].phase.Released?
      ensures ReleaseOk(t, o)
    {
      assert t.ledger.ops[o] == s.ledger.ops[o] && ReleaseOk(s, o);
    }
    forall u: nat | u < |t.ledger.updates| && t.ledger.updates[u].AwaitShutdown?
      ensures Draining(t, t.ledger.updates[u].stopOp)
    {
      assert Draining(s, s.ledger.updates[u].stopOp);
    }
  }

  /** A restore opens, or joins, the stop it then awaits. */
  lemma RestoreBeginKeeps(s: State, o: nat)
    requires Inv(s) && View(s, o) && s.ledger.ops[o].pc.RestoreAnnounced?
    ensures Inv(ResumeRestore(s, o))
  {
    var s1 := EnsureStopped(s).0;
    if s.ledger.stopping.None? { BeginStopKeeps(s); }
    var t := ResumeRestore(s, o);
    assert OpFits(s.ledger, o);
    assert s1.ledger.ops[o] == s.ledger.ops[o];
    assert OpFits(s1.ledger, s1.ledger.stopping.value);
    ChangeOk(s1.ledger, o, t.ledger.ops[o]);
    RestoreBeginGround(s, s1, o, t);
    if OpCurrent(s, o) { assert s.ledger.stopping.None?; }
    RestoreBeginFrame(s1, o, t);
  }

  lemma RestoreBeginGround(s: State, s1: State, o: nat, t: State)
    requires View(s, o) && s.ledger.ops[o].pc.RestoreAnnounced?
    requires o < |s1.ledger.ops| && s1.ledger.ops[o] == s.ledger.ops[o] && s1.gate == s.gate
    requires MainOp(s1.ledger) == Some(o) && WriterOk(s1) && StopOk(s1) && ReadyOk(s1)
    requires s1.ledger.stopping.Some? && s1.ledger.stopping.value < |s1.ledger.ops|
    requires s1.ledger.stopping.value != o
    requires s1.ledger.ops[s1.ledger.stopping.value].slot == StopSlot && Active(s1.ledger.ops[s1.ledger.stopping.value])
    requires !s1.timer && (s.status.state != Ready ==> s1.status.state != Ready)
    requires t == Move(s1, o, AwaitStop(s1.ledger.stopping.value))
    ensures Ground(t)
  {
  }

  lemma RestoreBeginFrame(s: State, o: nat, t: State)
    requires ReleasedOk(s) && UpdatesOk(s) && MainOp(s.ledger) == Some(o) && o < |s.ledger.ops|
    requires s.ledger.ops[o].phase.Running? && s.ledger.ops[o].pc.RestoreAnnounced? && s.ledger.ops[o].slot != StopSlot
    requires s.ledger.stopping.Some? && t == Move(s, o, AwaitStop(s.ledger.stopping.value))
    ensures ReleasedOk(t) && UpdatesOk(t)
  {
    forall i: nat | i < |t.ledger.ops| && t.ledger.ops[i].phase.Released?
      ensures ReleaseOk(t, i)
    {
      assert i != o && ReleaseOk(s, i);
    }
    forall u: nat | u < |t.ledger.updates| && t.ledger.updates[u].AwaitShutdown?
      ensures Draining(t, t.ledger.updates[u].stopOp)
    {
      assert Draining(s, s.ledger.updates[u].stopOp);
    }
  }

  /** Steps of a stop operation itself, and the generic ends of every operation. */
  lemma StopGround(s: State, o: nat, allStopped: bool)
    requires Inv(s) && s.ledger.stopping == Some(o) && s.ledger.ops[o].phase.Running?
    ensures Ground(ResumeStop(s, o, allStopped))
  {
    assert OpFits(s.ledger, o);
    var t := ResumeStop(s, o, allStopped);
    assert MainsOk(t);
    assert StopOk(t) && ReadyOk(t) && WriterOk(t);
  }

  lemma StopKeeps(s: State, o: nat, allStopped: bool)
    requires Inv(s) && s.ledger.stopping == Some(o) && s.ledger.ops[o].phase.Running?
    ensures Inv(ResumeStop(s, o, allStopped))
  {
    var t := ResumeStop(s, o, allStopped);
    assert OpFits(s.ledger, o);
    ChangeOk(s.ledger, o, t.ledger.ops[o]);
    StopGround(s, o, allStopped);
    EndFrame(s, t, o);
  }

  /** Changing one operation's phase, short of releasing it, leaves the released ones alone. */
  lemma EndFrame(s: State, t: State, o: nat)
    requires ReleasedOk(s) && UpdatesOk(s) && LedgerOk(s.ledger) && o < |s.ledger.ops| && o < |t.ledger.ops|
    requires t.gate == s.gate && t.procs == s.procs
    requires t.ledger == s.ledger.(ops := s.ledger.ops[o := t.ledger.ops[o]])
    requires t.ledger.ops[o] == s.ledger.ops[o].(phase := t.ledger.ops[o].phase) && !t.ledger.ops[o].phase.Released?
    requires s.ledger.ops[o].phase.Running? ==> s.ledger.ops[o].slot == StopSlot
    requires Succeeded(t.ledger.ops[o]) ==> Succeeded(s.ledger.ops[o]) || s.procs.owned == []
    ensures ReleasedOk(t) && UpdatesOk(t)
  {
    assert OpFits(s.ledger, o);
    forall i: nat | i < |t.ledger.ops| && t.ledger.ops[i].phase.Released?
      ensures ReleaseOk(t, i)
    {
      assert i != o && ReleaseOk(s, i);
    }
    forall u: nat | u < |t.ledger.updates| && t.ledger.updates[u].AwaitShutdown?
      ensures Draining(t, t.ledger.updates[u].stopOp)
    {
      assert Draining(s, s.ledger.updates[u].stopOp);
    }
  }

  lemma ConcludeGround(s: State, o: nat)
    requires Ground(s) && o < |s.ledger.ops| && s.ledger.ops[o].phase.Finishing?
    ensures Ground(End(s, o, Finished(s.ledger.ops[o].phase.outcome)))
  {
    var t := End(s, o, Finished(s.ledger.ops[o].phase.outcome));
    assert HasMain(t) <==> HasMain(s);
    if HasMain(s) { assert MainOk(t, Main(t)); }
  }

  lemma ConcludeKeeps(s: State, o: nat)
    requires Inv(s) && o < |s.ledger.ops| && s.ledger.ops[o].phase.Finishing?
    ensures Inv(End(s, o, Finished(s.ledger.ops[o].phase.outcome)))
  {
    hide Ground, ProcessesOk, GateOk, ReleasedOk, UpdatesOk;
    ConcludeGround(s, o);
    var t := End(s, o, Finished(s.ledger.ops[o].phase.outcome));
    assert OpFits(s.ledger, o);
    ChangeOk(s.ledger, o, t.ledger.ops[o]);
    EndFrame(s, t, o);
  }

  lemma SettleGround(s: State, o: nat)
    requires Ground(s) && o < |s.ledger.ops| && s.ledger.ops[o].phase.Released? && ReleaseOk(s, o)
    requires s.ledger.stopping != Some(o) && MainOp(s.ledger) != Some(o)
    ensures Ground(Settle(s, o))
  {
    var t := Settle(s, o);
    if HasMain(s) {
      assert Main(t) == Main(s);
      assert MainOk(t, Main(t));
    }
  }

  lemma SettleKeeps(s: State, o: nat)
    requires Inv(s) && o < |s.ledger.ops| && s.ledger.ops[o].phase.Released?
    ensures Inv(Settle(s, o))
  {
    var t := Settle(s, o);
    assert OpFits(s.ledger, o) && ReleaseOk(s, o);
    ChangeOk(s.ledger, o, t.ledger.ops[o]);
    SettleGround(s, o);
    EndFrame(s, t, o);
  }

  lemma ReleaseGround(s: State, o: nat)
    requires Inv(s) && o < |s.ledger.ops| && s.ledger.ops[o].phase.Finished?
    ensures Ground(Release(s, o))
  {
    assert OpFits(s.ledger, o);
    var t := Release(s, o);
    if s.ledger.ops[o].slot != StopSlot {
      assert MainOp(s.ledger) == Some(o) && !HasMain(t);
    } else {
      assert t.ledger.stopping.None?;
    }
  }

  lemma ReleaseKeeps(s: State, o: nat)
    requires Inv(s) && o < |s.ledger.ops| && s.ledger.ops[o].phase.Finished?
    ensures Inv(Release(s, o))
  {
    var t := Release(s, o);
    assert OpFits(s.ledger, o);
    ReleaseSlotOk(s.ledger, o, s.gate.generation);
    ReleaseGround(s, o);
    forall i: nat | i < |t.ledger.ops| && t.ledger.ops[i].phase.Released?
      ensures ReleaseOk(t, i)
    {
      if i != o { assert ReleaseOk(s, i); }
    }
    forall u: nat | u < |t.ledger.updates| && t.ledger.updates[u].AwaitShutdown?
      ensures Draining(t, t.ledger.updates[u].stopOp)
    {
      assert Draining(s, s.ledger.updates[u].stopOp);
    }
  }

  // ---------------------------------------------------------------- steps outside the operations

  /** Without touching the operations, aborting more and owning less keeps the finished stops in order. */
  lemma QuietFrame(s: State, t: State)
    requires ReleasedOk(s) && UpdatesOk(s) && t.ledger == s.ledger
    requires s.gate.generation <= t.gate.generation && s.gate.aborted <= t.gate.aborted
    requires s.gate.closing ==> t.gate.closing
    requires t.procs.owned == s.procs.owned || t.procs.owned == []
    ensures ReleasedOk(t) && UpdatesOk(t)
  {
    forall i: nat | i < |t.ledger.ops| && t.ledger.ops[i].phase.Released?
      ensures ReleaseOk(t, i)
    {
      assert ReleaseOk(s, i);
    }
    forall u: nat | u < |t.ledger.updates| && t.ledger.updates[u].AwaitShutdown?
      ensures Draining(t, t.ledger.updates[u].stopOp)
    {
      assert Draining(s, s.ledger.updates[u].stopOp);
    }
  }

  lemma CompletedMain(s: State, c: nat, code: Option<int>)
    requires MainsOk(s) && c < |s.procs.children| && s.procs.owned == [c]
    requires Exit(s.procs, c, code).owned == []
    ensures MainsOk(Completed(s, c, code))
  {
    hide Without;
  }

  lemma CompletedGround(s: State, c: nat, code: Option<int>)
    requires Ground(s) && ServingOwned(s.procs) && c < |s.procs.children| && s.procs.owned == [c]
    requires Exit(s.procs, c, code).owned == [] && Exit(s.procs, c, code).serving.None?
    ensures Ground(Completed(s, c, code))
  {
    var t := Completed(s, c, code);
    if s.procs.serving.Some? { assert [s.procs.serving.value][0] == [c][0]; }
    CompletedMain(s, c, code);
    assert StopOk(t);
  }

  lemma CompletedKeeps(s: State, c: nat, code: Option<int>)
    requires Inv(s) && c < |s.procs.children|
    ensures Inv(Completed(s, c, code))
  {
    if s.procs.children[c].result.None? {
      ExitOk(s.procs, c, code);
      CompletedGround(s, c, code);
      QuietFrame(s, Completed(s, c, code));
    }
  }

  lemma ChildErroredKeeps(s: State, c: nat)
    requires Inv(s) && c < |s.procs.children|
    ensures Inv(ChildErrored(s, c))
  {
    if s.procs.children[c].result.None? {
      var failed := s.(procs := s.procs.(children := s.procs.children[c := s.procs.children[c].(failed := true)]));
      FailedOk(s.procs, c);
      MarksGround(s, failed);
      QuietFrame(s, failed);
      if !s.procs.children[c].hasPid { CompletedKeeps(failed, c, None); }
    }
  }

  /** Progress inside the process table that leaves kinds, generations and stop requests alone. */
  lemma MarksGround(s: State, t: State)
    requires Ground(s) && t == s.(procs := t.procs)
    requires t.procs.owned == s.procs.owned && t.procs.serving == s.procs.serving
    requires |t.procs.children| == |s.procs.children|
    requires forall c: nat :: c < |s.procs.children| ==>
      && t.procs.children[c].kind == s.procs.children[c].kind
      && t.procs.children[c].generation == s.procs.children[c].generation
      && t.procs.children[c].stopRequested == s.procs.children[c].stopRequested
    ensures Ground(t)
  {
    assert MainsOk(t);
  }

  lemma ResumeTermKeeps(s: State, t: nat, w: WaitResult)
    requires Inv(s) && t < |s.procs.terms|
    ensures Inv(s.(procs := ResumeTermination(s.procs, t, w, s.now)))
  {
    var u := s.(procs := ResumeTermination(s.procs, t, w, s.now));
    ResumeTerminationOk(s.procs, t, w, s.now);
    MarksGround(s, u);
    QuietFrame(s, u);
  }

  lemma SettleTermKeeps(s: State, t: nat)
    requires Inv(s) && t < |s.procs.terms| && s.procs.terms[t].phase.TermFinished?
    ensures Inv(s.(procs := SettleTermination(s.procs, t)))
  {
    var u := s.(procs := SettleTermination(s.procs, t));
    SettleTerminationOk(s.procs, t);
    MarksGround(s, u);
    QuietFrame(s, u);
  }

  lemma DegradeKeeps(s: State, note: Note)
    requires Inv(s)
    ensures Inv(Update(s.(timer := false), Degraded, note))
  {
    var t := Update(s.(timer := false), Degraded, note);
    assert MainsOk(t);
    QuietFrame(s, t);
  }

  lemma AdmitKeeps(s: State, slot: Slot, pc: Pc, note: Note)
    requires Inv(s) && s.ledger.starting.None? && s.ledger.restoring.None? && s.ledger.stopping.None?
    requires !s.gate.closing && !s.gate.recovery
    requires (slot == StartSlot && pc.StartupAnnounced? && s.procs.owned == []) || (slot == RestoreSlot && pc.RestoreAnnounced?)
    ensures Inv(Admit(s, slot, pc, note))
  {
    var t := Admit(s, slot, pc, note);
    TrackOk(s.ledger, slot, t.gate.generation, pc, Running);
    assert MainOk(t, Main(t));
    forall i: nat | i < |t.ledger.ops| && t.ledger.ops[i].phase.Released?
      ensures ReleaseOk(t, i)
    {
      assert t.ledger.ops[i] == s.ledger.ops[i] && ReleaseOk(s, i);
    }
    assert forall u: nat :: u < |s.ledger.updates| ==> !s.ledger.updates[u].AwaitShutdown?;
  }

  lemma StartKeeps(s: State, blocked: bool)
    requires Inv(s)
    ensures Inv(CallStart(s, blocked).0)
  {
    if blocked { DegradeKeeps(s, AdmissionBlocked); }
    else if CallStart(s, blocked).0 != s { AdmitKeeps(s, StartSlot, StartupAnnounced, Preparing); }
  }

  lemma CallRestoreKeeps(s: State, blocked: bool)
    requires Inv(s)
    ensures Inv(CallRestore(s, blocked).0)
  {
    if blocked { DegradeKeeps(s, AdmissionBlocked); }
    else if CallRestore(s, blocked).0 != s { AdmitKeeps(s, RestoreSlot, RestoreAnnounced, StoppingForRestore); }
  }

  /** After the invalidation nothing is current, so a stop can be opened or joined. */
  lemma InvalidatedOk(s: State, closing: bool)
    requires Inv(s)
    ensures
      var t := s.(gate := Invalidate(s.gate.(closing := closing || s.gate.closing)), timer := false);
      && GateOk(t.gate) && !MainCurrent(t) && MainsOk(t) && WriterOk(t) && ReleasedOk(t) && UpdatesOk(t)
      && (s.ledger.stopping.Some? ==> Inv(t))
  {
    var t := s.(gate := Invalidate(s.gate.(closing := closing || s.gate.closing)), timer := false);
    QuietFrame(s, t);
    assert MainsOk(t);
    assert StopOk(s) ==> StopOk(t);
  }

  lemma CallStopKeeps(s: State, closing: bool)
    requires Inv(s)
    ensures
      var (t, stopOp) := CallStop(s.(gate := s.gate.(closing := closing || s.gate.closing)));
      && Inv(t) && t.ledger.stopping == Some(stopOp) && t.gate.closing == (closing || s.gate.closing)
      && t.gate.generation == s.gate.generation + 1 && t.gate.controller == s.gate.controller
      && !t.timer && t.procs.owned == s.procs.owned && |t.procs.children| == |s.procs.children|
      && t.gate.recovery == s.gate.recovery && t.ledger.updates == s.ledger.updates
  {
    var s0 := s.(gate := Invalidate(s.gate.(closing := closing || s.gate.closing)), timer := false);
    InvalidatedOk(s, closing);
    if s.ledger.stopping.None? { BeginStopKeeps(s0); BeginStopParts(s0); }
  }

  lemma PrepareUpdateKeeps(s: State, blocked: bool)
    requires Inv(s)
    ensures Inv(CallPrepareUpdate(s, blocked).0)
  {
    if blocked { DegradeKeeps(s, AdmissionBlocked); }
    else if !s.gate.recovery && s.ledger.restoring.None? {
      CallStopKeeps(s, true);
      var (s1, stopOp) := CallShutdown(s);
      assert OpFits(s1.ledger, stopOp);
      AddUpdateKeeps(s1, stopOp);
    }
  }

  lemma AddUpdateKeeps(s: State, stopOp: nat)
    requires Inv(s) && Draining(s, stopOp)
    ensures Inv(s.(ledger := s.ledger.(updates := s.ledger.updates + [AwaitShutdown(stopOp)])))
  {
    var t := s.(ledger := s.ledger.(updates := s.ledger.updates + [AwaitShutdown(stopOp)]));
    UpdatesFrame(s, t);
    forall u: nat | u < |t.ledger.updates| && t.ledger.updates[u].AwaitShutdown?
      ensures Draining(t, t.ledger.updates[u].stopOp)
    {
      if u < |s.ledger.updates| { assert Draining(s, s.ledger.updates[u].stopOp); }
    }
  }

  /** The list of pending updates matters to nothing else. */
  lemma UpdatesFrame(s: State, t: State)
    requires LedgerOk(s.ledger) && Ground(s) && ReleasedOk(s)
    requires t == s.(ledger := s.ledger.(updates := t.ledger.updates))
    ensures LedgerOk(t.ledger) && Ground(t) && ReleasedOk(t)
  {
    forall o: nat | o < |t.ledger.ops| ensures OpFits(t.ledger, o) { assert OpFits(s.ledger, o); }
    forall i: nat | i < |t.ledger.ops| && t.ledger.ops[i].phase.Released? ensures ReleaseOk(t, i) { assert ReleaseOk(s, i); }
  }

  lemma ResumeUpdateKeeps(s: State, u: nat, stopped: Outcome, blocked: bool)
    requires Inv(s) && u < |s.ledger.updates|
    ensures Inv(ResumeUpdate(s, u, stopped, blocked))
  {
    var s1 := if stopped.Resolved? && blocked then RefuseAdmission(s) else s;
    DegradeKeeps(s, AdmissionBlocked);
    var t := ResumeUpdate(s, u, stopped, blocked);
    UpdatesFrame(s1, t);
    forall v: nat | v < |t.ledger.updates| && t.ledger.updates[v].AwaitShutdown?
      ensures Draining(t, t.ledger.updates[v].stopOp)
    {
      assert Draining(s1, s1.ledger.updates[v].stopOp);
    }
  }

  // ---------------------------------------------------------------- every event

  lemma StartupProcesses(s: State, o: nat, blocked: bool, spawn: Spawn)
    requires ProcessesOk(s.procs) && View(s, o) && s.ledger.ops[o].pc.StartupAnnounced?
    ensures ProcessesOk(ResumeStartup(s, o, blocked, spawn).procs)
  {
    if OpCurrent(s, o) && spawn.Spawned? { LaunchedOk(s.procs, Migration, s.ledger.ops[o].generation, spawn.hasPid); }
  }

  lemma MigrationProcesses(s: State, o: nat, w: WaitResult, blocked: bool, spawn: Spawn)
    requires ProcessesOk(s.procs) && View(s, o) && s.ledger.ops[o].pc.AwaitMigration? && s.ledger.ops[o].pc.child < |s.procs.children|
    requires w.Exited? ==> s.procs.owned != [s.ledger.ops[o].pc.child]
    ensures ProcessesOk(ResumeMigration(s, o, w, blocked, spawn).procs)
  {
    TerminateOk(s.procs, s.ledger.ops[o].pc.child, s.now);
    if OpCurrent(s, o) && w.Exited? && spawn.Spawned? { LaunchedOk(s.procs, Serve, s.ledger.ops[o].generation, spawn.hasPid); }
  }

  lemma ApplyingProcesses(s: State, o: nat, blocked: bool, spawn: Spawn)
    requires ProcessesOk(s.procs) && View(s, o) && s.ledger.ops[o].pc.RestoreApplying?
    ensures ProcessesOk(ResumeApplying(s, o, blocked, spawn).procs)
  {
    if OpCurrent(s, o) && spawn.Spawned? { LaunchedOk(s.procs, Restore, s.ledger.ops[o].generation, spawn.hasPid); }
  }

  /** A step of the running startup or restore leaves the process table in order. */
  lemma ResumeMainProcesses(s: State, o: nat, w: WaitResult, blocked: bool, spawn: Spawn, healthy: bool)
    requires ProcessesOk(s.procs) && View(s, o) && CanResume(s, o, w)
    requires !s.ledger.ops[o].pc.RestoreAnnounced? && !s.ledger.ops[o].pc.AwaitTerminations?
    ensures ProcessesOk(ResumeOp(s, o, w, blocked, spawn, healthy).procs)
  {
    match s.ledger.ops[o].pc
    case StartupAnnounced => StartupProcesses(s, o, blocked, spawn);
    case AwaitMigration(c, _) => MigrationProcesses(s, o, w, blocked, spawn);
    case AwaitHealth(c, _) => TerminateOk(s.procs, c, s.now);
    case AwaitRetry(c, _, _) => TerminateOk(s.procs, c, s.now);
    case RestoreApplying => ApplyingProcesses(s, o, blocked, spawn);
    case _ =>
  }

  lemma ResumeMainGround(s: State, o: nat, w: WaitResult, blocked: bool, spawn: Spawn, healthy: bool)
    requires Inv(s) && View(s, o) && CanResume(s, o, w)
    requires !s.ledger.ops[o].pc.RestoreAnnounced? && !s.ledger.ops[o].pc.AwaitTerminations?
    ensures Ground(ResumeOp(s, o, w, blocked, spawn, healthy))
  {
    var op := s.ledger.ops[o];
    match op.pc
    case StartupAnnounced => StartupGround(s, o, blocked, spawn);
    case AwaitMigration(_, _) => MigrationGround(s, o, w, blocked, spawn);
    case AwaitMigrationStop(stop) =>
      FailGround(s, o, if StopResult(s.procs, stop).value || stop.RefusesToKill? then StartupFailed else StopUnconfirmed);
    case CatchPending(error) => FailGround(s, o, error);
    case AwaitHealth(_, _) => HealthGround(s, o, healthy);
    case AwaitRetry(_, _, _) => RetryGround(s, o, w);
    case ReadyAnnounced(_) => ReadyGround(s, o);
    case AwaitServerStop(stop) =>
      FailGround(s, o, if StopResult(s.procs, stop).value || stop.RefusesToKill? then StartupFailed else StopUnconfirmed);
    case AwaitStop(x) =>
      assert OpFits(s.ledger, x);
      RestoreStoppedGround(s, o, s.ledger.ops[x].phase.outcome);
    case RestoreApplying => ApplyingGround(s, o, blocked, spawn);
    case RestoreRefused => RefusedGround(s, o);
    case AwaitRestore(_, _) => RestoredGround(s, o, w, blocked);
  }

  lemma ResumeMainKeeps(s: State, o: nat, w: WaitResult, blocked: bool, spawn: Spawn, healthy: bool)
    requires Inv(s) && View(s, o) && CanResume(s, o, w)
    requires !s.ledger.ops[o].pc.RestoreAnnounced? && !s.ledger.ops[o].pc.AwaitTerminations?
    ensures Inv(ResumeOp(s, o, w, blocked, spawn, healthy))
  {
    ResumeMainProcesses(s, o, w, blocked, spawn, healthy);
    ResumeMainGround(s, o, w, blocked, spawn, healthy);
    var t := ResumeOp(s, o, w, blocked, spawn, healthy);
    assert OwnStep(s, t, o);
    ChangeOk(s.ledger, o, t.ledger.ops[o]);
    MainStepFrame(s, t, o);
  }

  lemma ResumeKeeps(s: State, o: nat, w: WaitResult, blocked: bool, spawn: Spawn, healthy: bool)
    requires Inv(s) && o < |s.ledger.ops| && CanResume(s, o, w)
    ensures Inv(ResumeOp(s, o, w, blocked, spawn, healthy))
  {
    assert OpFits(s.ledger, o);
    var pc := s.ledger.ops[o].pc;
    if pc.AwaitTerminations? { StopKeeps(s, o, !pc.refused && !SomeUnstopped(s.procs, pc.terms)); }
    else if pc.RestoreAnnounced? { RestoreBeginKeeps(s, o); }
    else { ResumeMainKeeps(s, o, w, blocked, spawn, healthy); }
  }

  lemma TickKeeps(s: State, to: nat)
    requires Inv(s)
    ensures Inv(s.(now := to))
  {
    var t := s.(now := to);
    assert MainsOk(t);
    QuietFrame(s, t);
  }

  /** The invariant is inductive: no event in any order breaks it. */
  lemma StepKeeps(s: State, e: Event)
    requires Inv(s) && Enabled(s, e)
    ensures Inv(Step(s, e))
  {
    hide Inv, CallStart, CallStop, CallPrepareUpdate, CallRestore, ResumeOp, Completed, ChildErrored, ResumeUpdate, Release, Settle;
    match e
    case Start(blocked) => StartKeeps(s, blocked);
    case Stop => CallStopKeeps(s, false);
    case Shutdown => CallStopKeeps(s, true);
    case PrepareUpdate(blocked) => PrepareUpdateKeeps(s, blocked);
    case RestoreOffline(blocked) => CallRestoreKeeps(s, blocked);
    case ReportDegraded(text) => DegradeKeeps(s, Reported(text));
    case ChildExit(c, code) => CompletedKeeps(s, c, code);
    case ChildError(c) => ChildErroredKeeps(s, c);
    case Tick(to) => TickKeeps(s, to);
    case Resume(o, w, blocked, spawn, healthy) => ResumeKeeps(s, o, w, blocked, spawn, healthy);
    case Conclude(o) => ConcludeKeeps(s, o);
    case ResumeTerm(t, w) => ResumeTermKeeps(s, t, w);
    case SettleTerm(t) => SettleTermKeeps(s, t);
    case ReleaseOp(o) => ReleaseKeeps(s, o);
    case SettleOp(o) => SettleKeeps(s, o);
    case ResumeUpdateTask(u, blocked) =>
      ResumeUpdateKeeps(s, u, s.ledger.ops[s.ledger.updates[u].stopOp].phase.outcome, blocked);
  }
}
