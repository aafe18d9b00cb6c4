/**
 * Between the release of a stop's slot and the settling of its promise anything may happen:
 * exactly when the promise can still settle over a child.
 */
module LifecycleOvertaking {
  import opened Prelude
  import opened Lifecycle
  import opened LifecycleInvariant
  import opened LifecycleSafety
  import opened LifecyclePromises
  import opened LifecycleProgress
  import opened LifecycleSteps

  /**
   * The startup or restore in progress cannot make way: it awaits the promise of stop `o`, or
   * it will require a recovery as soon as it goes on.
   */
  predicate MainBlocks(s: State, o: nat) {
    && HasMain(s) && Main(s).phase.Running?
    && match Main(s).pc
       case AwaitStop(x) => x == o
       case RestoreRefused => true
       case AwaitRestore(c, _) => c < |s.procs.children| && s.procs.children[c].result != Some(Some(0))
       case _ => false
  }

  /** No startup will be admitted before the promise of stop `o` settles. */
  predicate Shut(s: State, o: nat) { s.gate.closing || s.gate.recovery || MainBlocks(s, o) }

  predicate ReleasedStop(s: State, o: nat) {
    o < |s.ledger.ops| && s.ledger.ops[o].slot == StopSlot && s.ledger.ops[o].phase.Released?
  }

  // ---------------------------------------------------------------- behind a shut gate

  /** Stop `o` has released its slot, nothing is owned, and nothing can be launched before its promise settles. */
  predicate Barred(s: State, o: nat) { ReleasedStop(s, o) && s.procs.owned == [] && Shut(s, o) }

  /** A blocking startup or restore goes on only into a required recovery, and launches nothing. */
  lemma BlockerRecovers(s: State, o: nat, w: WaitResult, blocked: bool, spawn: Spawn, healthy: bool)
    requires ReleasedStop(s, o) && MainBlocks(s, o)
    requires CanResume(s, MainOp(s.ledger).value, w)
    ensures
      var t := ResumeOp(s, MainOp(s.ledger).value, w, blocked, spawn, healthy);
      t.gate.recovery && t.procs == s.procs
  {
  }

  /** Any operation that runs is the startup or restore in progress, or the stop. */
  lemma RunningIsMain(s: State, i: nat)
    requires LedgerOk(s.ledger) && i < |s.ledger.ops| && s.ledger.ops[i].phase.Running?
    ensures if s.ledger.ops[i].pc.AwaitTerminations? then s.ledger.stopping == Some(i) else MainOp(s.ledger) == Some(i)
  {
    assert OpFits(s.ledger, i);
  }

  lemma BarredLaunchesNothing(s: State, e: Event, o: nat)
    requires Inv(s) && Enabled(s, e) && Barred(s, o)
    ensures SameChildren(s, Step(s, e))
  {
    hide ProcessesOk, Ground, ReleasedOk, UpdatesOk, GateOk, LedgerOk, ResumeOp;
    LaunchesAreExclusive(s, e);
    if MainBlocks(s, o) && e.Resume? {
      RunningIsMain(s, e.op);
      if s.ledger.ops[e.op].pc.AwaitTerminations? { StoppingLaunchesNothing(s, e.op, e.wait, e.blocked, e.spawn, e.healthy); }
      else { BlockerRecovers(s, o, e.wait, e.blocked, e.spawn, e.healthy); }
    }
  }

  lemma StoppingLaunchesNothing(s: State, o: nat, w: WaitResult, blocked: bool, spawn: Spawn, healthy: bool)
    requires o < |s.ledger.ops| && CanResume(s, o, w) && s.ledger.ops[o].pc.AwaitTerminations?
    ensures ResumeOp(s, o, w, blocked, spawn, healthy).procs == s.procs
  {
  }

  /** Without a launch nothing owned stays nothing owned. */
  lemma OwnedStaysEmpty(s: State, t: State)
    requires ProcessesOk(s.procs) && ProcessesOk(t.procs) && s.procs.owned == []
    requires SameChildren(s, t) && ChildrenGrow(s.procs, t.procs)
    ensures t.procs.owned == []
  {
    AtMostOneOwned(t.procs);
    forall c: nat | c < |t.procs.children| ensures t.procs.owned != [c] { assert s.procs.owned != [c]; }
  }

  lemma AtMostOneOwned(p: Processes)
    requires OwnedExact(p)
    ensures p.owned == [] || (p.owned == [p.owned[0]] && p.owned[0] < |p.children|)
  {
  }

  /** A blocking startup or restore blocks on. */
  lemma BlockingStays(s: State, e: Event, o: nat)
    requires Inv(s) && Enabled(s, e) && Barred(s, o) && MainBlocks(s, o)
    requires Inv(Step(s, e)) && ChildrenGrow(s.procs, Step(s, e).procs)
    ensures Step(s, e).gate.recovery || MainBlocks(Step(s, e), o)
  {
    hide Ground, ReleasedOk, UpdatesOk, GateOk, Step, Enabled;
    var m := MainOp(s.ledger).value;
    if On(e, m) {
      MainResumes(s, e, o);
    } else {
      OthersUntouched(s, e, m);
      var t := Step(s, e);
      assert OpFits(s.ledger, m) && OpFits(t.ledger, m);
      assert MainOp(t.ledger) == Some(m);
      if s.ledger.ops[m].pc.AwaitRestore? { assert s.procs.owned != [s.ledger.ops[m].pc.child]; }
    }
  }

  lemma MainResumes(s: State, e: Event, o: nat)
    requires Enabled(s, e) && ReleasedStop(s, o) && MainBlocks(s, o) && On(e, MainOp(s.ledger).value)
    ensures Step(s, e).gate.recovery
  {
    hide ResumeOp, CanResume;
    assert e.Resume? by { OnlyResumesRunning(s, e, MainOp(s.ledger).value); }
    BlockerRecovers(s, o, e.wait, e.blocked, e.spawn, e.healthy);
  }

  lemma OnlyResumesRunning(s: State, e: Event, i: nat)
    requires Enabled(s, e) && i < |s.ledger.ops| && On(e, i)
    ensures s.ledger.ops[i].phase.Running? ==> e.Resume?
    ensures s.ledger.ops[i].phase.Released? ==> e.SettleOp?
  {
  }

  lemma BarredStep(s: State, e: Event, o: nat)
    requires Inv(s) && Enabled(s, e) && Barred(s, o) && e != SettleOp(o)
    ensures Barred(Step(s, e), o)
  {
    hide Step, Enabled, ProcessesOk, Ground, ReleasedOk, UpdatesOk, GateOk, LedgerOk, MainBlocks;
    var t := Step(s, e);
    StepKeeps(s, e);
    NothingIsUndone(s, e);
    ExitsAreFinal(s, e);
    BarredLaunchesNothing(s, e, o);
    OwnedStaysEmpty(s, t);
    if On(e, o) { OnlyResumesRunning(s, e, o); }
    OthersUntouched(s, e, o);
    if MainBlocks(s, o) { BlockingStays(s, e, o); }
  }

  lemma {:induction false} BarredStays(tr: seq<State>, es: seq<Event>, i: nat, j: nat, o: nat)
    requires IsRun(tr, es) && i <= j < |tr| && Barred(tr[i], o)
    ensures Barred(tr[j], o) || (o < |tr[j].ledger.ops| && tr[j].ledger.ops[o].phase.Settled?)
    decreases j - i
  {
    hide Step, Enabled, Inv, Barred;
    if i < j {
      BarredStays(tr, es, i, j - 1, o);
      RunStep(tr, es, j - 1);
      if Barred(tr[j - 1], o) && es[j - 1] != SettleOp(o) { BarredStep(tr[j - 1], es[j - 1], o); }
      else if Barred(tr[j - 1], o) { SettlingOnly(tr[j - 1], o); }
      else { RunGrows(tr, es, j - 1); assert OpKept(tr[j - 1].ledger.ops[o], tr[j].ledger.ops[o]); }
    }
  }

  lemma SettlingOnly(s: State, o: nat)
    requires Enabled(s, SettleOp(o))
    ensures
      var t := Step(s, SettleOp(o));
      t.procs == s.procs && o < |t.ledger.ops| && t.ledger.ops[o].phase.Settled? && s.ledger.ops[o].phase.Released?
  {
  }

  /** Behind a shut gate the promise never settles over a child. */
  lemma BarredNeverSettlesOverChild(tr: seq<State>, es: seq<Event>, n: nat, o: nat)
    requires IsRun(tr, es) && n < |es| && Barred(tr[n], o)
    ensures !JustSettledOverChild(tr, es, o)
  {
    hide Step, Enabled, Inv;
    RunLength(tr, es);
    var last := |es| - 1;
    BarredStays(tr, es, n, last, o);
    RunStep(tr, es, last);
    if es[last] == SettleOp(o) { SettlingOnly(tr[last], o); }
  }

  // ---------------------------------------------------------------- making way

  /**
   * Stop `o` has released its slot and nothing is owned; the startup or restore in progress,
   * if there is one, has been invalidated and does not block; a stop in progress is the one
   * that restore opened itself.
   */
  predicate Drivable(s: State, o: nat) {
    && ReleasedStop(s, o) && s.procs.owned == [] && !Shut(s, o)
    && (HasMain(s) ==> !MainCurrent(s))
    && (s.ledger.stopping.Some? ==>
          && HasMain(s) && Main(s).phase.Running? && Main(s).pc == AwaitStop(s.ledger.stopping.value)
          && s.ledger.stopping.value < |s.ledger.ops|
          && s.ledger.ops[s.ledger.stopping.value].pc == AwaitTerminations({}, false))
  }

  function TermRank(p: Processes, stop: TermAwait): nat {
    if !stop.Awaiting? || stop.term >= |p.terms| then 0
    else match p.terms[stop.term].phase
      case TermSettled(_) => 0
      case TermFinished(_) => 1
      case _ => 2
  }

  function PhaseRank(phase: Phase): nat {
    match phase
    case Settled(_, _) => 0
    case Released(_, _) => 1
    case Finished(_) => 2
    case Finishing(_) => 3
    case Running => 4
  }

  /** How many steps the startup or restore in progress still needs before it has made way. */
  function Rank(s: State): nat {
    if !HasMain(s) then 0
    else if !Main(s).phase.Running? then PhaseRank(Main(s).phase)
    else match Main(s).pc
      case AwaitMigrationStop(stop) => 4 + TermRank(s.procs, stop)
      case AwaitServerStop(stop) => 4 + TermRank(s.procs, stop)
      case AwaitStop(x) => 4 + if x < |s.ledger.ops| then PhaseRank(s.ledger.ops[x].phase) else 0
      case RestoreAnnounced => 9
      case _ => 4
  }

  lemma NudgePhase(s: State, o: nat) returns (e: Event)
    requires Inv(s) && Drivable(s, o) && HasMain(s) && !Main(s).phase.Running?
    ensures Enabled(s, e) && Drivable(Step(s, e), o) && Rank(Step(s, e)) < Rank(s)
  {
    hide ProcessesOk, Ground, ReleasedOk, UpdatesOk, GateOk;
    var m := MainOp(s.ledger).value;
    assert OpFits(s.ledger, m);
    e := if Main(s).phase.Finishing? then Conclude(m) else ReleaseOp(m);
  }

  /** An awaited termination of a child that is gone goes on at once. */
  lemma NudgeTerm(s: State, o: nat, stop: TermAwait) returns (e: Event)
    requires Inv(s) && Timely(s) && Drivable(s, o) && HasMain(s) && Main(s).phase.Running?
    requires (Main(s).pc == AwaitMigrationStop(stop) || Main(s).pc == AwaitServerStop(stop)) && StopResult(s.procs, stop).None?
    ensures Enabled(s, e) && Drivable(Step(s, e), o) && Rank(Step(s, e)) < Rank(s)
  {
    hide Ground, ReleasedOk, UpdatesOk, GateOk, LedgerOk;
    var t := stop.term;
    assert OpFitsIn(s, MainOp(s.ledger).value);
    assert TermFits(s.procs, s.now, t);
    var c := s.procs.terms[t].child;
    assert s.procs.owned != [c];
    e := if s.procs.terms[t].phase.TermFinished? then SettleTerm(t)
         else ResumeTerm(t, Exited(s.procs.children[c].result.value));
  }

  /** The stop that an invalidated restore awaits goes on, as it has nothing to stop. */
  lemma NudgeStop(s: State, o: nat, x: nat) returns (e: Event)
    requires Inv(s) && Timely(s) && Drivable(s, o) && HasMain(s) && Main(s).phase.Running? && Main(s).pc == AwaitStop(x)
    requires x < |s.ledger.ops| && !s.ledger.ops[x].phase.Settled?
    ensures Enabled(s, e) && Drivable(Step(s, e), o) && Rank(Step(s, e)) < Rank(s)
  {
    hide ProcessesOk, ReleasedOk, UpdatesOk, GateOk;
    assert OpFits(s.ledger, x) && OpFits(s.ledger, MainOp(s.ledger).value);
    assert s.ledger.ops[x].slot == StopSlot;
    assert s.ledger.ops[x].phase.Running? ==> AllStopped(s.procs, {}) && !SomeUnstopped(s.procs, {});
    e := match s.ledger.ops[x].phase
      case Running => Resume(x, TimedOut, false, SpawnThrows, false)
      case Finishing(_) => Conclude(x)
      case Finished(_) => ReleaseOp(x)
      case _ => SettleOp(x);
  }

  /** An invalidated restore that has not begun its stop opens one with nothing to stop. */
  lemma NudgeAnnounced(s: State, o: nat) returns (e: Event)
    requires Inv(s) && Drivable(s, o) && HasMain(s) && Main(s).phase.Running? && Main(s).pc.RestoreAnnounced?
    ensures Enabled(s, e) && Drivable(Step(s, e), o) && Rank(Step(s, e)) < Rank(s)
  {
    hide Ground, ReleasedOk, UpdatesOk, GateOk, ServingOwned, WritersSpared;
    var m := MainOp(s.ledger).value;
    assert OpFits(s.ledger, m);
    TerminateAllOwned(s.procs, s.now);
    e := Resume(m, TimedOut, false, SpawnThrows, false);
  }

  /** An invalidated startup or restore ends when it goes on, and leaves everything else alone. */
  lemma StaleMainEnds(s: State, m: nat, w: WaitResult)
    requires m < |s.ledger.ops| && CanResume(s, m, w) && !OpCurrent(s, m)
    requires
      match s.ledger.ops[m].pc
      case RestoreAnnounced => false
      case RestoreRefused => false
      case AwaitTerminations(_, _) => false
      case AwaitRestore(_, _) => w == Exited(Some(0))
      case _ => true
    ensures
      var t := ResumeOp(s, m, w, false, SpawnThrows, false);
      t.gate == s.gate && (t.ledger.ops[m].phase.Finished? || t.ledger.ops[m].phase.Finishing?)
  {
  }

  /** Anything else an invalidated startup or restore awaits has happened, and going on it ends. */
  lemma NudgeOther(s: State, o: nat) returns (e: Event)
    requires Inv(s) && Timely(s) && Drivable(s, o) && HasMain(s) && Main(s).phase.Running?
    requires
      match Main(s).pc
      case AwaitMigrationStop(stop) => StopResult(s.procs, stop).Some?
      case AwaitServerStop(stop) => StopResult(s.procs, stop).Some?
      case AwaitStop(x) => x < |s.ledger.ops| && s.ledger.ops[x].phase.Settled?
      case RestoreAnnounced => false
      case _ => true
    ensures Enabled(s, e) && Drivable(Step(s, e), o) && Rank(Step(s, e)) < Rank(s)
  {
    var w := OtherCanResume(s, o);
    var m := MainOp(s.ledger).value;
    e := Resume(m, w, false, SpawnThrows, false);
    OtherEnds(s, o, w);
  }

  lemma OtherCanResume(s: State, o: nat) returns (w: WaitResult)
    requires Inv(s) && Timely(s) && Drivable(s, o) && HasMain(s) && Main(s).phase.Running?
    requires
      match Main(s).pc
      case AwaitMigrationStop(stop) => StopResult(s.procs, stop).Some?
      case AwaitServerStop(stop) => StopResult(s.procs, stop).Some?
      case AwaitStop(x) => x < |s.ledger.ops| && s.ledger.ops[x].phase.Settled?
      case RestoreAnnounced => false
      case _ => true
    ensures CanResume(s, MainOp(s.ledger).value, w)
    ensures Main(s).pc.AwaitRestore? ==> w == Exited(Some(0))
    ensures !Main(s).pc.AwaitTerminations? && !Main(s).pc.RestoreRefused?
    ensures Main(s).pc.AwaitStop? ==> s.ledger.stopping != Some(Main(s).pc.stopOp)
  {
    hide ReleasedOk, UpdatesOk, GateOk, Ground, TermsFit;
    var m := MainOp(s.ledger).value;
    assert OpFits(s.ledger, m) && OpFitsIn(s, m);
    var pc := Main(s).pc;
    if pc.AwaitStop? { assert OpFits(s.ledger, pc.stopOp); }
    if pc.AwaitMigration? || pc.AwaitRetry? || pc.AwaitRestore? {
      assert s.procs.owned != [pc.child];
      w := Exited(s.procs.children[pc.child].result.value);
    } else {
      w := TimedOut;
    }
  }

  lemma OtherEnds(s: State, o: nat, w: WaitResult)
    requires LedgerOk(s.ledger) && Drivable(s, o) && HasMain(s) && CanResume(s, MainOp(s.ledger).value, w)
    requires !Main(s).pc.RestoreAnnounced? && !Main(s).pc.RestoreRefused? && !Main(s).pc.AwaitTerminations?
    requires Main(s).pc.AwaitRestore? ==> w == Exited(Some(0))
    requires Main(s).pc.AwaitStop? ==> s.ledger.stopping != Some(Main(s).pc.stopOp)
    ensures
      var t := ResumeOp(s, MainOp(s.ledger).value, w, false, SpawnThrows, false);
      Drivable(t, o) && Rank(t) < Rank(s)
  {
    hide ResumeOp, OpCurrent, CanResume, TermRank;
    var m := MainOp(s.ledger).value;
    assert !OpCurrent(s, m) by { NotCurrent(s); }
    StaleMainEnds(s, m, w);
    OwnSteps(s, m, w);
    var t := ResumeOp(s, m, w, false, SpawnThrows, false);
    assert OpFits(s.ledger, m);
  }

  lemma NotCurrent(s: State)
    requires HasMain(s) && !MainCurrent(s)
    ensures !OpCurrent(s, MainOp(s.ledger).value)
  {
  }

  lemma OwnSteps(s: State, m: nat, w: WaitResult)
    requires m < |s.ledger.ops| && CanResume(s, m, w)
    requires !s.ledger.ops[m].pc.RestoreAnnounced? && !s.ledger.ops[m].pc.AwaitTerminations?
    ensures s.ledger.ops[m].phase.Running? && OwnStep(s, ResumeOp(s, m, w, false, SpawnThrows, false), m)
  {
    hide OwnStep;
  }

  lemma Nudge(s: State, o: nat) returns (e: Event)
    requires Inv(s) && Timely(s) && Drivable(s, o) && HasMain(s)
    ensures Enabled(s, e) && Drivable(Step(s, e), o) && Rank(Step(s, e)) < Rank(s)
  {
    hide Step, Enabled, Drivable, Rank, Inv, Timely;
    var main := Main(s);
    if !main.phase.Running? { e := NudgePhase(s, o); }
    else if main.pc.RestoreAnnounced? { e := NudgeAnnounced(s, o); }
    else if main.pc.AwaitMigrationStop? && StopResult(s.procs, main.pc.stop).None? { e := NudgeTerm(s, o, main.pc.stop); }
    else if main.pc.AwaitServerStop? && StopResult(s.procs, main.pc.stop).None? { e := NudgeTerm(s, o, main.pc.stop); }
    else if main.pc.AwaitStop? {
      AwaitedExists(s);
      if s.ledger.ops[main.pc.stopOp].phase.Settled? { e := NudgeOther(s, o); }
      else { e := NudgeStop(s, o, main.pc.stopOp); }
    }
    else { e := NudgeOther(s, o); }
  }

  lemma AwaitedExists(s: State)
    requires Timely(s) && HasMain(s) && Main(s).pc.AwaitStop?
    ensures Main(s).pc.stopOp < |s.ledger.ops|
  {
    assert OpFitsIn(s, MainOp(s.ledger).value);
  }

  /** From a run behind which the startup or restore in progress can make way, to one in which it has. */
  lemma MakesWay(tr: seq<State>, es: seq<Event>, o: nat) returns (tr1: seq<State>, es1: seq<Event>)
    requires IsRun(tr, es) && Drivable(tr[|es|], o)
    ensures IsRun(tr1, es1) && tr <= tr1 && es <= es1 && Drivable(tr1[|es1|], o) && !HasMain(tr1[|es1|])
    decreases Rank(tr[|es|])
  {
    hide IsRun, Step, Enabled, Drivable, Rank, Inv, Timely;
    RunLength(tr, es);
    var s := tr[|es|];
    tr1, es1 := tr, es;
    if HasMain(s) {
      RunKeepsInv(tr, es, |es|);
      RunIsTimely(tr, es, |es|);
      var e := Nudge(s, o);
      var tr2, es2 := Extend(tr, es, e, Step(s, e));
      tr1, es1 := MakesWay(tr2, es2, o);
    }
  }

  /** Once nothing is in the way, a startup is admitted and launches before the promise settles. */
  lemma ClearedIsOvertaken(tr: seq<State>, es: seq<Event>, o: nat)
    requires IsRun(tr, es) && Drivable(tr[|es|], o) && !HasMain(tr[|es|])
    ensures CanSettleOverChild(tr, es, o)
  {
    hide IsRun, StepsTo, Inv;
    RunLength(tr, es);
    var s := tr[|es|];
    RunKeepsInv(tr, es, |es|);
    NothingInProgress(s, o);
    var s1, s2, s3 := RestartBeforeSettling(s, o);
    var tr1, es1 := Extend(tr, es, Start(false), s1);
    var tr2, es2 := Extend(tr1, es1, Resume(|s.ledger.ops|, TimedOut, false, Spawned(true), false), s2);
    var tr3, es3 := Extend(tr2, es2, SettleOp(o), s3);
    RunLength(tr3, es3);
    assert JustSettledOverChild(tr3, es3, o);
  }

  lemma NothingInProgress(s: State, o: nat)
    requires Inv(s) && Drivable(s, o) && !HasMain(s)
    ensures s.ledger.starting.None? && s.ledger.restoring.None? && s.ledger.stopping.None?
    ensures !s.gate.closing && !s.gate.recovery
  {
    hide ProcessesOk, Ground, ReleasedOk, UpdatesOk, GateOk;
  }

  /** When a successful stop gives up its slot, whatever is in progress beside a promise that does not block has been invalidated. */
  lemma ReleasedIsDrivable(tr: seq<State>, es: seq<Event>, o: nat)
    requires IsRun(tr, es) && |es| > 0 && es[|es| - 1] == ReleaseOp(o)
    requires
      var before := tr[|es| - 1];
      o < |before.ledger.ops| && before.ledger.ops[o].slot == StopSlot && Succeeded(before.ledger.ops[o])
    ensures ReleasedStop(tr[|es|], o) && tr[|es|].procs.owned == []
    ensures !Shut(tr[|es|], o) ==> Drivable(tr[|es|], o)
  {
    hide IsRun, ProcessesOk, LedgerOk, GateOk, UpdatesOk, Ground;
    RunLength(tr, es);
    RunStep(tr, es, |es| - 1);
    ReleasedStopOwnsNothing(tr, es, |es| - 1, o);
    var s := tr[|es|];
    assert s.ledger.ops[o].phase == Released(Resolved, s.gate.generation);
    assert ReleaseOk(s, o);
  }

  /**
   * When a successful stop has given up its slot, whatever else is in progress, its promise
   * can still settle over a child exactly when the gate is not shut: no shutdown has begun, no
   * recovery is required, and no restore is in progress that awaits this very promise or can
   * only end in a required recovery.
   */
  lemma StopSettlesOverChildExactly(tr: seq<State>, es: seq<Event>, o: nat)
    requires IsRun(tr, es) && |es| > 0 && es[|es| - 1] == ReleaseOp(o)
    requires
      var before := tr[|es| - 1];
      o < |before.ledger.ops| && before.ledger.ops[o].slot == StopSlot && Succeeded(before.ledger.ops[o])
    ensures CanSettleOverChild(tr, es, o) <==> !Shut(tr[|es|], o)
  {
    hide Inv, IsRun, StepsTo, Shut, Drivable;
    RunLength(tr, es);
    ReleasedIsDrivable(tr, es, o);
    var n := |es|;
    if Shut(tr[n], o) {
      forall tr1: seq<State>, es1: seq<Event> | IsRun(tr1, es1) && tr <= tr1 && es <= es1 ensures !JustSettledOverChild(tr1, es1, o) {
        RunLength(tr1, es1);
        assert tr1[n] == tr[n];
        if n < |es1| { BarredNeverSettlesOverChild(tr1, es1, n, o); } else { assert es1 == es; }
      }
    } else {
      var tr1, es1 := MakesWay(tr, es, o);
      RunLength(tr1, es1);
      ClearedIsOvertaken(tr1, es1, o);
      var tr2: seq<State>, es2: seq<Event> :| IsRun(tr2, es2) && tr1 <= tr2 && es1 <= es2 && JustSettledOverChild(tr2, es2, o);
      assert tr <= tr2 && es <= es2;
    }
  }

  /**
   * The promise settles over a child after no more than one call of `start`, whose first step
   * runs within the call; that fits between the release of the slot and the settling.
   */
  ghost predicate OvertakenAtOnce(s: State, o: nat) {
    exists e1: Event, e2: Event, s1: State, s2: State, s3: State ::
      && e1.Start? && StepsTo(s, e1, s1)
      && e2.Resume? && e2.op == |s.ledger.ops| && StepsTo(s1, e2, s2)
      && StepsTo(s2, SettleOp(o), s3) && s3.procs.owned != []
  }

  lemma NoAdmissionNoOperation(s: State, e: Event)
    requires e.Start?
    ensures |Step(s, e).ledger.ops| > |s.ledger.ops| ==>
              !s.gate.closing && !s.gate.recovery && s.ledger.starting.None? && s.ledger.restoring.None?
  {
  }

  lemma NeedsItsOperation(s: State, e: Event)
    requires e.Resume? && Enabled(s, e)
    ensures e.op < |s.ledger.ops|
  {
  }

  /** Even in that narrow window it can happen, exactly when the gate is open and nothing else is in progress. */
  lemma StopIsOvertakenAtOnceExactly(tr: seq<State>, es: seq<Event>, o: nat)
    requires IsRun(tr, es) && |es| > 0 && es[|es| - 1] == ReleaseOp(o)
    requires
      var before := tr[|es| - 1];
      o < |before.ledger.ops| && before.ledger.ops[o].slot == StopSlot && Succeeded(before.ledger.ops[o])
    ensures
      var s := tr[|es|];
      OvertakenAtOnce(s, o)
      <==> !s.gate.closing && !s.gate.recovery && s.ledger.starting.None? && s.ledger.restoring.None?
  {
    hide Inv, IsRun, Step, Enabled;
    RunLength(tr, es);
    var s := tr[|es|];
    RunStep(tr, es, |es| - 1);
    ReleasedIsDrivable(tr, es, o);
    ReleasedStopOwnsNothing(tr, es, |es| - 1, o);
    if !s.gate.closing && !s.gate.recovery && s.ledger.starting.None? && s.ledger.restoring.None? {
      var s1, s2, s3 := RestartBeforeSettling(s, o);
    }
    if OvertakenAtOnce(s, o) {
      var e1: Event, e2: Event, s1: State, s2: State, s3: State :|
        && e1.Start? && StepsTo(s, e1, s1)
        && e2.Resume? && e2.op == |s.ledger.ops| && StepsTo(s1, e2, s2)
        && StepsTo(s2, SettleOp(o), s3) && s3.procs.owned != [];
      NoAdmissionNoOperation(s, e1);
      NeedsItsOperation(s1, e2);
    }
  }

  /** Without a launch in between, nothing owned stays nothing owned. */
  lemma {:induction false} OwnedNeedsALaunch(tr: seq<State>, es: seq<Event>, i: nat, j: nat)
    requires IsRun(tr, es) && i <= j < |tr| && tr[i].procs.owned == [] && tr[j].procs.owned != []
    ensures exists k: nat :: i <= k < j && LaunchesAt(tr, k)
    decreases j - i
  {
    hide Step, Enabled, IsRun, ProcessesOk, GateOk, LedgerOk, Ground, ReleasedOk, UpdatesOk;
    RunLength(tr, es);
    if i < j && !LaunchesAt(tr, i) {
      RunStep(tr, es, i);
      RunGrows(tr, es, i);
      OwnedStaysEmpty(tr[i], tr[i + 1]);
      OwnedNeedsALaunch(tr, es, i + 1, j);
    }
  }

  /**
   * When the promise of a successful stop does settle over a child, that child was launched
   * since the slot was released, under a newer generation and past a gate that was not shut.
   */
  lemma OvertakenByALaunch(tr: seq<State>, es: seq<Event>, n: nat, i: nat, o: nat)
    requires IsRun(tr, es) && n < i < |es| && es[n] == ReleaseOp(o) && es[i] == SettleOp(o)
    requires o < |tr[n].ledger.ops| && tr[n].ledger.ops[o].slot == StopSlot && Succeeded(tr[n].ledger.ops[o])
    requires tr[i + 1].procs.owned != []
    ensures !Shut(tr[n + 1], o) && o < |tr[i].ledger.ops| && tr[i].ledger.ops[o].phase.Released?
    ensures tr[i].ledger.ops[o].phase.at < tr[i].gate.generation
    ensures exists k: nat :: n < k < i && LaunchesAt(tr, k)
  {
    hide Step, Enabled, IsRun, Inv, Shut;
    RunLength(tr, es);
    ReleasedStopOwnsNothing(tr, es, n, o);
    ReleasedThen(tr, es, n, o);
    RunStep(tr, es, i);
    SettlingOnly(tr[i], o);
    if Shut(tr[n + 1], o) { BarredStays(tr, es, n + 1, i, o); }
    VerdictStays(tr, es, n + 1, i, o);
    SettledStopOwnsNothing(tr, es, i, o);
    OwnedNeedsALaunch(tr, es, n + 1, i);
  }

  lemma ReleasedThen(tr: seq<State>, es: seq<Event>, n: nat, o: nat)
    requires IsRun(tr, es) && n < |es| && es[n] == ReleaseOp(o) && o < |tr[n].ledger.ops|
    requires tr[n].ledger.ops[o].slot == StopSlot && Succeeded(tr[n].ledger.ops[o])
    ensures ReleasedStop(tr[n + 1], o) && Succeeded(tr[n + 1].ledger.ops[o])
  {
    hide Inv, IsRun;
    RunStep(tr, es, n);
  }

  /** A verdict stays what it was. */
  lemma {:induction false} VerdictStays(tr: seq<State>, es: seq<Event>, i: nat, j: nat, o: nat)
    requires IsRun(tr, es) && i <= j < |tr| && o < |tr[i].ledger.ops|
    requires tr[i].ledger.ops[o].slot == StopSlot && Succeeded(tr[i].ledger.ops[o])
    ensures o < |tr[j].ledger.ops| && tr[j].ledger.ops[o].slot == StopSlot && Succeeded(tr[j].ledger.ops[o])
    decreases j - i
  {
    hide IsRun, Inv, Step, Enabled;
    RunLength(tr, es);
    if i < j {
      RunGrows(tr, es, i);
      assert OpKept(tr[i].ledger.ops[o], tr[i + 1].ledger.ops[o]);
      VerdictStays(tr, es, i + 1, j, o);
    }
  }
}
