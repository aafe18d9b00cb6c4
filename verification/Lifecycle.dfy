/**
 * The backend lifecycle protocol of apps/desktop/src/main/backend-supervisor.ts as a
 * transition system.  Every `await` and every status update (whose listeners may call
 * straight back into the supervisor) is a point where any other event may happen, so each
 * pending call is an operation with an explicit program counter.
 *
 * Children, operations and terminations are named by their position in the sequence that
 * holds them; an abort controller is named by the generation that created it.
 */
module Lifecycle {
  import opened Prelude

  const MIGRATION_MS: nat := 60_000
  const READINESS_MS: nat := 20_000
  const READINESS_POLL_MS: nat := 250
  const STOP_MS: nat := 5_000
  const FORCE_STOP_MS: nat := 2_000
  const RESTORE_OBSERVATION_MS: nat := 120_000

  datatype ChildKind = Migration | Serve | Restore

  datatype RunState = Stopped | Starting | Ready | Degraded

  /** The status messages and rejection reasons the code tells apart. */
  datatype Note =
    | NotStarted | Preparing | Connected | BackendStopped | StoppingForRestore | ApplyingRestore
    | RestoredNotRestarted | ExitedUnexpectedly | StartupFailed | AdmissionBlocked
    | StillRunning | RecoveryRequired | StopUnconfirmed | ShutdownBegun | ShutdownInProgress
    | StartupOrStopInProgress | RestoreCancelled | Reported(text: string)

  datatype Status = Status(state: RunState, note: Note)

  datatype Outcome = Resolved | Rejected(note: Note)

  /** What waiting for a child can yield; `Exited` carries the exit code, if there is one. */
  datatype WaitResult = Exited(code: Option<int>) | Errored | TimedOut | Cancelled

  /** What spawning can do: throw, or yield a child that has or never got a process id. */
  datatype Spawn = SpawnThrows | Spawned(hasPid: bool)

  // ---------------------------------------------------------------- processes

  datatype Child = Child(
    kind: ChildKind,
    generation: nat,
    hasPid: bool,
    result: Option<Option<int>>,
    failed: bool,
    stopRequested: bool,
    termination: Option<nat>,
    kills: nat)

  /** Progress of `terminateOwned`; a hard wait without a due time began after the exit. */
  datatype TermPhase = SoftWait(due: nat) | HardWait(hardDue: Option<nat>) | TermFinished(ok: bool) | TermSettled(ok: bool)

  datatype Term = Term(child: nat, phase: TermPhase)

  /** What a caller of `terminate` then awaits. */
  datatype TermAwait = NothingToStop | Awaiting(term: nat) | RefusesToKill

  /** The owned children, in insertion order, with every child ever launched. */
  datatype Processes = Processes(owned: seq<nat>, serving: Option<nat>, children: seq<Child>, terms: seq<Term>)

  predicate InRange(cs: seq<nat>, n: nat) {
    forall i :: 0 <= i < |cs| ==> cs[i] < n
  }

  predicate Known(p: Processes) { InRange(p.owned, |p.children|) }

  function Without(owned: seq<nat>, c: nat): seq<nat> {
    if owned == [] then []
    else if owned[0] == c then Without(owned[1..], c)
    else [owned[0]] + Without(owned[1..], c)
  }

  function Launched(p: Processes, kind: ChildKind, generation: nat, hasPid: bool): Processes {
    p.(children := p.children + [Child(kind, generation, hasPid, None, false, false, None, 0)],
       owned := p.owned + [|p.children|],
       serving := if kind == Serve then Some(|p.children|) else p.serving)
  }

  function Exit(p: Processes, c: nat, code: Option<int>): Processes
    requires c < |p.children|
  {
    p.(children := p.children[c := p.children[c].(result := Some(code))],
       owned := Without(p.owned, c),
       serving := if p.serving == Some(c) then None else p.serving)
  }

  function Terminate(p: Processes, c: nat, now: nat): (Processes, TermAwait)
    requires c < |p.children|
  {
    var child := p.children[c];
    if child.result.Some? then (p, NothingToStop)
    else if child.termination.Some? then (p, Awaiting(child.termination.value))
    else if child.kind == Restore then (p, RefusesToKill)
    else
      var t := |p.terms|;
      (p.(children := p.children[c := child.(stopRequested := true, termination := Some(t), kills := child.kills + 1)],
          terms := p.terms + [Term(c, SoftWait(now + STOP_MS))]),
       Awaiting(t))
  }

  /** Terminating every child of a snapshot of the owned set, in order. */
  function TerminateAll(p: Processes, cs: seq<nat>, now: nat): (Processes, set<nat>, bool)
    requires InRange(cs, |p.children|)
    decreases |cs|
  {
    if cs == [] then (p, {}, false)
    else
      var (p1, first) := Terminate(p, cs[0], now);
      var (p2, terms, refused) := TerminateAll(p1, cs[1..], now);
      match first
      case NothingToStop => (p2, terms, refused)
      case Awaiting(t) => (p2, terms + {t}, refused)
      case RefusesToKill => (p2, terms, true)
  }

  /** The continuation of `terminateOwned` after one of its two waits. */
  function ResumeTermination(p: Processes, t: nat, w: WaitResult, now: nat): Processes
    requires t < |p.terms| && p.terms[t].child < |p.children|
  {
    var term := p.terms[t];
    if w != TimedOut then p.(terms := p.terms[t := term.(phase := TermFinished(true))])
    else if term.phase.SoftWait? then
      var child := p.children[term.child];
      var due := if child.result.Some? then None else Some(now + FORCE_STOP_MS);
      p.(children := p.children[term.child := child.(kills := child.kills + 1)],
         terms := p.terms[t := term.(phase := HardWait(due))])
    else p.(terms := p.terms[t := term.(phase := TermFinished(false))])
  }

  /** The `finally` of `terminate`, after which its promise is settled. */
  function SettleTermination(p: Processes, t: nat): Processes
    requires t < |p.terms| && p.terms[t].child < |p.children| && p.terms[t].phase.TermFinished?
  {
    var term := p.terms[t];
    var child := p.children[term.child];
    p.(terms := p.terms[t := term.(phase := TermSettled(term.phase.ok))],
       children := p.children[term.child := if child.termination == Some(t) then child.(termination := None) else child])
  }

  // ---------------------------------------------------------------- admission gate

  datatype Gate = Gate(generation: nat, controller: Option<nat>, aborted: set<nat>, closing: bool, recovery: bool)

  predicate IsCurrent(g: Gate, generation: nat) {
    generation == g.generation && generation !in g.aborted
  }

  function Abort(g: Gate): Gate {
    if g.controller.Some? then g.(aborted := g.aborted + {g.controller.value}) else g
  }

  /** `newGeneration`: a fresh controller under a fresh number. */
  function Renew(g: Gate): Gate {
    Abort(g).(controller := Some(g.generation + 1), generation := g.generation + 1)
  }

  /** The invalidation at the head of `stop`: a fresh number without a controller of its own. */
  function Invalidate(g: Gate): Gate {
    Abort(g).(generation := g.generation + 1)
  }

  // ---------------------------------------------------------------- operations

  datatype Slot = StartSlot | StopSlot | RestoreSlot

  datatype Pc =
    // runStartup and waitUntilReady
    | StartupAnnounced
    | AwaitMigration(child: nat, due: nat)
    | AwaitMigrationStop(stop: TermAwait)
    | CatchPending(error: Note)
    | AwaitHealth(child: nat, deadline: nat)
    | AwaitRetry(child: nat, deadline: nat, retryDue: Option<nat>)
    | ReadyAnnounced(child: nat)
    | AwaitServerStop(stop: TermAwait)
    // runRestore
    | RestoreAnnounced
    | AwaitStop(stopOp: nat)
    | RestoreApplying
    | RestoreRefused
    | AwaitRestore(child: nat, due: nat)
    // stopOwned
    | AwaitTerminations(terms: set<nat>, refused: bool)

  /**
   * Where an operation is between its body and its promise: running, behind its last
   * status update, body done, slot released, promise settled.
   */
  datatype Phase =
    | Running
    | Finishing(outcome: Outcome)
    | Finished(outcome: Outcome)
    | Released(outcome: Outcome, at: nat)
    | Settled(outcome: Outcome, at: nat)

  datatype Op = Op(slot: Slot, generation: nat, pc: Pc, phase: Phase)

  /** A pending or finished `prepareUpdate`. */
  datatype UpdateTask = AwaitShutdown(stopOp: nat) | UpdateDone(outcome: Outcome)

  datatype Ledger = Ledger(
    ops: seq<Op>,
    starting: Option<nat>,
    stopping: Option<nat>,
    restoring: Option<nat>,
    updates: seq<UpdateTask>)

  function SlotOf(l: Ledger, slot: Slot): Option<nat> {
    match slot
    case StartSlot => l.starting
    case StopSlot => l.stopping
    case RestoreSlot => l.restoring
  }

  function SetSlot(l: Ledger, slot: Slot, v: Option<nat>): Ledger {
    match slot
    case StartSlot => l.(starting := v)
    case StopSlot => l.(stopping := v)
    case RestoreSlot => l.(restoring := v)
  }

  /** `trackOperation`: the slot is published before the body runs. */
  function Track(l: Ledger, slot: Slot, generation: nat, pc: Pc, phase: Phase): Ledger {
    SetSlot(l, slot, Some(|l.ops|)).(ops := l.ops + [Op(slot, generation, pc, phase)])
  }

  function Goto(l: Ledger, o: nat, pc: Pc): Ledger
    requires o < |l.ops|
  {
    l.(ops := l.ops[o := l.ops[o].(pc := pc)])
  }

  function Enter(l: Ledger, o: nat, phase: Phase): Ledger
    requires o < |l.ops|
  {
    l.(ops := l.ops[o := l.ops[o].(phase := phase)])
  }

  /** The `finally` of `trackOperation`: the slot is freed before the promise settles. */
  function ReleaseSlot(l: Ledger, o: nat, at: nat): Ledger
    requires o < |l.ops| && l.ops[o].phase.Finished?
  {
    var slot := l.ops[o].slot;
    var freed := if SlotOf(l, slot) == Some(o) then SetSlot(l, slot, None) else l;
    Enter(freed, o, Released(l.ops[o].phase.outcome, at))
  }

  // ---------------------------------------------------------------- whole state

  datatype State = State(procs: Processes, gate: Gate, ledger: Ledger, status: Status, timer: bool, now: nat)

  /** What a public call hands back at once. */
  datatype Reply = Refused(note: Note) | AlreadyReady | Promised(op: nat) | UpdatePromised(task: nat)

  const INITIAL: State := State(
    Processes([], None, [], []), Gate(0, None, {}, false, false), Ledger([], None, None, None, []),
    Status(Stopped, NotStarted), false, 0)

  function Update(s: State, state: RunState, note: Note): State {
    s.(status := Status(state, note))
  }

  function Move(s: State, o: nat, pc: Pc): State
    requires o < |s.ledger.ops|
  {
    s.(ledger := Goto(s.ledger, o, pc))
  }

  function End(s: State, o: nat, phase: Phase): State
    requires o < |s.ledger.ops|
  {
    s.(ledger := Enter(s.ledger, o, phase))
  }

  predicate OpCurrent(s: State, o: nat)
    requires o < |s.ledger.ops|
  {
    IsCurrent(s.gate, s.ledger.ops[o].generation)
  }

  predicate Active(op: Op) { !op.phase.Released? && !op.phase.Settled? }

  predicate RestoreUnderWay(pc: Pc) { pc.RestoreApplying? || pc.RestoreRefused? || pc.AwaitRestore? }

  /**
   * A step of a running startup or restore takes no time, touches its own operation and the
   * recovery flag only, and the processes not at all once it has been invalidated.
   */
  predicate OwnStep(s: State, t: State, o: nat)
    requires o < |s.ledger.ops|
  {
    && o < |t.ledger.ops|
    && t.ledger == s.ledger.(ops := s.ledger.ops[o := t.ledger.ops[o]])
    && t.ledger.ops[o] == s.ledger.ops[o].(pc := t.ledger.ops[o].pc, phase := t.ledger.ops[o].phase)
    && Active(t.ledger.ops[o]) && !t.ledger.ops[o].pc.AwaitTerminations?
    && t.gate == s.gate.(recovery := t.gate.recovery) && (s.gate.recovery ==> t.gate.recovery)
    && t.now == s.now && (!OpCurrent(s, o) ==> t.procs == s.procs)
    && (t.status.state == Ready ==> t.status == s.status || s.ledger.ops[o].pc.AwaitHealth?)
    && (t.gate.recovery && !s.gate.recovery ==> RestoreUnderWay(s.ledger.ops[o].pc))
  }

  /** `assertAdmission` when the restore guard blocks: the timer stops and the status says so. */
  function RefuseAdmission(s: State): State {
    Update(s.(timer := false), Degraded, AdmissionBlocked)
  }

  // ---------------------------------------------------------------- child events

  /** The `completed` callback of `launch`. */
  function Completed(s: State, c: nat, code: Option<int>): State
    requires c < |s.procs.children|
  {
    var child := s.procs.children[c];
    if child.result.Some? then s
    else
      var gone := s.(procs := Exit(s.procs, c, code));
      if child.kind == Serve && child.generation == s.gate.generation && !child.stopRequested then
        Update(gone.(timer := false, gate := Abort(s.gate)), Degraded, ExitedUnexpectedly)
      else if child.kind == Restore && s.gate.recovery then
        Update(gone, Degraded, RecoveryRequired)
      else gone
  }

  /** The child's error event; only a child that never got a process id is thereby gone. */
  function ChildErrored(s: State, c: nat): State
    requires c < |s.procs.children|
  {
    var child := s.procs.children[c];
    if child.result.Some? then s
    else
      var failed := s.(procs := s.procs.(children := s.procs.children[c := child.(failed := true)]));
      if child.hasPid then failed else Completed(failed, c, None)
  }

  // ---------------------------------------------------------------- stopping

  function BeginStop(s: State): State
    requires Known(s.procs)
  {
    var quiet := s.(timer := false);
    if exists c :: c in s.procs.owned && s.procs.children[c].kind == Restore then
      Update(quiet.(ledger := Track(s.ledger, StopSlot, s.gate.generation, AwaitTerminations({}, true), Finishing(Rejected(StillRunning)))),
             Degraded, StillRunning)
    else
      var (procs, terms, refused) := TerminateAll(s.procs, s.procs.owned, s.now);
      quiet.(procs := procs,
             ledger := Track(s.ledger, StopSlot, s.gate.generation, AwaitTerminations(terms, refused), Running))
  }

  function EnsureStopped(s: State): (r: (State, nat))
    requires Known(s.procs)
    ensures |s.ledger.ops| <= |r.0.ledger.ops|
  {
    if s.ledger.stopping.Some? then (s, s.ledger.stopping.value) else (BeginStop(s), |s.ledger.ops|)
  }

  /** `stopOwned` once every termination promise resolved, or one of them rejected. */
  function ResumeStop(s: State, o: nat, allStopped: bool): (t: State)
    requires o < |s.ledger.ops|
    ensures t.gate == s.gate && t.procs == s.procs && t.now == s.now && o < |t.ledger.ops|
    ensures t.ledger == s.ledger.(ops := s.ledger.ops[o := s.ledger.ops[o].(phase := t.ledger.ops[o].phase)])
    ensures t.ledger.ops[o].phase.Finishing?
  {
    if !allStopped || s.procs.owned != [] then
      End(Update(s, Degraded, StopUnconfirmed), o, Finishing(Rejected(StopUnconfirmed)))
    else if s.gate.recovery then End(Update(s, Degraded, RecoveryRequired), o, Finishing(Resolved))
    else End(Update(s, Stopped, BackendStopped), o, Finishing(Resolved))
  }

  // ---------------------------------------------------------------- startup

  function BeginStartup(s: State, o: nat): (t: State)
    requires o < |s.ledger.ops|
    requires s.ledger.ops[o].phase.Running? && !s.ledger.ops[o].pc.AwaitTerminations?
    ensures OwnStep(s, t, o)
  {
    Move(Update(s, Starting, Preparing), o, StartupAnnounced)
  }

  /** The catch block of `runStartup`; `error` is the message it would publish. */
  function FailStartup(s: State, o: nat, error: Note): (t: State)
    requires o < |s.ledger.ops|
    requires s.ledger.ops[o].phase.Running? && !s.ledger.ops[o].pc.AwaitTerminations?
    ensures OwnStep(s, t, o)
  {
    if !OpCurrent(s, o) then End(s, o, Finished(Resolved))
    else End(Update(s.(timer := false), Degraded, error), o, Finishing(Rejected(error)))
  }

  function ResumeStartup(s: State, o: nat, blocked: bool, spawn: Spawn): (t: State)
    requires o < |s.ledger.ops|
    requires s.ledger.ops[o].phase.Running? && !s.ledger.ops[o].pc.AwaitTerminations?
    ensures OwnStep(s, t, o)
  {
    if !OpCurrent(s, o) then End(s, o, Finished(Resolved))
    else if blocked then Move(RefuseAdmission(s), o, CatchPending(AdmissionBlocked))
    else
      match spawn
      case SpawnThrows => FailStartup(s, o, StartupFailed)
      case Spawned(hasPid) =>
        Move(s.(procs := Launched(s.procs, Migration, s.ledger.ops[o].generation, hasPid)), o,
             AwaitMigration(|s.procs.children|, s.now + MIGRATION_MS))
  }

  function ResumeMigration(s: State, o: nat, w: WaitResult, blocked: bool, spawn: Spawn): (t: State)
    requires o < |s.ledger.ops| && s.ledger.ops[o].pc.AwaitMigration? && s.ledger.ops[o].pc.child < |s.procs.children|
    requires s.ledger.ops[o].phase.Running? && !s.ledger.ops[o].pc.AwaitTerminations?
    ensures OwnStep(s, t, o)
  {
    if !OpCurrent(s, o) then End(s, o, Finished(Resolved))
    else if w != Exited(Some(0)) then
      var (procs, stop) := Terminate(s.procs, s.ledger.ops[o].pc.child, s.now);
      Move(s.(procs := procs), o, AwaitMigrationStop(stop))
    else if blocked then Move(RefuseAdmission(s), o, CatchPending(AdmissionBlocked))
    else
      match spawn
      case SpawnThrows => FailStartup(s, o, StartupFailed)
      case Spawned(hasPid) =>
        Move(s.(procs := Launched(s.procs, Serve, s.ledger.ops[o].generation, hasPid)), o,
             AwaitHealth(|s.procs.children|, s.now + READINESS_MS))
  }

  /** After `await this.terminate(child)` in `runStartup` or `waitUntilReady`. */
  function ResumeAfterStop(s: State, o: nat, stopped: bool, stop: TermAwait): (t: State)
    requires o < |s.ledger.ops|
    requires s.ledger.ops[o].phase.Running? && !s.ledger.ops[o].pc.AwaitTerminations?
    ensures OwnStep(s, t, o)
  {
    FailStartup(s, o, if stopped || stop.RefusesToKill? then StartupFailed else StopUnconfirmed)
  }

  /** The code after the readiness loop. */
  function LeaveReadyLoop(s: State, o: nat, c: nat): (t: State)
    requires o < |s.ledger.ops| && c < |s.procs.children|
    requires s.ledger.ops[o].phase.Running? && !s.ledger.ops[o].pc.AwaitTerminations?
    ensures OwnStep(s, t, o)
  {
    if !OpCurrent(s, o) then End(s, o, Finished(Resolved))
    else
      var (procs, stop) := Terminate(s.procs, c, s.now);
      Move(s.(procs := procs), o, AwaitServerStop(stop))
  }

  function ResumeHealth(s: State, o: nat, healthy: bool): (t: State)
    requires o < |s.ledger.ops| && s.ledger.ops[o].pc.AwaitHealth? && s.ledger.ops[o].pc.child < |s.procs.children|
    requires s.ledger.ops[o].phase.Running? && !s.ledger.ops[o].pc.AwaitTerminations?
    ensures OwnStep(s, t, o)
  {
    var c, deadline := s.ledger.ops[o].pc.child, s.ledger.ops[o].pc.deadline;
    var exited := s.procs.children[c].result.Some?;
    if !OpCurrent(s, o) then End(s, o, Finished(Resolved))
    else if !healthy then
      var left := if s.now < deadline then deadline - s.now else 0;
      var wait := if left < READINESS_POLL_MS then left else READINESS_POLL_MS;
      Move(s, o, AwaitRetry(c, deadline, if exited then None else Some(s.now + wait)))
    else if exited || s.procs.serving != Some(c) then End(s, o, Finished(Resolved))
    else if s.now >= deadline then LeaveReadyLoop(s, o, c)
    else Move(Update(s, Ready, Connected), o, ReadyAnnounced(c))
  }

  function ResumeRetry(s: State, o: nat, w: WaitResult): (t: State)
    requires o < |s.ledger.ops| && s.ledger.ops[o].pc.AwaitRetry? && s.ledger.ops[o].pc.child < |s.procs.children|
    requires s.ledger.ops[o].phase.Running? && !s.ledger.ops[o].pc.AwaitTerminations?
    ensures OwnStep(s, t, o)
  {
    var c, deadline := s.ledger.ops[o].pc.child, s.ledger.ops[o].pc.deadline;
    if w == TimedOut && OpCurrent(s, o) && s.procs.children[c].result.None? && s.now < deadline
    then Move(s, o, AwaitHealth(c, deadline))
    else LeaveReadyLoop(s, o, c)
  }

  /** `startBackupScheduler`, after the listeners of the ready status have run. */
  function ResumeReady(s: State, o: nat): (t: State)
    requires o < |s.ledger.ops| && s.ledger.ops[o].pc.ReadyAnnounced? && s.ledger.ops[o].pc.child < |s.procs.children|
    requires s.ledger.ops[o].phase.Running? && !s.ledger.ops[o].pc.AwaitTerminations?
    ensures OwnStep(s, t, o)
  {
    var c := s.ledger.ops[o].pc.child;
    var arm := !s.timer && OpCurrent(s, o) && s.procs.serving == Some(c)
               && s.procs.children[c].result.None? && s.status.state == Ready;
    End(s.(timer := s.timer || arm), o, Finished(Resolved))
  }

  // ---------------------------------------------------------------- restore

  function ResumeRestore(s: State, o: nat): State
    requires o < |s.ledger.ops| && Known(s.procs)
  {
    var (s1, stopOp) := EnsureStopped(s);
    Move(s1, o, AwaitStop(stopOp))
  }

  function ResumeRestoreStopped(s: State, o: nat, stopped: Outcome): (t: State)
    requires o < |s.ledger.ops|
    requires s.ledger.ops[o].phase.Running? && !s.ledger.ops[o].pc.AwaitTerminations?
    ensures OwnStep(s, t, o)
  {
    if stopped.Rejected? then End(s, o, Finished(stopped))
    else if !OpCurrent(s, o) then End(s, o, Finished(Rejected(RestoreCancelled)))
    else Move(Update(s, Starting, ApplyingRestore), o, RestoreApplying)
  }

  function RequireRecovery(s: State, o: nat, note: Note): (t: State)
    requires o < |s.ledger.ops|
    requires s.ledger.ops[o].phase.Running? && !s.ledger.ops[o].pc.AwaitTerminations?
    requires RestoreUnderWay(s.ledger.ops[o].pc)
    ensures OwnStep(s, t, o)
  {
    End(Update(s.(gate := s.gate.(recovery := true)), Degraded, note), o, Finishing(Rejected(note)))
  }

  function ResumeApplying(s: State, o: nat, blocked: bool, spawn: Spawn): (t: State)
    requires o < |s.ledger.ops|
    requires s.ledger.ops[o].phase.Running? && !s.ledger.ops[o].pc.AwaitTerminations?
    requires s.ledger.ops[o].pc.RestoreApplying?
    ensures OwnStep(s, t, o)
  {
    if !OpCurrent(s, o) then End(s, o, Finished(Rejected(RestoreCancelled)))
    else if blocked then Move(RefuseAdmission(s), o, RestoreRefused)
    else
      match spawn
      case SpawnThrows => RequireRecovery(s, o, RecoveryRequired)
      case Spawned(hasPid) =>
        Move(s.(procs := Launched(s.procs, Restore, s.ledger.ops[o].generation, hasPid)), o,
             AwaitRestore(|s.procs.children|, s.now + RESTORE_OBSERVATION_MS))
  }

  function ResumeRestored(s: State, o: nat, w: WaitResult, blocked: bool): (t: State)
    requires o < |s.ledger.ops| && s.ledger.ops[o].pc.AwaitRestore? && s.ledger.ops[o].pc.child < |s.procs.children|
    requires s.ledger.ops[o].phase.Running? && !s.ledger.ops[o].pc.AwaitTerminations?
    ensures OwnStep(s, t, o)
  {
    if w != Exited(Some(0)) then
      RequireRecovery(s, o, if s.procs.children[s.ledger.ops[o].pc.child].result.None? then StillRunning else RecoveryRequired)
    else if blocked then End(RefuseAdmission(s), o, Finishing(Rejected(AdmissionBlocked)))
    else if !OpCurrent(s, o) then
      End(Update(s, Stopped, RestoredNotRestarted), o, Finishing(Resolved))
    else BeginStartup(s, o)
  }

  // ---------------------------------------------------------------- public calls

  /** A new startup or restore under a new generation, announced as starting. */
  function Admit(s: State, slot: Slot, pc: Pc, note: Note): State {
    var gate := Renew(s.gate);
    Update(s.(timer := false, gate := gate, ledger := Track(s.ledger, slot, gate.generation, pc, Running)), Starting, note)
  }

  function CallStart(s: State, blocked: bool): (State, Reply) {
    if blocked then (RefuseAdmission(s), Refused(AdmissionBlocked))
    else if s.gate.closing then (s, Refused(ShutdownBegun))
    else if s.ledger.restoring.Some? || s.gate.recovery then (s, Refused(RecoveryRequired))
    else if s.ledger.stopping.Some? then (s, Refused(ShutdownInProgress))
    else if s.ledger.starting.Some? then (s, Promised(s.ledger.starting.value))
    else if s.procs.serving.Some? && s.status.state == Ready then (s, AlreadyReady)
    else if s.procs.owned != [] then (s, Refused(StopUnconfirmed))
    else (Admit(s, StartSlot, StartupAnnounced, Preparing), Promised(|s.ledger.ops|))
  }

  function CallStop(s: State): (State, nat)
    requires Known(s.procs)
  {
    EnsureStopped(s.(gate := Invalidate(s.gate), timer := false))
  }

  function CallShutdown(s: State): (State, nat)
    requires Known(s.procs)
  {
    CallStop(s.(gate := s.gate.(closing := true)))
  }

  function CallPrepareUpdate(s: State, blocked: bool): (State, Reply)
    requires Known(s.procs)
  {
    if blocked then (RefuseAdmission(s), Refused(AdmissionBlocked))
    else if s.gate.recovery then (s, Refused(RecoveryRequired))
    else if s.ledger.restoring.Some? then (s, Refused(StillRunning))
    else
      var (s1, stopOp) := CallShutdown(s);
      (s1.(ledger := s1.ledger.(updates := s1.ledger.updates + [AwaitShutdown(stopOp)])),
       UpdatePromised(|s1.ledger.updates|))
  }

  function FinishUpdate(s: State, u: nat, outcome: Outcome): State
    requires u < |s.ledger.updates|
  {
    s.(ledger := s.ledger.(updates := s.ledger.updates[u := UpdateDone(outcome)]))
  }

  function ResumeUpdate(s: State, u: nat, stopped: Outcome, blocked: bool): State
    requires u < |s.ledger.updates|
  {
    if stopped.Rejected? then FinishUpdate(s, u, stopped)
    else if blocked then FinishUpdate(RefuseAdmission(s), u, Rejected(AdmissionBlocked))
    else if s.gate.recovery then FinishUpdate(s, u, Rejected(RecoveryRequired))
    else FinishUpdate(s, u, Resolved)
  }

  function CallRestore(s: State, blocked: bool): (State, Reply) {
    if blocked then (RefuseAdmission(s), Refused(AdmissionBlocked))
    else if s.gate.closing then (s, Refused(ShutdownBegun))
    else if s.ledger.restoring.Some? || s.gate.recovery then (s, Refused(RecoveryRequired))
    else if s.ledger.starting.Some? || s.ledger.stopping.Some? then (s, Refused(StartupOrStopInProgress))
    else (Admit(s, RestoreSlot, RestoreAnnounced, StoppingForRestore), Promised(|s.ledger.ops|))
  }

  function MarkDegraded(s: State, text: string): State {
    Update(s.(timer := false), Degraded, Reported(text))
  }

  // ---------------------------------------------------------------- promises

  function Release(s: State, o: nat): State
    requires o < |s.ledger.ops| && s.ledger.ops[o].phase.Finished?
  {
    s.(ledger := ReleaseSlot(s.ledger, o, s.gate.generation))
  }

  function Settle(s: State, o: nat): State
    requires o < |s.ledger.ops| && s.ledger.ops[o].phase.Released?
  {
    End(s, o, Settled(s.ledger.ops[o].phase.outcome, s.ledger.ops[o].phase.at))
  }

  // ---------------------------------------------------------------- events

  /** Everything that can happen, with every choice the environment makes. */
  datatype Event =
    | Start(blocked: bool)
    | Stop
    | Shutdown
    | PrepareUpdate(blocked: bool)
    | RestoreOffline(blocked: bool)
    | ReportDegraded(text: string)
    | ChildExit(child: nat, code: Option<int>)
    | ChildError(child: nat)
    | Tick(to: nat)
    | Resume(op: nat, wait: WaitResult, blocked: bool, spawn: Spawn, healthy: bool)
    | Conclude(op: nat)
    | ResumeTerm(term: nat, wait: WaitResult)
    | SettleTerm(term: nat)
    | ReleaseOp(op: nat)
    | SettleOp(op: nat)
    | ResumeUpdateTask(task: nat, blocked: bool)

  /** Which results the race inside `waitForChild` can produce now. */
  predicate CanYield(s: State, c: nat, w: WaitResult, due: Option<nat>, signal: Option<nat>, exitOnly: bool)
    requires c < |s.procs.children|
  {
    match w
    case Exited(code) => s.procs.children[c].result == Some(code)
    case Errored => due.Some? && !exitOnly && s.procs.children[c].failed
    case TimedOut => due.Some? && due.value <= s.now
    case Cancelled => due.Some? && signal.Some? && signal.value in s.gate.aborted
  }

  /** Whether the awaited termination promise is settled, and how. */
  function StopResult(p: Processes, stop: TermAwait): Option<bool> {
    match stop
    case NothingToStop => Some(true)
    case RefusesToKill => Some(false)
    case Awaiting(t) =>
      if t < |p.terms| && p.terms[t].phase.TermSettled? then Some(p.terms[t].phase.ok) else None
  }

  predicate AllStopped(p: Processes, terms: set<nat>) {
    forall t :: t in terms ==> StopResult(p, Awaiting(t)) == Some(true)
  }

  predicate SomeUnstopped(p: Processes, terms: set<nat>) {
    exists t :: t in terms && StopResult(p, Awaiting(t)) == Some(false)
  }

  predicate CanResume(s: State, o: nat, w: WaitResult)
    requires o < |s.ledger.ops|
  {
    var signal := Some(s.ledger.ops[o].generation);
    s.ledger.ops[o].phase.Running?
    && match s.ledger.ops[o].pc {
         case AwaitMigration(c, due) => c < |s.procs.children| && CanYield(s, c, w, Some(due), signal, false)
         case AwaitMigrationStop(stop) => StopResult(s.procs, stop).Some?
         case AwaitHealth(c, _) => c < |s.procs.children|
         case AwaitRetry(c, _, due) => c < |s.procs.children| && CanYield(s, c, w, due, signal, false)
         case ReadyAnnounced(c) => c < |s.procs.children|
         case AwaitServerStop(stop) => StopResult(s.procs, stop).Some?
         case RestoreAnnounced => Known(s.procs)
         case AwaitStop(x) => x < |s.ledger.ops| && s.ledger.ops[x].phase.Settled?
         case AwaitRestore(c, due) => c < |s.procs.children| && CanYield(s, c, w, Some(due), None, false)
         case AwaitTerminations(terms, refused) =>
           refused || SomeUnstopped(s.procs, terms) || AllStopped(s.procs, terms)
         case _ => true
       }
  }

  predicate CanResumeTerm(s: State, t: nat, w: WaitResult) {
    && t < |s.procs.terms| && s.procs.terms[t].child < |s.procs.children|
    && match s.procs.terms[t].phase {
         case SoftWait(due) => CanYield(s, s.procs.terms[t].child, w, Some(due), None, true)
         case HardWait(due) => CanYield(s, s.procs.terms[t].child, w, due, None, true)
         case _ => false
       }
  }

  predicate Enabled(s: State, e: Event) {
    match e
    case Stop => Known(s.procs)
    case Shutdown => Known(s.procs)
    case PrepareUpdate(_) => Known(s.procs)
    case ChildExit(c, _) => c < |s.procs.children|
    case ChildError(c) => c < |s.procs.children|
    case Tick(to) => s.now <= to
    case Resume(o, w, _, _, _) => o < |s.ledger.ops| && CanResume(s, o, w)
    case Conclude(o) => o < |s.ledger.ops| && s.ledger.ops[o].phase.Finishing?
    case ResumeTerm(t, w) => CanResumeTerm(s, t, w)
    case SettleTerm(t) => t < |s.procs.terms| && s.procs.terms[t].child < |s.procs.children| && s.procs.terms[t].phase.TermFinished?
    case ReleaseOp(o) => o < |s.ledger.ops| && s.ledger.ops[o].phase.Finished?
    case SettleOp(o) => o < |s.ledger.ops| && s.ledger.ops[o].phase.Released?
    case ResumeUpdateTask(u, _) =>
      && u < |s.ledger.updates| && s.ledger.updates[u].AwaitShutdown?
      && s.ledger.updates[u].stopOp < |s.ledger.ops| && s.ledger.ops[s.ledger.updates[u].stopOp].phase.Settled?
    case _ => true
  }

  /** The code that runs when an operation's await or update returns. */
  function ResumeOp(s: State, o: nat, w: WaitResult, blocked: bool, spawn: Spawn, healthy: bool): State
    requires o < |s.ledger.ops| && CanResume(s, o, w)
  {
    match s.ledger.ops[o].pc
    case StartupAnnounced => ResumeStartup(s, o, blocked, spawn)
    case AwaitMigration(_, _) => ResumeMigration(s, o, w, blocked, spawn)
    case AwaitMigrationStop(stop) => ResumeAfterStop(s, o, StopResult(s.procs, stop).value, stop)
    case CatchPending(error) => FailStartup(s, o, error)
    case AwaitHealth(_, _) => ResumeHealth(s, o, healthy)
    case AwaitRetry(_, _, _) => ResumeRetry(s, o, w)
    case ReadyAnnounced(_) => ResumeReady(s, o)
    case AwaitServerStop(stop) => ResumeAfterStop(s, o, StopResult(s.procs, stop).value, stop)
    case RestoreAnnounced => ResumeRestore(s, o)
    case AwaitStop(x) => ResumeRestoreStopped(s, o, s.ledger.ops[x].phase.outcome)
    case RestoreApplying => ResumeApplying(s, o, blocked, spawn)
    case RestoreRefused => RequireRecovery(s, o, RecoveryRequired)
    case AwaitRestore(_, _) => ResumeRestored(s, o, w, blocked)
    case AwaitTerminations(terms, refused) => ResumeStop(s, o, !refused && !SomeUnstopped(s.procs, terms))
  }

  function Step(s: State, e: Event): State
    requires Enabled(s, e)
  {
    match e
    case Start(blocked) => CallStart(s, blocked).0
    case Stop => CallStop(s).0
    case Shutdown => CallShutdown(s).0
    case PrepareUpdate(blocked) => CallPrepareUpdate(s, blocked).0
    case RestoreOffline(blocked) => CallRestore(s, blocked).0
    case ReportDegraded(text) => MarkDegraded(s, text)
    case ChildExit(c, code) => Completed(s, c, code)
    case ChildError(c) => ChildErrored(s, c)
    case Tick(to) => s.(now := to)
    case Resume(o, w, blocked, spawn, healthy) => ResumeOp(s, o, w, blocked, spawn, healthy)
    case Conclude(o) => End(s, o, Finished(s.ledger.ops[o].phase.outcome))
    case ResumeTerm(t, w) => s.(procs := ResumeTermination(s.procs, t, w, s.now))
    case SettleTerm(t) => s.(procs := SettleTermination(s.procs, t))
    case ReleaseOp(o) => Release(s, o)
    case SettleOp(o) => Settle(s, o)
    case ResumeUpdateTask(u, blocked) =>
      ResumeUpdate(s, u, s.ledger.ops[s.ledger.updates[u].stopOp].phase.outcome, blocked)
  }
}
