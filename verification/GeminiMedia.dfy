/**
 * Ownership, time and poll budget of media uploaded to Gemini
 * (backend/src/job_apply_pro/ai/providers.py), together with the durable journal that cleans
 * up behind an invocation (backend/src/job_apply_pro/services/media_cleanup.py).
 */
module GeminiMedia {
  import opened Prelude

  const MAX_MEDIA_BYTES := 5 * 1024 * 1024
  const MAX_PROCESSING_GETS: nat := 30
  const PROCESSING_POLL_SECONDS := 2.0
  const CLEANUP_BUDGET_SECONDS := 30.0
  const DELETE_TIMEOUT_SECONDS := 15.0

  // ---------------------------------------------------------------- surroundings

  /**
   * The exceptions of an invocation, by the handlers that tell them apart: three kinds of provider
   * error, those of the transport, of values, of nesting, of missing or mistyped members, and
   * every other one.
   */
  datatype Error = Plain | Unavailable | Retention | Transport | Value | Nesting | Lookup | Foreign

  predicate OfProvider(e: Error) { e.Plain? || e.Unavailable? || e.Retention? }

  /** What the two handlers around an upload catch; anything else passes them. */
  predicate Caught(e: Error) { OfProvider(e) || e.Transport? || e.Value? }

  /** What such a pair of handlers raises in turn. */
  function Reraised(e: Error): Error {
    if !OfProvider(e) && Caught(e) then Unavailable else e
  }

  /** What a handler raises that also knows nested documents. */
  function ReraisedNested(e: Error): Error {
    if e.Nesting? then Unavailable else Reraised(e)
  }

  /** What leaves the handlers around the whole interaction. */
  function Enveloped(e: Error): Error {
    if e.Value? || e.Lookup? then Plain else e
  }

  /** Which exceptions which handlers replace, one by one. */
  lemma HandlersExactly(e: Error)
    ensures Caught(e) <==> e in {Plain, Unavailable, Retention, Transport, Value}
    ensures Reraised(e) == (if e in {Transport, Value} then Unavailable else e)
    ensures ReraisedNested(e) == (if e in {Transport, Value, Nesting} then Unavailable else e)
    ensures Enveloped(e) == (if e in {Value, Lookup} then Plain else e)
  {
  }

  datatype FileState = Processing | Failed | Active | Unknown

  /** The members of a file resource the provider looks at; a name is None unless it is a valid resource name. */
  datatype Metadata = Metadata(name: Option<string>, mimeType: string, state: FileState, uri: Option<string>, trusted: bool)

  datatype Relinquish = Relinquished | ManualReview | RelinquishFails

  datatype Claim = Claimed(name: Option<string>) | NothingClaimed | ClaimFails

  /**
   * The journal that cleans up: the one the application ships, or any other, which deletes what
   * it likes and then raises what it likes.
   */
  datatype Cleaner = Shipped | Custom(deletes: seq<string>, raises: Option<Error>)

  /** How the k-th clock reading, journal call, network step or repository call turns out. */
  datatype Surroundings = Surroundings(
    clock: nat -> real,
    journal: nat -> Option<Error>,
    step: nat -> Option<Error>,
    reply: nat -> Metadata,
    relinquish: nat -> Relinquish,
    claim: (nat, Option<string>) -> Claim,
    repository: nat -> bool,
    cleaner: Cleaner)

  /** The repository hands back the name that was registered for the record, if any. */
  ghost predicate HonestClaims(s: Surroundings) {
    forall k: nat, local: Option<string> ::
      s.claim(k, local).Claimed? && s.claim(k, local).name.Some? ==> s.claim(k, local).name == local
  }

  /** A file that may be used: under its own name and type, active, and at a trusted address. */
  predicate Usable(file: Metadata, name: string, mimeType: string) {
    file.name == Some(name) && file.mimeType == mimeType && file.state.Active? && file.uri.Some? && file.trusted
  }

  /** The one type of media that smooth surroundings expect. */
  function TypeOf(s: Surroundings): string { s.reply(0).mimeType }

  /** Nothing fails, and every upload is active at once under its own name and as the one expected type. */
  ghost predicate Smooth(s: Surroundings) {
    && (forall k: nat :: s.journal(k) == None && s.step(k) == None && s.repository(k))
    && (forall k: nat :: ActiveAtOnce(s.reply(k), TypeOf(s)))
    && (forall k: nat :: s.relinquish(k).Relinquished?)
    && (forall k: nat, local: Option<string> :: s.claim(k, local) == Claimed(local))
    && s.cleaner.Shipped?
  }

  predicate ActiveAtOnce(file: Metadata, mimeType: string) {
    file.name.Some? && Usable(file, file.name.value, mimeType)
  }

  /** No two readings of the clock are half a minute apart. */
  ghost predicate Quick(s: Surroundings) { forall k: nat :: InTime(s, s.clock(k) + 30.0) }

  /** The clock stays in front of `deadline`. */
  ghost predicate InTime(s: Surroundings, deadline: real) { forall k: nat :: s.clock(k) < deadline }

  // ---------------------------------------------------------------- what happened

  datatype Event =
    | Began(record: nat)
    | Abandoned(record: nat, closed: bool)
    | Stopped(record: nat, error: Error)
    | Transferred(record: nat, at: real, allowance: real)
    | Registered(record: nat, name: string)
    | Inspected(name: string)
    | Requested(at: real, allowance: real)
    | Slept(at: real, allowance: real)
    | Polled(name: string, at: real, allowance: real)
    | CleanupBegan
    | DeleteRequested(name: string, at: real, allowance: real)
    | Deleted(record: nat, name: string)

  /** Work and sleep end by the deadline of the invocation, deletions by that of the cleanup. */
  predicate Bounded(e: Event, deadline: real, cleanupDeadline: real) {
    match e
    case Transferred(_, at, allowance) => 0.0 < allowance && at + allowance <= deadline
    case Requested(at, allowance) => 0.0 < allowance && at + allowance <= deadline
    case Slept(at, allowance) => 0.0 < allowance <= PROCESSING_POLL_SECONDS && at + allowance <= deadline
    case Polled(_, at, allowance) => 0.0 < allowance && at + allowance <= deadline
    case DeleteRequested(_, at, allowance) =>
      0.0 < allowance <= DELETE_TIMEOUT_SECONDS && at + allowance <= cleanupDeadline
    case _ => true
  }

  function RecordOf(e: Event): Option<nat> {
    if e.Began? || e.Abandoned? || e.Stopped? || e.Transferred? || e.Registered? || e.Deleted? then Some(e.record) else None
  }

  function Polls(trace: seq<Event>): nat {
    if trace == [] then 0
    else Polls(trace[..|trace| - 1]) + if trace[|trace| - 1].Polled? then 1 else 0
  }

  function Cleanups(trace: seq<Event>): nat {
    if trace == [] then 0
    else Cleanups(trace[..|trace| - 1]) + if trace[|trace| - 1].CleanupBegan? then 1 else 0
  }

  ghost predicate IsRegistered(trace: seq<Event>, record: nat) {
    exists e :: e in trace && e.Registered? && e.record == record
  }

  ghost predicate NameRegistered(trace: seq<Event>, name: string) {
    exists e :: e in trace && e.Registered? && e.name == name
  }

  ghost predicate IsTransferred(trace: seq<Event>, record: nat) {
    exists e :: e in trace && e.Transferred? && e.record == record
  }

  ghost predicate IsAbandoned(trace: seq<Event>, record: nat) {
    exists e :: e in trace && e.Abandoned? && e.record == record
  }

  ghost predicate AllBounded(trace: seq<Event>, deadline: real, cleanupDeadline: real) {
    forall e :: e in trace ==> Bounded(e, deadline, cleanupDeadline)
  }

  /** No file is looked at before it has been registered for cleanup. */
  ghost predicate RegisteredFirst(trace: seq<Event>) {
    forall i :: 0 <= i < |trace| && (trace[i].Inspected? || trace[i].Polled?) ==> NameRegistered(trace[..i], trace[i].name)
  }

  /** From event `from` on, no other file than `name` is looked at or polled. */
  ghost predicate LooksOnlyAt(trace: seq<Event>, from: nat, name: string) {
    forall i :: from <= i < |trace| && (trace[i].Inspected? || trace[i].Polled?) ==> trace[i].name == name
  }

  ghost predicate IsStopped(trace: seq<Event>, record: nat) {
    exists e :: e in trace && e.Stopped? && e.record == record
  }

  /**
   * Either the bytes of a record were sent or an exception ended the upload before that, and the
   * record was abandoned exactly in the second case and for an exception the handlers catch.
   */
  ghost predicate SettledOne(trace: seq<Event>, record: nat) {
    && (IsTransferred(trace, record) <==> !IsStopped(trace, record))
    && (IsTransferred(trace, record) ==> !IsAbandoned(trace, record))
    && (forall error :: Stopped(record, error) in trace ==> (IsAbandoned(trace, record) <==> Caught(error)))
  }

  ghost predicate Settled(trace: seq<Event>, n: nat) { forall r: nat :: r < n ==> SettledOne(trace, r) }

  /** A name is registered only for a record whose bytes were sent. */
  ghost predicate SentFirst(trace: seq<Event>) {
    forall e :: e in trace && e.Registered? ==> IsTransferred(trace, e.record)
  }

  ghost predicate AllRegistered(trace: seq<Event>, n: nat) { forall r: nat :: r < n ==> IsRegistered(trace, r) }

  ghost predicate OnlyRecords(trace: seq<Event>, n: nat) {
    forall e :: e in trace && RecordOf(e).Some? ==> RecordOf(e).value < n
  }

  /** No file has been deleted, and no cleanup begun. */
  ghost predicate StillWorking(trace: seq<Event>) {
    forall e :: e in trace ==> !e.CleanupBegan? && !e.DeleteRequested?
  }

  // ---------------------------------------------------------------- the journal

  /** One entry of the journal's own table: a record and the name registered for it. */
  datatype Resource = Resource(record: nat, name: Option<string>)

  ghost predicate Holds(resources: seq<Resource>, record: nat) {
    exists i :: 0 <= i < |resources| && resources[i].record == record
  }

  /** The table holds every record that was not closed unsent, each with its registered name. */
  ghost predicate TableOk(resources: seq<Resource>, trace: seq<Event>, begun: nat) {
    && (forall i :: 0 <= i < |resources| ==> resources[i].record < begun)
    && (forall i :: 0 <= i < |resources| && resources[i].name.Some? ==>
          Registered(resources[i].record, resources[i].name.value) in trace)
    && (forall r: nat :: r < begun ==> Holds(resources, r) || Abandoned(r, true) in trace)
  }

  ghost predicate Confirmed(trace: seq<Event>, record: nat) {
    exists e :: e in trace && e.Deleted? && e.record == record && Registered(record, e.name) in trace
  }

  /** What became of a record: closed unsent, or its registered file was confirmed deleted. */
  ghost predicate Resolved(trace: seq<Event>, record: nat) {
    Abandoned(record, true) in trace || Confirmed(trace, record)
  }

  /** A record left behind by an exception nobody caught is never resolved. */
  lemma StrandedIsUnresolved(trace: seq<Event>, record: nat, error: Error)
    requires SettledOne(trace, record) && SentFirst(trace) && Stopped(record, error) in trace && !Caught(error)
    ensures !Resolved(trace, record)
  {
    assert IsStopped(trace, record);
    assert Abandoned(record, true) in trace ==> IsAbandoned(trace, record);
  }

  /** The error with which an invocation ends, from that of its body and that of its cleanup. */
  function Concluded<T>(body: Result<T, Error>, cleanup: Option<Error>): Result<T, Error> {
    match cleanup
    case None => body
    case Some(Retention) => if body == Err(Retention) then body else Err(Retention)
    case Some(other) => Err(other)
  }

  /** A journal behind which a retention error cannot get lost. */
  predicate KeepsRetention(cleaner: Cleaner) {
    cleaner.Shipped? || cleaner.raises in {None, Some(Retention)}
  }

  // ---------------------------------------------------------------- growing traces

  lemma BoundedGrows(trace: seq<Event>, e: Event, deadline: real, cleanupDeadline: real)
    requires AllBounded(trace, deadline, cleanupDeadline) && Bounded(e, deadline, cleanupDeadline)
    ensures AllBounded(trace + [e], deadline, cleanupDeadline)
  {
  }

  lemma RegisteredFirstGrows(trace: seq<Event>, e: Event)
    requires RegisteredFirst(trace) && ((e.Inspected? || e.Polled?) ==> NameRegistered(trace, e.name))
    ensures RegisteredFirst(trace + [e])
  {
    var longer := trace + [e];
    assert longer[..|trace|] == trace;
    forall i | 0 <= i < |longer| && (longer[i].Inspected? || longer[i].Polled?)
      ensures NameRegistered(longer[..i], longer[i].name)
    {
      if i < |trace| { assert longer[..i] == trace[..i]; }
    }
  }

  lemma CountsGrow(trace: seq<Event>, e: Event)
    ensures Polls(trace + [e]) == Polls(trace) + if e.Polled? then 1 else 0
    ensures Cleanups(trace + [e]) == Cleanups(trace) + if e.CleanupBegan? then 1 else 0
  {
    assert (trace + [e])[..|trace|] == trace;
  }

  lemma SentFirstGrows(trace: seq<Event>, e: Event)
    requires SentFirst(trace) && (e.Registered? ==> IsTransferred(trace, e.record))
    ensures SentFirst(trace + [e])
  {
    forall x | x in trace + [e] && x.Registered? ensures IsTransferred(trace + [e], x.record) {
      var sent :| sent in trace && sent.Transferred? && sent.record == x.record;
      assert sent in trace + [e];
    }
  }

  lemma SettledOneGrows(trace: seq<Event>, e: Event, r: nat)
    requires SettledOne(trace, r) && (e.Transferred? || e.Abandoned? || e.Stopped? ==> e.record != r)
    ensures SettledOne(trace + [e], r)
  {
    assert forall x :: x in trace ==> x in trace + [e];
  }

  /** An event that neither sends, stops nor abandons a record leaves settled what was settled. */
  lemma SettledGrows(trace: seq<Event>, e: Event, n: nat)
    requires Settled(trace, n) && (e.Transferred? || e.Abandoned? || e.Stopped? ==> e.record >= n)
    ensures Settled(trace + [e], n)
  {
    hide SettledOne;
    forall r: nat | r < n ensures SettledOne(trace + [e], r) { SettledOneGrows(trace, e, r); }
  }

  /** Once its bytes are sent a record is settled. */
  lemma SettledSent(trace: seq<Event>, record: nat)
    requires Settled(trace, record)
    requires IsTransferred(trace, record) && !IsStopped(trace, record) && !IsAbandoned(trace, record)
    ensures Settled(trace, record + 1)
  {
    assert SettledOne(trace, record);
  }

  /** A record whose upload ended by an exception nobody caught is settled as it stands. */
  lemma SettledStranded(trace: seq<Event>, record: nat, error: Error)
    requires Settled(trace, record) && !Caught(error)
    requires !IsTransferred(trace, record) && !IsStopped(trace, record) && !IsAbandoned(trace, record)
    ensures Settled(trace + [Stopped(record, error)], record + 1)
  {
    var e := Stopped(record, error);
    SettledGrows(trace, e, record);
    assert e in trace + [e];
    assert SettledOne(trace + [e], record);
  }

  /** A record whose upload ended by an exception that was caught is settled once it is abandoned. */
  lemma SettledAbandoned(trace: seq<Event>, record: nat, error: Error, closed: bool)
    requires Settled(trace, record) && Caught(error)
    requires !IsTransferred(trace, record) && !IsStopped(trace, record) && !IsAbandoned(trace, record)
    ensures Settled(trace + [Stopped(record, error), Abandoned(record, closed)], record + 1)
  {
    var e, f := Stopped(record, error), Abandoned(record, closed);
    SettledGrows(trace, e, record);
    SettledGrows(trace + [e], f, record);
    assert trace + [e] + [f] == trace + [e, f];
    assert e in trace + [e, f] && f in trace + [e, f];
    assert SettledOne(trace + [e, f], record);
  }

  lemma TableGrows(resources: seq<Resource>, trace: seq<Event>, begun: nat, e: Event)
    requires TableOk(resources, trace, begun)
    ensures TableOk(resources, trace + [e], begun)
  {
  }
}
