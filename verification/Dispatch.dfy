/**
 * The dispatch handlers of apps/desktop/src/main/calendar-event-ipc.ts and
 * apps/desktop/src/main/mail-draft-ipc.ts as a transition system.  Any number of
 * invocations share one `attempts` map; every await is a point where another may run.
 */
module Dispatch {
  import opened Prelude

  type Id = string

  datatype Handler = Calendar | Mail

  /** A calendar plan or a mail draft, as far as the handlers look at it. */
  datatype Document = Document(id: Id, fingerprint: string, content: int)

  /** `detail` is None where deriving the reviewed text throws. */
  datatype Config = Config(handler: Handler, detail: Document -> Option<string>, signature: Document -> string)

  datatype Audit = Audit(resource: Id, ofSending: bool, matchesPlan: bool)

  datatype Mark = Reviewing | Dispatched

  /** How an invocation ended: turned away, with an audit, with null, retryable, or unresolved. */
  datatype Outcome = TurnedAway | Audited | Cancelled | NotDispatched | Unresolved

  /** What an invocation has learned before its dialog. */
  datatype Review = Review(document: Document, detail: string, capability: string)

  datatype Phase =
    | FetchingFirst
    | CheckingFirst(document: Document, detail: string)
    | AuditingFirst(review: Review)
    | InDialog(review: Review)
    | FetchingAgain(review: Review)
    | CheckingAgain(review: Review, current: Document)
    | AuditingAgain(review: Review, current: Document)
    | Executing(review: Review, current: Document)
    | Done(outcome: Outcome)

  datatype Invocation = Invocation(id: Id, reviewed: string, phase: Phase)

  /**
   * What a run leaves behind, in order: documents read, dialogs confirmed, attempt histories
   * read without finding an earlier attempt, requests dispatched.
   */
  datatype Entry =
    | Fetched(who: nat, document: Document)
    | Confirmed(who: nat, detail: string)
    | Cleared(who: nat)
    | Sent(who: nat, id: Id)

  datatype State = State(attempts: map<Id, Mark>, invocations: seq<Invocation>, log: seq<Entry>)

  const INITIAL: State := State(map[], [], [])

  /** What the awaited call of an invocation comes back with. */
  datatype Answer =
    | Rejects
    | Returns(document: Document)
    | Capability(text: string)
    | Audits(audits: seq<Audit>)
    | Clicked(button: int)
    | Executed(valid: bool)

  datatype Event = Call(id: Id, reviewed: string) | Answered(k: nat, answer: Answer)

  // ---------------------------------------------------------------- steps

  function At(s: State, k: nat, phase: Phase): State
    requires k < |s.invocations|
  {
    s.(invocations := s.invocations[k := s.invocations[k].(phase := phase)])
  }

  function Without(attempts: map<Id, Mark>, id: Id): map<Id, Mark> {
    map x | x in attempts && x != id :: attempts[x]
  }

  /** The `finally` clause: a review that dispatched nothing frees its id. */
  function Finish(s: State, k: nat, outcome: Outcome): State
    requires k < |s.invocations|
  {
    var id := s.invocations[k].id;
    var done := At(s, k, Done(outcome));
    if id in s.attempts && s.attempts[id] == Reviewing then done.(attempts := Without(s.attempts, id)) else done
  }

  /** The `catch` clause: retryable only while the id is still under review. */
  function Throw(s: State, k: nat): State
    requires k < |s.invocations|
  {
    var id := s.invocations[k].id;
    Finish(s, k, if id in s.attempts && s.attempts[id] == Reviewing then NotDispatched else Unresolved)
  }

  function Marked(s: State, id: Id): State { s.(attempts := s.attempts[id := Dispatched]) }

  function Logged(s: State, e: Entry): State { s.(log := s.log + [e]) }

  function CallStep(s: State, id: Id, reviewed: string): State {
    if id in s.attempts then s.(invocations := s.invocations + [Invocation(id, reviewed, Done(TurnedAway))])
    else
      State(s.attempts[id := Reviewing], s.invocations + [Invocation(id, reviewed, FetchingFirst)], s.log)
  }

  function Matches(handler: Handler, audits: seq<Audit>, id: Id): seq<Audit> {
    if audits == [] then []
    else if audits[0].resource == id && (handler.Calendar? || audits[0].ofSending) then
      [audits[0]] + Matches(handler, audits[1..], id)
    else Matches(handler, audits[1..], id)
  }

  /** An earlier audit of the id blocks it for good; a calendar audit must also be the only one and match. */
  function FoundPrior(config: Config, s: State, k: nat, matches: seq<Audit>): State
    requires k < |s.invocations|
  {
    var blocked := Marked(s, s.invocations[k].id);
    if config.handler.Calendar? && (|matches| != 1 || !matches[0].matchesPlan) then Throw(blocked, k)
    else Finish(blocked, k, Audited)
  }

  function Execute(s: State, k: nat, review: Review, current: Document): State
    requires k < |s.invocations|
  {
    var id := s.invocations[k].id;
    At(Logged(Marked(s, id), Sent(k, id)), k, Executing(review, current))
  }

  function OnFirstDocument(config: Config, s: State, k: nat, document: Document): State
    requires k < |s.invocations|
  {
    var me, read := s.invocations[k], Logged(s, Fetched(k, document));
    if document.id != me.id || document.fingerprint != me.reviewed || config.detail(document) == None then Throw(read, k)
    else if config.handler.Calendar? then At(read, k, CheckingFirst(document, config.detail(document).value))
    else At(read, k, AuditingFirst(Review(document, config.detail(document).value, "")))
  }

  function OnSecondDocument(config: Config, s: State, k: nat, review: Review, current: Document): State
    requires k < |s.invocations|
  {
    var me, read := s.invocations[k], Logged(s, Fetched(k, current));
    if || current.id != me.id || current.fingerprint != me.reviewed
       || (config.handler.Calendar? && config.signature(current) != config.signature(review.document))
       || config.detail(current) != Some(review.detail) then Throw(read, k)
    else if config.handler.Calendar? then At(read, k, CheckingAgain(review, current))
    else Execute(read, k, review, current)
  }

  /** What an invocation does with the answer it was waiting for; any other answer is a failure. */
  function Resume(config: Config, s: State, k: nat, answer: Answer): State
    requires k < |s.invocations|
  {
    var me := s.invocations[k];
    match (me.phase, answer)
    case (Done(_), _) => s
    case (FetchingFirst, Returns(document)) => OnFirstDocument(config, s, k, document)
    case (CheckingFirst(document, detail), Capability(text)) => At(s, k, AuditingFirst(Review(document, detail, text)))
    case (AuditingFirst(review), Audits(audits)) =>
      var matches := Matches(config.handler, audits, me.id);
      if matches != [] then FoundPrior(config, s, k, matches) else At(s, k, InDialog(review))
    case (InDialog(review), Clicked(button)) =>
      if button != 1 then Finish(s, k, Cancelled)
      else At(Logged(s, Confirmed(k, review.detail)), k, FetchingAgain(review))
    case (FetchingAgain(review), Returns(current)) => OnSecondDocument(config, s, k, review, current)
    case (CheckingAgain(review, current), Capability(text)) =>
      if text != review.capability then Throw(s, k) else At(s, k, AuditingAgain(review, current))
    case (AuditingAgain(review, current), Audits(audits)) =>
      var matches := Matches(config.handler, audits, me.id);
      if matches != [] then FoundPrior(config, s, k, matches) else Execute(Logged(s, Cleared(k)), k, review, current)
    case (Executing(_, _), Executed(valid)) => if valid || config.handler.Mail? then Finish(s, k, Audited) else Throw(s, k)
    case _ => Throw(s, k)
  }

  function Step(config: Config, s: State, e: Event): State {
    match e
    case Call(id, reviewed) => CallStep(s, id, reviewed)
    case Answered(k, answer) => if k < |s.invocations| then Resume(config, s, k, answer) else s
  }

  // ---------------------------------------------------------------- what the log says

  predicate Sends(e: Entry, id: Id) { e.Sent? && e.id == id }

  function Count(log: seq<Entry>, id: Id): nat {
    if log == [] then 0
    else Count(log[..|log| - 1], id) + if Sends(log[|log| - 1], id) then 1 else 0
  }

  /** The last document read by invocation `k`, if any. */
  function LastFetched(log: seq<Entry>, k: nat): Option<Document> {
    if log == [] then None
    else
      var last := log[|log| - 1];
      if last.Fetched? && last.who == k then Some(last.document) else LastFetched(log[..|log| - 1], k)
  }

  /** The details invocation `k` last had confirmed in its dialog, if any. */
  function LastConfirmed(log: seq<Entry>, k: nat): Option<string> {
    if log == [] then None
    else
      var last := log[|log| - 1];
      if last.Confirmed? && last.who == k then Some(last.detail) else LastConfirmed(log[..|log| - 1], k)
  }

  /** What invocation `k` may dispatch: the confirmed details are those of the last document it read. */
  ghost predicate MaySend(config: Config, log: seq<Entry>, me: Invocation, k: nat) {
    var document := LastFetched(log, k);
    var own := document.Some? && document.value.id == me.id && document.value.fingerprint == me.reviewed;
    own && LastConfirmed(log, k).Some? && config.detail(document.value) == LastConfirmed(log, k)
  }

  /** A calendar attempt history is read again after the approval, right before dispatching. */
  predicate JustCleared(log: seq<Entry>, k: nat) { |log| > 0 && log[|log| - 1] == Cleared(k) }

  ghost predicate SentRightly(config: Config, s: State, i: nat)
    requires i < |s.log| && s.log[i].Sent?
  {
    var e := s.log[i];
    var allowed :=
      && e.who < |s.invocations| && e.id == s.invocations[e.who].id
      && MaySend(config, s.log[..i], s.invocations[e.who], e.who);
    allowed && (config.handler.Calendar? ==> JustCleared(s.log[..i], e.who))
  }

  // ---------------------------------------------------------------- the invariant

  predicate Active(phase: Phase) { !phase.Done? && !phase.Executing? }

  predicate AfterDialog(phase: Phase) { phase.FetchingAgain? || phase.CheckingAgain? || phase.AuditingAgain? }

  /** A reviewing invocation holds its id alone, and what it remembers is what it read. */
  ghost predicate PhaseOk(config: Config, s: State, k: nat)
    requires k < |s.invocations|
  {
    var me := s.invocations[k];
    var marked :=
      && (Active(me.phase) ==> me.id in s.attempts && s.attempts[me.id] == Reviewing)
      && (me.phase.Executing? ==> me.id in s.attempts && s.attempts[me.id] == Dispatched);
    var remembers :=
      && (AfterDialog(me.phase) ==> LastConfirmed(s.log, k) == Some(me.phase.review.detail))
      && (me.phase.CheckingAgain? || me.phase.AuditingAgain? ==> MaySend(config, s.log, me, k));
    marked && remembers
  }

  ghost predicate Inv(config: Config, s: State) {
    var invocations :=
      && (forall k: nat :: k < |s.invocations| ==> PhaseOk(config, s, k))
      && forall j: nat, k: nat :: j < k < |s.invocations| && Active(s.invocations[j].phase) && Active(s.invocations[k].phase) ==>
        s.invocations[j].id != s.invocations[k].id;
    var log :=
      && (forall i: nat :: i < |s.log| && s.log[i].Sent? ==> SentRightly(config, s, i))
      && forall id: Id :: SendsMarked(s, id);
    invocations && log
  }

  /** Whatever was dispatched was dispatched once, and its id stays blocked. */
  ghost predicate SendsMarked(s: State, id: Id) {
    Count(s.log, id) <= 1 && (Count(s.log, id) > 0 ==> id in s.attempts && s.attempts[id] == Dispatched)
  }
}
