/**
 * What an invocation does, told from outside: from the answers it was given alone, in any
 * run, whether it dispatches, how it ends, and which calls are turned away.
 */
module DispatchScript {
  import opened Prelude
  import opened Dispatch
  import opened DispatchSafety

  // ---------------------------------------------------------------- the script

  /** The answers given to invocation `k` by the first `i` events, since it exists. */
  function AnswersTo(tr: seq<State>, es: seq<Event>, i: nat, k: nat): seq<Answer>
    requires i <= |es| && i < |tr|
  {
    if i == 0 then []
    else
      var e := es[i - 1];
      AnswersTo(tr, es, i - 1, k)
      + if e.Answered? && e.k == k && k < |tr[i - 1].invocations| then [e.answer] else []
  }

  /** The answers a dispatch takes: four for a mail, seven for a calendar event. */
  function Needed(handler: Handler): nat { if handler.Mail? then 4 else 7 }

  function DialogAt(handler: Handler): nat { if handler.Mail? then 2 else 3 }

  predicate AuditsAt(handler: Handler, p: nat) { if handler.Mail? then p == 1 else p == 2 || p == 6 }

  predicate RightDocument(config: Config, id: Id, reviewed: string, a: Answer) {
    a.Returns? && a.document.id == id && a.document.fingerprint == reviewed && config.detail(a.document).Some?
  }

  /** The document read after the approval is the one that was approved. */
  predicate SameAgain(config: Config, id: Id, reviewed: string, first: Answer, a: Answer) {
    && RightDocument(config, id, reviewed, a) && first.Returns?
    && config.detail(a.document) == config.detail(first.document)
    && (config.handler.Calendar? ==> config.signature(a.document) == config.signature(first.document))
  }

  predicate NeverAttempted(handler: Handler, id: Id, a: Answer) {
    a.Audits? && forall i :: 0 <= i < |a.audits| ==> a.audits[i].resource != id || (handler.Mail? && !a.audits[i].ofSending)
  }

  /** Answer `p` is the one that lets the invocation go on towards its dispatch. */
  predicate Fits(config: Config, id: Id, reviewed: string, given: seq<Answer>, p: nat)
    requires p < |given|
  {
    match config.handler
    case Mail =>
      && (p == 0 ==> RightDocument(config, id, reviewed, given[p]))
      && (p == 1 ==> NeverAttempted(Mail, id, given[p]))
      && (p == 2 ==> given[p] == Clicked(1))
      && (p == 3 ==> SameAgain(config, id, reviewed, given[0], given[p]))
    case Calendar =>
      && (p == 0 ==> RightDocument(config, id, reviewed, given[p]))
      && (p == 1 ==> given[p].Capability?)
      && (p == 2 ==> NeverAttempted(Calendar, id, given[p]))
      && (p == 3 ==> given[p] == Clicked(1))
      && (p == 4 ==> SameAgain(config, id, reviewed, given[0], given[p]))
      && (p == 5 ==> given[p].Capability? && given[p] == given[1])
      && (p == 6 ==> NeverAttempted(Calendar, id, given[p]))
  }

  ghost predicate FitsUpTo(config: Config, id: Id, reviewed: string, given: seq<Answer>, n: nat) {
    n <= |given| && forall p: nat :: p < n ==> Fits(config, id, reviewed, given, p)
  }

  /** The first answers are those a dispatch takes. */
  ghost predicate Approved(config: Config, id: Id, reviewed: string, given: seq<Answer>) {
    FitsUpTo(config, id, reviewed, given, Needed(config.handler))
  }

  /** The one audit of this plan, and it matches. */
  ghost predicate OnlyMatch(audits: seq<Audit>, id: Id) {
    exists i :: 0 <= i < |audits| && audits[i].resource == id && audits[i].matchesPlan
                && forall j :: 0 <= j < |audits| && j != i ==> audits[j].resource != id
  }

  /** How the invocation ends by answer `n`, the first that does not fit, or the one to its request. */
  ghost predicate EndsWith(config: Config, id: Id, n: nat, a: Answer, outcome: Outcome) {
    if n == Needed(config.handler) then
      outcome == if a.Executed? && (a.valid || config.handler.Mail?) then Audited else Unresolved
    else if n == DialogAt(config.handler) && a.Clicked? then outcome == Cancelled
    else if AuditsAt(config.handler, n) && a.Audits? then
      outcome == if config.handler.Mail? || OnlyMatch(a.audits, id) then Audited else Unresolved
    else outcome == NotDispatched
  }

  ghost predicate EndsAt(config: Config, id: Id, reviewed: string, given: seq<Answer>, outcome: Outcome, n: nat) {
    && n < |given| && FitsUpTo(config, id, reviewed, given, n) && n <= Needed(config.handler)
    && (n < Needed(config.handler) ==> !Fits(config, id, reviewed, given, n))
    && EndsWith(config, id, n, given[n], outcome)
  }

  ghost predicate Ends(config: Config, id: Id, reviewed: string, given: seq<Answer>, outcome: Outcome) {
    exists n: nat :: EndsAt(config, id, reviewed, given, outcome, n)
  }

  ghost predicate HasSent(log: seq<Entry>, k: nat) {
    exists e :: e in log && e.Sent? && e.who == k
  }

  // ---------------------------------------------------------------- what each phase remembers

  predicate Remembers(config: Config, review: Review, given: seq<Answer>) {
    && |given| > 0 && given[0] == Returns(review.document) && config.detail(review.document) == Some(review.detail)
    && (config.handler.Calendar? ==> |given| > 1 && given[1] == Capability(review.capability))
  }

  /** The answers so far all fit, and the phase says how many there are and what they were. */
  predicate AtStage(config: Config, phase: Phase, given: seq<Answer>) {
    var calendar := config.handler.Calendar?;
    match phase
    case FetchingFirst => given == []
    case CheckingFirst(document, detail) =>
      calendar && given == [Returns(document)] && config.detail(document) == Some(detail)
    case AuditingFirst(review) => |given| == (if calendar then 2 else 1) && Remembers(config, review, given)
    case InDialog(review) => |given| == (if calendar then 3 else 2) && Remembers(config, review, given)
    case FetchingAgain(review) => |given| == (if calendar then 4 else 3) && Remembers(config, review, given)
    case CheckingAgain(review, _) => calendar && |given| == 5 && Remembers(config, review, given)
    case AuditingAgain(review, _) => calendar && |given| == 6 && Remembers(config, review, given)
    case Executing(_, _) => |given| == (if calendar then 7 else 4)
    case Done(_) => true
  }

  /** How the phase and the log of an invocation follow from the answers it was given. */
  ghost predicate Follows(config: Config, s: State, k: nat, given: seq<Answer>)
    requires k < |s.invocations|
  {
    var me := s.invocations[k];
    if me.phase == Done(TurnedAway) then !HasSent(s.log, k)
    else
      && (!me.phase.Done? ==> AtStage(config, me.phase, given) && FitsUpTo(config, me.id, me.reviewed, given, |given|))
      && (me.phase.Done? ==> Ends(config, me.id, me.reviewed, given, me.phase.outcome))
      && (HasSent(s.log, k) <==> Approved(config, me.id, me.reviewed, given))
  }

  // ---------------------------------------------------------------- one more answer

  lemma FitsLater(config: Config, id: Id, reviewed: string, given: seq<Answer>, a: Answer, p: nat)
    requires p < |given|
    ensures Fits(config, id, reviewed, given + [a], p) <==> Fits(config, id, reviewed, given, p)
  {
  }

  lemma FitsUpToLater(config: Config, id: Id, reviewed: string, given: seq<Answer>, a: Answer, n: nat)
    requires n <= |given|
    ensures FitsUpTo(config, id, reviewed, given + [a], n) <==> FitsUpTo(config, id, reviewed, given, n)
  {
    hide Fits;
    forall p: nat | p < n ensures Fits(config, id, reviewed, given + [a], p) <==> Fits(config, id, reviewed, given, p) {
      FitsLater(config, id, reviewed, given, a, p);
    }
  }

  lemma FitsOneMore(config: Config, id: Id, reviewed: string, given: seq<Answer>, a: Answer)
    requires FitsUpTo(config, id, reviewed, given, |given|)
    ensures FitsUpTo(config, id, reviewed, given + [a], |given| + 1) <==> Fits(config, id, reviewed, given + [a], |given|)
  {
    hide Fits;
    FitsUpToLater(config, id, reviewed, given, a, |given|);
  }

  /** An invocation that has ended stays as it is, whatever it is answered. */
  lemma EndsLater(config: Config, id: Id, reviewed: string, given: seq<Answer>, a: Answer, outcome: Outcome)
    requires Ends(config, id, reviewed, given, outcome)
    ensures Ends(config, id, reviewed, given + [a], outcome)
    ensures Approved(config, id, reviewed, given + [a]) <==> Approved(config, id, reviewed, given)
  {
    hide Fits, EndsWith;
    var n: nat :| EndsAt(config, id, reviewed, given, outcome, n);
    FitsUpToLater(config, id, reviewed, given, a, n);
    FitsLater(config, id, reviewed, given, a, n);
    assert EndsAt(config, id, reviewed, given + [a], outcome, n);
    if n < Needed(config.handler) {
      assert !Fits(config, id, reviewed, given + [a], n);
    } else {
      FitsUpToLater(config, id, reviewed, given, a, Needed(config.handler));
    }
  }

  /** The answer that ends an invocation, and what it means for its dispatch. */
  lemma EndsNow(config: Config, id: Id, reviewed: string, given: seq<Answer>, a: Answer, outcome: Outcome)
    requires FitsUpTo(config, id, reviewed, given, |given|) && |given| <= Needed(config.handler)
    requires |given| < Needed(config.handler) ==> !Fits(config, id, reviewed, given + [a], |given|)
    requires EndsWith(config, id, |given|, a, outcome)
    ensures Ends(config, id, reviewed, given + [a], outcome)
    ensures Approved(config, id, reviewed, given + [a]) <==> |given| == Needed(config.handler)
  {
    hide Fits, EndsWith;
    FitsUpToLater(config, id, reviewed, given, a, |given|);
    assert EndsAt(config, id, reviewed, given + [a], outcome, |given|);
  }

  lemma MatchesNone(handler: Handler, audits: seq<Audit>, id: Id)
    ensures Matches(handler, audits, id) == [] <==> NeverAttempted(handler, id, Audits(audits))
  {
    if audits != [] {
      MatchesNone(handler, audits[1..], id);
      assert audits == [audits[0]] + audits[1..];
    }
  }

  lemma {:induction false} MatchesOne(audits: seq<Audit>, id: Id)
    ensures |Matches(Calendar, audits, id)| == 1 && Matches(Calendar, audits, id)[0].matchesPlan <==> OnlyMatch(audits, id)
  {
    if audits != [] {
      var rest := audits[1..];
      MatchesOne(rest, id);
      MatchesNone(Calendar, rest, id);
      assert forall j :: 0 <= j < |rest| ==> rest[j] == audits[j + 1];
      if audits[0].resource == id {
        if OnlyMatch(audits, id) {
          var i :| 0 <= i < |audits| && audits[i].resource == id && audits[i].matchesPlan
                   && forall j :: 0 <= j < |audits| && j != i ==> audits[j].resource != id;
          assert i == 0;
          assert NeverAttempted(Calendar, id, Audits(rest));
        }
        if Matches(Calendar, rest, id) == [] && audits[0].matchesPlan {
          forall j | 0 < j < |audits| ensures audits[j].resource != id { assert rest[j - 1].resource != id; }
        }
      } else {
        if OnlyMatch(audits, id) {
          var i :| 0 <= i < |audits| && audits[i].resource == id && audits[i].matchesPlan
                   && forall j :: 0 <= j < |audits| && j != i ==> audits[j].resource != id;
          assert rest[i - 1] == audits[i];
          forall j | 0 <= j < |rest| && j != i - 1 ensures rest[j].resource != id { assert audits[j + 1].resource != id; }
        }
        if OnlyMatch(rest, id) {
          var i :| 0 <= i < |rest| && rest[i].resource == id && rest[i].matchesPlan
                   && forall j :: 0 <= j < |rest| && j != i ==> rest[j].resource != id;
          forall j | 0 <= j < |audits| && j != i + 1 ensures audits[j].resource != id {
            if j > 0 { assert rest[j - 1].resource != id; }
          }
        }
      }
    }
  }

  lemma SentGrows(log: seq<Entry>, e: Entry, k: nat)
    ensures HasSent(log + [e], k) <==> HasSent(log, k) || (e.Sent? && e.who == k)
  {
    assert e in log + [e] && forall x :: x in log ==> x in log + [e];
  }

  // ---------------------------------------------------------------- one step of an invocation

  /** With an answer that fits the invocation goes on, and sends exactly with the last one needed; otherwise it ends unsent. */
  ghost predicate Advanced(config: Config, s: State, t: State, k: nat, given: seq<Answer>, a: Answer)
    requires k < |s.invocations|
  {
    && |t.invocations| == |s.invocations| && t.invocations[k].id == s.invocations[k].id
    && t.invocations[k].reviewed == s.invocations[k].reviewed
    && var me := t.invocations[k];
       if Fits(config, me.id, me.reviewed, given + [a], |given|) then
         && !me.phase.Done? && AtStage(config, me.phase, given + [a])
         && (HasSent(t.log, k) <==> me.phase.Executing?)
       else
         && me.phase.Done? && me.phase != Done(TurnedAway) && !HasSent(t.log, k)
         && EndsWith(config, me.id, |given|, a, me.phase.outcome)
  }

  /** Where an invocation under review stands. */
  ghost predicate UnderReview(config: Config, s: State, k: nat, given: seq<Answer>) {
    && Inv(config, s) && k < |s.invocations| && !HasSent(s.log, k)
    && Active(s.invocations[k].phase) && AtStage(config, s.invocations[k].phase, given)
    && FitsUpTo(config, s.invocations[k].id, s.invocations[k].reviewed, given, |given|)
  }

  /** What goes wrong under review leaves the id free again. */
  lemma ThrowsNotDispatched(config: Config, s: State, k: nat)
    requires Inv(config, s) && k < |s.invocations| && Active(s.invocations[k].phase)
    ensures
      var t := Throw(s, k);
      && |t.invocations| == |s.invocations| && t.log == s.log
      && t.invocations[k] == s.invocations[k].(phase := Done(NotDispatched))
  {
    hide Inv, Without;
    InvPhase(config, s, k);
  }

  lemma FirstAnswer(config: Config, s: State, k: nat, given: seq<Answer>, a: Answer)
    requires UnderReview(config, s, k, given) && s.invocations[k].phase.FetchingFirst?
    ensures Advanced(config, s, Resume(config, s, k, a), k, given, a)
  {
    hide Inv, Throw;
    ThrowsNotDispatched(config, s, k);
    if a.Returns? {
      SentGrows(s.log, Fetched(k, a.document), k);
      FetchedKeeps(config, s, k, a.document);
      ThrowsNotDispatched(config, Logged(s, Fetched(k, a.document)), k);
    }
  }

  lemma CapabilityAnswer(config: Config, s: State, k: nat, given: seq<Answer>, a: Answer)
    requires UnderReview(config, s, k, given) && s.invocations[k].phase.CheckingFirst?
    ensures Advanced(config, s, Resume(config, s, k, a), k, given, a)
  {
    hide Inv, Throw;
    ThrowsNotDispatched(config, s, k);
  }

  /** An attempt found in the history ends the review, and blocks the id. */
  lemma PriorAnswer(config: Config, s: State, k: nat, audits: seq<Audit>)
    requires k < |s.invocations|
    requires !NeverAttempted(config.handler, s.invocations[k].id, Audits(audits))
    ensures
      var matches := Matches(config.handler, audits, s.invocations[k].id);
      var t := FoundPrior(config, s, k, matches);
      && matches != [] && |t.invocations| == |s.invocations| && t.log == s.log
      && t.invocations[k] ==
         s.invocations[k].(phase := Done(
           if config.handler.Mail? || OnlyMatch(audits, s.invocations[k].id) then Audited else Unresolved))
  {
    hide Without, Matches, OnlyMatch;
    MatchesNone(config.handler, audits, s.invocations[k].id);
    MatchesOne(audits, s.invocations[k].id);
  }

  lemma AuditsAnswer(config: Config, s: State, k: nat, given: seq<Answer>, a: Answer)
    requires UnderReview(config, s, k, given) && s.invocations[k].phase.AuditingFirst?
    ensures Advanced(config, s, Resume(config, s, k, a), k, given, a)
  {
    hide Inv, Throw, Matches, FoundPrior, NeverAttempted, OnlyMatch;
    ThrowsNotDispatched(config, s, k);
    NeedsAudits(config.handler, s.invocations[k].id, a);
    if a.Audits? {
      MatchesNone(config.handler, a.audits, s.invocations[k].id);
      if !NeverAttempted(config.handler, s.invocations[k].id, a) { PriorAnswer(config, s, k, a.audits); }
    }
  }

  lemma NeedsAudits(handler: Handler, id: Id, a: Answer)
    ensures NeverAttempted(handler, id, a) ==> a.Audits?
  {
  }

  /** Only the second button goes on; any other one cancels. */
  lemma DialogAnswer(config: Config, s: State, k: nat, given: seq<Answer>, a: Answer)
    requires UnderReview(config, s, k, given) && s.invocations[k].phase.InDialog?
    ensures Advanced(config, s, Resume(config, s, k, a), k, given, a)
  {
    hide Inv, Throw, Without;
    ThrowsNotDispatched(config, s, k);
    SentGrows(s.log, Confirmed(k, s.invocations[k].phase.review.detail), k);
  }

  lemma SecondAnswer(config: Config, s: State, k: nat, given: seq<Answer>, a: Answer)
    requires UnderReview(config, s, k, given) && s.invocations[k].phase.FetchingAgain?
    ensures Advanced(config, s, Resume(config, s, k, a), k, given, a)
  {
    hide Inv, Throw;
    ThrowsNotDispatched(config, s, k);
    if a.Returns? {
      var read := Logged(s, Fetched(k, a.document));
      SentGrows(s.log, Fetched(k, a.document), k);
      SentGrows(read.log, Sent(k, s.invocations[k].id), k);
      FetchedKeeps(config, s, k, a.document);
      ThrowsNotDispatched(config, read, k);
    }
  }

  lemma SecondCapabilityAnswer(config: Config, s: State, k: nat, given: seq<Answer>, a: Answer)
    requires UnderReview(config, s, k, given) && s.invocations[k].phase.CheckingAgain?
    ensures Advanced(config, s, Resume(config, s, k, a), k, given, a)
  {
    hide Inv, Throw;
    ThrowsNotDispatched(config, s, k);
  }

  lemma SecondAuditsAnswer(config: Config, s: State, k: nat, given: seq<Answer>, a: Answer)
    requires UnderReview(config, s, k, given) && s.invocations[k].phase.AuditingAgain?
    ensures Advanced(config, s, Resume(config, s, k, a), k, given, a)
  {
    hide Inv, Throw, Matches, FoundPrior, NeverAttempted, OnlyMatch;
    ThrowsNotDispatched(config, s, k);
    NeedsAudits(config.handler, s.invocations[k].id, a);
    SentGrows(s.log, Cleared(k), k);
    SentGrows(s.log + [Cleared(k)], Sent(k, s.invocations[k].id), k);
    if a.Audits? {
      MatchesNone(config.handler, a.audits, s.invocations[k].id);
      if !NeverAttempted(config.handler, s.invocations[k].id, a) { PriorAnswer(config, s, k, a.audits); }
    }
  }

  lemma ReviewAnswer(config: Config, s: State, k: nat, given: seq<Answer>, a: Answer)
    requires UnderReview(config, s, k, given)
    ensures Advanced(config, s, Resume(config, s, k, a), k, given, a)
  {
    hide UnderReview, Advanced, Resume;
    ReviewPhases(config, s, k, given);
    match s.invocations[k].phase
    case FetchingFirst => FirstAnswer(config, s, k, given, a);
    case CheckingFirst(_, _) => CapabilityAnswer(config, s, k, given, a);
    case AuditingFirst(_) => AuditsAnswer(config, s, k, given, a);
    case InDialog(_) => DialogAnswer(config, s, k, given, a);
    case FetchingAgain(_) => SecondAnswer(config, s, k, given, a);
    case CheckingAgain(_, _) => SecondCapabilityAnswer(config, s, k, given, a);
    case AuditingAgain(_, _) => SecondAuditsAnswer(config, s, k, given, a);
  }

  lemma ReviewPhases(config: Config, s: State, k: nat, given: seq<Answer>)
    requires UnderReview(config, s, k, given)
    ensures k < |s.invocations| && !s.invocations[k].phase.Executing? && !s.invocations[k].phase.Done?
  {
  }

  /** Under review there are fewer answers than a dispatch takes, while dispatching just as many. */
  lemma StageCounts(config: Config, phase: Phase, given: seq<Answer>)
    requires AtStage(config, phase, given) && !phase.Done?
    ensures phase.Executing? <==> |given| >= Needed(config.handler)
    ensures |given| <= Needed(config.handler)
  {
  }

  lemma ReviewFollows(config: Config, s: State, k: nat, given: seq<Answer>, a: Answer)
    requires UnderReview(config, s, k, given)
    ensures
      var t := Resume(config, s, k, a);
      |t.invocations| == |s.invocations| && Follows(config, t, k, given + [a])
  {
    hide Resume, Inv, Fits, EndsWith, AtStage, HasSent;
    ReviewAnswer(config, s, k, given, a);
    var t, me := Resume(config, s, k, a), s.invocations[k];
    StageCounts(config, me.phase, given);
    FitsOneMore(config, me.id, me.reviewed, given, a);
    if Fits(config, me.id, me.reviewed, given + [a], |given|) {
      StageCounts(config, t.invocations[k].phase, given + [a]);
    } else {
      EndsNow(config, me.id, me.reviewed, given, a, t.invocations[k].phase.outcome);
    }
  }

  /** The answer to the request decides between an audit and an unresolved outcome. */
  lemma ExecutingFollows(config: Config, s: State, k: nat, given: seq<Answer>, a: Answer)
    requires Inv(config, s) && k < |s.invocations| && s.invocations[k].phase.Executing? && Follows(config, s, k, given)
    ensures
      var t := Resume(config, s, k, a);
      |t.invocations| == |s.invocations| && Follows(config, t, k, given + [a])
  {
    hide Inv, Without, Fits, HasSent;
    var me := s.invocations[k];
    InvPhase(config, s, k);
    EndsNow(config, me.id, me.reviewed, given, a, if a.Executed? && (a.valid || config.handler.Mail?) then Audited else Unresolved);
  }

  lemma DoneFollows(config: Config, s: State, k: nat, given: seq<Answer>, a: Answer)
    requires k < |s.invocations| && s.invocations[k].phase.Done? && Follows(config, s, k, given)
    ensures Resume(config, s, k, a) == s && Follows(config, s, k, given + [a])
  {
    hide Fits, HasSent, Ends;
    var me := s.invocations[k];
    if me.phase != Done(TurnedAway) { EndsLater(config, me.id, me.reviewed, given, a, me.phase.outcome); }
  }

  lemma UnderReviewFollows(config: Config, s: State, k: nat, given: seq<Answer>)
    requires Inv(config, s) && k < |s.invocations| && Active(s.invocations[k].phase) && Follows(config, s, k, given)
    ensures UnderReview(config, s, k, given)
  {
    hide Inv, Fits, HasSent;
    StageCounts(config, s.invocations[k].phase, given);
  }

  lemma AnsweredFollows(config: Config, s: State, k: nat, given: seq<Answer>, a: Answer)
    requires Inv(config, s) && k < |s.invocations| && Follows(config, s, k, given)
    ensures
      var t := Resume(config, s, k, a);
      |t.invocations| == |s.invocations| && Follows(config, t, k, given + [a])
  {
    hide Inv, Resume, Follows, UnderReview;
    if s.invocations[k].phase.Done? { DoneFollows(config, s, k, given, a); }
    else if s.invocations[k].phase.Executing? { ExecutingFollows(config, s, k, given, a); }
    else {
      UnderReviewFollows(config, s, k, given);
      ReviewFollows(config, s, k, given, a);
    }
  }

  /** What is answered to one invocation, or called, leaves another where it was. */
  lemma OthersFollow(config: Config, s: State, e: Event, k: nat, given: seq<Answer>)
    requires Inv(config, s) && k < |s.invocations| && Follows(config, s, k, given) && !(e.Answered? && e.k == k)
    ensures k < |Step(config, s, e).invocations| && Follows(config, Step(config, s, e), k, given)
  {
    hide Inv, Resume, Ends, FitsUpTo, AtStage;
    if e.Answered? && e.k < |s.invocations| {
      ResumeSettlesOne(config, s, e.k, e.answer, k);
      OthersSendNothing(config, s, e.k, e.answer, k);
    }
  }

  lemma OthersSendNothing(config: Config, s: State, j: nat, a: Answer, k: nat)
    requires j < |s.invocations| && j != k
    ensures HasSent(Resume(config, s, j, a).log, k) <==> HasSent(s.log, k)
  {
    hide Resume;
    var added := StepAdds(config, s, j, a);
    assert forall e :: e in s.log ==> e in s.log + added;
    assert forall e :: e in added ==> e.who == j;
  }

  /** A call begins an invocation that has been answered nothing, or is turned away. */
  lemma CallFollows(config: Config, s: State, id: Id, reviewed: string)
    requires Inv(config, s)
    ensures
      var t := CallStep(s, id, reviewed);
      && |t.invocations| == |s.invocations| + 1 && Follows(config, t, |s.invocations|, [])
      && t.invocations[|s.invocations|].id == id && t.invocations[|s.invocations|].reviewed == reviewed
      && (t.invocations[|s.invocations|].phase == Done(TurnedAway) <==> id in s.attempts)
  {
    hide Inv, MaySend;
    var k := |s.invocations|;
    if HasSent(s.log, k) {
      var e :| e in s.log && e.Sent? && e.who == k;
      var i :| 0 <= i < |s.log| && s.log[i] == e;
      InvSent(config, s, i);
    }
  }

  // ---------------------------------------------------------------- whole runs

  /** In every run each invocation stands where the answers it was given have brought it. */
  lemma {:induction false} RunFollows(config: Config, tr: seq<State>, es: seq<Event>, i: nat, k: nat)
    requires IsRun(config, tr, es) && i < |tr| && k < |tr[i].invocations|
    ensures Follows(config, tr[i], k, AnswersTo(tr, es, i, k))
  {
    hide IsRun, Inv, Step, Follows;
    RunBegins(config, tr, es);
    if i > 0 {
      RunKeepsInv(config, tr, es, i - 1);
      RunSteps(config, tr, es, i - 1);
      var s, e := tr[i - 1], es[i - 1];
      if k < |s.invocations| {
        RunFollows(config, tr, es, i - 1, k);
        EventFollows(config, s, e, k, AnswersTo(tr, es, i - 1, k));
      } else {
        NoAnswersYet(config, tr, es, i - 1, k);
        assert AnswersTo(tr, es, i, k) == [] + [];
        NewFollows(config, s, e, k);
      }
    }
  }

  lemma RunBegins(config: Config, tr: seq<State>, es: seq<Event>)
    requires IsRun(config, tr, es)
    ensures |tr| == |es| + 1 && tr[0].invocations == []
  {
  }

  lemma RunSteps(config: Config, tr: seq<State>, es: seq<Event>, i: nat)
    requires IsRun(config, tr, es) && i < |es|
    ensures |tr| == |es| + 1 && tr[i + 1] == Step(config, tr[i], es[i])
  {
    hide Step;
    assert StepsTo(config, tr[i], es[i], tr[i + 1]);
  }

  lemma EventFollows(config: Config, s: State, e: Event, k: nat, given: seq<Answer>)
    requires Inv(config, s) && k < |s.invocations| && Follows(config, s, k, given)
    ensures
      var t := Step(config, s, e);
      k < |t.invocations| && Follows(config, t, k, given + if e.Answered? && e.k == k then [e.answer] else [])
  {
    hide Inv, Resume, Follows, CallStep;
    if e.Answered? && e.k == k { AnsweredFollows(config, s, k, given, e.answer); }
    else { OthersFollow(config, s, e, k, given); assert given + [] == given; }
  }

  lemma NewFollows(config: Config, s: State, e: Event, k: nat)
    requires Inv(config, s) && |s.invocations| <= k < |Step(config, s, e).invocations|
    ensures Follows(config, Step(config, s, e), k, [])
  {
    hide Inv, Resume, Follows, CallStep;
    match e
    case Call(id, reviewed) => CallFollows(config, s, id, reviewed);
    case Answered(j, a) => if j < |s.invocations| { AnswersAddNone(config, s, j, a); }
  }

  lemma AnswersAddNone(config: Config, s: State, k: nat, a: Answer)
    requires k < |s.invocations|
    ensures |Resume(config, s, k, a).invocations| == |s.invocations|
  {
    hide Resume;
    ResumeMovesOne(config, s, k, a);
  }

  lemma {:induction false} NoAnswersYet(config: Config, tr: seq<State>, es: seq<Event>, i: nat, k: nat)
    requires IsRun(config, tr, es) && i < |tr| && |tr[i].invocations| <= k
    ensures AnswersTo(tr, es, i, k) == []
  {
    hide IsRun, Step;
    RunBegins(config, tr, es);
    if i > 0 {
      RunSteps(config, tr, es, i - 1);
      InvocationsGrow(config, tr[i - 1], es[i - 1]);
      NoAnswersYet(config, tr, es, i - 1, k);
    }
  }

  lemma InvocationsGrow(config: Config, s: State, e: Event)
    ensures |s.invocations| <= |Step(config, s, e).invocations|
  {
    hide Resume;
    if e.Answered? && e.k < |s.invocations| { AnswersAddNone(config, s, e.k, e.answer); }
  }

  /**
   * An invocation that was not turned away has dispatched exactly when its first answers were,
   * in this order: the document reviewed, for a calendar the capability, an attempt history
   * without its id, the second button of the dialog, the same document again, and for a
   * calendar the same capability and once more an attempt history without its id.
   */
  lemma DispatchedExactlyWhenApproved(config: Config, tr: seq<State>, es: seq<Event>, i: nat, k: nat)
    requires IsRun(config, tr, es) && i < |tr| && k < |tr[i].invocations| && tr[i].invocations[k].phase != Done(TurnedAway)
    ensures
      var me := tr[i].invocations[k];
      HasSent(tr[i].log, k) <==> Approved(config, me.id, me.reviewed, AnswersTo(tr, es, i, k))
  {
    hide IsRun, Approved, HasSent;
    RunFollows(config, tr, es, i, k);
  }

  /** How an invocation that was not turned away ends follows from its answers alone. */
  lemma OutcomeFollows(config: Config, tr: seq<State>, es: seq<Event>, i: nat, k: nat)
    requires IsRun(config, tr, es) && i < |tr| && k < |tr[i].invocations| && tr[i].invocations[k].phase != Done(TurnedAway)
    ensures
      var me, given := tr[i].invocations[k], AnswersTo(tr, es, i, k);
      if me.phase.Done? then Ends(config, me.id, me.reviewed, given, me.phase.outcome)
      else FitsUpTo(config, me.id, me.reviewed, given, |given|) && |given| <= Needed(config.handler)
  {
    hide IsRun, Ends, HasSent, FitsUpTo;
    RunBegins(config, tr, es);
    RunFollows(config, tr, es, i, k);
    var me := tr[i].invocations[k];
    if !me.phase.Done? { StageCounts(config, me.phase, AnswersTo(tr, es, i, k)); }
  }

  // ---------------------------------------------------------------- the dialog

  lemma {:induction false} AnswersGrow(config: Config, tr: seq<State>, es: seq<Event>, i: nat, j: nat, k: nat)
    requires IsRun(config, tr, es) && i <= j < |tr|
    ensures |tr| == |es| + 1 && AnswersTo(tr, es, i, k) <= AnswersTo(tr, es, j, k)
  {
    hide IsRun;
    RunBegins(config, tr, es);
    if i < j { AnswersGrow(config, tr, es, i, j - 1, k); }
  }

  /** The event by which an invocation was given its answer number `p`. */
  lemma {:induction false} GivenBy(config: Config, tr: seq<State>, es: seq<Event>, i: nat, k: nat, p: nat) returns (j: nat)
    requires IsRun(config, tr, es) && i < |tr| && |tr| == |es| + 1 && p < |AnswersTo(tr, es, i, k)|
    ensures j < i && k < |tr[j].invocations| && es[j] == Answered(k, AnswersTo(tr, es, i, k)[p])
    ensures AnswersTo(tr, es, j, k) == AnswersTo(tr, es, i, k)[..p]
  {
    hide IsRun;
    if p < |AnswersTo(tr, es, i - 1, k)| {
      j := GivenBy(config, tr, es, i - 1, k, p);
    } else {
      j := i - 1;
    }
  }

  lemma FitsBefore(config: Config, id: Id, reviewed: string, given: seq<Answer>, n: nat, p: nat)
    requires p < n <= |given|
    ensures Fits(config, id, reviewed, given[..n], p) <==> Fits(config, id, reviewed, given, p)
  {
  }

  /** With as many answers as precede the dialog, all of which fit, the invocation is in its dialog. */
  lemma StandsInDialog(config: Config, s: State, k: nat, given: seq<Answer>)
    requires k < |s.invocations| && s.invocations[k].phase != Done(TurnedAway) && Follows(config, s, k, given)
    requires |given| == DialogAt(config.handler)
    requires FitsUpTo(config, s.invocations[k].id, s.invocations[k].reviewed, given, |given|)
    ensures s.invocations[k].phase.InDialog?
  {
    hide Fits, HasSent, EndsWith;
    var me := s.invocations[k];
    NotEndedYet(config, me.id, me.reviewed, given);
  }

  lemma NotEndedYet(config: Config, id: Id, reviewed: string, given: seq<Answer>)
    requires |given| < Needed(config.handler) && FitsUpTo(config, id, reviewed, given, |given|)
    ensures forall outcome :: !Ends(config, id, reviewed, given, outcome)
  {
    hide Fits, EndsWith;
    forall outcome, n: nat ensures !EndsAt(config, id, reviewed, given, outcome, n) {
      if n < |given| { assert Fits(config, id, reviewed, given, n); }
    }
  }

  /** Nothing is dispatched unless somebody pressed the second button of the dialog before. */
  lemma SentWasConfirmed(config: Config, tr: seq<State>, es: seq<Event>, i: nat, k: nat) returns (j: nat)
    requires IsRun(config, tr, es) && i < |tr| && HasSent(tr[i].log, k)
    ensures j < i && |tr| == |es| + 1 && es[j] == Answered(k, Clicked(1))
    ensures k < |tr[j].invocations| && tr[j].invocations[k].phase.InDialog?
  {
    hide IsRun, Inv, HasSent, Fits, AtStage;
    RunBegins(config, tr, es);
    RunKeepsInv(config, tr, es, i);
    SenderExists(config, tr[i], k);
    RunFollows(config, tr, es, i, k);
    var me, given, p := tr[i].invocations[k], AnswersTo(tr, es, i, k), DialogAt(config.handler);
    assert Fits(config, me.id, me.reviewed, given, p);
    DialogFits(config, me.id, me.reviewed, given);
    j := GivenBy(config, tr, es, i, k, p);
    SameCall(config, tr, es, j, i, k);
    RunFollows(config, tr, es, j, k);
    forall q: nat | q < p ensures Fits(config, me.id, me.reviewed, given[..p], q) {
      FitsBefore(config, me.id, me.reviewed, given, p, q);
    }
    StandsInDialog(config, tr[j], k, given[..p]);
  }

  lemma DialogFits(config: Config, id: Id, reviewed: string, given: seq<Answer>)
    requires |given| > DialogAt(config.handler) && Fits(config, id, reviewed, given, DialogAt(config.handler))
    ensures given[DialogAt(config.handler)] == Clicked(1)
  {
  }

  lemma SenderExists(config: Config, s: State, k: nat)
    requires Inv(config, s) && HasSent(s.log, k)
    ensures k < |s.invocations|
  {
    hide Inv, MaySend;
    var e :| e in s.log && e.Sent? && e.who == k;
    var i :| 0 <= i < |s.log| && s.log[i] == e;
    InvSent(config, s, i);
  }

  lemma KeepsCall(config: Config, s: State, e: Event, k: nat)
    requires k < |s.invocations|
    ensures
      var t := Step(config, s, e);
      && k < |t.invocations| && t.invocations[k].id == s.invocations[k].id
      && t.invocations[k].reviewed == s.invocations[k].reviewed
      && (t.invocations[k].phase == Done(TurnedAway) <==> s.invocations[k].phase == Done(TurnedAway))
  {
    hide Without, Matches, OnFirstDocument, OnSecondDocument, FoundPrior;
    if e.Answered? && e.k < |s.invocations| {
      if e.k == k { ResumeKeepsCall(config, s, k, e.answer); } else { ResumeSettlesOne(config, s, e.k, e.answer, k); }
    }
  }

  lemma ResumeKeepsCall(config: Config, s: State, k: nat, a: Answer)
    requires k < |s.invocations|
    ensures
      var t := Resume(config, s, k, a);
      && k < |t.invocations| && t.invocations[k].id == s.invocations[k].id
      && t.invocations[k].reviewed == s.invocations[k].reviewed
      && (t.invocations[k].phase == Done(TurnedAway) <==> s.invocations[k].phase == Done(TurnedAway))
  {
    hide Resume;
    ResumeMovesOne(config, s, k, a);
  }

  lemma {:induction false} SameCall(config: Config, tr: seq<State>, es: seq<Event>, i: nat, j: nat, k: nat)
    requires IsRun(config, tr, es) && i <= j < |tr| && k < |tr[i].invocations|
    ensures k < |tr[j].invocations| && tr[j].invocations[k].id == tr[i].invocations[k].id
    ensures tr[j].invocations[k].reviewed == tr[i].invocations[k].reviewed
    ensures tr[j].invocations[k].phase == Done(TurnedAway) <==> tr[i].invocations[k].phase == Done(TurnedAway)
  {
    hide IsRun, Step;
    RunBegins(config, tr, es);
    if i < j {
      SameCall(config, tr, es, i, j - 1, k);
      RunSteps(config, tr, es, j - 1);
      KeepsCall(config, tr[j - 1], es[j - 1], k);
    }
  }

  /** Any other button cancels the invocation, which then never dispatches. */
  lemma OtherButtonsCancel(config: Config, tr: seq<State>, es: seq<Event>, i: nat, k: nat, button: int, j: nat)
    requires IsRun(config, tr, es) && i < j < |tr| && es[i] == Answered(k, Clicked(button)) && button != 1
    requires k < |tr[i].invocations| && tr[i].invocations[k].phase.InDialog?
    ensures k < |tr[i + 1].invocations| && tr[i + 1].invocations[k].phase == Done(Cancelled)
    ensures !HasSent(tr[j].log, k)
  {
    hide IsRun, Inv, HasSent, Fits, EndsWith, AtStage, Step;
    RunBegins(config, tr, es);
    RunSteps(config, tr, es, i);
    RunKeepsInv(config, tr, es, i);
    RunFollows(config, tr, es, i, k);
    var given := AnswersTo(tr, es, i, k);
    CancelsNow(config, tr[i], k, given, button);
    AnswersGrow(config, tr, es, i + 1, j, k);
    SameCall(config, tr, es, i, j, k);
    RunFollows(config, tr, es, j, k);
    var me, later := tr[i].invocations[k], AnswersTo(tr, es, j, k);
    assert later[|given|] == Clicked(button);
    if Approved(config, me.id, me.reviewed, later) {
      assert Fits(config, me.id, me.reviewed, later, DialogAt(config.handler));
      DialogFits(config, me.id, me.reviewed, later);
    }
  }

  lemma CancelsNow(config: Config, s: State, k: nat, given: seq<Answer>, button: int)
    requires Inv(config, s) && k < |s.invocations| && s.invocations[k].phase.InDialog? && button != 1
    requires Follows(config, s, k, given)
    ensures |given| == DialogAt(config.handler)
    ensures
      var t := Step(config, s, Answered(k, Clicked(button)));
      k < |t.invocations| && t.invocations[k].phase == Done(Cancelled)
  {
    hide Inv, HasSent, Without;
  }

  // ---------------------------------------------------------------- calls that are turned away

  /** An invocation holds its id while it runs, and for good once it has dispatched or found an attempt. */
  predicate Holds(phase: Phase) { !phase.Done? || phase.outcome.Audited? || phase.outcome.Unresolved? }

  predicate Holder(s: State, k: nat, id: Id) { k < |s.invocations| && s.invocations[k].id == id && Holds(s.invocations[k].phase) }

  ghost predicate HeldByOne(s: State) {
    && (forall id :: id in s.attempts <==> exists k: nat :: Holder(s, k, id))
    && (forall j: nat, k: nat, id :: Holder(s, j, id) && Holder(s, k, id) ==> j == k)
  }

  /** What a step of a running invocation does to its own id, and that it touches no other. */
  lemma HoldsWhatItKeeps(config: Config, s: State, k: nat, a: Answer)
    requires Inv(config, s) && k < |s.invocations| && !s.invocations[k].phase.Done?
    ensures
      var t := Resume(config, s, k, a);
      && k < |t.invocations| && (s.invocations[k].id in t.attempts <==> Holds(t.invocations[k].phase))
      && forall id :: id != s.invocations[k].id ==> (id in t.attempts <==> id in s.attempts)
  {
    hide Inv, Matches;
    InvPhase(config, s, k);
  }

  lemma HeldStep(config: Config, s: State, e: Event)
    requires Inv(config, s) && HeldByOne(s)
    ensures HeldByOne(Step(config, s, e))
  {
    hide Inv, Resume, Holds;
    var t := Step(config, s, e);
    match e
    case Call(id, reviewed) => CallHolds(s, id, reviewed);
    case Answered(k, a) =>
      if k < |s.invocations| {
        if s.invocations[k].phase.Done? { DoneStays(config, s, k, a); }
        else {
          HoldsWhatItKeeps(config, s, k, a);
          AnswersAddNone(config, s, k, a);
          ResumeKeepsCall(config, s, k, a);
          forall j: nat | j < |s.invocations| && j != k ensures t.invocations[j] == s.invocations[j] {
            ResumeSettlesOne(config, s, k, a, j);
          }
          OneHolderMoves(s, t, k);
        }
      }
  }

  lemma DoneStays(config: Config, s: State, k: nat, a: Answer)
    requires k < |s.invocations| && s.invocations[k].phase.Done?
    ensures Resume(config, s, k, a) == s
  {
  }

  lemma CallHolds(s: State, id: Id, reviewed: string)
    requires HeldByOne(s)
    ensures HeldByOne(CallStep(s, id, reviewed))
  {
    var t, n := CallStep(s, id, reviewed), |s.invocations|;
    forall k: nat, x | k < n ensures Holder(t, k, x) <==> Holder(s, k, x) { }
    forall x ensures x in t.attempts <==> exists k: nat :: Holder(t, k, x) {
      if x in s.attempts { var k: nat :| Holder(s, k, x); assert Holder(t, k, x); }
      if x == id && id !in s.attempts { assert Holder(t, n, id); }
    }
  }

  lemma OneHolderMoves(s: State, t: State, k: nat)
    requires HeldByOne(s) && k < |s.invocations| == |t.invocations| && !s.invocations[k].phase.Done?
    requires t.invocations[k].id == s.invocations[k].id
    requires forall j: nat :: j < |s.invocations| && j != k ==> t.invocations[j] == s.invocations[j]
    requires s.invocations[k].id in t.attempts <==> Holds(t.invocations[k].phase)
    requires forall id :: id != s.invocations[k].id ==> (id in t.attempts <==> id in s.attempts)
    ensures HeldByOne(t)
  {
    var mine := s.invocations[k].id;
    assert Holder(s, k, mine);
    forall j: nat, id | j != k ensures Holder(t, j, id) <==> Holder(s, j, id) { }
    forall id ensures id in t.attempts <==> exists j: nat :: Holder(t, j, id) {
      if id == mine {
        if Holds(t.invocations[k].phase) { assert Holder(t, k, mine); }
      } else if id in s.attempts {
        var j: nat :| Holder(s, j, id);
        assert Holder(t, j, id);
      }
    }
  }

  /**
   * A call is turned away exactly while another invocation of its id runs, or once one has
   * dispatched or found an earlier attempt.
   */
  lemma {:induction false} HeldExactly(config: Config, tr: seq<State>, es: seq<Event>, i: nat)
    requires IsRun(config, tr, es) && i < |tr|
    ensures HeldByOne(tr[i])
  {
    hide IsRun, Inv, Step;
    RunBegins(config, tr, es);
    if i > 0 {
      HeldExactly(config, tr, es, i - 1);
      RunKeepsInv(config, tr, es, i - 1);
      RunSteps(config, tr, es, i - 1);
      HeldStep(config, tr[i - 1], es[i - 1]);
    } else {
      StartsEmpty(config, tr, es);
    }
  }

  lemma StartsEmpty(config: Config, tr: seq<State>, es: seq<Event>)
    requires IsRun(config, tr, es)
    ensures HeldByOne(tr[0])
  {
  }
}
