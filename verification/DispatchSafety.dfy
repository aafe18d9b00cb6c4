/** What every run of the dispatch handlers keeps, whatever the backend and the dialogs answer. */
module DispatchSafety {
  import opened Prelude
  import opened Dispatch

  // ---------------------------------------------------------------- logs grow

  predicate AllBy(added: seq<Entry>, k: nat) { forall i :: 0 <= i < |added| ==> added[i].who == k }

  lemma CountGrows(log: seq<Entry>, e: Entry, id: Id)
    ensures Count(log + [e], id) == Count(log, id) + if Sends(e, id) then 1 else 0
  {
    assert (log + [e])[..|log|] == log;
  }

  lemma LastGrows(log: seq<Entry>, e: Entry, k: nat)
    ensures LastFetched(log + [e], k) == if e.Fetched? && e.who == k then Some(e.document) else LastFetched(log, k)
    ensures LastConfirmed(log + [e], k) == if e.Confirmed? && e.who == k then Some(e.detail) else LastConfirmed(log, k)
  {
    assert (log + [e])[..|log|] == log;
  }

  /** What one invocation writes says nothing about another. */
  lemma {:induction false} LastOfOthers(log: seq<Entry>, added: seq<Entry>, k: nat, j: nat)
    requires AllBy(added, k) && j != k
    ensures LastFetched(log + added, j) == LastFetched(log, j) && LastConfirmed(log + added, j) == LastConfirmed(log, j)
    decreases |added|
  {
    if added == [] { assert log + added == log; }
    else {
      var shorter, e := added[..|added| - 1], added[|added| - 1];
      assert log + added == (log + shorter) + [e];
      LastGrows(log + shorter, e, j);
      LastOfOthers(log, shorter, k, j);
    }
  }

  lemma {:induction false} CountOfOthers(log: seq<Entry>, added: seq<Entry>, id: Id)
    requires forall i :: 0 <= i < |added| ==> !Sends(added[i], id)
    ensures Count(log + added, id) == Count(log, id)
    decreases |added|
  {
    if added == [] { assert log + added == log; }
    else {
      var shorter, e := added[..|added| - 1], added[|added| - 1];
      assert log + added == (log + shorter) + [e];
      CountGrows(log + shorter, e, id);
      CountOfOthers(log, shorter, id);
    }
  }

  // ---------------------------------------------------------------- one invocation moves

  /** The only ways in which a step of invocation `k` changes the state. */
  ghost predicate Moves(s: State, t: State, k: nat, added: seq<Entry>) {
    && k < |s.invocations| && !s.invocations[k].phase.Done? && |t.invocations| == |s.invocations|
    && t.invocations == s.invocations[k := s.invocations[k].(phase := t.invocations[k].phase)]
    && t.log == s.log + added && AllBy(added, k)
    && (Active(t.invocations[k].phase) ==> Active(s.invocations[k].phase))
    && (forall i :: 0 <= i < |added| && added[i].Sent? ==> added[i].id == s.invocations[k].id)
    && (forall id :: id != s.invocations[k].id ==>
          (id in t.attempts <==> id in s.attempts) && (id in s.attempts ==> t.attempts[id] == s.attempts[id]))
    && (!Active(s.invocations[k].phase) ==> t.attempts == s.attempts)
  }

  lemma OthersKeepPhase(config: Config, s: State, t: State, k: nat, added: seq<Entry>, j: nat)
    requires Inv(config, s) && Moves(s, t, k, added) && j < |s.invocations| && j != k
    ensures PhaseOk(config, t, j) && t.invocations[j] == s.invocations[j]
  {
    assert PhaseOk(config, s, j) && PhaseOk(config, s, k);
    LastOfOthers(s.log, added, k, j);
    if s.invocations[j].id == s.invocations[k].id && Active(s.invocations[k].phase) {
      assert !Active(s.invocations[j].phase);
    }
  }

  lemma OldSendsKeep(config: Config, s: State, t: State, k: nat, added: seq<Entry>, i: nat)
    requires Inv(config, s) && Moves(s, t, k, added) && i < |s.log| && s.log[i].Sent?
    ensures SentRightly(config, t, i)
  {
    hide Inv;
    assert SentRightly(config, s, i) by { InvSent(config, s, i); }
    assert t.log[i] == s.log[i] && t.log[..i] == s.log[..i];
    var who := s.log[i].who;
    assert t.invocations[who].id == s.invocations[who].id && t.invocations[who].reviewed == s.invocations[who].reviewed;
  }

  lemma InvSent(config: Config, s: State, i: nat)
    requires Inv(config, s) && i < |s.log| && s.log[i].Sent?
    ensures SentRightly(config, s, i)
  {
  }

  /** A move keeps the invariant when the moving invocation, its id and its own entries are in order. */
  lemma MoveKeeps(config: Config, s: State, t: State, k: nat, added: seq<Entry>)
    requires Inv(config, s) && Moves(s, t, k, added) && PhaseOk(config, t, k)
    requires SendsMarked(t, s.invocations[k].id)
    requires forall i: nat :: |s.log| <= i < |t.log| && t.log[i].Sent? ==> SentRightly(config, t, i)
    ensures Inv(config, t)
  {
    hide PhaseOk, SendsMarked, SentRightly;
    forall j: nat | j < |t.invocations| ensures PhaseOk(config, t, j) {
      if j != k { OthersKeepPhase(config, s, t, k, added, j); }
    }
    forall i: nat | i < |t.log| && t.log[i].Sent? ensures SentRightly(config, t, i) {
      if i < |s.log| { assert t.log[i] == s.log[i]; OldSendsKeep(config, s, t, k, added, i); }
    }
    forall id: Id ensures SendsMarked(t, id) {
      if id != s.invocations[k].id { OtherSendsKeep(s, t, k, added, id); }
    }
  }

  lemma OtherSendsKeep(s: State, t: State, k: nat, added: seq<Entry>, id: Id)
    requires Moves(s, t, k, added) && SendsMarked(s, id) && id != s.invocations[k].id
    ensures SendsMarked(t, id)
  {
    CountOfOthers(s.log, added, id);
  }

  // ---------------------------------------------------------------- the kinds of moves

  /** Reading, confirming and looking around write nothing about dispatching. */
  lemma QuietMoveKeeps(config: Config, s: State, t: State, k: nat, added: seq<Entry>)
    requires Inv(config, s) && Moves(s, t, k, added) && PhaseOk(config, t, k) && t.attempts == s.attempts
    requires forall i :: 0 <= i < |added| ==> !added[i].Sent?
    ensures Inv(config, t)
  {
    hide Inv, PhaseOk;
    var id := s.invocations[k].id;
    assert SendsMarked(s, id) by { InvMarked(config, s, id); }
    CountOfOthers(s.log, added, id);
    forall i: nat | |s.log| <= i < |t.log| ensures !t.log[i].Sent? { assert t.log[i] == added[i - |s.log|]; }
    MoveKeeps(config, s, t, k, added);
  }

  lemma InvMarked(config: Config, s: State, id: Id)
    requires Inv(config, s)
    ensures SendsMarked(s, id)
  {
  }

  lemma InvPhase(config: Config, s: State, k: nat)
    requires Inv(config, s) && k < |s.invocations|
    ensures PhaseOk(config, s, k)
  {
  }

  /** Settling frees an id only when nothing was dispatched for it. */
  lemma FinishKeeps(config: Config, s: State, k: nat, outcome: Outcome, blocked: bool)
    requires Inv(config, s) && k < |s.invocations| && !s.invocations[k].phase.Done?
    requires blocked ==> Active(s.invocations[k].phase)
    ensures Inv(config, Finish(if blocked then Marked(s, s.invocations[k].id) else s, k, outcome))
  {
    hide Inv;
    var id := s.invocations[k].id;
    var t := Finish(if blocked then Marked(s, id) else s, k, outcome);
    InvPhase(config, s, k);
    InvMarked(config, s, id);
    assert t.log == s.log + [];
    MoveKeeps(config, s, t, k, []);
  }

  lemma ThrowKeeps(config: Config, s: State, k: nat, blocked: bool)
    requires Inv(config, s) && k < |s.invocations| && !s.invocations[k].phase.Done?
    requires blocked ==> Active(s.invocations[k].phase)
    ensures Inv(config, Throw(if blocked then Marked(s, s.invocations[k].id) else s, k))
  {
    hide Inv, Finish;
    var id := s.invocations[k].id;
    var from := if blocked then Marked(s, id) else s;
    FinishKeeps(config, s, k, if id in from.attempts && from.attempts[id] == Reviewing then NotDispatched else Unresolved, blocked);
  }

  lemma PriorKeeps(config: Config, s: State, k: nat, matches: seq<Audit>)
    requires Inv(config, s) && k < |s.invocations| && Active(s.invocations[k].phase)
    ensures Inv(config, FoundPrior(config, s, k, matches))
  {
    hide Inv, Finish, Throw, Marked;
    FinishKeeps(config, s, k, Audited, true);
    ThrowKeeps(config, s, k, true);
  }

  lemma FetchedKeeps(config: Config, s: State, k: nat, document: Document)
    requires Inv(config, s) && k < |s.invocations|
    requires s.invocations[k].phase.FetchingFirst? || s.invocations[k].phase.FetchingAgain?
    ensures Inv(config, Logged(s, Fetched(k, document)))
  {
    hide Inv;
    var e := Fetched(k, document);
    InvPhase(config, s, k);
    LastGrows(s.log, e, k);
    QuietMoveKeeps(config, s, Logged(s, e), k, [e]);
  }

  lemma FirstDocumentKeeps(config: Config, s: State, k: nat, document: Document)
    requires Inv(config, s) && k < |s.invocations| && s.invocations[k].phase.FetchingFirst?
    ensures Inv(config, OnFirstDocument(config, s, k, document))
  {
    hide Inv, Throw;
    var read := Logged(s, Fetched(k, document));
    FetchedKeeps(config, s, k, document);
    ThrowKeeps(config, read, k, false);
    InvPhase(config, read, k);
    var t := OnFirstDocument(config, s, k, document);
    if t != Throw(read, k) {
      assert t.log == read.log + [];
      QuietMoveKeeps(config, read, t, k, []);
    }
  }

  /** The one step that dispatches: from an approved review, while the id is still under review. */
  lemma ExecuteKeeps(config: Config, s: State, k: nat, review: Review, current: Document)
    requires Inv(config, s) && k < |s.invocations| && Active(s.invocations[k].phase)
    requires MaySend(config, s.log, s.invocations[k], k)
    requires config.handler.Calendar? ==> JustCleared(s.log, k)
    ensures Inv(config, Execute(s, k, review, current))
  {
    hide Inv, MaySend;
    var id, t := s.invocations[k].id, Execute(s, k, review, current);
    InvPhase(config, s, k);
    InvMarked(config, s, id);
    CountGrows(s.log, Sent(k, id), id);
    assert t.log[..|s.log|] == s.log;
    MaySendIsOfTheCall(config, s.log, s.invocations[k], t.invocations[k], k);
    MoveKeeps(config, s, t, k, [Sent(k, id)]);
  }

  lemma MaySendIsOfTheCall(config: Config, log: seq<Entry>, before: Invocation, after: Invocation, k: nat)
    requires MaySend(config, log, before, k) && after.id == before.id && after.reviewed == before.reviewed
    ensures MaySend(config, log, after, k)
  {
  }

  lemma SecondDocumentKeeps(config: Config, s: State, k: nat, current: Document)
    requires Inv(config, s) && k < |s.invocations| && s.invocations[k].phase.FetchingAgain?
    ensures Inv(config, OnSecondDocument(config, s, k, s.invocations[k].phase.review, current))
  {
    hide Inv, Throw, Execute;
    var review, e := s.invocations[k].phase.review, Fetched(k, current);
    var read := Logged(s, e);
    InvPhase(config, s, k);
    LastGrows(s.log, e, k);
    FetchedKeeps(config, s, k, current);
    ThrowKeeps(config, read, k, false);
    var t := OnSecondDocument(config, s, k, review, current);
    if t != Throw(read, k) {
      if config.handler.Calendar? {
        assert t.log == read.log + [];
        QuietMoveKeeps(config, read, t, k, []);
      } else {
        ExecuteKeeps(config, read, k, review, current);
      }
    }
  }

  lemma AdvanceKeeps(config: Config, s: State, k: nat, phase: Phase)
    requires Inv(config, s) && k < |s.invocations| && Active(s.invocations[k].phase) && Active(phase)
    requires PhaseOk(config, At(s, k, phase), k)
    ensures Inv(config, At(s, k, phase))
  {
    hide Inv, PhaseOk;
    assert At(s, k, phase).log == s.log + [];
    QuietMoveKeeps(config, s, At(s, k, phase), k, []);
  }

  lemma ConfirmKeeps(config: Config, s: State, k: nat)
    requires Inv(config, s) && k < |s.invocations| && s.invocations[k].phase.InDialog?
    ensures
      var review := s.invocations[k].phase.review;
      Inv(config, At(Logged(s, Confirmed(k, review.detail)), k, FetchingAgain(review)))
  {
    hide Inv, MaySend, LastConfirmed, LastFetched;
    var review := s.invocations[k].phase.review;
    var e := Confirmed(k, review.detail);
    InvPhase(config, s, k);
    LastGrows(s.log, e, k);
    QuietMoveKeeps(config, s, At(Logged(s, e), k, FetchingAgain(review)), k, [e]);
  }

  lemma ResumeKeeps(config: Config, s: State, k: nat, answer: Answer)
    requires Inv(config, s) && k < |s.invocations|
    ensures Inv(config, Resume(config, s, k, answer))
  {
    hide Inv, Throw, Finish, Execute, FoundPrior, OnFirstDocument, OnSecondDocument, Matches, Logged, MaySend;
    var me := s.invocations[k];
    InvPhase(config, s, k);
    if !me.phase.Done? {
      ThrowKeeps(config, s, k, false);
      match (me.phase, answer)
      case (FetchingFirst, Returns(document)) => FirstDocumentKeeps(config, s, k, document);
      case (CheckingFirst(document, detail), Capability(text)) =>
        AdvanceKeeps(config, s, k, AuditingFirst(Review(document, detail, text)));
      case (AuditingFirst(review), Audits(audits)) =>
        PriorKeeps(config, s, k, Matches(config.handler, audits, me.id));
        AdvanceKeeps(config, s, k, InDialog(review));
      case (InDialog(review), Clicked(button)) =>
        FinishKeeps(config, s, k, Cancelled, false);
        ConfirmKeeps(config, s, k);
      case (FetchingAgain(review), Returns(current)) => SecondDocumentKeeps(config, s, k, current);
      case (CheckingAgain(review, current), Capability(text)) =>
        if text == review.capability { AdvanceAfterCheck(config, s, k, review, current); }
      case (AuditingAgain(review, current), Audits(audits)) =>
        PriorKeeps(config, s, k, Matches(config.handler, audits, me.id));
        ClearedExecuteKeeps(config, s, k, review, current);
      case (Executing(_, _), Executed(valid)) => FinishKeeps(config, s, k, Audited, false);
      case _ =>
    }
  }

  lemma ClearedExecuteKeeps(config: Config, s: State, k: nat, review: Review, current: Document)
    requires Inv(config, s) && k < |s.invocations| && s.invocations[k].phase == AuditingAgain(review, current)
    ensures Inv(config, Execute(Logged(s, Cleared(k)), k, review, current))
  {
    hide Inv, Execute;
    InvPhase(config, s, k);
    LastGrows(s.log, Cleared(k), k);
    QuietMoveKeeps(config, s, Logged(s, Cleared(k)), k, [Cleared(k)]);
    ExecuteKeeps(config, Logged(s, Cleared(k)), k, review, current);
  }

  lemma AdvanceAfterCheck(config: Config, s: State, k: nat, review: Review, current: Document)
    requires Inv(config, s) && k < |s.invocations| && s.invocations[k].phase == CheckingAgain(review, current)
    ensures Inv(config, At(s, k, AuditingAgain(review, current)))
  {
    hide Inv, MaySend;
    InvPhase(config, s, k);
    var t := At(s, k, AuditingAgain(review, current));
    MaySendIsOfTheCall(config, s.log, s.invocations[k], t.invocations[k], k);
    AdvanceKeeps(config, s, k, AuditingAgain(review, current));
  }

  lemma CallKeeps(config: Config, s: State, id: Id, reviewed: string)
    requires Inv(config, s)
    ensures Inv(config, CallStep(s, id, reviewed))
  {
    var t := CallStep(s, id, reviewed);
    forall k: nat | k < |s.invocations| ensures PhaseOk(config, t, k) && t.invocations[k] == s.invocations[k] {
      assert PhaseOk(config, s, k);
    }
    forall j: nat | j < |s.invocations| && Active(s.invocations[j].phase) ensures id !in s.attempts ==> s.invocations[j].id != id {
      assert PhaseOk(config, s, j);
    }
    assert forall j: nat, k: nat :: j < k < |s.invocations| && Active(t.invocations[j].phase) && Active(t.invocations[k].phase) ==>
      t.invocations[j].id != t.invocations[k].id;
    forall i: nat | i < |t.log| && t.log[i].Sent? ensures SentRightly(config, t, i) { assert SentRightly(config, s, i); }
    forall x: Id ensures SendsMarked(t, x) { assert SendsMarked(s, x); }
  }

  lemma StepKeeps(config: Config, s: State, e: Event)
    requires Inv(config, s)
    ensures Inv(config, Step(config, s, e))
  {
    hide Inv, Resume, CallStep;
    match e
    case Call(id, reviewed) => CallKeeps(config, s, id, reviewed);
    case Answered(k, answer) => if k < |s.invocations| { ResumeKeeps(config, s, k, answer); }
  }

  // ---------------------------------------------------------------- whole runs

  ghost predicate StepsTo(config: Config, s: State, e: Event, t: State) { t == Step(config, s, e) }

  /** Any calls by any number of windows, any answers in any order. */
  ghost predicate IsRun(config: Config, tr: seq<State>, es: seq<Event>) {
    var begins := |tr| == |es| + 1 && tr[0] == INITIAL;
    begins && forall i: nat {:trigger es[i]} :: i < |es| ==> StepsTo(config, tr[i], es[i], tr[i + 1])
  }

  lemma {:induction false} RunKeepsInv(config: Config, tr: seq<State>, es: seq<Event>, i: nat)
    requires IsRun(config, tr, es) && i < |tr|
    ensures Inv(config, tr[i])
  {
    if i == 0 {
      assert Inv(config, INITIAL);
    } else {
      RunKeepsInv(config, tr, es, i - 1);
      assert StepsTo(config, tr[i - 1], es[i - 1], tr[i]);
      StepKeeps(config, tr[i - 1], es[i - 1]);
    }
  }

  /** Every plan or draft is dispatched at most once per process. */
  lemma DispatchedAtMostOnce(config: Config, tr: seq<State>, es: seq<Event>, i: nat, id: Id)
    requires IsRun(config, tr, es) && i < |tr|
    ensures Count(tr[i].log, id) <= 1
  {
    hide IsRun;
    RunKeepsInv(config, tr, es, i);
    InvMarked(config, tr[i], id);
  }

  /** Every dispatch follows a confirmed dialog that showed the details of the last document read for it. */
  lemma EveryDispatchWasApproved(config: Config, tr: seq<State>, es: seq<Event>, i: nat, n: nat)
    requires IsRun(config, tr, es) && i < |tr| && n < |tr[i].log| && tr[i].log[n].Sent?
    ensures tr[i].log[n].who < |tr[i].invocations|
    ensures
      var me := tr[i].invocations[tr[i].log[n].who];
      && tr[i].log[n].id == me.id && MaySend(config, tr[i].log[..n], me, tr[i].log[n].who)
      && (config.handler.Calendar? ==> JustCleared(tr[i].log[..n], tr[i].log[n].who))
  {
    hide IsRun;
    RunKeepsInv(config, tr, es, i);
    InvSent(config, tr[i], n);
  }

  predicate Quiet(outcome: Outcome) { outcome.Cancelled? || outcome.NotDispatched? }

  predicate SettlesQuietly(s: State, t: State, k: nat) {
    && k < |s.invocations| <= |t.invocations| && !s.invocations[k].phase.Done?
    && t.invocations[k].phase.Done? && Quiet(t.invocations[k].phase.outcome)
  }

  lemma QuietIsUndispatched(config: Config, s: State, k: nat, answer: Answer)
    requires Inv(config, s) && k < |s.invocations| && SettlesQuietly(s, Resume(config, s, k, answer), k)
    ensures Count(Resume(config, s, k, answer).log, s.invocations[k].id) == 0
    ensures s.invocations[k].id !in Resume(config, s, k, answer).attempts
  {
    hide Inv, MaySend, Matches;
    var id, t := s.invocations[k].id, Resume(config, s, k, answer);
    StepKeeps(config, s, Answered(k, answer));
    InvPhase(config, s, k);
    InvMarked(config, s, id);
    InvMarked(config, t, id);
  }

  /** When an invocation ends in null or NOT_DISPATCHED nothing was dispatched for its id, which is free again. */
  lemma QuietOutcomesDispatchedNothing(config: Config, tr: seq<State>, es: seq<Event>, i: nat, k: nat)
    requires IsRun(config, tr, es) && i < |es| && SettlesQuietly(tr[i], tr[i + 1], k)
    ensures Count(tr[i + 1].log, tr[i].invocations[k].id) == 0 && tr[i].invocations[k].id !in tr[i + 1].attempts
  {
    hide Resume, CallStep, Inv, Count;
    RunKeepsInv(config, tr, es, i);
    assert StepsTo(config, tr[i], es[i], tr[i + 1]);
    OnlyTheAnsweredSettles(config, tr[i], es[i], k);
    QuietIsUndispatched(config, tr[i], k, es[i].answer);
  }

  lemma OnlyTheAnsweredSettles(config: Config, s: State, e: Event, k: nat)
    requires SettlesQuietly(s, Step(config, s, e), k)
    ensures e.Answered? && e.k == k
  {
    hide OnFirstDocument, OnSecondDocument, FoundPrior, Matches, Without;
    if e.Answered? && e.k < |s.invocations| && e.k != k { ResumeSettlesOne(config, s, e.k, e.answer, k); }
  }

  /** Only the invocation that goes on changes, and of it only the phase. */
  ghost predicate OnlyMoves(s: State, t: State, k: nat)
    requires k < |s.invocations|
  {
    && |t.invocations| == |s.invocations|
    && t.invocations == s.invocations[k := s.invocations[k].(phase := t.invocations[k].phase)]
    && (t.invocations[k].phase == Done(TurnedAway) <==> s.invocations[k].phase == Done(TurnedAway))
  }

  lemma FirstMoves(config: Config, s: State, k: nat, document: Document)
    requires k < |s.invocations| && !s.invocations[k].phase.Done?
    ensures OnlyMoves(s, OnFirstDocument(config, s, k, document), k)
  {
    hide Without;
  }

  lemma SecondMoves(config: Config, s: State, k: nat, review: Review, current: Document)
    requires k < |s.invocations| && !s.invocations[k].phase.Done?
    ensures OnlyMoves(s, OnSecondDocument(config, s, k, review, current), k)
  {
    hide Without;
  }

  lemma PriorMoves(config: Config, s: State, k: nat, matches: seq<Audit>)
    requires k < |s.invocations| && !s.invocations[k].phase.Done?
    ensures OnlyMoves(s, FoundPrior(config, s, k, matches), k)
  {
    hide Without;
  }

  lemma EndingMoves(s: State, k: nat, outcome: Outcome)
    requires k < |s.invocations| && !s.invocations[k].phase.Done?
    ensures OnlyMoves(s, Throw(s, k), k) && (outcome != TurnedAway ==> OnlyMoves(s, Finish(s, k, outcome), k))
  {
    hide Without;
  }

  lemma ResumeMovesOne(config: Config, s: State, k: nat, answer: Answer)
    requires k < |s.invocations|
    ensures OnlyMoves(s, Resume(config, s, k, answer), k)
  {
    hide Matches, OnFirstDocument, OnSecondDocument, FoundPrior, Finish, Throw;
    var me := s.invocations[k];
    if !me.phase.Done? {
      EndingMoves(s, k, Cancelled);
      EndingMoves(s, k, Audited);
      if answer.Returns? && me.phase.FetchingFirst? { FirstMoves(config, s, k, answer.document); }
      if answer.Returns? && me.phase.FetchingAgain? { SecondMoves(config, s, k, me.phase.review, answer.document); }
      if answer.Audits? { PriorMoves(config, s, k, Matches(config.handler, answer.audits, me.id)); }
    }
  }

  lemma ResumeSettlesOne(config: Config, s: State, k: nat, answer: Answer, j: nat)
    requires k < |s.invocations| && j < |s.invocations| && j != k
    ensures
      var t := Resume(config, s, k, answer);
      |t.invocations| == |s.invocations| && t.invocations[j] == s.invocations[j]
  {
    hide Resume;
    ResumeMovesOne(config, s, k, answer);
  }

  // ---------------------------------------------------------------- blocked for good

  predicate Blocked(s: State, id: Id) { id in s.attempts && s.attempts[id] == Dispatched }

  lemma BlockedStays(config: Config, s: State, e: Event, id: Id)
    requires Blocked(s, id)
    ensures Blocked(Step(config, s, e), id)
  {
    hide OnFirstDocument, OnSecondDocument, FoundPrior, Matches;
    if e.Answered? && e.k < |s.invocations| { BlockedInResume(config, s, e.k, e.answer, id); }
  }

  lemma BlockedInResume(config: Config, s: State, k: nat, answer: Answer, id: Id)
    requires Blocked(s, id) && k < |s.invocations|
    ensures Blocked(Resume(config, s, k, answer), id)
  {
    hide Matches, OnFirstDocument, OnSecondDocument, FoundPrior;
    var me := s.invocations[k];
    if answer.Returns? && me.phase.FetchingFirst? { BlockedInFirst(config, s, k, answer.document, id); }
    if answer.Returns? && me.phase.FetchingAgain? { BlockedInSecond(config, s, k, me.phase.review, answer.document, id); }
    if answer.Audits? { BlockedInPrior(config, s, k, Matches(config.handler, answer.audits, me.id), id); }
  }

  lemma BlockedInFirst(config: Config, s: State, k: nat, document: Document, id: Id)
    requires Blocked(s, id) && k < |s.invocations|
    ensures Blocked(OnFirstDocument(config, s, k, document), id)
  {
  }

  lemma BlockedInSecond(config: Config, s: State, k: nat, review: Review, current: Document, id: Id)
    requires Blocked(s, id) && k < |s.invocations|
    ensures Blocked(OnSecondDocument(config, s, k, review, current), id)
  {
  }

  lemma BlockedInPrior(config: Config, s: State, k: nat, matches: seq<Audit>, id: Id)
    requires Blocked(s, id) && k < |s.invocations|
    ensures Blocked(FoundPrior(config, s, k, matches), id)
  {
  }

  /** Once dispatched, or found to have been dispatched before, an id is never dispatched again. */
  lemma {:induction false} BlockedForGood(config: Config, tr: seq<State>, es: seq<Event>, i: nat, j: nat, id: Id)
    requires IsRun(config, tr, es) && i <= j < |tr| && Blocked(tr[i], id)
    ensures Blocked(tr[j], id) && Count(tr[j].log, id) == Count(tr[i].log, id)
    decreases j
  {
    hide Blocked, Count, Step, Inv;
    if i < j {
      BlockedForGood(config, tr, es, i, j - 1, id);
      RunKeepsInv(config, tr, es, j - 1);
      assert StepsTo(config, tr[j - 1], es[j - 1], tr[j]);
      BlockedStays(config, tr[j - 1], es[j - 1], id);
      BlockedSendsNothing(config, tr[j - 1], es[j - 1], id);
    }
  }

  /** While an id is blocked no invocation of it can reach its dispatching step. */
  lemma BlockedSendsNothing(config: Config, s: State, e: Event, id: Id)
    requires Inv(config, s) && Blocked(s, id)
    ensures Count(Step(config, s, e).log, id) == Count(s.log, id)
  {
    hide Inv, Matches;
    if e.Answered? && e.k < |s.invocations| {
      InvPhase(config, s, e.k);
      var added := StepAdds(config, s, e.k, e.answer);
      CountOfOthers(s.log, added, id);
    }
  }

  lemma DocumentAdds(config: Config, s: State, k: nat, document: Document)
    requires k < |s.invocations|
    ensures OnFirstDocument(config, s, k, document).log == s.log + [Fetched(k, document)]
  {
    hide Without;
  }

  lemma SecondDocumentAdds(config: Config, s: State, k: nat, review: Review, current: Document)
    requires k < |s.invocations|
    ensures
      var log := OnSecondDocument(config, s, k, review, current).log;
      log == s.log + [Fetched(k, current)] || log == s.log + [Fetched(k, current), Sent(k, s.invocations[k].id)]
  {
    hide Without;
  }

  lemma PriorAdds(config: Config, s: State, k: nat, matches: seq<Audit>)
    requires k < |s.invocations|
    ensures FoundPrior(config, s, k, matches).log == s.log
  {
    hide Without;
  }

  lemma EndingAddsNothing(s: State, k: nat)
    requires k < |s.invocations|
    ensures Throw(s, k).log == s.log && forall outcome :: Finish(s, k, outcome).log == s.log
  {
    hide Without;
  }

  lemma StepAdds(config: Config, s: State, k: nat, answer: Answer) returns (added: seq<Entry>)
    requires k < |s.invocations|
    ensures Resume(config, s, k, answer).log == s.log + added && AllBy(added, k)
    ensures forall i :: 0 <= i < |added| && added[i].Sent? ==> added[i].id == s.invocations[k].id
    ensures !Active(s.invocations[k].phase) ==> added == []
  {
    hide Without, Matches, OnFirstDocument, OnSecondDocument, FoundPrior, Finish, Throw;
    EndingAddsNothing(s, k);
    var me := s.invocations[k];
    if answer.Returns? && me.phase.FetchingFirst? { DocumentAdds(config, s, k, answer.document); }
    if answer.Returns? && me.phase.FetchingAgain? { SecondDocumentAdds(config, s, k, me.phase.review, answer.document); }
    if answer.Audits? { PriorAdds(config, s, k, Matches(config.handler, answer.audits, me.id)); }
    var t := Resume(config, s, k, answer);
    added := t.log[|s.log|..];
  }
}
