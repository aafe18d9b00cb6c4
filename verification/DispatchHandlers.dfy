/**
 * The dispatch handlers as objects that update their attempts map in place; each stretch of
 * code between two awaits is a step of the transition system and keeps its invariant
 * (apps/desktop/src/main/calendar-event-ipc.ts, apps/desktop/src/main/mail-draft-ipc.ts).
 */
module DispatchHandlers {
  import opened Prelude
  import opened Dispatch
  import Safety = DispatchSafety

  lemma MatchesStep(handler: Handler, audits: seq<Audit>, i: nat, id: Id)
    requires i < |audits|
    ensures
      var matching := audits[i].resource == id && (handler.Calendar? || audits[i].ofSending);
      Matches(handler, audits[i..], id) == (if matching then [audits[i]] else []) + Matches(handler, audits[i + 1..], id)
  {
    assert audits[i..][1..] == audits[i + 1..];
  }

  lemma MatchesNone(handler: Handler, audits: seq<Audit>, id: Id)
    requires audits == []
    ensures Matches(handler, audits, id) == []
  {
  }

  class Handlers {
    const config: Config
    var attempts: map<Id, Mark>
    var invocations: seq<Invocation>
    var log: seq<Entry>

    constructor (config: Config)
      ensures this.config == config && Snapshot() == INITIAL && Inv(config, Snapshot())
    {
      this.config := config;
      attempts, invocations, log := map[], [], [];
    }

    function Snapshot(): State
      reads this
    {
      State(attempts, invocations, log)
    }

    method SetPhase(k: nat, phase: Phase)
      requires k < |invocations|
      modifies this`invocations
      ensures Snapshot() == At(old(Snapshot()), k, phase)
    {
      invocations := invocations[k := invocations[k].(phase := phase)];
    }

    /** The `finally` clause. */
    method Settle(k: nat, outcome: Outcome)
      requires k < |invocations|
      modifies this
      ensures Snapshot() == Finish(old(Snapshot()), k, outcome)
    {
      var id := invocations[k].id;
      SetPhase(k, Done(outcome));
      if id in attempts && attempts[id] == Reviewing {
        attempts := map x | x in attempts && x != id :: attempts[x];
      }
    }

    /** The `catch` clause, and the `finally` clause behind it. */
    method Fail(k: nat)
      requires k < |invocations|
      modifies this
      ensures Snapshot() == Throw(old(Snapshot()), k)
    {
      var id := invocations[k].id;
      if id in attempts && attempts[id] == Reviewing { Settle(k, NotDispatched); } else { Settle(k, Unresolved); }
    }

    method MatchingAudits(audits: seq<Audit>, id: Id) returns (matches: seq<Audit>)
      ensures matches == Matches(config.handler, audits, id)
    {
      hide Matches;
      matches := [];
      var i := 0;
      assert audits[0..] == audits;
      while i < |audits|
        invariant 0 <= i <= |audits|
        invariant Matches(config.handler, audits, id) == matches + Matches(config.handler, audits[i..], id)
      {
        MatchesStep(config.handler, audits, i, id);
        if audits[i].resource == id && (config.handler.Calendar? || audits[i].ofSending) {
          matches := matches + [audits[i]];
        }
        i := i + 1;
      }
      MatchesNone(config.handler, audits[i..], id);
    }

    method AnswerPrior(k: nat, matches: seq<Audit>)
      requires k < |invocations|
      modifies this
      ensures Snapshot() == FoundPrior(config, old(Snapshot()), k, matches)
    {
      attempts := attempts[invocations[k].id := Dispatched];
      if config.handler.Calendar? {
        if |matches| != 1 || !matches[0].matchesPlan { Fail(k); return; }
      }
      Settle(k, Audited);
    }

    /** The id is marked before the request leaves, so no answer and no other call can come between. */
    method Send(k: nat, review: Review, current: Document)
      requires k < |invocations|
      modifies this
      ensures Snapshot() == Execute(old(Snapshot()), k, review, current)
    {
      var id := invocations[k].id;
      attempts := attempts[id := Dispatched];
      log := log + [Sent(k, id)];
      SetPhase(k, Executing(review, current));
    }

    method FirstDocument(k: nat, document: Document)
      requires k < |invocations|
      modifies this
      ensures Snapshot() == OnFirstDocument(config, old(Snapshot()), k, document)
    {
      log := log + [Fetched(k, document)];
      if document.id != invocations[k].id || document.fingerprint != invocations[k].reviewed { Fail(k); return; }
      var detail := config.detail(document);
      if detail == None { Fail(k); return; }
      if config.handler.Calendar? {
        SetPhase(k, CheckingFirst(document, detail.value));
      } else {
        SetPhase(k, AuditingFirst(Review(document, detail.value, "")));
      }
    }

    method SecondDocument(k: nat, review: Review, current: Document)
      requires k < |invocations|
      modifies this
      ensures Snapshot() == OnSecondDocument(config, old(Snapshot()), k, review, current)
    {
      log := log + [Fetched(k, current)];
      if current.id != invocations[k].id || current.fingerprint != invocations[k].reviewed { Fail(k); return; }
      if config.handler.Calendar? && config.signature(current) != config.signature(review.document) { Fail(k); return; }
      if config.detail(current) != Some(review.detail) { Fail(k); return; }
      if config.handler.Calendar? { SetPhase(k, CheckingAgain(review, current)); } else { Send(k, review, current); }
    }

    /** An invocation starts, unless its id is already under review or dispatched. */
    method Handle(id: Id, reviewed: string) returns (k: nat)
      requires Inv(config, Snapshot())
      modifies this
      ensures Snapshot() == CallStep(old(Snapshot()), id, reviewed) && Inv(config, Snapshot())
      ensures k == |old(invocations)|
    {
      Safety.CallKeeps(config, Snapshot(), id, reviewed);
      k := |invocations|;
      if id in attempts {
        invocations := invocations + [Invocation(id, reviewed, Done(TurnedAway))];
        return;
      }
      attempts := attempts[id := Reviewing];
      invocations := invocations + [Invocation(id, reviewed, FetchingFirst)];
    }

    /** An invocation goes on with the answer it awaited, up to its next await or its end. */
    method Continue(k: nat, answer: Answer)
      requires Inv(config, Snapshot()) && k < |invocations|
      modifies this
      ensures Snapshot() == Resume(config, old(Snapshot()), k, answer) && Inv(config, Snapshot())
    {
      hide Inv, Throw, Finish, Execute, FoundPrior, OnFirstDocument, OnSecondDocument, Matches;
      Safety.ResumeKeeps(config, Snapshot(), k, answer);
      match (invocations[k].phase, answer) {
        case (Done(_), _) =>
        case (FetchingFirst, Returns(document)) => FirstDocument(k, document);
        case (CheckingFirst(document, detail), Capability(text)) =>
          SetPhase(k, AuditingFirst(Review(document, detail, text)));
        case (AuditingFirst(review), Audits(audits)) =>
          var matches := MatchingAudits(audits, invocations[k].id);
          if matches != [] { AnswerPrior(k, matches); } else { SetPhase(k, InDialog(review)); }
        case (InDialog(review), Clicked(button)) =>
          if button != 1 {
            Settle(k, Cancelled);
          } else {
            log := log + [Confirmed(k, review.detail)];
            SetPhase(k, FetchingAgain(review));
          }
        case (FetchingAgain(review), Returns(current)) => SecondDocument(k, review, current);
        case (CheckingAgain(review, current), Capability(text)) =>
          if text != review.capability { Fail(k); } else { SetPhase(k, AuditingAgain(review, current)); }
        case (AuditingAgain(review, current), Audits(audits)) =>
          var matches := MatchingAudits(audits, invocations[k].id);
          if matches != [] {
            AnswerPrior(k, matches);
          } else {
            log := log + [Cleared(k)];
            Send(k, review, current);
          }
        case (Executing(_, _), Executed(valid)) =>
          if valid || config.handler.Mail? { Settle(k, Audited); } else { Fail(k); }
        case _ => Fail(k);
      }
    }
  }
}
