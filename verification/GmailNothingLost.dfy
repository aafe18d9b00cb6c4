/**
 * What Gmail synchronisation may lose: however messages arrive and are deleted between the
 * requests, everything added up to the stored cursor has been imported unless it is gone, or
 * was answered during a fetch with a payload that is no object.
 */
module GmailNothingLost {
  import opened Prelude
  import opened Pagination
  import opened GmailSync

  /**
   * Messages in the order of their arrival, how many have arrived by each time, and which
   * have been deleted by then.  A history id is a position in that order.
   */
  datatype Mailbox = Mailbox(log: seq<Id>, size: nat -> nat, gone: (nat, Id) -> bool)

  ghost predicate OnlyGrows(box: Mailbox) {
    && (forall t: nat, u: nat :: t <= u ==> box.size(t) <= box.size(u) <= |box.log|)
    && (forall t: nat, u: nat, id: Id :: t <= u && box.gone(t, id) ==> box.gone(u, id))
  }

  /** Message `i` of the mailbox is among `ids`, or gone by time `t`. */
  ghost predicate Accounted(box: Mailbox, t: nat, i: nat, ids: seq<Id>)
    requires i < |box.log|
  {
    box.log[i] in ids || box.gone(t, box.log[i])
  }

  ghost predicate AllAccounted(box: Mailbox, t: nat, from: nat, to: nat, ids: seq<Id>) {
    forall i: nat :: from <= i < to && i < |box.log| ==> Accounted(box, t, i, ids)
  }

  /** An unfiltered listing returns every message that was there when it began, unless it is gone by its end. */
  ghost predicate HonestListing(provider: Provider, box: Mailbox, t: nat, n: nat) {
    var listing := Listing(provider, t, false);
    n > 0 && Complete(listing, GoogleToken, MAX_PROVIDER_PAGES, MAX_PROVIDER_ITEMS, n) ==>
      AllAccounted(box, t + n - 1, 0, box.size(t), Ids(Concat(listing, n)))
  }

  /** A history listing is complete up to the history id of its last page. */
  ghost predicate HonestHistory(provider: Provider, box: Mailbox, t: nat, start: nat, n: nat) {
    HistoryEnds(provider, t, start, n) && LastPosition(provider, t, start, n).Some? ==>
      var last := LastPosition(provider, t, start, n).value;
      last <= |box.log| && AllAccounted(box, t + n - 1, start, last, Concat(History(provider, t, start), n))
  }

  /** A message is missing only when it is gone, and comes under its own id otherwise. */
  predicate HonestMessage(provider: Provider, box: Mailbox, t: nat, id: Id) {
    match provider.message(t, id)
    case Missing => box.gone(t, id)
    case Broken => true
    case Message(same, _) => same == id
  }

  ghost predicate Honest(provider: Provider, box: Mailbox) {
    && (forall t: nat :: provider.profile(t).Some? ==> provider.profile(t).value <= box.size(t))
    && (forall t: nat, n: nat :: HonestListing(provider, box, t, n))
    && (forall t: nat, start: nat, n: nat :: HonestHistory(provider, box, t, start, n))
    && (forall t: nat, id: Id :: HonestMessage(provider, box, t, id))
  }

  // ---------------------------------------------------------------- one synchronisation

  /** The reply to a request is a message, but its payload is no object. */
  predicate HasNoPayload(provider: Provider, ask: Ask) {
    var reply := provider.message(ask.at, ask.id);
    reply.Message? && !reply.payloadIsObject
  }

  predicate Delivers(provider: Provider, ask: Ask) {
    var reply := provider.message(ask.at, ask.id);
    reply.Message? && reply.payloadIsObject
  }

  ghost predicate WasAsked(asked: seq<Ask>, id: Id) {
    exists ask :: ask in asked && ask.id == id
  }

  ghost predicate AskedOnce(asked: seq<Ask>) {
    forall i, j :: 0 <= i < j < |asked| ==> asked[i].id != asked[j].id
  }

  /** Every id wanted is asked for, once, and nothing else is. */
  ghost predicate AsksEach(asked: seq<Ask>, ids: seq<Id>, seen: set<Id>) {
    AskedOnce(asked) && forall id :: WasAsked(asked, id) <==> id in ids && id !in seen
  }

  /** What a fetch brings is exactly what was delivered to its requests. */
  ghost predicate BringsDelivered(provider: Provider, asked: seq<Ask>, brought: seq<Id>) {
    && (forall id :: id in brought ==> WasAsked(asked, id))
    && (forall ask :: ask in asked ==> (ask.id in brought <==> Delivers(provider, ask)))
  }

  lemma WasAskedOneMore(ask: Ask, rest: seq<Ask>, id: Id)
    ensures WasAsked([ask] + rest, id) <==> ask.id == id || WasAsked(rest, id)
  {
    var asked := [ask] + rest;
    assert ask in asked && forall other :: other in rest ==> other in asked;
  }

  lemma AsksOneMore(ask: Ask, rest: seq<Ask>, ids: seq<Id>, seen: set<Id>)
    requires ask.id !in seen && AsksEach(rest, ids, seen + {ask.id})
    ensures AsksEach([ask] + rest, [ask.id] + ids, seen)
  {
    hide WasAsked;
    forall id ensures WasAsked([ask] + rest, id) <==> id in [ask.id] + ids && id !in seen { WasAskedOneMore(ask, rest, id); }
    forall i | 0 <= i < |rest| ensures rest[i].id != ask.id { assert WasAsked(rest, rest[i].id) by { IsAsked(rest, i); } }
  }

  lemma IsAsked(asked: seq<Ask>, i: nat)
    requires i < |asked|
    ensures WasAsked(asked, asked[i].id)
  {
    assert asked[i] in asked;
  }

  lemma BringsOneMore(provider: Provider, ask: Ask, rest: seq<Ask>, brought: seq<Id>)
    requires BringsDelivered(provider, rest, brought) && !WasAsked(rest, ask.id)
    ensures BringsDelivered(provider, [ask] + rest, if Delivers(provider, ask) then [ask.id] + brought else brought)
  {
    hide Delivers;
    var asked, more := [ask] + rest, if Delivers(provider, ask) then [ask.id] + brought else brought;
    forall id | id in more ensures WasAsked(asked, id) { WasAskedOneMore(ask, rest, id); }
    forall other | other in asked ensures other.id in more <==> Delivers(provider, other) {
      if other in rest { assert WasAsked(rest, other.id); }
    }
  }

  /**
   * Each id is asked for once; it is brought exactly when a message object was delivered, and
   * otherwise it is gone by the end of the fetch or was answered without a payload object.
   */
  lemma {:induction false} FetchExactly(provider: Provider, box: Mailbox, t: nat, ids: seq<Id>, seen: set<Id>)
    requires OnlyGrows(box) && forall t: nat, id: Id :: HonestMessage(provider, box, t, id)
    ensures t <= Fetched(provider, t, ids, seen).1
    ensures
      var (r, end) := Fetched(provider, t, ids, seen);
      var asked := Asks(provider, t, ids, seen);
      r.Ok? ==>
        && AsksEach(asked, ids, seen) && BringsDelivered(provider, asked, r.value)
        && forall ask :: ask in asked ==>
             Delivers(provider, ask) || HasNoPayload(provider, ask) || box.gone(end, ask.id)
    decreases |ids|
  {
    hide AsksEach, BringsDelivered;
    if ids == [] {
      NothingAsked(provider, seen);
    } else {
      var id := ids[0];
      assert ids == [id] + ids[1..];
      if id in seen {
        FetchExactly(provider, box, t, ids[1..], seen);
        if Fetched(provider, t, ids, seen).0.Ok? { AsksWithSeen(Asks(provider, t, ids[1..], seen), ids[1..], seen, id); }
      } else {
        FetchExactly(provider, box, t + 1, ids[1..], seen + {id});
        assert HonestMessage(provider, box, t, id);
        var (r, end) := Fetched(provider, t, ids, seen);
        if r.Ok? {
          var rest := Fetched(provider, t + 1, ids[1..], seen + {id}).0.value;
          var asked := Asks(provider, t + 1, ids[1..], seen + {id});
          AsksOneMore(Ask(t, id), asked, ids[1..], seen);
          NotAskedAgain(asked, ids[1..], seen, id);
          BringsOneMore(provider, Ask(t, id), asked, rest);
          if provider.message(t, id).Missing? { assert box.gone(end, id); }
        }
      }
    }
  }

  lemma NotAskedAgain(asked: seq<Ask>, ids: seq<Id>, seen: set<Id>, id: Id)
    requires AsksEach(asked, ids, seen + {id})
    ensures !WasAsked(asked, id)
  {
  }

  lemma NothingAsked(provider: Provider, seen: set<Id>)
    ensures AsksEach([], [], seen) && BringsDelivered(provider, [], [])
  {
  }

  lemma AsksWithSeen(asked: seq<Ask>, ids: seq<Id>, seen: set<Id>, id: Id)
    requires AsksEach(asked, ids, seen) && id in seen
    ensures AsksEach(asked, [id] + ids, seen)
  {
  }

  /** The messages among those asked for that were answered without a payload object. */
  function Dropped(provider: Provider, asked: seq<Ask>): set<Id> {
    set ask | ask in asked && HasNoPayload(provider, ask) :: ask.id
  }

  /** Everything wanted has been fetched, or dropped, or is gone by the end of the fetch. */
  lemma FetchCovers(provider: Provider, box: Mailbox, t: nat, ids: seq<Id>)
    requires OnlyGrows(box) && forall t: nat, id: Id :: HonestMessage(provider, box, t, id)
    ensures t <= Fetched(provider, t, ids, {}).1
    ensures
      var (r, end) := Fetched(provider, t, ids, {});
      r.Ok? ==>
        forall id :: id in ids ==> id in r.value || id in Dropped(provider, Asks(provider, t, ids, {})) || box.gone(end, id)
  {
    hide Fetched, Asks, OnlyGrows, HonestMessage, Delivers, HasNoPayload;
    FetchExactly(provider, box, t, ids, {});
    var (r, end) := Fetched(provider, t, ids, {});
    var asked := Asks(provider, t, ids, {});
    if r.Ok? {
      forall id | id in ids ensures id in r.value || id in Dropped(provider, asked) || box.gone(end, id) {
        assert WasAsked(asked, id);
        var ask :| ask in asked && ask.id == id;
        if HasNoPayload(provider, ask) { assert ask.id in Dropped(provider, asked); }
      }
    }
  }

  /** Every message before position `upTo` is among `imported` or gone by time `t`. */
  ghost predicate Covered(box: Mailbox, imported: set<Id>, upTo: nat, t: nat) {
    forall i: nat :: i < upTo && i < |box.log| ==> box.log[i] in imported || box.gone(t, box.log[i])
  }

  function Messages(batch: Batch): set<Id> { set id | id in batch.messages }

  lemma FullSyncCovers(provider: Provider, box: Mailbox, t: nat, n: nat, batch: Batch, end: nat, asked: seq<Ask>)
    requires OnlyGrows(box) && Honest(provider, box) && FullOutcome(provider, t, false, n, batch, end, asked)
    ensures t <= end && Covered(box, Messages(batch) + Dropped(provider, asked), batch.position, end)
  {
    hide Complete, Concat, Fetched, Ids, Asks, Dropped;
    var listing := Listing(provider, t + 1, false);
    var ids := Ids(Concat(listing, n));
    assert n > 0 by { CompleteIsPositive(listing, n); }
    assert HonestListing(provider, box, t + 1, n);
    FetchCovers(provider, box, t + 1 + n, ids);
    assert box.size(t) <= box.size(t + 1);
    forall i: nat | i < batch.position && i < |box.log|
      ensures box.log[i] in batch.messages || box.log[i] in Dropped(provider, asked) || box.gone(end, box.log[i])
    {
      assert Accounted(box, t + 1 + n - 1, i, ids);
    }
  }

  lemma CompleteIsPositive<Item(!new)>(serve: Server<Item>, n: nat)
    requires Complete(serve, GoogleToken, MAX_PROVIDER_PAGES, MAX_PROVIDER_ITEMS, n)
    ensures n > 0
  {
  }

  lemma IncrementalCovers(
    provider: Provider, box: Mailbox, t: nat, start: nat, n: nat, batch: Batch, end: nat, asked: seq<Ask>, handled: set<Id>)
    requires OnlyGrows(box) && Honest(provider, box) && IncrementalOutcome(provider, t, start, n, batch, end, asked)
    requires Covered(box, handled, start, t)
    ensures t <= end && Covered(box, handled + Messages(batch) + Dropped(provider, asked), batch.position, end)
  {
    hide HistoryEnds, Concat, Fetched, Distinct, Asks, Dropped;
    assert n > 0 by { HistoryIsPositive(provider, t, start, n); }
    var added := Concat(History(provider, t, start), n);
    assert HonestHistory(provider, box, t, start, n);
    FetchCovers(provider, box, t + n, Distinct(added));
    forall i: nat | i < batch.position && i < |box.log|
      ensures
        || box.log[i] in handled || box.log[i] in batch.messages || box.log[i] in Dropped(provider, asked)
        || box.gone(end, box.log[i])
    {
      if start <= i { assert Accounted(box, t + n - 1, i, added); }
    }
  }

  lemma HistoryIsPositive(provider: Provider, t: nat, start: nat, n: nat)
    requires HistoryEnds(provider, t, start, n)
    ensures n > 0
  {
  }

  // ---------------------------------------------------------------- sequences of synchronisations

  /** One attempt from `start` to `end`: the batch that was stored and what its fetch asked for, or nothing after a failure. */
  datatype Attempt = Attempt(start: nat, end: nat, stored: Option<(Batch, seq<Ask>)>)

  /** The messages imported, those dropped on the way, and the cursor stored by a sequence of attempts. */
  datatype Store = Store(imported: set<Id>, dropped: set<Id>, position: Option<nat>)

  function After(provider: Provider, attempts: seq<Attempt>): Store {
    if attempts == [] then Store({}, {}, None)
    else
      var before, last := After(provider, attempts[..|attempts| - 1]), attempts[|attempts| - 1];
      if last.stored == None then before
      else
        var (batch, asked) := last.stored.value;
        Store(before.imported + Messages(batch), before.dropped + Dropped(provider, asked), Some(batch.position))
  }

  function CursorOf(store: Store): Cursor {
    if store.position == None then None else Some(Some(store.position.value))
  }

  function Clock(attempts: seq<Attempt>): nat {
    if attempts == [] then 0 else attempts[|attempts| - 1].end
  }

  /** Attempts follow one another, each from the cursor stored before it; the first is not filtered. */
  ghost predicate IsHistory(provider: Provider, attempts: seq<Attempt>) {
    attempts == [] ||
      var before, last := attempts[..|attempts| - 1], attempts[|attempts| - 1];
      && IsHistory(provider, before)
      && Clock(before) <= last.start <= last.end
      && (last.stored.Some? ==>
            var (batch, asked) := last.stored.value;
            SyncOutcome(provider, CursorOf(After(provider, before)), false, last.start, batch, last.end, asked))
  }

  lemma CoverageLasts(box: Mailbox, handled: set<Id>, upTo: nat, t: nat, u: nat)
    requires OnlyGrows(box) && Covered(box, handled, upTo, t) && t <= u
    ensures Covered(box, handled, upTo, u)
  {
  }

  /** One stored batch extends the coverage from the old cursor to the new. */
  lemma SyncCovers(provider: Provider, box: Mailbox, position: Option<nat>, handled: set<Id>, t: nat, batch: Batch, end: nat,
                   asked: seq<Ask>)
    requires OnlyGrows(box) && Honest(provider, box)
    requires position.Some? ==> Covered(box, handled, position.value, t)
    requires SyncOutcome(provider, if position == None then None else Some(Some(position.value)), false, t, batch, end, asked)
    ensures t <= end && Covered(box, handled + Messages(batch) + Dropped(provider, asked), batch.position, end)
  {
    hide FullOutcome, IncrementalOutcome, Honest, OnlyGrows, Dropped, Messages;
    if batch.mode == Incremental {
      var start := position.value;
      var n :| IncrementalOutcome(provider, t, start, n, batch, end, asked);
      IncrementalCovers(provider, box, t, start, n, batch, end, asked, handled);
    } else {
      var from := if batch.mode == Initial then t else t + 1;
      assert FullSucceeds(provider, from, false, batch, end, asked);
      var n :| FullOutcome(provider, from, false, n, batch, end, asked);
      FullSyncCovers(provider, box, from, n, batch, end, asked);
    }
  }

  /**
   * After an unfiltered initial synchronisation and any mix of incremental and recovery
   * ones, failed attempts included, every message added before the stored position has been
   * imported, has been deleted, or was answered during a fetch without a payload object.
   */
  lemma {:induction false} NothingElseIsLost(provider: Provider, box: Mailbox, attempts: seq<Attempt>, now: nat)
    requires OnlyGrows(box) && Honest(provider, box) && IsHistory(provider, attempts) && Clock(attempts) <= now
    ensures
      var store := After(provider, attempts);
      store.position.Some? ==> Covered(box, store.imported + store.dropped, store.position.value, now)
    decreases |attempts|
  {
    hide Honest, OnlyGrows, SyncOutcome, Covered, Dropped, Messages;
    if attempts != [] {
      var before, last := attempts[..|attempts| - 1], attempts[|attempts| - 1];
      var store := After(provider, before);
      var handled := store.imported + store.dropped;
      NothingElseIsLost(provider, box, before, last.start);
      if last.stored == None {
        if store.position.Some? { CoverageLasts(box, handled, store.position.value, last.start, now); }
      } else {
        var (batch, asked) := last.stored.value;
        var after := After(provider, attempts);
        SyncCovers(provider, box, store.position, handled, last.start, batch, last.end, asked);
        assert handled + Messages(batch) + Dropped(provider, asked) == after.imported + after.dropped;
        CoverageLasts(box, after.imported + after.dropped, batch.position, last.end, now);
      }
    }
  }

  /** No fetch whose batch was stored was ever answered without a payload object. */
  ghost predicate AllHavePayloads(provider: Provider, attempts: seq<Attempt>) {
    forall k :: 0 <= k < |attempts| && attempts[k].stored.Some? ==> Dropped(provider, attempts[k].stored.value.1) == {}
  }

  lemma {:induction false} NothingDropped(provider: Provider, attempts: seq<Attempt>)
    requires AllHavePayloads(provider, attempts)
    ensures After(provider, attempts).dropped == {}
    decreases |attempts|
  {
    hide Dropped;
    if attempts != [] { NothingDropped(provider, attempts[..|attempts| - 1]); }
  }

  /** When every message fetched has a payload object, everything before the stored position is imported or deleted. */
  lemma NothingIsLost(provider: Provider, box: Mailbox, attempts: seq<Attempt>, now: nat)
    requires OnlyGrows(box) && Honest(provider, box) && IsHistory(provider, attempts) && Clock(attempts) <= now
    requires AllHavePayloads(provider, attempts)
    ensures
      var store := After(provider, attempts);
      store.position.Some? ==> Covered(box, store.imported, store.position.value, now)
  {
    hide Honest, OnlyGrows, IsHistory, AllHavePayloads, Covered;
    NothingElseIsLost(provider, box, attempts, now);
    NothingDropped(provider, attempts);
    var store := After(provider, attempts);
    assert store.imported + store.dropped == store.imported;
  }

  /** Message `i` is neither imported nor gone by time `t`. */
  predicate Lost(box: Mailbox, imported: set<Id>, i: nat, t: nat)
    requires i < |box.log|
  {
    box.log[i] !in imported && !box.gone(t, box.log[i])
  }

  /** What is lost before the stored position is exactly what was dropped and is neither imported otherwise nor gone. */
  lemma LostExactly(provider: Provider, box: Mailbox, attempts: seq<Attempt>, now: nat)
    requires OnlyGrows(box) && Honest(provider, box) && IsHistory(provider, attempts) && Clock(attempts) <= now
    requires After(provider, attempts).position.Some?
    ensures
      var store := After(provider, attempts);
      Covered(box, store.imported, store.position.value, now)
      <==> forall i: nat :: i < store.position.value && i < |box.log| && box.log[i] in store.dropped ==>
             !Lost(box, store.imported, i, now)
  {
    hide Honest, OnlyGrows, IsHistory;
    NothingElseIsLost(provider, box, attempts, now);
    var store := After(provider, attempts);
    forall i: nat | i < store.position.value && i < |box.log|
      ensures box.log[i] !in store.dropped ==> !Lost(box, store.imported, i, now)
    {
      assert box.log[i] in store.imported + store.dropped || box.gone(now, box.log[i]);
    }
    if forall i: nat :: i < store.position.value && i < |box.log| && box.log[i] in store.dropped ==>
         !Lost(box, store.imported, i, now) {
      forall i: nat | i < store.position.value && i < |box.log|
        ensures box.log[i] in store.imported || box.gone(now, box.log[i])
      {
        assert !Lost(box, store.imported, i, now);
      }
    }
  }

  // ---------------------------------------------------------------- a message that is lost

  const ONE_PAGE: Reply<Option<Id>> := Payload(List([Object(Some("a"))]), Absent)

  /** A mailbox with one message, for which the provider answers with a payload that is no object. */
  const BARE_PROVIDER := Provider(_ => Some(1), (_, _, _) => ONE_PAGE, (_, _, _) => Rejected, (_, id) => Message(id, false))

  const ONE_MESSAGE := Mailbox(["a"], _ => 1, (_, _) => false)

  lemma BareProviderIsHonest()
    ensures OnlyGrows(ONE_MESSAGE) && Honest(BARE_PROVIDER, ONE_MESSAGE)
  {
    forall t: nat, n: nat ensures HonestListing(BARE_PROVIDER, ONE_MESSAGE, t, n) {
      if n > 0 && Complete(Listing(BARE_PROVIDER, t, false), GoogleToken, MAX_PROVIDER_PAGES, MAX_PROVIDER_ITEMS, n) {
        OnePageOnly(t, n - 1);
      }
    }
    forall t: nat, start: nat, n: nat ensures HonestHistory(BARE_PROVIDER, ONE_MESSAGE, t, start, n) {
      if n > 0 { NoHistoryPage(t, start, n - 1); }
    }
  }

  lemma NoHistoryPage(t: nat, start: nat, k: nat)
    ensures ReplyAt(History(BARE_PROVIDER, t, start), k) == Unusable
  {
    HistoryPage(BARE_PROVIDER, t, start, k);
  }

  lemma OnePageOnly(t: nat, k: nat)
    requires Linked(Listing(BARE_PROVIDER, t, false), GoogleToken, k)
    ensures k == 0 && Ids(Concat(Listing(BARE_PROVIDER, t, false), 1)) == ["a"]
  {
    var listing := Listing(BARE_PROVIDER, t, false);
    assert ReplyAt(listing, 0) == ONE_PAGE;
    assert Concat(listing, 1) == Concat(listing, 0) + Items(ReplyAt(listing, 0));
    assert Objects([Object(Some("a"))]) == [Some("a")];
  }

  /** The first synchronisation stores its cursor behind a message it has not imported and that is not gone. */
  lemma AMessageCanBeLost() returns (attempts: seq<Attempt>)
    ensures IsHistory(BARE_PROVIDER, attempts) && OnlyGrows(ONE_MESSAGE) && Honest(BARE_PROVIDER, ONE_MESSAGE)
    ensures
      var store := After(BARE_PROVIDER, attempts);
      store.position == Some(1) && forall now :: !Covered(ONE_MESSAGE, store.imported, 1, now)
  {
    BareProviderIsHonest();
    var batch, asked := Batch([], 1, Initial), [Ask(2, "a")];
    attempts := [Attempt(0, 3, Some((batch, asked)))];
    var listing := Listing(BARE_PROVIDER, 1, false);
    assert ReplyAt(listing, 0) == ONE_PAGE;
    OnePageOnly(1, 0);
    assert |Concat(listing, 1)| == 1;
    assert FullOutcome(BARE_PROVIDER, 0, false, 1, batch, 3, asked);
    assert FullSucceeds(BARE_PROVIDER, 0, false, batch, 3, asked);
    assert attempts[..0] == [];
    assert After(BARE_PROVIDER, []) == Store({}, {}, None);
    assert IsHistory(BARE_PROVIDER, attempts[..0]);
    assert SyncOutcome(BARE_PROVIDER, None, false, 0, batch, 3, asked);
    var store := After(BARE_PROVIDER, attempts);
    assert store.imported == {};
    forall now ensures !Covered(ONE_MESSAGE, store.imported, 1, now) { assert ONE_MESSAGE.log[0] == "a"; }
  }
}
