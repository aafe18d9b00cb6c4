/**
 * Gmail message synchronisation (backend/src/job_apply_pro/integrations/provider_clients.py)
 * against a mailbox that keeps receiving and deleting messages between any two requests.
 * Request number `t` of the process happens at time `t`.
 */
module GmailSync {
  import opened Prelude
  import opened Pagination

  type Id = string

  /** A 404, a reply on which the source raises, or a page of additions with its history id. */
  datatype HistoryReply = NotFound | Rejected | Page(additions: Field<Id>, position: Option<nat>, next: Continuation)

  datatype MessageReply = Missing | Broken | Message(id: Id, payloadIsObject: bool)

  /** What the provider would answer to each kind of request at each time. */
  datatype Provider = Provider(
    profile: nat -> Option<nat>,
    list: (nat, bool, Request) -> Reply<Option<Id>>,
    history: (nat, nat, Request) -> HistoryReply,
    message: (nat, Id) -> MessageReply)

  datatype Mode = Initial | Incremental | Recovery

  datatype Batch = Batch(messages: seq<Id>, position: nat, mode: Mode)

  // ---------------------------------------------------------------- fetching

  /** Only listed objects with a string id are fetched. */
  function Ids(items: seq<Option<Id>>): seq<Id> {
    if items == [] then []
    else if items[0].Some? then [items[0].value] + Ids(items[1..])
    else Ids(items[1..])
  }

  /** The messages of `ids` not yet seen, fetched one request each from time `t`, and the time after. */
  function Fetched(provider: Provider, t: nat, ids: seq<Id>, seen: set<Id>): (Result<seq<Id>, ()>, nat)
    decreases |ids|
  {
    if ids == [] then (Ok([]), t)
    else if ids[0] in seen then Fetched(provider, t, ids[1..], seen)
    else
      match provider.message(t, ids[0])
      case Broken => (Err(()), t + 1)
      case Missing => Fetched(provider, t + 1, ids[1..], seen + {ids[0]})
      case Message(id, isObject) =>
        var (rest, end) := Fetched(provider, t + 1, ids[1..], seen + {ids[0]});
        (if rest.Ok? && isObject then Ok([id] + rest.value) else rest, end)
  }

  /** A message asked for, and when. */
  datatype Ask = Ask(at: nat, id: Id)

  /** What such a fetch asks for, up to the first reply on which it raises. */
  function Asks(provider: Provider, t: nat, ids: seq<Id>, seen: set<Id>): seq<Ask>
    decreases |ids|
  {
    if ids == [] then []
    else if ids[0] in seen then Asks(provider, t, ids[1..], seen)
    else if provider.message(t, ids[0]).Broken? then [Ask(t, ids[0])]
    else [Ask(t, ids[0])] + Asks(provider, t + 1, ids[1..], seen + {ids[0]})
  }

  method IdsOf(items: seq<Option<Id>>) returns (ids: seq<Id>)
    ensures ids == Ids(items)
  {
    ids := [];
    var i := 0;
    while i < |items|
      invariant 0 <= i <= |items| && Ids(items) == ids + Ids(items[i..])
    {
      if items[i].Some? { ids := ids + [items[i].value]; }
      i := i + 1;
    }
  }

  /** What is already collected in front of what the rest of the fetch yields. */
  function Behind(done: seq<Id>, rest: (Result<seq<Id>, ()>, nat)): (Result<seq<Id>, ()>, nat) {
    (if rest.0.Ok? then Ok(done + rest.0.value) else rest.0, rest.1)
  }

  lemma BehindNothing(rest: (Result<seq<Id>, ()>, nat))
    ensures Behind([], rest) == rest
  {
    if rest.0.Ok? { assert [] + rest.0.value == rest.0.value; }
  }

  lemma BehindOneMore(done: seq<Id>, id: Id, rest: (Result<seq<Id>, ()>, nat))
    ensures Behind(done + [id], rest) == Behind(done, Behind([id], rest))
  {
    if rest.0.Ok? { assert (done + [id]) + rest.0.value == done + ([id] + rest.0.value); }
  }

  /** What a fetch does with the next id. */
  lemma FetchStep(provider: Provider, t: nat, ids: seq<Id>, i: nat, seen: set<Id>)
    requires i < |ids|
    ensures
      var id, rest, more := ids[i], ids[i + 1..], seen + {ids[i]};
      var fetched, asks := Fetched(provider, t, ids[i..], seen), Asks(provider, t, ids[i..], seen);
      if id in seen then fetched == Fetched(provider, t, rest, seen) && asks == Asks(provider, t, rest, seen)
      else
        match provider.message(t, id)
        case Broken => fetched == (Err(()), t + 1) && asks == [Ask(t, id)]
        case Missing => fetched == Fetched(provider, t + 1, rest, more) && asks == [Ask(t, id)] + Asks(provider, t + 1, rest, more)
        case Message(same, isObject) =>
          && fetched == (if isObject then Behind([same], Fetched(provider, t + 1, rest, more)) else Fetched(provider, t + 1, rest, more))
          && asks == [Ask(t, id)] + Asks(provider, t + 1, rest, more)
  {
    assert ids[i..][1..] == ids[i + 1..];
  }

  lemma FetchEnds(provider: Provider, t: nat, ids: seq<Id>, seen: set<Id>)
    requires ids == []
    ensures Fetched(provider, t, ids, seen) == (Ok([]), t) && Asks(provider, t, ids, seen) == []
  {
  }

  /** Each id is asked for once; a message that is missing or has no payload object is passed over. */
  method FetchMessages(provider: Provider, t: nat, ids: seq<Id>)
    returns (r: Result<seq<Id>, ()>, end: nat, ghost asked: seq<Ask>)
    ensures (r, end) == Fetched(provider, t, ids, {})
    ensures asked == Asks(provider, t, ids, {}) && end == t + |asked|
  {
    hide Fetched, Asks;
    var messages: seq<Id> := [];
    var seen: set<Id> := {};
    asked := [];
    end := t;
    var i := 0;
    assert ids[0..] == ids;
    BehindNothing(Fetched(provider, t, ids, {}));
    while i < |ids|
      invariant 0 <= i <= |ids| && end == t + |asked|
      invariant Fetched(provider, t, ids, {}) == Behind(messages, Fetched(provider, end, ids[i..], seen))
      invariant Asks(provider, t, ids, {}) == asked + Asks(provider, end, ids[i..], seen)
    {
      var id := ids[i];
      FetchStep(provider, end, ids, i, seen);
      i := i + 1;
      if id in seen { continue; }
      seen := seen + {id};
      var reply := provider.message(end, id);
      asked := asked + [Ask(end, id)];
      end := end + 1;
      if reply.Missing? { continue; }
      if reply.Broken? { return Err(()), end, asked; }
      if !reply.payloadIsObject { continue; }
      BehindOneMore(messages, reply.id, Fetched(provider, end, ids[i..], seen));
      messages := messages + [reply.id];
    }
    FetchEnds(provider, end, ids[i..], seen);
    assert messages + [] == messages;
    return Ok(messages), end, asked;
  }

  // ---------------------------------------------------------------- the two kinds of synchronisation

  function Listing(provider: Provider, t: nat, filtered: bool): Server<Option<Id>> {
    (k: nat, request: Request) => provider.list(t + k, filtered, request)
  }

  function AsReply(page: HistoryReply): Reply<Id> {
    if page.Page? && page.position.Some? then Payload(page.additions, page.next) else Unusable
  }

  function History(provider: Provider, t: nat, start: nat): Server<Id> {
    (k: nat, request: Request) => AsReply(provider.history(t + k, start, request))
  }

  /** The distinct elements in the order of their first occurrence. */
  function Distinct(ids: seq<Id>): (d: seq<Id>)
    ensures forall id :: id in d <==> id in ids
  {
    if ids == [] then []
    else
      var last, before := ids[|ids| - 1], Distinct(ids[..|ids| - 1]);
      assert ids == ids[..|ids| - 1] + [last];
      if last in before then before else before + [last]
  }

  /** A full synchronisation from time `t` takes its position first, then lists `n` pages, then fetches. */
  ghost predicate FullOutcome(provider: Provider, t: nat, filtered: bool, n: nat, batch: Batch, end: nat,
                              asked: seq<Ask>) {
    && provider.profile(t) == Some(batch.position)
    && Complete(Listing(provider, t + 1, filtered), GoogleToken, MAX_PROVIDER_PAGES, MAX_PROVIDER_ITEMS, n)
    && var ids := Ids(Concat(Listing(provider, t + 1, filtered), n));
       Fetched(provider, t + 1 + n, ids, {}) == (Ok(batch.messages), end) && asked == Asks(provider, t + 1 + n, ids, {})
  }

  ghost predicate FullSucceeds(provider: Provider, t: nat, filtered: bool, batch: Batch, end: nat, asked: seq<Ask>) {
    exists n :: FullOutcome(provider, t, filtered, n, batch, end, asked)
  }

  /** The history behind `start` ends with page `n`; there is no limit on items but on distinct ids. */
  ghost predicate HistoryEnds(provider: Provider, t: nat, start: nat, n: nat) {
    var pages := History(provider, t, start);
    && 0 < n <= MAX_PROVIDER_PAGES && Linked(pages, GoogleToken, n - 1)
    && Usable(ReplyAt(pages, n - 1)) && ReplyAt(pages, n - 1).next.Absent?
  }

  function LastPosition(provider: Provider, t: nat, start: nat, n: nat): Option<nat>
    requires n > 0
  {
    var page := provider.history(t + n - 1, start, RequestAt(History(provider, t, start), n - 1));
    if page.Page? then page.position else None
  }

  /** An incremental synchronisation takes its position from the last page of the history. */
  ghost predicate IncrementalOutcome(provider: Provider, t: nat, start: nat, n: nat, batch: Batch, end: nat,
                                     asked: seq<Ask>) {
    && HistoryEnds(provider, t, start, n)
    && LastPosition(provider, t, start, n) == Some(batch.position)
    && var ids := Distinct(Concat(History(provider, t, start), n));
       && |ids| <= MAX_PROVIDER_ITEMS && Fetched(provider, t + n, ids, {}) == (Ok(batch.messages), end)
       && asked == Asks(provider, t + n, ids, {})
  }

  /** A stored cursor is a position, unless its text is malformed. */
  type Cursor = Option<Option<nat>>

  ghost predicate SyncOutcome(provider: Provider, cursor: Cursor, filtered: bool, t: nat, batch: Batch, end: nat,
                              asked: seq<Ask>) {
    match cursor
    case None => batch.mode == Initial && FullSucceeds(provider, t, filtered, batch, end, asked)
    case Some(None) => false
    case Some(Some(start)) =>
      && !filtered
      && if provider.history(t, start, None).NotFound?
         then batch.mode == Recovery && FullSucceeds(provider, t + 1, false, batch, end, asked)
         else batch.mode == Incremental && exists n :: IncrementalOutcome(provider, t, start, n, batch, end, asked)
  }

  // ---------------------------------------------------------------- the same, reply by reply

  /** The ids of the objects that have one: part by part, each once and in order. */
  lemma {:induction false} IdsExactly(a: seq<Option<Id>>, b: seq<Option<Id>>, id: Id)
    ensures Ids(a + b) == Ids(a) + Ids(b) && Ids([Some(id)]) == [id] && Ids([None]) == [] && Ids([]) == []
  {
    assert [Some(id)][1..] == [] && [Option<Id>.None][1..] == [];
    if a == [] {
      assert a + b == b;
    } else {
      assert (a + b)[1..] == a[1..] + b;
      IdsExactly(a[1..], b, id);
    }
  }

  /** Each id once, in the order in which they first come. */
  lemma {:induction false} DistinctExactly(ids: seq<Id>, n: nat)
    requires n <= |ids|
    ensures forall i, j :: 0 <= i < j < |Distinct(ids)| ==> Distinct(ids)[i] != Distinct(ids)[j]
    ensures forall id :: id in Distinct(ids) <==> id in ids
    ensures Distinct(ids[..n]) <= Distinct(ids)
  {
    if ids != [] {
      var m := |ids| - 1;
      if n < |ids| {
        assert ids[..m][..n] == ids[..n];
        DistinctExactly(ids[..m], n);
      } else {
        assert ids[..n] == ids;
        DistinctExactly(ids[..m], m);
      }
    }
  }

  /**
   * Requests behind `start` that lead from the first page of the history to one without a token:
   * at most ten, one at a time, each with the short token the page before it named, no two alike,
   * and each answered with a page that has a position and a list of additions or none.
   */
  ghost predicate HistoryChain(provider: Provider, t: nat, start: nat, requests: seq<Request>) {
    && 1 <= |requests| <= 10 && requests[0] == None
    && (forall j, k :: 0 <= j < k < |requests| ==> requests[j] != requests[k])
    && (forall k: nat :: k < |requests| ==> IsPage(provider.history(t + k, start, requests[k])))
    && (forall k: nat :: k + 1 < |requests| ==> Names(provider.history(t + k, start, requests[k]), requests[k + 1]))
    && provider.history(t + |requests| - 1, start, requests[|requests| - 1]).next.Absent?
  }

  predicate IsPage(page: HistoryReply) {
    page.Page? && page.position.Some? && (page.additions.Missing? || page.additions.List?)
  }

  predicate Names(page: HistoryReply, next: Request) {
    page.Page? && page.next.Text? && next == Some(page.next.text) && 1 <= |page.next.text| <= 8_000
  }

  /** The additions of all pages, in order. */
  function Added(provider: Provider, t: nat, start: nat, requests: seq<Request>): seq<Id> {
    if requests == [] then []
    else
      var k := |requests| - 1;
      var page := provider.history(t + k, start, requests[k]);
      Added(provider, t, start, requests[..k])
      + if page.Page? && page.additions.List? then Objects(page.additions.entries) else []
  }

  /** The synchronisation follows the history and takes the position of its last page. */
  ghost predicate Follows(provider: Provider, t: nat, start: nat, requests: seq<Request>, batch: Batch, end: nat,
                          asked: seq<Ask>) {
    && HistoryChain(provider, t, start, requests)
    && provider.history(t + |requests| - 1, start, requests[|requests| - 1]).position == Some(batch.position)
    && var ids := Distinct(Added(provider, t, start, requests));
       && |ids| <= 1_000 && Fetched(provider, t + |requests|, ids, {}) == (Ok(batch.messages), end)
       && asked == Asks(provider, t + |requests|, ids, {})
  }

  lemma HistoryAt(provider: Provider, t: nat, start: nat, k: nat, request: Request)
    ensures History(provider, t, start)(k, request) == AsReply(provider.history(t + k, start, request))
  {
  }

  lemma HistoryReplies(provider: Provider, t: nat, start: nat, k: nat, request: Request, next: Request)
    ensures
      var page, reply := provider.history(t + k, start, request), History(provider, t, start)(k, request);
      && (Answered(reply) <==> IsPage(page))
      && (IsPage(page) ==> reply.next == page.next && (LeadsTo(reply, next, ShortToken) <==> Names(page, next)))
  {
    HistoryAt(provider, t, start, k, request);
    hide History;
    var page := provider.history(t + k, start, request);
    if LeadsTo(AsReply(page), next, ShortToken) { assert ShortToken(page.next.text); }
  }

  lemma SameAdditions(page: HistoryReply)
    requires IsPage(page)
    ensures AsReply(page).Payload? && AsReply(page).field == page.additions
  {
  }

  lemma AddedSnoc(provider: Provider, t: nat, start: nat, requests: seq<Request>, k: nat)
    requires |requests| == k + 1 && IsPage(provider.history(t + k, start, requests[k]))
    ensures
      var pages, additions := History(provider, t, start), provider.history(t + k, start, requests[k]).additions;
      var more := if additions.List? then Objects(additions.entries) else [];
      && Added(provider, t, start, requests) == Added(provider, t, start, requests[..k]) + more
      && Gathered(pages, requests) == Gathered(pages, requests[..k]) + more
  {
    hide Objects, History, AsReply;
    HistoryAt(provider, t, start, k, requests[k]);
    SameAdditions(provider.history(t + k, start, requests[k]));
  }

  lemma {:induction false} AddedIsGathered(provider: Provider, t: nat, start: nat, requests: seq<Request>)
    requires forall k: nat :: k < |requests| ==> IsPage(provider.history(t + k, start, requests[k]))
    ensures Added(provider, t, start, requests) == Gathered(History(provider, t, start), requests)
    decreases |requests|
  {
    if requests != [] {
      hide Added, Gathered, History, Objects, IsPage;
      var k: nat := |requests| - 1;
      assert IsPage(provider.history(t + k, start, requests[k]));
      AddedSnoc(provider, t, start, requests, k);
      AddedIsGathered(provider, t, start, requests[..k]);
    }
  }

  lemma ChainIsHistory(provider: Provider, t: nat, start: nat, requests: seq<Request>)
    requires |requests| <= 10
    ensures Chain(History(provider, t, start), requests, ShortToken) <==> HistoryChain(provider, t, start, requests)
  {
    var pages := History(provider, t, start);
    forall k: nat | k < |requests|
      ensures Answered(pages(k, requests[k])) <==> IsPage(provider.history(t + k, start, requests[k]))
      ensures IsPage(provider.history(t + k, start, requests[k])) ==>
        pages(k, requests[k]).next == provider.history(t + k, start, requests[k]).next
    {
      HistoryReplies(provider, t, start, k, requests[k], None);
    }
    forall k: nat | k + 1 < |requests| && IsPage(provider.history(t + k, start, requests[k]))
      ensures LeadsTo(pages(k, requests[k]), requests[k + 1], ShortToken)
              <==> Names(provider.history(t + k, start, requests[k]), requests[k + 1])
    {
      HistoryReplies(provider, t, start, k, requests[k], requests[k + 1]);
    }
    hide History, Answered, LeadsTo, Names, IsPage;
    if |requests| >= 1 {
      var last: nat := |requests| - 1;
      assert t + last == t + |requests| - 1;
    }
  }

  /** An incremental synchronisation has the outcomes that follow the history, and no others. */
  lemma IncrementalExactly(provider: Provider, t: nat, start: nat, n: nat, batch: Batch, end: nat, asked: seq<Ask>)
    ensures
      IncrementalOutcome(provider, t, start, n, batch, end, asked)
      <==> exists requests :: |requests| == n && Follows(provider, t, start, requests, batch, end, asked)
  {
    var pages := History(provider, t, start);
    hide Fetched, Asks, Distinct, Chain, HistoryChain, History, Gathered, Concat, Added;
    if IncrementalOutcome(provider, t, start, n, batch, end, asked) {
      var requests := AllRequests(pages, n);
      OutcomeFollows(provider, t, start, requests, batch, end, asked);
    }
    forall requests | |requests| == n && Follows(provider, t, start, requests, batch, end, asked)
      ensures IncrementalOutcome(provider, t, start, n, batch, end, asked)
    {
      FollowsIsOutcome(provider, t, start, requests, batch, end, asked);
    }
  }

  lemma EndsWithin(provider: Provider, t: nat, start: nat, n: nat)
    ensures HistoryEnds(provider, t, start, n)
            <==> Complete(History(provider, t, start), GoogleToken, 10, |Concat(History(provider, t, start), n)|, n)
  {
  }

  lemma PagesAreRight(provider: Provider, t: nat, start: nat, requests: seq<Request>)
    requires HistoryChain(provider, t, start, requests)
    ensures Added(provider, t, start, requests) == Gathered(History(provider, t, start), requests)
  {
    hide IsPage;
    AddedIsGathered(provider, t, start, requests);
  }

  lemma OutcomeFollows(provider: Provider, t: nat, start: nat, requests: seq<Request>, batch: Batch, end: nat, asked: seq<Ask>)
    requires Asked(requests, History(provider, t, start))
    requires IncrementalOutcome(provider, t, start, |requests|, batch, end, asked)
    ensures Follows(provider, t, start, requests, batch, end, asked)
  {
    var pages, n := History(provider, t, start), |requests|;
    hide Fetched, Asks, Distinct, Chain, HistoryChain, History, Gathered, Concat, Added, Complete, HistoryEnds;
    EndsWithin(provider, t, start, n);
    SameTokens();
    CompleteEnds(pages, GoogleToken, ShortToken, 10, |Concat(pages, n)|, requests);
    ChainIsHistory(provider, t, start, requests);
    PagesAreRight(provider, t, start, requests);
    LastPageIs(provider, t, start, requests);
  }

  lemma LastPageIs(provider: Provider, t: nat, start: nat, requests: seq<Request>)
    requires HistoryChain(provider, t, start, requests) && Asked(requests, History(provider, t, start))
    ensures provider.history(t + |requests| - 1, start, requests[|requests| - 1]).Page?
    ensures LastPosition(provider, t, start, |requests|) ==
            provider.history(t + |requests| - 1, start, requests[|requests| - 1]).position
  {
    hide History;
    var k: nat := |requests| - 1;
    assert IsPage(provider.history(t + k, start, requests[k]));
    assert requests[k] == RequestAt(History(provider, t, start), k);
  }

  lemma FollowsIsOutcome(provider: Provider, t: nat, start: nat, requests: seq<Request>, batch: Batch, end: nat, asked: seq<Ask>)
    requires Follows(provider, t, start, requests, batch, end, asked)
    ensures IncrementalOutcome(provider, t, start, |requests|, batch, end, asked)
  {
    var pages, n := History(provider, t, start), |requests|;
    ChainStartsShort(provider, t, start, requests);
    hide Fetched, Asks, Distinct, Chain, HistoryChain, History, Gathered, Concat, Added, Complete, HistoryEnds;
    ChainIsHistory(provider, t, start, requests);
    PagesAreRight(provider, t, start, requests);
    SameTokens();
    ChainAccepts(pages, requests, GoogleToken, ShortToken);
    ChainIsComplete(pages, GoogleToken, 10, |Gathered(pages, requests)|, requests);
    GatheredIsConcat(pages, requests);
    EndsWithin(provider, t, start, n);
    LastPageIs(provider, t, start, requests);
  }

  lemma ChainStartsShort(provider: Provider, t: nat, start: nat, requests: seq<Request>)
    requires HistoryChain(provider, t, start, requests)
    ensures 1 <= |requests| <= 10
  {
  }

  // ---------------------------------------------------------------- the methods

  method FullSync(provider: Provider, t: nat, filtered: bool, mode: Mode)
    returns (r: Result<Batch, ()>, ghost n: nat, end: nat, ghost asked: seq<Ask>)
    ensures r.Ok? ==> r.value.mode == mode && FullOutcome(provider, t, filtered, n, r.value, end, asked)
    ensures r.Err? ==> forall m, batch, at, log :: !FullOutcome(provider, t, filtered, m, batch, at, log)
  {
    hide Complete, Concat, Fetched, Ids, Collectable, CanEnd, Ends, Gathered, ShortToken;
    n, end, asked := 0, t + 1, [];
    var position := provider.profile(t);
    if position == None { return Err(()), n, end, asked; }
    var items, requests := GoogleCollection(Listing(provider, t + 1, filtered));
    n, end := |requests|, end + |requests|;
    if items.Err? {
      NoneIsComplete(Listing(provider, t + 1, filtered), GoogleToken, MAX_PROVIDER_PAGES, MAX_PROVIDER_ITEMS);
      return Err(()), n, end, asked;
    }
    var ids := IdsOf(items.value);
    ghost var listed, server := n, Listing(provider, t + 1, filtered);
    var messages, after;
    messages, after, asked := FetchMessages(provider, end, ids);
    forall m: nat | Complete(server, GoogleToken, MAX_PROVIDER_PAGES, MAX_PROVIDER_ITEMS, m) ensures m == listed {
      CompleteOnce(server, GoogleToken, MAX_PROVIDER_PAGES, MAX_PROVIDER_ITEMS, m, listed);
    }
    end := after;
    if messages.Err? { return Err(()), n, end, asked; }
    return Ok(Batch(messages.value, position.value, mode)), n, end, asked;
  }

  lemma {:induction false} DistinctGrows(ids: seq<Id>, more: seq<Id>)
    ensures |Distinct(ids)| <= |Distinct(ids + more)|
    decreases |more|
  {
    if more == [] { assert ids + more == ids; }
    else {
      var all := ids + more;
      assert all[..|all| - 1] == ids + more[..|more| - 1];
      DistinctGrows(ids, more[..|more| - 1]);
    }
  }

  lemma DistinctSnoc(ids: seq<Id>, id: Id)
    ensures Distinct(ids + [id]) == if id in Distinct(ids) then Distinct(ids) else Distinct(ids) + [id]
  {
    assert (ids + [id])[..|ids|] == ids;
  }

  /** What the ids collected so far become when one more entry has been read. */
  lemma EntryRead(read: seq<Id>, entries: seq<Entry<Id>>, i: nat, all: seq<Id>)
    requires i < |entries| && read + Objects(entries[i..]) == all
    ensures
      var more := if entries[i].Object? then read + [entries[i].item] else read;
      && more + Objects(entries[i + 1..]) == all
      && Distinct(more) == if entries[i].Object? && entries[i].item !in Distinct(read)
                           then Distinct(read) + [entries[i].item] else Distinct(read)
  {
    hide Distinct;
    assert entries[i..][1..] == entries[i + 1..];
    if entries[i].Object? {
      DistinctSnoc(read, entries[i].item);
      assert read + ([entries[i].item] + Objects(entries[i + 1..])) == read + [entries[i].item] + Objects(entries[i + 1..]);
    }
  }

  /** The additions of one page join the ids collected so far, up to the item limit. */
  method CollectAdditions(entries: seq<Entry<Id>>, before: seq<Id>, ghost all: seq<Id>)
    returns (r: Result<seq<Id>, ()>)
    requires before == Distinct(all) && |before| <= MAX_PROVIDER_ITEMS
    ensures r == if |Distinct(all + Objects(entries))| <= MAX_PROVIDER_ITEMS
                 then Ok(Distinct(all + Objects(entries))) else Err(())
  {
    hide Distinct, Objects;
    var ids := before;
    var seenIds := set id | id in before;
    ghost var read := all;
    var i := 0;
    assert entries[0..] == entries;
    while i < |entries|
      invariant 0 <= i <= |entries| && ids == Distinct(read) && |ids| <= MAX_PROVIDER_ITEMS
      invariant forall id :: id in seenIds <==> id in ids
      invariant read + Objects(entries[i..]) == all + Objects(entries)
    {
      EntryRead(read, entries, i, all + Objects(entries));
      if entries[i].Object? {
        var id := entries[i].item;
        read := read + [id];
        if id !in seenIds {
          seenIds := seenIds + {id};
          ids := ids + [id];
          if |ids| > MAX_PROVIDER_ITEMS {
            DistinctGrows(read, Objects(entries[i + 1..]));
            return Err(());
          }
        }
      }
      i := i + 1;
    }
    assert entries[i..] == [];
    NoObjects<Id>();
    assert read + [] == read;
    return Ok(ids);
  }

  lemma NoHistoryEnd(provider: Provider, t: nat, start: nat, k: nat)
    requires Linked(History(provider, t, start), GoogleToken, k)
    requires
      || MAX_PROVIDER_PAGES <= k
      || !Usable(ReplyAt(History(provider, t, start), k))
      || MAX_PROVIDER_ITEMS < |Distinct(Concat(History(provider, t, start), k + 1))|
      || (!ReplyAt(History(provider, t, start), k).next.Absent? && !Linked(History(provider, t, start), GoogleToken, k + 1))
    ensures forall n, batch, end, asked :: !IncrementalOutcome(provider, t, start, n, batch, end, asked)
  {
    hide Concat, ReplyAt, RequestAt, Fetched, Distinct;
    var pages := History(provider, t, start);
    forall n: nat, batch, end, asked | IncrementalOutcome(provider, t, start, n, batch, end, asked) ensures false {
      EndsBehind(provider, t, start, k, n);
      var more := ConcatGrows(pages, k + 1, n);
      DistinctGrows(Concat(pages, k + 1), more);
    }
  }

  lemma EndsBehind(provider: Provider, t: nat, start: nat, k: nat, n: nat)
    requires Linked(History(provider, t, start), GoogleToken, k) && HistoryEnds(provider, t, start, n)
    ensures k < n && Usable(ReplyAt(History(provider, t, start), k))
    ensures ReplyAt(History(provider, t, start), k).next.Absent? || Linked(History(provider, t, start), GoogleToken, k + 1)
  {
    var pages := History(provider, t, start);
    if k + 1 < n { assert Continues(ReplyAt(pages, k), GoogleToken); }
  }

  lemma HistoryEndsOnce(provider: Provider, t: nat, start: nat, m: nat, n: nat)
    requires HistoryEnds(provider, t, start, m) && HistoryEnds(provider, t, start, n)
    ensures m == n
  {
  }

  /** The rest of an incremental synchronisation once the last page has been read. */
  method FinishIncremental(provider: Provider, t: nat, start: nat, n: nat, ids: seq<Id>, position: nat)
    returns (r: Result<Batch, ()>, end: nat, ghost asked: seq<Ask>)
    requires HistoryEnds(provider, t, start, n) && LastPosition(provider, t, start, n) == Some(position)
    requires ids == Distinct(Concat(History(provider, t, start), n)) && |ids| <= MAX_PROVIDER_ITEMS
    ensures r.Ok? ==> r.value.mode == Incremental && IncrementalOutcome(provider, t, start, n, r.value, end, asked)
    ensures r.Err? ==> forall m, batch, at, log :: !IncrementalOutcome(provider, t, start, m, batch, at, log)
  {
    hide Concat, Fetched, Distinct, HistoryEnds;
    var messages, after;
    messages, after, asked := FetchMessages(provider, t + n, ids);
    forall m: nat | HistoryEnds(provider, t, start, m) ensures m == n { HistoryEndsOnce(provider, t, start, m, n); }
    end := after;
    if messages.Err? { return Err(()), end, asked; }
    return Ok(Batch(messages.value, position, Incremental)), end, asked;
  }

  /** What the loop reads as page `n` of the history, and what that adds. */
  lemma HistoryPage(provider: Provider, t: nat, start: nat, n: nat)
    ensures
      var pages := History(provider, t, start);
      && ReplyAt(pages, n) == AsReply(provider.history(t + n, start, RequestAt(pages, n)))
      && Concat(pages, n + 1) == Concat(pages, n) + Items(ReplyAt(pages, n))
  {
    PageRead(History(provider, t, start), n);
  }

  lemma HistoryEndsHere(provider: Provider, t: nat, start: nat, n: nat)
    requires n < MAX_PROVIDER_PAGES && Linked(History(provider, t, start), GoogleToken, n)
    requires Usable(ReplyAt(History(provider, t, start), n)) && ReplyAt(History(provider, t, start), n).next.Absent?
    ensures HistoryEnds(provider, t, start, n + 1)
    ensures
      var page := provider.history(t + n, start, RequestAt(History(provider, t, start), n));
      LastPosition(provider, t, start, n + 1) == if page.Page? then page.position else None
  {
  }

  /** The history loop, when its first page is not a 404. */
  method IncrementalSync(provider: Provider, t: nat, start: nat)
    returns (r: Result<Batch, ()>, ghost n: nat, end: nat, ghost asked: seq<Ask>)
    requires !provider.history(t, start, None).NotFound?
    ensures r.Ok? ==> r.value.mode == Incremental && IncrementalOutcome(provider, t, start, n, r.value, end, asked)
    ensures r.Err? ==> forall m, batch, at, log :: !IncrementalOutcome(provider, t, start, m, batch, at, log)
  {
    hide History, HistoryEnds, LastPosition, Concat, ReplyAt, RequestAt, Linked, Seen, Fetched, Distinct, Objects;
    hide IncrementalOutcome;
    ghost var pages := History(provider, t, start);
    var token: Option<string> := None;
    var seenTokens: set<string> := {};
    var messageIds: seq<Id> := [];
    ChainStarts(pages, GoogleToken);
    DistinctOfNone();
    n, asked := 0, [];
    for page := 0 to MAX_PROVIDER_PAGES
      invariant token == RequestAt(pages, page)
      invariant messageIds == Distinct(Concat(pages, page)) && |messageIds| <= MAX_PROVIDER_ITEMS
      invariant Linked(pages, GoogleToken, page) && Seen(seenTokens, pages, page)
    {
      HistoryPage(provider, t, start, page);
      n, end := page + 1, t + page + 1;
      var reply := provider.history(t + page, start, token);
      if !reply.Page? || reply.additions.NotAList? { NoHistoryEnd(provider, t, start, page); return Err(()), n, end, asked; }
      if reply.position == None { NoHistoryEnd(provider, t, start, page); return Err(()), n, end, asked; }
      var entries := if reply.additions.List? then reply.additions.entries else [];
      NoObjects<Id>();
      assert Items(ReplyAt(pages, page)) == Objects(entries);
      var collected := CollectAdditions(entries, messageIds, Concat(pages, page));
      if collected.Err? { NoHistoryEnd(provider, t, start, page); return Err(()), n, end, asked; }
      messageIds := collected.value;
      if reply.next.Absent? {
        HistoryEndsHere(provider, t, start, page);
        r, end, asked := FinishIncremental(provider, t, start, page + 1, messageIds, reply.position.value);
        return r, n, end, asked;
      }
      if !reply.next.Text? || !GoogleToken(reply.next.text) {
        ChainBreaks(pages, GoogleToken, page);
        NoHistoryEnd(provider, t, start, page);
        return Err(()), n, end, asked;
      }
      LinkGrows(pages, GoogleToken, page, seenTokens);
      if reply.next.text in seenTokens { NoHistoryEnd(provider, t, start, page); return Err(()), n, end, asked; }
      seenTokens := seenTokens + {reply.next.text};
      token := Some(reply.next.text);
    }
    NoHistoryEnd(provider, t, start, MAX_PROVIDER_PAGES);
    return Err(()), n, t + MAX_PROVIDER_PAGES, asked;
  }

  lemma DistinctOfNone()
    ensures Distinct([]) == []
  {
  }

  /** A synchronisation succeeds with its one possible outcome, and fails when there is none. */
  method SyncMessages(provider: Provider, cursor: Cursor, filtered: bool, t: nat)
    returns (r: Result<Batch, ()>, end: nat, ghost asked: seq<Ask>)
    ensures r.Ok? ==> SyncOutcome(provider, cursor, filtered, t, r.value, end, asked)
    ensures r.Err? ==> forall batch, at, log :: !SyncOutcome(provider, cursor, filtered, t, batch, at, log)
  {
    hide FullOutcome, IncrementalOutcome;
    ghost var n: nat;
    if cursor == None {
      r, n, end, asked := FullSync(provider, t, filtered, Initial);
      return;
    }
    if filtered || cursor.value == None { return Err(()), t, []; }
    var start := cursor.value.value;
    if provider.history(t, start, None).NotFound? {
      r, n, end, asked := FullSync(provider, t + 1, false, Recovery);
    } else {
      r, n, end, asked := IncrementalSync(provider, t, start);
    }
  }
}
