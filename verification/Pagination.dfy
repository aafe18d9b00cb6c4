/**
 * The bounded collection loops of backend/src/job_apply_pro/integrations/provider_clients.py,
 * against a server that may answer every request as it pleases.
 */
module Pagination {
  import opened Prelude

  const MAX_PROVIDER_PAGES: nat := 10
  const MAX_PROVIDER_ITEMS: nat := 1000
  const MAX_CONTINUATION_TOKEN_CHARACTERS := 8000

  /** One value of a JSON array; only objects are collected. */
  datatype Entry<Item> = Object(item: Item) | Scalar

  /** What stands under the key of the collection; a missing key is an empty list. */
  datatype Field<Item> = Missing | List(entries: seq<Entry<Item>>) | NotAList

  datatype Continuation = Absent | Text(text: string) | NotText

  /** A reply is unusable when the request failed or its body is no JSON object within the byte limit. */
  datatype Reply<Item> = Unusable | Payload(field: Field<Item>, next: Continuation)

  /** The first request carries no continuation. */
  type Request = Option<string>

  /** What the server answers to its `k`-th request. */
  type Server<Item(!new)> = (nat, Request) -> Reply<Item>

  datatype Failure = BadReply | BadCollection | TooManyItems | BadToken | UntrustedLink | RepeatedToken | TooManyPages

  predicate GoogleToken(token: string) { 0 < |token| <= MAX_CONTINUATION_TOKEN_CHARACTERS }

  function Objects<Item>(entries: seq<Entry<Item>>): seq<Item> {
    if entries == [] then []
    else (if entries[0].Object? then [entries[0].item] else []) + Objects(entries[1..])
  }

  function Items<Item>(reply: Reply<Item>): seq<Item> {
    if reply.Payload? && reply.field.List? then Objects(reply.field.entries) else []
  }

  lemma NoObjects<Item>()
    ensures Objects<Item>([]) == []
  {
  }

  // ---------------------------------------------------------------- the page chain

  /** Each request but the first carries the continuation of the reply before it. */
  function RequestAt<Item(!new)>(serve: Server<Item>, k: nat): Request
    decreases k, 0
  {
    if k == 0 then None
    else
      match ReplyAt(serve, k - 1)
      case Payload(_, Text(text)) => Some(text)
      case _ => None
  }

  function ReplyAt<Item(!new)>(serve: Server<Item>, k: nat): Reply<Item>
    decreases k, 1
  {
    serve(k, RequestAt(serve, k))
  }

  function Concat<Item(!new)>(serve: Server<Item>, n: nat): seq<Item> {
    if n == 0 then [] else Concat(serve, n - 1) + Items(ReplyAt(serve, n - 1))
  }

  /** The request to which the continuation of reply `k` leads. */
  function FollowUp<Item(!new)>(serve: Server<Item>, k: nat): Request { RequestAt(serve, k + 1) }

  predicate Usable<Item>(reply: Reply<Item>) { reply.Payload? && !reply.field.NotAList? }

  predicate Continues<Item>(reply: Reply<Item>, valid: string -> bool) {
    Usable(reply) && reply.next.Text? && valid(reply.next.text)
  }

  /** The first `n` replies lead on to distinct valid continuations. */
  ghost predicate Linked<Item(!new)>(serve: Server<Item>, valid: string -> bool, n: nat) {
    && (forall k: nat :: k < n ==> Continues(ReplyAt(serve, k), valid))
    && (forall j: nat, k: nat :: j < k < n ==> FollowUp(serve, j) != FollowUp(serve, k))
  }

  /** The chain of `n` pages ends properly and within the limits. */
  ghost predicate Complete<Item(!new)>(serve: Server<Item>, valid: string -> bool, maxPages: nat, maxItems: nat, n: nat) {
    && 0 < n <= maxPages && Linked(serve, valid, n - 1)
    && Usable(ReplyAt(serve, n - 1)) && ReplyAt(serve, n - 1).next.Absent?
    && |Concat(serve, n)| <= maxItems
  }

  /** Some chain of pages ends properly and within the limits. */
  ghost predicate Collectable<Item(!new)>(serve: Server<Item>, valid: string -> bool, maxPages: nat, maxItems: nat) {
    exists n :: Complete(serve, valid, maxPages, maxItems, n)
  }

  lemma NoneIsComplete<Item(!new)>(serve: Server<Item>, valid: string -> bool, maxPages: nat, maxItems: nat)
    requires !Collectable(serve, valid, maxPages, maxItems)
    ensures forall n :: !Complete(serve, valid, maxPages, maxItems, n)
  {
  }

  /** A chain ends at one page only, so a collection is never ambiguous. */
  lemma CompleteOnce<Item(!new)>(
    serve: Server<Item>, valid: string -> bool, maxPages: nat, maxItems: nat, m: nat, n: nat)
    requires Complete(serve, valid, maxPages, maxItems, m) && Complete(serve, valid, maxPages, maxItems, n)
    ensures m == n
  {
  }

  lemma {:induction false} ConcatGrows<Item(!new)>(serve: Server<Item>, m: nat, n: nat) returns (more: seq<Item>)
    requires m <= n
    ensures Concat(serve, n) == Concat(serve, m) + more
  {
    more := [];
    if m < n {
      more := ConcatGrows(serve, m, n - 1);
      more := more + Items(ReplyAt(serve, n - 1));
    }
  }

  /** A chain of which a prefix fails is not complete. */
  lemma NeverComplete<Item(!new)>(serve: Server<Item>, valid: string -> bool, maxPages: nat, maxItems: nat, k: nat)
    requires Linked(serve, valid, k)
    requires
      || maxPages <= k
      || !Usable(ReplyAt(serve, k))
      || maxItems < |Concat(serve, k + 1)|
      || (!ReplyAt(serve, k).next.Absent? && !Linked(serve, valid, k + 1))
    ensures !Collectable(serve, valid, maxPages, maxItems)
  {
    hide Concat, ReplyAt, RequestAt;
    forall n: nat ensures !Complete(serve, valid, maxPages, maxItems, n) {
      if Complete(serve, valid, maxPages, maxItems, n) {
        assert n <= k ==> Continues(ReplyAt(serve, n - 1), valid);
        assert k + 1 < n ==> Linked(serve, valid, k + 1) && Continues(ReplyAt(serve, k), valid);
        if k < n { var more := ConcatGrows(serve, k + 1, n); }
      }
    }
  }

  // ---------------------------------------------------------------- the same, reply by reply

  /** The objects of a list, and nothing else: part by part, each once and in order. */
  lemma {:induction false} ObjectsExactly<Item>(a: seq<Entry<Item>>, b: seq<Entry<Item>>, item: Item)
    ensures Objects(a + b) == Objects(a) + Objects(b)
    ensures Objects([Object(item)]) == [item] && Objects<Item>([Scalar]) == [] && Objects<Item>([]) == []
  {
    assert [Object(item)][1..] == [] && [Entry<Item>.Scalar][1..] == [];
    if a == [] {
      assert a + b == b;
    } else {
      assert (a + b)[1..] == a[1..] + b;
      ObjectsExactly(a[1..], b, item);
    }
  }

  /**
   * Requests that lead from the first page to one without continuation: each asked for with the
   * text the reply before it named, no two alike, and each answered with a list or with none.
   */
  ghost predicate Chain<Item(!new)>(serve: Server<Item>, requests: seq<Request>, accept: string -> bool) {
    && |requests| >= 1 && requests[0] == None
    && (forall j, k :: 0 <= j < k < |requests| ==> requests[j] != requests[k])
    && (forall k: nat :: k < |requests| ==> Answered(serve(k, requests[k])))
    && (forall k: nat :: k + 1 < |requests| ==> LeadsTo(serve(k, requests[k]), requests[k + 1], accept))
    && serve(|requests| - 1, requests[|requests| - 1]).next.Absent?
  }

  predicate Answered<Item>(reply: Reply<Item>) { reply.Payload? && (reply.field.Missing? || reply.field.List?) }

  predicate LeadsTo<Item>(reply: Reply<Item>, next: Request, accept: string -> bool) {
    reply.Payload? && reply.next.Text? && next == Some(reply.next.text) && accept(reply.next.text)
  }

  /** The objects of all replies, page after page. */
  function Gathered<Item(!new)>(serve: Server<Item>, requests: seq<Request>): seq<Item> {
    if requests == [] then []
    else
      var k := |requests| - 1;
      var reply := serve(k, requests[k]);
      Gathered(serve, requests[..k]) + if reply.Payload? && reply.field.List? then Objects(reply.field.entries) else []
  }

  lemma {:induction false} GatheredIsConcat<Item(!new)>(serve: Server<Item>, requests: seq<Request>)
    requires Asked(requests, serve)
    ensures Gathered(serve, requests) == Concat(serve, |requests|)
  {
    hide Objects;
    if requests != [] {
      var k := |requests| - 1;
      assert Asked(requests[..k], serve);
      GatheredIsConcat(serve, requests[..k]);
    }
  }

  lemma CompleteIsChain<Item(!new)>(
    serve: Server<Item>, valid: string -> bool, maxPages: nat, maxItems: nat, requests: seq<Request>)
    requires Asked(requests, serve) && Complete(serve, valid, maxPages, maxItems, |requests|)
    ensures Chain(serve, requests, valid) && 1 <= |requests| <= maxPages && |Gathered(serve, requests)| <= maxItems
  {
    hide Concat, Gathered, Items;
    GatheredIsConcat(serve, requests);
    var n := |requests|;
    forall k: nat | k < n ensures Answered(serve(k, requests[k])) {
      if k < n - 1 { assert Continues(ReplyAt(serve, k), valid); } else { assert Usable(ReplyAt(serve, k)); }
    }
    forall k: nat | k + 1 < n ensures LeadsTo(serve(k, requests[k]), requests[k + 1], valid) {
      assert Continues(ReplyAt(serve, k), valid);
    }
    forall j, k | 0 <= j < k < n ensures requests[j] != requests[k] {
      assert LeadsTo(serve(k - 1, requests[k - 1]), requests[k], valid);
      if j > 0 { assert FollowUp(serve, j - 1) != FollowUp(serve, k - 1); }
    }
  }

  lemma {:induction false} ChainIsAsked<Item(!new)>(serve: Server<Item>, requests: seq<Request>, accept: string -> bool, k: nat)
    requires Chain(serve, requests, accept) && k < |requests|
    ensures requests[k] == RequestAt(serve, k)
  {
    if k > 0 {
      ChainIsAsked(serve, requests, accept, k - 1);
      assert LeadsTo(serve(k - 1, requests[k - 1]), requests[k], accept);
    }
  }

  lemma ChainIsComplete<Item(!new)>(
    serve: Server<Item>, valid: string -> bool, maxPages: nat, maxItems: nat, requests: seq<Request>)
    requires Chain(serve, requests, valid) && |requests| <= maxPages && |Gathered(serve, requests)| <= maxItems
    ensures Asked(requests, serve) && Complete(serve, valid, maxPages, maxItems, |requests|)
  {
    hide Concat, Gathered, Items, RequestAt;
    var n := |requests|;
    forall k: nat | k < n ensures requests[k] == RequestAt(serve, k) && ReplyAt(serve, k) == serve(k, requests[k]) {
      ChainIsAsked(serve, requests, valid, k);
      PageRead(serve, k);
    }
    GatheredIsConcat(serve, requests);
    forall k: nat | k < n - 1 ensures Continues(ReplyAt(serve, k), valid) && FollowUp(serve, k) == requests[k + 1] {
      assert Answered(serve(k, requests[k])) && LeadsTo(serve(k, requests[k]), requests[k + 1], valid);
    }
    assert Answered(serve(n - 1, requests[n - 1]));
  }

  /** A page token of 1 to 8,000 characters. */
  predicate ShortToken(token: string) { 1 <= |token| <= 8_000 }

  lemma SameTokens()
    ensures forall token :: GoogleToken(token) <==> ShortToken(token)
  {
  }

  /** A short link to the given path of the one known host, with nothing else in it but the standard port. */
  function KnownLink(split: UrlSplit, path: string): string -> bool {
    text =>
      && 1 <= |text| <= 8_000 && split(text).Some?
      && split(text).value in {
           Url("https", Some("graph.microsoft.com"), NoPort, None, None, path, ""),
           Url("https", Some("graph.microsoft.com"), PortNumber(443), None, None, path, "")}
  }

  lemma SameLinks(split: UrlSplit, path: string)
    ensures forall text :: GraphLink(split, path)(text) <==> KnownLink(split, path)(text)
  {
    forall text ensures GraphLink(split, path)(text) <==> KnownLink(split, path)(text) {
      if split(text).Some? { KnownUrl(split(text).value, path); }
    }
  }

  lemma KnownUrl(url: Url, path: string)
    ensures GraphUrl(url, path) <==> url in {
      Url("https", Some("graph.microsoft.com"), NoPort, None, None, path, ""),
      Url("https", Some("graph.microsoft.com"), PortNumber(443), None, None, path, "")}
  {
    if GraphUrl(url, path) { assert url == Url("https", Some("graph.microsoft.com"), url.port, None, None, path, ""); }
  }

  lemma ChainAccepts<Item(!new)>(
    serve: Server<Item>, requests: seq<Request>, accept: string -> bool, other: string -> bool)
    requires forall text :: accept(text) <==> other(text)
    ensures Chain(serve, requests, accept) <==> Chain(serve, requests, other)
  {
    assert forall reply: Reply<Item>, next :: LeadsTo(reply, next, accept) <==> LeadsTo(reply, next, other);
    hide LeadsTo, Answered;
  }

  /** The two ways of saying that a collection ends within its limits. */
  lemma ChainExactly<Item(!new)>(
    serve: Server<Item>, valid: string -> bool, accept: string -> bool, maxPages: nat, maxItems: nat)
    requires forall text :: valid(text) <==> accept(text)
    ensures
      Collectable(serve, valid, maxPages, maxItems) <==> CanEnd(serve, accept, maxPages, maxItems)
  {
    hide Complete, Chain, Gathered, Asked;
    forall n: nat | Complete(serve, valid, maxPages, maxItems, n)
      ensures exists requests :: Ends(serve, requests, accept, maxPages, maxItems)
    {
      var requests := AllRequests(serve, n);
      CompleteIsChain(serve, valid, maxPages, maxItems, requests);
      ChainAccepts(serve, requests, valid, accept);
      assert Ends(serve, requests, accept, maxPages, maxItems);
    }
    forall requests | Ends(serve, requests, accept, maxPages, maxItems)
      ensures exists n :: Complete(serve, valid, maxPages, maxItems, n)
    {
      ChainAccepts(serve, requests, valid, accept);
      ChainIsComplete(serve, valid, maxPages, maxItems, requests);
    }
  }

  /** The requests lead to an end within both limits. */
  ghost predicate Ends<Item(!new)>(
    serve: Server<Item>, requests: seq<Request>, accept: string -> bool, maxPages: nat, maxItems: nat)
  {
    Chain(serve, requests, accept) && |requests| <= maxPages && |Gathered(serve, requests)| <= maxItems
  }

  ghost predicate CanEnd<Item(!new)>(serve: Server<Item>, accept: string -> bool, maxPages: nat, maxItems: nat) {
    exists requests :: Ends(serve, requests, accept, maxPages, maxItems)
  }

  ghost function AllRequests<Item(!new)>(serve: Server<Item>, n: nat): (requests: seq<Request>)
    ensures |requests| == n && Asked(requests, serve)
  {
    seq(n, k requires 0 <= k < n => RequestAt(serve, k))
  }

  lemma CompleteEnds<Item(!new)>(
    serve: Server<Item>, valid: string -> bool, accept: string -> bool, maxPages: nat, maxItems: nat, requests: seq<Request>)
    requires forall text :: valid(text) <==> accept(text)
    requires Asked(requests, serve) && Complete(serve, valid, maxPages, maxItems, |requests|)
    ensures Ends(serve, requests, accept, maxPages, maxItems) && Gathered(serve, requests) == Concat(serve, |requests|)
  {
    hide Complete, Chain, Gathered, Asked, Concat;
    GatheredIsConcat(serve, requests);
    CompleteIsChain(serve, valid, maxPages, maxItems, requests);
    ChainAccepts(serve, requests, valid, accept);
  }

  lemma GoogleChainExactly<Item(!new)>(serve: Server<Item>)
    ensures Collectable(serve, GoogleToken, MAX_PROVIDER_PAGES, MAX_PROVIDER_ITEMS) <==> CanEnd(serve, ShortToken, 10, 1_000)
  {
    SameTokens();
    ChainExactly(serve, GoogleToken, ShortToken, 10, 1_000);
  }

  lemma GoogleChainEnds<Item(!new)>(serve: Server<Item>, requests: seq<Request>)
    requires Asked(requests, serve) && Complete(serve, GoogleToken, MAX_PROVIDER_PAGES, MAX_PROVIDER_ITEMS, |requests|)
    ensures Ends(serve, requests, ShortToken, 10, 1_000) && Gathered(serve, requests) == Concat(serve, |requests|)
  {
    SameTokens();
    CompleteEnds(serve, GoogleToken, ShortToken, 10, 1_000, requests);
  }

  lemma GraphChainExactly<Item(!new)>(serve: Server<Item>, split: UrlSplit, path: string, maxPages: nat, maxItems: nat)
    ensures Collectable(serve, GraphLink(split, path), maxPages, maxItems)
            <==> CanEnd(serve, KnownLink(split, path), maxPages, maxItems)
  {
    SameLinks(split, path);
    ChainExactly(serve, GraphLink(split, path), KnownLink(split, path), maxPages, maxItems);
  }

  lemma GraphChainEnds<Item(!new)>(
    serve: Server<Item>, split: UrlSplit, path: string, maxPages: nat, maxItems: nat, requests: seq<Request>)
    requires Asked(requests, serve) && Complete(serve, GraphLink(split, path), maxPages, maxItems, |requests|)
    ensures Ends(serve, requests, KnownLink(split, path), maxPages, maxItems)
    ensures Gathered(serve, requests) == Concat(serve, |requests|)
  {
    SameLinks(split, path);
    CompleteEnds(serve, GraphLink(split, path), KnownLink(split, path), maxPages, maxItems, requests);
  }

  // ---------------------------------------------------------------- the loops

  lemma PageRead<Item(!new)>(serve: Server<Item>, n: nat)
    ensures ReplyAt(serve, n) == serve(n, RequestAt(serve, n))
    ensures Concat(serve, n + 1) == Concat(serve, n) + Items(ReplyAt(serve, n))
  {
  }

  lemma ChainStarts<Item(!new)>(serve: Server<Item>, valid: string -> bool)
    ensures RequestAt(serve, 0) == None && Concat(serve, 0) == []
    ensures Linked(serve, valid, 0) && Seen({}, serve, 0)
  {
  }

  lemma ChainEnds<Item(!new)>(serve: Server<Item>, valid: string -> bool, maxPages: nat, maxItems: nat, n: nat)
    requires n < maxPages && Linked(serve, valid, n) && Usable(ReplyAt(serve, n)) && ReplyAt(serve, n).next.Absent?
    requires |Concat(serve, n + 1)| <= maxItems
    ensures Complete(serve, valid, maxPages, maxItems, n + 1) && Collectable(serve, valid, maxPages, maxItems)
  {
    hide Concat, ReplyAt, Linked;
    var last := n + 1;
    assert Complete(serve, valid, maxPages, maxItems, last);
  }

  lemma ChainBreaks<Item(!new)>(serve: Server<Item>, valid: string -> bool, n: nat)
    requires !Continues(ReplyAt(serve, n), valid)
    ensures !Linked(serve, valid, n + 1)
  {
  }

  lemma ObjectsStep<Item>(entries: seq<Entry<Item>>, i: nat)
    requires i < |entries|
    ensures Objects(entries[i..]) == (if entries[i].Object? then [entries[i].item] else []) + Objects(entries[i + 1..])
  {
    assert entries[i..][1..] == entries[i + 1..];
  }

  method ObjectsOf<Item>(entries: seq<Entry<Item>>) returns (items: seq<Item>)
    ensures items == Objects(entries)
  {
    hide Objects;
    items := [];
    var i := 0;
    assert entries[0..] == entries;
    while i < |entries|
      invariant 0 <= i <= |entries| && Objects(entries) == items + Objects(entries[i..])
    {
      ObjectsStep(entries, i);
      if entries[i].Object? { items := items + [entries[i].item]; }
      i := i + 1;
    }
    assert entries[i..] == [];
    NoObjects<Item>();
  }

  /** The request log says which requests were made, in order. */
  ghost predicate Asked<Item(!new)>(requests: seq<Request>, serve: Server<Item>) {
    forall k: nat :: k < |requests| ==> requests[k] == RequestAt(serve, k)
  }

  ghost predicate Seen<Item(!new)>(seen: set<string>, serve: Server<Item>, n: nat) {
    forall t :: t in seen <==> exists k: nat :: k < n && FollowUp(serve, k) == Some(t)
  }

  lemma LinkGrows<Item(!new)>(serve: Server<Item>, valid: string -> bool, n: nat, seen: set<string>)
    requires Linked(serve, valid, n) && Seen(seen, serve, n) && ReplyAt(serve, n).Payload?
    requires ReplyAt(serve, n).next.Text?
    ensures
      var token := ReplyAt(serve, n).next.text;
      && RequestAt(serve, n + 1) == Some(token)
      && Seen(seen + {token}, serve, n + 1)
      && (Linked(serve, valid, n + 1) <==> Continues(ReplyAt(serve, n), valid) && token !in seen)
  {
    var token := ReplyAt(serve, n).next.text;
    assert FollowUp(serve, n) == Some(token);
    assert token in seen ==> exists k: nat :: k < n && FollowUp(serve, k) == FollowUp(serve, n);
    if Linked(serve, valid, n + 1) { assert Continues(ReplyAt(serve, n), valid); }
    forall t ensures t in seen + {token} <==> exists k: nat :: k < n + 1 && FollowUp(serve, k) == Some(t) {
      if t in seen { var k: nat :| k < n && FollowUp(serve, k) == Some(t); }
    }
  }

  /**
   * All or nothing: the whole chain in order when it ends within the limits, and an error
   * otherwise, with at most ten requests and each the continuation of the last reply.
   */
  method GoogleCollection<Item(!new)>(serve: Server<Item>) returns (r: Result<seq<Item>, Failure>, requests: seq<Request>)
    ensures r.Ok? <==> Collectable(serve, GoogleToken, MAX_PROVIDER_PAGES, MAX_PROVIDER_ITEMS)
    ensures r.Ok? ==>
      && Complete(serve, GoogleToken, MAX_PROVIDER_PAGES, MAX_PROVIDER_ITEMS, |requests|)
      && r.value == Concat(serve, |requests|)
    ensures |requests| <= MAX_PROVIDER_PAGES && Asked(requests, serve)
    ensures r.Ok? <==> CanEnd(serve, ShortToken, 10, 1_000)
    ensures r.Ok? ==> Ends(serve, requests, ShortToken, 10, 1_000) && r.value == Gathered(serve, requests)
  {
    GoogleChainExactly(serve);
    hide Concat, ReplyAt, RequestAt, Linked, Seen, Complete, Objects, GoogleToken, ShortToken, Ends, Gathered, Collectable, CanEnd;
    var items: seq<Item> := [];
    var token: Option<string> := None;
    var seenTokens: set<string> := {};
    requests := [];
    ChainStarts(serve, GoogleToken);
    for page := 0 to MAX_PROVIDER_PAGES
      invariant |requests| == page && Asked(requests, serve) && token == RequestAt(serve, page)
      invariant items == Concat(serve, page) && |items| <= MAX_PROVIDER_ITEMS
      invariant Linked(serve, GoogleToken, page) && Seen(seenTokens, serve, page)
    {
      PageRead(serve, page);
      NoObjects<Item>();
      var payload := serve(page, token);
      requests := requests + [token];
      if !payload.Payload? || payload.field.NotAList? {
        NeverComplete(serve, GoogleToken, MAX_PROVIDER_PAGES, MAX_PROVIDER_ITEMS, page);
        return Err(if payload.Payload? then BadCollection else BadReply), requests;
      }
      var pageItems := ObjectsOf(if payload.field.List? then payload.field.entries else []);
      if |items| + |pageItems| > MAX_PROVIDER_ITEMS {
        NeverComplete(serve, GoogleToken, MAX_PROVIDER_PAGES, MAX_PROVIDER_ITEMS, page);
        return Err(TooManyItems), requests;
      }
      items := items + pageItems;
      if payload.next.Absent? {
        ChainEnds(serve, GoogleToken, MAX_PROVIDER_PAGES, MAX_PROVIDER_ITEMS, page);
        GoogleChainEnds(serve, requests);
        return Ok(items), requests;
      }
      if !payload.next.Text? || !GoogleToken(payload.next.text) {
        ChainBreaks(serve, GoogleToken, page);
        NeverComplete(serve, GoogleToken, MAX_PROVIDER_PAGES, MAX_PROVIDER_ITEMS, page);
        return Err(BadToken), requests;
      }
      LinkGrows(serve, GoogleToken, page, seenTokens);
      if payload.next.text in seenTokens {
        NeverComplete(serve, GoogleToken, MAX_PROVIDER_PAGES, MAX_PROVIDER_ITEMS, page);
        return Err(RepeatedToken), requests;
      }
      seenTokens := seenTokens + {payload.next.text};
      token := Some(payload.next.text);
    }
    NeverComplete(serve, GoogleToken, MAX_PROVIDER_PAGES, MAX_PROVIDER_ITEMS, MAX_PROVIDER_PAGES);
    return Err(TooManyPages), requests;
  }

  datatype Port = NoPort | PortNumber(number: nat) | BadPort

  /** A URL taken apart; user and password are None where the URL has no such part. */
  datatype Url = Url(
    scheme: string,
    host: Option<string>,
    port: Port,
    user: Option<string>,
    password: Option<string>,
    path: string,
    fragment: string)

  /** How URLs are taken apart, None where that raises. */
  type UrlSplit = string -> Option<Url>

  const GRAPH_HOST := "graph.microsoft.com"

  /** A next link leads to the same collection of the one known host, over https and without credentials. */
  predicate GraphUrl(url: Url, path: string) {
    && url.scheme == "https" && url.host == Some(GRAPH_HOST) && url.port in {NoPort, PortNumber(443)}
    && url.user == None && url.password == None && url.fragment == "" && url.path == path
  }

  function GraphLink(split: UrlSplit, path: string): string -> bool {
    text =>
      && 0 < |text| <= MAX_CONTINUATION_TOKEN_CHARACTERS
      && split(text).Some? && GraphUrl(split(text).value, path)
  }

  method ValidatedGraphNextLink(value: Continuation, split: UrlSplit, path: string)
    returns (r: Result<Option<string>, Failure>)
    ensures value.Absent? <==> r == Ok(None)
    ensures forall text :: r == Ok(Some(text)) <==> value == Text(text) && GraphLink(split, path)(text)
    ensures forall text :: r == Ok(Some(text)) <==> value == Text(text) && KnownLink(split, path)(text)
    ensures r == Err(UntrustedLink) <==>
      && value.Text? && 1 <= |value.text| <= 8_000 && split(value.text).Some? && !split(value.text).value.port.BadPort?
      && !KnownLink(split, path)(value.text)
  {
    SameLinks(split, path);
    if value.Absent? { return Ok(None); }
    if !value.Text? || value.text == "" || |value.text| > MAX_CONTINUATION_TOKEN_CHARACTERS { return Err(BadToken); }
    var parsed := split(value.text);
    if parsed == None { return Err(BadToken); }
    var url := parsed.value;
    if url.port.BadPort? { return Err(BadToken); }
    if || url.scheme != "https" || url.host != Some(GRAPH_HOST) || !(url.port.NoPort? || url.port.number == 443)
       || url.user.Some? || url.password.Some? || url.fragment != "" || url.path != path
    {
      return Err(UntrustedLink);
    }
    return Ok(Some(value.text));
  }

  /** The same promise for the Graph loop, whose limits are parameters. */
  method GraphCollection<Item(!new)>(serve: Server<Item>, split: UrlSplit, path: string, maxPages: nat, maxItems: nat)
    returns (r: Result<seq<Item>, Failure>, requests: seq<Request>)
    ensures r.Ok? <==> Collectable(serve, GraphLink(split, path), maxPages, maxItems)
    ensures r.Ok? ==>
      && Complete(serve, GraphLink(split, path), maxPages, maxItems, |requests|)
      && r.value == Concat(serve, |requests|)
    ensures |requests| <= maxPages && Asked(requests, serve)
    ensures r.Ok? <==> CanEnd(serve, KnownLink(split, path), maxPages, maxItems)
    ensures r.Ok? ==>
      Ends(serve, requests, KnownLink(split, path), maxPages, maxItems) && r.value == Gathered(serve, requests)
  {
    GraphChainExactly(serve, split, path, maxPages, maxItems);
    hide Concat, ReplyAt, RequestAt, Linked, Seen, Complete, Objects, GraphUrl, GraphLink, KnownLink, Ends, Gathered, Collectable, CanEnd;
    var items: seq<Item> := [];
    var nextUrl: Option<string> := None;
    var seenLinks: set<string> := {};
    ghost var valid := GraphLink(split, path);
    requests := [];
    ChainStarts(serve, valid);
    for page := 0 to maxPages
      invariant |requests| == page && Asked(requests, serve) && nextUrl == RequestAt(serve, page)
      invariant items == Concat(serve, page)
      invariant Linked(serve, valid, page) && Seen(seenLinks, serve, page)
    {
      PageRead(serve, page);
      NoObjects<Item>();
      var payload := serve(page, nextUrl);
      requests := requests + [nextUrl];
      if !payload.Payload? || payload.field.NotAList? {
        NeverComplete(serve, valid, maxPages, maxItems, page);
        return Err(if payload.Payload? then BadCollection else BadReply), requests;
      }
      var pageItems := ObjectsOf(if payload.field.List? then payload.field.entries else []);
      if |items| + |pageItems| > maxItems {
        NeverComplete(serve, valid, maxPages, maxItems, page);
        return Err(TooManyItems), requests;
      }
      items := items + pageItems;
      var nextLink := ValidatedGraphNextLink(payload.next, split, path);
      if nextLink.Err? {
        ChainBreaks(serve, valid, page);
        NeverComplete(serve, valid, maxPages, maxItems, page);
        return Err(nextLink.error), requests;
      }
      if nextLink.value == None {
        ChainEnds(serve, valid, maxPages, maxItems, page);
        GraphChainEnds(serve, split, path, maxPages, maxItems, requests);
        return Ok(items), requests;
      }
      LinkGrows(serve, valid, page, seenLinks);
      if nextLink.value.value in seenLinks {
        NeverComplete(serve, valid, maxPages, maxItems, page);
        return Err(RepeatedToken), requests;
      }
      seenLinks := seenLinks + {nextLink.value.value};
      nextUrl := nextLink.value;
    }
    NeverComplete(serve, valid, maxPages, maxItems, maxPages);
    return Err(TooManyPages), requests;
  }

  // ---------------------------------------------------------------- an honest server

  /**
   * A server that cuts one fixed collection at increasing positions and names each cut by its
   * own valid continuation.
   */
  ghost predicate Honest<Item(!new)>(
    serve: Server<Item>, whole: seq<Item>, cuts: seq<nat>, names: seq<string>, valid: string -> bool)
  {
    && |cuts| == |names| + 2 && cuts[0] == 0 && cuts[|cuts| - 1] == |whole|
    && (forall j, k :: 0 <= j < k < |cuts| ==> cuts[j] <= cuts[k])
    && (forall j, k :: 0 <= j < k < |names| ==> names[j] != names[k])
    && (forall j :: 0 <= j < |names| ==> valid(names[j]))
    && (forall j: nat :: j <= |names| ==> AnswersCut(serve, whole, cuts, names, j))
  }

  function CutRequest(names: seq<string>, j: nat): Request
    requires j <= |names|
  {
    if j == 0 then None else Some(names[j - 1])
  }

  /** Asked for cut `j`, whenever that is, the server sends it and names the next. */
  ghost predicate AnswersCut<Item(!new)>(
    serve: Server<Item>, whole: seq<Item>, cuts: seq<nat>, names: seq<string>, j: nat)
    requires j <= |names| && |cuts| == |names| + 2 && cuts[j] <= cuts[j + 1] <= |whole|
  {
    forall k: nat ::
      Sends(serve(k, CutRequest(names, j)), whole[cuts[j]..cuts[j + 1]], if j == |names| then Absent else Text(names[j]))
  }

  predicate Sends<Item(==)>(reply: Reply<Item>, items: seq<Item>, next: Continuation) {
    Usable(reply) && Items(reply) == items && reply.next == next
  }

  lemma {:induction false} HonestPages<Item(!new)>(
    serve: Server<Item>, whole: seq<Item>, cuts: seq<nat>, names: seq<string>, valid: string -> bool, n: nat)
    requires Honest(serve, whole, cuts, names, valid) && n <= |names|
    ensures RequestAt(serve, n) == CutRequest(names, n)
    ensures Sends(ReplyAt(serve, n), whole[cuts[n]..cuts[n + 1]], if n == |names| then Absent else Text(names[n]))
  {
    hide Items, Concat;
    if n > 0 { HonestPages(serve, whole, cuts, names, valid, n - 1); }
    assert AnswersCut(serve, whole, cuts, names, n);
  }

  lemma {:induction false} HonestConcat<Item(!new)>(
    serve: Server<Item>, whole: seq<Item>, cuts: seq<nat>, names: seq<string>, valid: string -> bool, n: nat)
    requires Honest(serve, whole, cuts, names, valid) && n <= |names|
    ensures Concat(serve, n + 1) == whole[..cuts[n + 1]]
  {
    hide Items, ReplyAt, RequestAt;
    HonestPages(serve, whole, cuts, names, valid, n);
    assert Concat(serve, n + 1) == Concat(serve, n) + whole[cuts[n]..cuts[n + 1]];
    if n > 0 { HonestConcat(serve, whole, cuts, names, valid, n - 1); }
  }

  lemma HonestLinks<Item(!new)>(
    serve: Server<Item>, whole: seq<Item>, cuts: seq<nat>, names: seq<string>, valid: string -> bool)
    requires Honest(serve, whole, cuts, names, valid)
    ensures Linked(serve, valid, |names|)
    ensures Usable(ReplyAt(serve, |names|)) && ReplyAt(serve, |names|).next.Absent?
  {
    hide Items, Concat, ReplyAt, RequestAt;
    forall k: nat | k <= |names|
      ensures FollowUp(serve, k) == RequestAt(serve, k + 1)
      ensures RequestAt(serve, k) == CutRequest(names, k)
      ensures Usable(ReplyAt(serve, k)) && ReplyAt(serve, k).next == if k == |names| then Absent else Text(names[k])
    {
      HonestPages(serve, whole, cuts, names, valid, k);
    }
  }

  /** A chain whose first ending is behind `k` linked pages is complete at no other length. */
  lemma EndsOnlyThere<Item(!new)>(
    serve: Server<Item>, valid: string -> bool, maxPages: nat, maxItems: nat, k: nat, n: nat)
    requires Linked(serve, valid, k) && Usable(ReplyAt(serve, k)) && ReplyAt(serve, k).next.Absent?
    requires Complete(serve, valid, maxPages, maxItems, n)
    ensures n == k + 1
  {
  }

  /** An honest server's collection comes back whole, once and in order, exactly when it fits the limits. */
  lemma HonestCollectionIsWhole<Item(!new)>(
    serve: Server<Item>, whole: seq<Item>, cuts: seq<nat>, names: seq<string>, valid: string -> bool,
    maxPages: nat, maxItems: nat)
    requires Honest(serve, whole, cuts, names, valid)
    ensures |names| + 1 <= maxPages && |whole| <= maxItems <==> Collectable(serve, valid, maxPages, maxItems)
    ensures forall n :: Complete(serve, valid, maxPages, maxItems, n) ==> Concat(serve, n) == whole
  {
    hide Items, Concat, ReplyAt, RequestAt, Linked;
    var last := |names|;
    HonestLinks(serve, whole, cuts, names, valid);
    HonestConcat(serve, whole, cuts, names, valid, last);
    assert whole[..cuts[last + 1]] == whole;
    if last < maxPages && |whole| <= maxItems { ChainEnds(serve, valid, maxPages, maxItems, last); }
    forall n: nat | Complete(serve, valid, maxPages, maxItems, n) ensures n == last + 1 {
      EndsOnlyThere(serve, valid, maxPages, maxItems, last, n);
    }
  }
}
