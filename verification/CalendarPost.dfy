/**
 * The one bounded attempt to create a calendar event
 * (backend/src/job_apply_pro/integrations/provider_clients.py), under every schedule of
 * faults: authorization, connection, stream, size, deadline, and closing the response.
 */
module CalendarPost {
  import opened Prelude
  import opened Bytes

  const MAX_CALENDAR_CREATE_WIRE_BYTES := 65536
  const MAX_CALENDAR_RESPONSE_BYTES := 65536
  const CALENDAR_POST_TIMEOUT_SECONDS := 30.0

  datatype Provider = Google | Outlook | Unsupported

  datatype Outcome = Created(id: string) | NotApplied | Uncertain

  /** One raw chunk of the response body, or an error raised while reading it. */
  datatype Chunk = Data(bytes: seq<byte>) | Fault

  /**
   * What the surroundings do in one attempt.  `wireSize` is None when the payload cannot be
   * encoded; `clock(k)` is the k-th reading of the clock; `parse` is None when the body is not
   * a JSON object with a string id.
   */
  datatype Surroundings = Surroundings(
    nativeKey: (string, Provider) -> string,
    wireSize: string -> Option<nat>,
    token: Option<string>,
    clock: nat -> real,
    opens: bool,
    identityEncoding: bool,
    status: int,
    chunks: seq<Chunk>,
    parse: seq<byte> -> Option<string>,
    closes: bool)

  ghost predicate Monotone(clock: nat -> real) {
    forall j: nat, k: nat :: j <= k ==> clock(j) <= clock(k)
  }

  predicate Definite(status: int) { status in {400, 401, 403, 404, 413, 415, 422, 429} }

  function Expected(provider: Provider): int { if provider == Google then 200 else 201 }

  predicate Printable(token: string) { forall i :: 0 <= i < |token| ==> 33 as char <= token[i] <= 126 as char }

  predicate GoogleId(id: string) {
    5 <= |id| <= 500 && forall i :: 0 <= i < |id| ==> '0' <= id[i] <= '9' || 'a' <= id[i] <= 'v'
  }

  predicate OutlookCharacter(c: char) {
    '0' <= c <= '9' || 'a' <= c <= 'z' || 'A' <= c <= 'Z' || c in "_+/-"
  }

  /** At least one character of the alphabet, then at most two equals signs. */
  predicate OutlookId(id: string) {
    exists n :: 0 < n <= |id| && Tail(id[n..]) && forall i :: 0 <= i < n ==> OutlookCharacter(id[i])
  }

  predicate Tail(rest: string) { rest in {"", "=", "=="} }

  predicate ValidId(provider: Provider, id: string, native: string) {
    |id| <= 500 && if provider == Google then GoogleId(id) && id == native else OutlookId(id)
  }

  // ---------------------------------------------------------------- what an attempt amounts to

  function Body(chunks: seq<Chunk>): seq<byte> {
    if chunks == [] || chunks[|chunks| - 1].Fault? then []
    else Body(chunks[..|chunks| - 1]) + chunks[|chunks| - 1].bytes
  }

  predicate AllData(chunks: seq<Chunk>) { forall i :: 0 <= i < |chunks| ==> chunks[i].Data? }

  /** Everything needed to send the request is in order. */
  predicate Sendable(s: Surroundings, provider: Provider, key: Option<string>) {
    && !provider.Unsupported?
    && key.Some? && 8 <= |key.value| <= 200
    && s.wireSize(s.nativeKey(key.value, provider)).Some?
    && s.wireSize(s.nativeKey(key.value, provider)).value <= MAX_CALENDAR_CREATE_WIRE_BYTES
    && s.token.Some? && 1 <= |s.token.value| <= 16384 && Printable(s.token.value)
  }

  predicate OnTime(s: Surroundings, reading: nat) { s.clock(reading) < s.clock(0) + CALENDAR_POST_TIMEOUT_SECONDS }

  /** The response was a definite rejection, received and closed cleanly in time. */
  predicate Rejected(s: Surroundings) {
    s.opens && s.identityEncoding && Definite(s.status) && s.closes && OnTime(s, 2)
  }

  /** The response named the created event, was received whole and closed cleanly in time. */
  predicate Answered(s: Surroundings, provider: Provider, native: string) {
    && s.opens && s.identityEncoding && s.status == Expected(provider)
    && AllData(s.chunks) && |Body(s.chunks)| <= MAX_CALENDAR_RESPONSE_BYTES
    && s.parse(Body(s.chunks)).Some? && ValidId(provider, s.parse(Body(s.chunks)).value, native)
    && s.closes && OnTime(s, |s.chunks| + 3)
  }

  function Verdict(s: Surroundings, provider: Provider, key: Option<string>): Outcome {
    if !Sendable(s, provider, key) || Rejected(s) then NotApplied
    else if Answered(s, provider, s.nativeKey(key.value, provider)) then Created(s.parse(Body(s.chunks)).value)
    else Uncertain
  }

  // ---------------------------------------------------------------- what the verdict is worth

  /** A provider applies only what was sent, and not what it definitely rejects. */
  predicate Consistent(applied: bool, s: Surroundings, provider: Provider, key: Option<string>) {
    applied ==> Sendable(s, provider, key) && !(s.opens && Definite(s.status))
  }

  /** What an id must look like, read off character by character: padding only at the very end. */
  predicate Identifies(provider: Provider, id: string, native: string) {
    1 <= |id| <= 500 &&
    if provider == Google then
      id == native && 5 <= |id| && forall i :: 0 <= i < |id| ==> '0' <= id[i] <= '9' || 'a' <= id[i] <= 'v'
    else
      && id[0] != '='
      && (forall i :: 0 <= i < |id| ==>
            '0' <= id[i] <= '9' || 'a' <= id[i] <= 'z' || 'A' <= id[i] <= 'Z' || id[i] in "_+/-=")
      && (forall i :: 0 <= i < |id| && id[i] == '=' ==> |id| - 2 <= i && id[|id| - 1] == '=')
  }

  lemma PaddingEnds(id: string)
    requires OutlookId(id)
    ensures id[0] != '='
    ensures forall i :: 0 <= i < |id| ==> OutlookCharacter(id[i]) || id[i] == '='
    ensures forall i :: 0 <= i < |id| && id[i] == '=' ==> |id| - 2 <= i && id[|id| - 1] == '='
  {
    var n :| 0 < n <= |id| && Tail(id[n..]) && forall i :: 0 <= i < n ==> OutlookCharacter(id[i]);
    assert forall i :: n <= i < |id| ==> id[i] == id[n..][i - n];
    hide OutlookId;
  }

  lemma PaddedIsId(id: string)
    requires id != "" && id[0] != '='
    requires forall i :: 0 <= i < |id| ==> OutlookCharacter(id[i]) || id[i] == '='
    requires forall i :: 0 <= i < |id| && id[i] == '=' ==> |id| - 2 <= i && id[|id| - 1] == '='
    ensures OutlookId(id)
  {
    var n := if id[|id| - 1] != '=' then |id| else if id[|id| - 2] == '=' then |id| - 2 else |id| - 1;
    assert id[n..] == if n == |id| then "" else if n == |id| - 1 then "=" else "==";
  }

  lemma ValidIdExactly(provider: Provider, id: string, native: string)
    ensures ValidId(provider, id, native) <==> Identifies(provider, id, native)
  {
    assert OutlookId(id) ==> id != "";
    hide OutlookId;
    if OutlookId(id) { PaddingEnds(id); }
    if provider != Google && Identifies(provider, id, native) { PaddedIsId(id); }
  }

  /** The bytes of a stream without a fault are the bytes of its chunks, each once and in order. */
  lemma {:induction false} BodyJoins(chunks: seq<Chunk>, i: nat)
    requires AllData(chunks) && i < |chunks|
    ensures Body(chunks[..0]) == [] && Body(chunks[..i]) + chunks[i].bytes == Body(chunks[..i + 1]) <= Body(chunks)
    decreases |chunks|
  {
    assert chunks[..i + 1][..i] == chunks[..i];
    if i + 1 == |chunks| {
      assert chunks[..i + 1] == chunks;
    } else {
      var shorter := chunks[..|chunks| - 1];
      assert shorter[..i] == chunks[..i] && shorter[..i + 1] == chunks[..i + 1];
      BodyJoins(shorter, i);
    }
  }

  /** Losing the connection at any point after sending leaves the verdict uncertain. */
  lemma LostConnectionIsUncertain(s: Surroundings, provider: Provider, key: Option<string>)
    requires Sendable(s, provider, key) && Monotone(s.clock)
    requires !s.opens || !s.closes || !OnTime(s, 2)
    ensures Verdict(s, provider, key) == Uncertain
  {
    if s.opens && s.closes { assert s.clock(2) <= s.clock(|s.chunks| + 3); }
  }

  // ---------------------------------------------------------------- the attempt

  /** The body of the stream block, without closing it: the id, None for a rejection, or uncertain. */
  method ReadResponse(s: Surroundings, provider: Provider, native: string, deadline: real)
    returns (r: Result<Option<string>, ()>, readings: nat)
    requires Monotone(s.clock) && deadline == s.clock(0) + CALENDAR_POST_TIMEOUT_SECONDS && s.opens
    ensures r == Ok(None) ==> s.identityEncoding && Definite(s.status) && readings == 2
    ensures r.Ok? && r.value.Some? ==>
      && s.identityEncoding && s.status == Expected(provider) && AllData(s.chunks) && readings == |s.chunks| + 3
      && |Body(s.chunks)| <= MAX_CALENDAR_RESPONSE_BYTES && s.parse(Body(s.chunks)) == r.value
      && ValidId(provider, r.value.value, native)
    ensures r.Err? ==> !Rejected(s) && !Answered(s, provider, native)
  {
    var last := |s.chunks| + 3;
    if s.clock(1) >= deadline { assert s.clock(1) <= s.clock(last); return Err(()), 2; }
    if !s.identityEncoding { return Err(()), 2; }
    if Definite(s.status) { return Ok(None), 2; }
    if s.status != Expected(provider) { return Err(()), 2; }
    var body: seq<byte> := [];
    var i := 0;
    while i < |s.chunks|
      invariant 0 <= i <= |s.chunks| && AllData(s.chunks[..i]) && body == Body(s.chunks[..i])
      invariant |body| <= MAX_CALENDAR_RESPONSE_BYTES
    {
      assert s.chunks[..i + 1][..i] == s.chunks[..i];
      if s.chunks[i].Fault? { return Err(()), i + 2; }
      if |body| + |s.chunks[i].bytes| > MAX_CALENDAR_RESPONSE_BYTES || s.clock(i + 2) >= deadline {
        if AllData(s.chunks) { BodyGrows(s.chunks, i + 1); }
        assert s.clock(i + 2) <= s.clock(last);
        return Err(()), i + 3;
      }
      body := body + s.chunks[i].bytes;
      i := i + 1;
    }
    assert s.chunks[..|s.chunks|] == s.chunks;
    var value := s.parse(body);
    if value == None || !ValidId(provider, value.value, native) { return Err(()), |s.chunks| + 3; }
    if s.clock(|s.chunks| + 2) >= deadline { assert s.clock(|s.chunks| + 2) <= s.clock(last); return Err(()), |s.chunks| + 3; }
    return Ok(value), |s.chunks| + 3;
  }

  lemma {:induction false} BodyGrows(chunks: seq<Chunk>, n: nat)
    requires n <= |chunks| && AllData(chunks)
    ensures |Body(chunks[..n])| <= |Body(chunks)|
  {
    if n == |chunks| { assert chunks[..n] == chunks; }
    else {
      var shorter := chunks[..|chunks| - 1];
      assert shorter[..n] == chunks[..n];
      BodyGrows(shorter, n);
    }
  }

  /**
   * Exactly one of the three outcomes, and the one the surroundings amount to.  The request is
   * sent exactly when key, payload and token are in order; it counts as not applied exactly when
   * it was not sent or one of eight statuses came back cleanly and in time; and it counts as
   * created exactly when the whole body named a valid id within every limit, and under that id,
   * which on Google is the attempt's own key.  An applied create is never reported as not applied,
   * whatever a provider does that applies only what was sent and not rejected.
   */
  method CalendarPost(s: Surroundings, provider: Provider, key: Option<string>) returns (outcome: Outcome, sent: bool)
    requires Monotone(s.clock)
    ensures outcome == Verdict(s, provider, key)
    ensures sent <==>
      && provider in {Google, Outlook}
      && key.Some? && 8 <= |key.value| <= 200
      && s.wireSize(s.nativeKey(key.value, provider)).Some?
      && s.wireSize(s.nativeKey(key.value, provider)).value <= 65536
      && s.token.Some? && 1 <= |s.token.value| <= 16384
      && (forall i :: 0 <= i < |s.token.value| ==> 33 as char <= s.token.value[i] <= 126 as char)
    ensures outcome == NotApplied <==>
      || !sent
      || (&& s.opens && s.identityEncoding && s.closes
          && s.status in {400, 401, 403, 404, 413, 415, 422, 429}
          && s.clock(2) < s.clock(0) + 30.0)
    ensures outcome.Created? <==>
      && sent && s.opens && s.identityEncoding && s.closes
      && s.status == (if provider == Google then 200 else 201)
      && (forall i :: 0 <= i < |s.chunks| ==> s.chunks[i].Data?)
      && |Body(s.chunks)| <= 65536 && s.clock(|s.chunks| + 3) < s.clock(0) + 30.0
      && s.parse(Body(s.chunks)).Some?
      && Identifies(provider, s.parse(Body(s.chunks)).value, s.nativeKey(key.value, provider))
    ensures outcome.Created? ==> s.parse(Body(s.chunks)) == Some(outcome.id)
    ensures outcome.Created? ==> forall reading: nat :: reading <= |s.chunks| + 3 ==> s.clock(reading) < s.clock(0) + 30.0
    ensures sent && !(s.opens && s.status in {400, 401, 403, 404, 413, 415, 422, 429}) ==> outcome != NotApplied
  {
    sent := false;
    hide ValidId, Identifies, Body;
    if key.Some? && s.parse(Body(s.chunks)).Some? {
      ValidIdExactly(provider, s.parse(Body(s.chunks)).value, s.nativeKey(key.value, provider));
    }
    if provider.Unsupported? { return NotApplied, sent; }
    if key == None || !(8 <= |key.value| <= 200) { return NotApplied, sent; }
    var native := s.nativeKey(key.value, provider);
    var encoded := s.wireSize(native);
    if encoded == None || encoded.value > MAX_CALENDAR_CREATE_WIRE_BYTES { return NotApplied, sent; }
    if s.token == None || !(1 <= |s.token.value| <= 16384) || !Printable(s.token.value) { return NotApplied, sent; }
    var deadline := s.clock(0) + CALENDAR_POST_TIMEOUT_SECONDS;
    sent := true;
    if !s.opens { return Uncertain, sent; }
    var result, readings := ReadResponse(s, provider, native, deadline);
    if result.Err? || !s.closes { return Uncertain, sent; }
    if s.clock(readings) >= deadline { return Uncertain, sent; }
    if result.value == None { return NotApplied, sent; }
    return Created(result.value.value), sent;
  }
}
