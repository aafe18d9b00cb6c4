/**
 * One invocation of the Gemini adapter as the source runs it: a work budget, the journal's
 * table, and a trace of everything that happened
 * (backend/src/job_apply_pro/ai/providers.py, backend/src/job_apply_pro/services/media_cleanup.py).
 */
module GeminiInvocation {
  import opened Prelude
  import opened GeminiMedia

  datatype Part = TextPart | ImageUrlPart | MediaPart(size: nat, mimeType: string)

  datatype Request = Request(parts: seq<Part>, consent: bool, modelIsValid: bool, durableStorage: bool, timeout: real)

  function MediaParts(parts: seq<Part>): nat {
    if parts == [] then 0
    else MediaParts(parts[..|parts| - 1]) + if parts[|parts| - 1].MediaPart? then 1 else 0
  }

  /** No part is an image address, and every media part is of an admitted size. */
  predicate Admitted(parts: seq<Part>) {
    forall i :: 0 <= i < |parts| ==> !parts[i].ImageUrlPart? && (parts[i].MediaPart? ==> 1 <= parts[i].size <= 5_242_880)
  }

  /** A request that nothing speaks against, with media of one type. */
  predicate Sound(request: Request, mimeType: string) {
    && request.modelIsValid && Admitted(request.parts)
    && (MediaParts(request.parts) > 0 ==> request.consent && request.durableStorage)
    && forall i :: 0 <= i < |request.parts| && request.parts[i].MediaPart? ==> request.parts[i].mimeType == mimeType
  }

  lemma NothingAdmitted()
    ensures Admitted([])
  {
  }

  lemma NotUploadable(request: Request, part: Part)
    ensures Uploadable(request, part) ==> part.MediaPart?
  {
  }

  lemma AdmittedSnoc(parts: seq<Part>, i: nat)
    requires i < |parts|
    ensures Admitted(parts[..i + 1]) <==>
      Admitted(parts[..i]) && !parts[i].ImageUrlPart? && (parts[i].MediaPart? ==> 1 <= parts[i].size <= 5_242_880)
  {
    assert parts[..i + 1] == parts[..i] + [parts[i]];
  }

  lemma SoundPart(request: Request, mimeType: string, i: nat)
    requires i < |request.parts| && Sound(request, mimeType)
    ensures !request.parts[i].ImageUrlPart?
    ensures request.parts[i].MediaPart? ==>
      && request.parts[i].mimeType == mimeType && 1 <= request.parts[i].size <= 5_242_880
      && request.consent && request.durableStorage
  {
    if request.parts[i].MediaPart? { HasMedia(request.parts, i); }
  }

  /** The entries of a table all have a name. */
  predicate AllNamed(resources: seq<Resource>) { forall i :: 0 <= i < |resources| ==> resources[i].name.Some? }

  lemma {:induction false} HasMedia(parts: seq<Part>, i: nat)
    requires i < |parts| && parts[i].MediaPart?
    ensures MediaParts(parts) > 0
  {
    if i < |parts| - 1 { HasMedia(parts[..|parts| - 1], i); }
  }

  /** A media part that gets as far as its first journal call. */
  predicate Uploadable(request: Request, part: Part) {
    part.MediaPart? && 0 < part.size <= MAX_MEDIA_BYTES && request.consent && request.durableStorage
  }

  /** The journal opens for the first part and then cannot renew its records. */
  predicate FirstRenewalFails(s: Surroundings, steps: nat, request: Request) {
    && |request.parts| > 0 && Uploadable(request, request.parts[0])
    && s.journal(steps) == None && s.journal(steps + 1).Some?
  }

  /** A record is begun for the first part in time, and then no client can be made for its upload. */
  predicate FirstClientFails(s: Surroundings, clockReads: nat, steps: nat, deadline: real, request: Request) {
    && |request.parts| > 0 && Uploadable(request, request.parts[0])
    && s.journal(steps) == None && s.journal(steps + 1) == None && s.journal(steps + 2) == None
    && s.clock(clockReads) < deadline && s.clock(clockReads + 1) < deadline
    && s.step(steps + 3).Some?
  }

  class Invocation {
    const s: Surroundings
    var deadline: real
    var cleanupDeadline: real
    var clockReads: nat
    var steps: nat
    var gets: nat
    var journalOpen: bool
    var begun: nat
    var resources: seq<Resource>
    var trace: seq<Event>

    constructor (s: Surroundings)
      ensures this.s == s && Valid() && Working() && begun == 0 && trace == [] && !journalOpen
      ensures steps == 0 && clockReads == 0
    {
      this.s := s;
      deadline, cleanupDeadline, clockReads, steps, gets, journalOpen, begun := 0.0, 0.0, 0, 0, 0, false, 0;
      resources, trace := [], [];
    }

    ghost predicate Valid()
      reads this
    {
      && AllBounded(trace, deadline, cleanupDeadline)
      && gets == Polls(trace) && gets <= MAX_PROCESSING_GETS
      && RegisteredFirst(trace) && SentFirst(trace)
      && OnlyRecords(trace, begun)
      && TableOk(resources, trace, begun)
      && (!journalOpen ==> begun == 0)
    }

    /** The invocation is still before its cleanup. */
    ghost predicate Working()
      reads this
    {
      StillWorking(trace) && Cleanups(trace) == 0
    }

    // -------------------------------------------------------------- small steps

    method ReadClock() returns (now: real)
      modifies this`clockReads
      ensures now == s.clock(old(clockReads)) && clockReads == old(clockReads) + 1
      ensures InTime(s, cleanupDeadline) ==> now < cleanupDeadline
    {
      now := s.clock(clockReads);
      clockReads := clockReads + 1;
    }

    /** The time left until the deadline, with the clock reading it was taken at. */
    method RemainingWork() returns (r: Result<(real, real), Error>)
      modifies this`clockReads
      ensures clockReads == old(clockReads) + 1
      ensures r == if s.clock(old(clockReads)) < deadline
                   then Ok((s.clock(old(clockReads)), deadline - s.clock(old(clockReads)))) else Err(Plain)
      ensures InTime(s, deadline) ==> r.Ok?
    {
      var now := ReadClock();
      var remaining := deadline - now;
      if remaining <= 0.0 { return Err(Plain); }
      return Ok((now, remaining));
    }

    method JournalCall() returns (fault: Option<Error>)
      modifies this`steps
      ensures fault == s.journal(old(steps)) && steps == old(steps) + 1
      ensures Smooth(s) ==> fault == None
    {
      fault := s.journal(steps);
      steps := steps + 1;
    }

    method NetworkStep() returns (r: Result<Metadata, Error>)
      modifies this`steps
      ensures steps == old(steps) + 1
      ensures r == if s.step(old(steps)).Some? then Err(s.step(old(steps)).value) else Ok(s.reply(old(steps)))
      ensures Smooth(s) ==> r.Ok? && ActiveAtOnce(r.value, TypeOf(s))
    {
      var fault := s.step(steps);
      r := if fault.Some? then Err(fault.value) else Ok(s.reply(steps));
      steps := steps + 1;
    }

    /** Appends an event that keeps every rule of the trace. */
    method Log(e: Event)
      requires Valid() && Bounded(e, deadline, cleanupDeadline) && !e.Polled?
      requires RecordOf(e).Some? ==> RecordOf(e).value < begun
      requires e.Inspected? ==> NameRegistered(trace, e.name)
      requires e.Registered? ==> IsTransferred(trace, e.record)
      modifies this`trace
      ensures Valid() && trace == old(trace) + [e]
      ensures old(Working()) && !e.CleanupBegan? && !e.DeleteRequested? ==> Working()
      ensures Cleanups(trace) == old(Cleanups(trace)) + if e.CleanupBegan? then 1 else 0
    {
      hide AllBounded, Polls, Cleanups, RegisteredFirst, SentFirst, TableOk, Smooth, InTime;
      BoundedGrows(trace, e, deadline, cleanupDeadline);
      RegisteredFirstGrows(trace, e);
      SentFirstGrows(trace, e);
      CountsGrow(trace, e);
      TableGrows(resources, trace, begun, e);
      trace := trace + [e];
    }

    // -------------------------------------------------------------- the journal

    /** A record for the media about to be sent, held by the journal without a name. */
    method Begin() returns (r: Result<nat, Error>)
      requires Valid() && Working() && journalOpen && Settled(trace, begun)
      modifies this`steps, this`begun, this`resources, this`trace
      ensures Valid() && Working() && old(trace) <= trace
      ensures steps == old(steps) + 1 && (r.Err? <==> s.journal(old(steps)).Some?)
      ensures r.Err? ==> begun == old(begun) && Settled(trace, begun)
      ensures r.Ok? ==> resources == old(resources) + [Resource(r.value, None)]
      ensures Smooth(s) ==> r.Ok?
      ensures r.Ok? ==>
        && r.value == old(begun) && begun == r.value + 1 && Settled(trace, r.value)
        && !IsTransferred(trace, r.value) && !IsStopped(trace, r.value) && !IsAbandoned(trace, r.value)
        && |resources| > 0 && resources[|resources| - 1] == Resource(r.value, None)
    {
      hide AllBounded, Polls, Cleanups, RegisteredFirst, SentFirst, TableOk, Settled, StillWorking, Smooth, InTime;
      var fault := JournalCall();
      if fault.Some? { return Err(fault.value); }
      var record := begun;
      SettledGrows(trace, Began(record), begun);
      BeginTable(resources, trace, begun);
      begun := begun + 1;
      resources := resources + [Resource(record, None)];
      Log(Began(record));
      return Ok(record);
    }

    /**
     * A record whose upload ended by an exception the handlers catch, before its bytes were sent,
     * leaves the journal, unless the journal fails to close it.
     */
    method AbandonBeforeUpload(record: nat, error: Error) returns (fault: Option<Error>)
      requires Valid() && Working() && journalOpen && begun == record + 1 && Settled(trace, record) && Caught(error)
      requires !IsTransferred(trace, record) && !IsStopped(trace, record) && !IsAbandoned(trace, record)
      requires |resources| > 0 && resources[|resources| - 1].record == record
      modifies this`steps, this`resources, this`trace
      ensures Valid() && Working() && Settled(trace, begun)
      ensures trace == old(trace) + [Stopped(record, error), Abandoned(record, fault == None)]
      ensures resources == if fault == None then old(resources[..|resources| - 1]) else old(resources)
    {
      hide AllBounded, Polls, Cleanups, RegisteredFirst, SentFirst, StillWorking, Settled, Smooth, InTime;
      hide IsTransferred, IsStopped, IsAbandoned, TableOk;
      Log(Stopped(record, error));
      fault := JournalCall();
      SettledAbandoned(old(trace), record, error, fault == None);
      Log(Abandoned(record, fault == None));
      assert trace == old(trace) + [Stopped(record, error), Abandoned(record, fault == None)];
      if fault.Some? { return fault; }
      AbandonTable(resources, trace, begun);
      resources := resources[..|resources| - 1];
    }

    /** The name is kept for cleanup even when the journal then fails to store it. */
    method Register(record: nat, name: string) returns (fault: Option<Error>)
      requires Valid() && Working() && journalOpen && begun == record + 1 && Settled(trace, begun)
      requires |resources| > 0 && resources[|resources| - 1].record == record && IsTransferred(trace, record)
      modifies this`steps, this`resources, this`trace
      ensures Valid() && Working() && Settled(trace, begun) && old(trace) <= trace
      ensures IsRegistered(trace, record) && NameRegistered(trace, name)
      ensures resources == old(resources)[..|old(resources)| - 1] + [Resource(record, Some(name))]
      ensures Smooth(s) ==> fault == None
    {
      hide AllBounded, Polls, Cleanups, RegisteredFirst, SentFirst, TableOk, StillWorking, Settled, IsTransferred, Smooth, InTime;
      SettledGrows(trace, Registered(record, name), begun);
      Log(Registered(record, name));
      assert Registered(record, name) in trace;
      RegisterTable(resources, trace, begun, record, name);
      resources := resources[|resources| - 1 := Resource(record, Some(name))];
      fault := JournalCall();
    }

    // -------------------------------------------------------------- sending

    /** The start request, up to the point where the bytes may be sent; yields the time left for that. */
    method StartUpload() returns (r: Result<(real, real), Error>)
      requires Valid() && Working() && journalOpen
      modifies this`clockReads, this`steps, this`trace
      ensures Valid() && Working() && Quiet(old(trace), trace)
      ensures r.Ok? ==> 0.0 < r.value.1 && r.value.0 + r.value.1 <= deadline
      ensures Smooth(s) && InTime(s, deadline) ==> r.Ok?
    {
      hide AllBounded, Polls, Cleanups, RegisteredFirst, SentFirst, TableOk, OnlyRecords, StillWorking, Smooth, InTime;
      var forRequest := RemainingWork();
      if forRequest.Err? { return Err(forRequest.error); }
      Log(Requested(forRequest.value.0, forRequest.value.1));
      var started := NetworkStep();
      if started.Err? { return Err(started.error); }
      var fault := JournalCall();
      if fault.Some? { return Err(fault.value); }
      r := RemainingWork();
    }

    /**
     * Start and send, inside a client that is closed behind them; whether sending began says who
     * must account for the record.
     */
    method SendMedia(record: nat) returns (r: Result<Metadata, Error>, transferStarted: bool)
      requires Valid() && Working() && journalOpen && begun == record + 1 && Settled(trace, record)
      requires !IsTransferred(trace, record) && !IsStopped(trace, record) && !IsAbandoned(trace, record)
      modifies this`clockReads, this`steps, this`trace
      ensures Valid() && Working() && old(trace) <= trace
      ensures Settled(trace, record) && !IsStopped(trace, record) && !IsAbandoned(trace, record)
      ensures transferStarted <==> IsTransferred(trace, record)
      ensures r.Ok? ==> transferStarted
      ensures s.clock(old(clockReads)) < deadline && s.step(old(steps)).Some? ==>
        r == Err(s.step(old(steps)).value) && !transferStarted && trace == old(trace)
      ensures Smooth(s) && InTime(s, deadline) ==>
        r.Ok? && ActiveAtOnce(r.value, TypeOf(s))
      ensures transferStarted ==> steps > 0
      ensures transferStarted && r.Err? && s.step(steps - 1) == None && (Caught(r.error) || r.error.Nesting?) ==>
        r.error == Retention
    {
      hide AllBounded, Polls, Cleanups, RegisteredFirst, SentFirst, TableOk, OnlyRecords, StillWorking, Settled, Smooth, InTime;
      hide IsTransferred, IsStopped, IsAbandoned, Caught;
      transferStarted := false;
      var forClient := RemainingWork();
      if forClient.Err? { return Err(forClient.error), false; }
      var client := NetworkStep();
      if client.Err? { return Err(client.error), false; }
      ghost var unsent := trace;
      var start := StartUpload();
      QuietKeeps(unsent, trace, record);
      if start.Err? {
        r := Err(start.error);
      } else {
        transferStarted := true;
        SendingKeeps(trace, record, start.value.0, start.value.1);
        Log(Transferred(record, start.value.0, start.value.1));
        r := NetworkStep();
        // Once sending began, the file may exist under a name that is not known.
        if r.Err? && (Caught(r.error) || r.error.Nesting?) { r := Err(Retention); }
      }
      var closing := NetworkStep();
      if closing.Err? { r := Err(closing.error); }
    }

    // -------------------------------------------------------------- waiting

    method GetMedia(name: string) returns (r: Result<Metadata, Error>)
      requires Valid() && Working() && journalOpen && Settled(trace, begun)
      requires gets < MAX_PROCESSING_GETS && NameRegistered(trace, name)
      modifies this`clockReads, this`steps, this`gets, this`trace
      ensures Valid() && Working() && Settled(trace, begun) && old(trace) <= trace
      ensures gets <= old(gets) + 1 && LooksOnlyAt(trace, |old(trace)|, name)
      ensures r.Ok? ==> gets == old(gets) + 1 && steps > 0 && r.value == s.reply(steps - 1)
    {
      hide AllBounded, Polls, Cleanups, RegisteredFirst, SentFirst, TableOk, Settled, Smooth, InTime;
      var forClient := RemainingWork();
      if forClient.Err? { return Err(forClient.error); }
      var client := NetworkStep();
      if client.Err? { return Err(ReraisedNested(client.error)); }
      var forRequest := RemainingWork();
      if forRequest.Err? { return Err(forRequest.error); }
      var e := Polled(name, forRequest.value.0, forRequest.value.1);
      BoundedGrows(trace, e, deadline, cleanupDeadline);
      RegisteredFirstGrows(trace, e);
      SentFirstGrows(trace, e);
      CountsGrow(trace, e);
      TableGrows(resources, trace, begun, e);
      SettledGrows(trace, e, begun);
      gets := gets + 1;
      trace := trace + [e];
      var reply := NetworkStep();
      return if reply.Ok? then reply else Err(ReraisedNested(reply.error));
    }

    /** The file's address once it is active, None while it is being processed. */
    method ValidatedMediaUri(file: Metadata, name: string, mimeType: string) returns (r: Result<Option<string>, Error>)
      requires Valid() && Working() && Settled(trace, begun) && NameRegistered(trace, name)
      modifies this`trace
      ensures Valid() && Working() && Settled(trace, begun) && trace == old(trace) + [Inspected(name)]
      ensures r == Ok(None) <==> file.name == Some(name) && file.mimeType == mimeType && file.state.Processing?
      ensures (exists uri :: r == Ok(Some(uri))) <==> Usable(file, name, mimeType)
      ensures Usable(file, name, mimeType) ==> r == Ok(file.uri)
      ensures r.Err? ==> r.error == Plain
    {
      SettledGrows(trace, Inspected(name), begun);
      Log(Inspected(name));
      if file.name != Some(name) || file.mimeType != mimeType { return Err(Plain); }
      if file.state.Processing? { return Ok(None); }
      if file.state.Failed? { return Err(Plain); }
      if file.uri == None || !file.state.Active? { return Err(Plain); }
      if !file.trusted { return Err(Plain); }
      return Ok(file.uri);
    }

    /** One pause between two looks at a file that is still being processed. */
    method Pause() returns (fault: Option<Error>)
      requires Valid() && Working() && Settled(trace, begun)
      modifies this`clockReads, this`steps, this`trace
      ensures Valid() && Working() && Settled(trace, begun) && old(trace) <= trace
      ensures forall i :: |old(trace)| <= i < |trace| ==> trace[i].Slept?
    {
      hide AllBounded, Polls, Cleanups, RegisteredFirst, SentFirst, TableOk, OnlyRecords, StillWorking, Settled, Smooth, InTime;
      fault := JournalCall();
      if fault.Some? { return fault; }
      var remaining := RemainingWork();
      if remaining.Err? { return Some(remaining.error); }
      var nap := if remaining.value.1 < PROCESSING_POLL_SECONDS then remaining.value.1 else PROCESSING_POLL_SECONDS;
      SettledGrows(trace, Slept(remaining.value.0, nap), begun);
      Log(Slept(remaining.value.0, nap));
      fault := JournalCall();
      if fault.Some? { return fault; }
      var again := RemainingWork();
      if again.Err? { return Some(again.error); }
      fault := JournalCall();
    }

    /** Polls the registered file within the one budget of the invocation until it is active. */
    method AwaitActiveMedia(first: Metadata, name: string, mimeType: string) returns (r: Result<string, Error>)
      requires Valid() && Working() && journalOpen && Settled(trace, begun) && NameRegistered(trace, name)
      modifies this`clockReads, this`steps, this`gets, this`trace
      ensures Valid() && Working() && Settled(trace, begun) && old(trace) <= trace
      ensures LooksOnlyAt(trace, |old(trace)|, name)
      ensures r.Ok? ==>
        && Inspected(name) in trace
        && ((Usable(first, name, mimeType) && first.uri == Some(r.value))
            || exists k: nat :: Usable(s.reply(k), name, mimeType) && s.reply(k).uri == Some(r.value))
      ensures Usable(first, name, mimeType) && InTime(s, deadline) ==> r.Ok?
    {
      hide AllBounded, Polls, Cleanups, RegisteredFirst, SentFirst, TableOk, OnlyRecords, StillWorking, Settled;
      hide NameRegistered, Smooth, InTime, Usable;
      var file := first;
      while true
        invariant Valid() && Working() && Settled(trace, begun) && old(trace) <= trace
        invariant LooksOnlyAt(trace, |old(trace)|, name) && NameRegistered(trace, name) && gets <= MAX_PROCESSING_GETS
        invariant file == first || exists k: nat :: file == s.reply(k)
        invariant Usable(first, name, mimeType) ==> file == first
        decreases MAX_PROCESSING_GETS - gets
      {
        var remaining := RemainingWork();
        if remaining.Err? { return Err(remaining.error); }
        var uri := ValidatedMediaUri(file, name, mimeType);
        if uri.Err? { return Err(uri.error); }
        if uri.value.Some? { return Ok(uri.value.value); }
        if gets >= MAX_PROCESSING_GETS { return Err(Plain); }
        var fault := Pause();
        if fault.Some? { return Err(fault.value); }
        StaysRegistered(old(trace), trace, name);
        var got := GetMedia(name);
        StaysRegistered(old(trace), trace, name);
        var renewed := JournalCall();
        if renewed.Some? { return Err(renewed.value); }
        if got.Err? { return Err(got.error); }
        file := got.value;
      }
    }

    // -------------------------------------------------------------- one media part

    /** What becomes of a record whose upload ended by `error` before its bytes were sent. */
    method GiveUp(record: nat, error: Error) returns (raised: Error)
      requires Valid() && Working() && journalOpen && begun == record + 1 && Settled(trace, record)
      requires !IsTransferred(trace, record) && !IsStopped(trace, record) && !IsAbandoned(trace, record)
      requires |resources| > 0 && resources[|resources| - 1].record == record
      modifies this`steps, this`resources, this`trace
      ensures Valid() && Working() && Settled(trace, begun) && old(trace) <= trace
      ensures Stopped(record, error) in trace
    {
      hide AllBounded, Polls, Cleanups, RegisteredFirst, SentFirst, TableOk, OnlyRecords, StillWorking, Settled, Smooth, InTime;
      hide IsTransferred, IsStopped, IsAbandoned, Caught;
      if Caught(error) {
        var unclosed := AbandonBeforeUpload(record, error);
        assert Stopped(record, error) in trace;
        return if unclosed.Some? then unclosed.value else Reraised(error);
      }
      SettledStranded(trace, record, error);
      Log(Stopped(record, error));
      return error;
    }

    /** The file that was sent is registered under its name, and only then looked at. */
    method Adopt(record: nat, file: Metadata, mimeType: string) returns (r: Result<string, Error>)
      requires Valid() && Working() && journalOpen && begun == record + 1 && Settled(trace, begun)
      requires |resources| > 0 && resources[|resources| - 1].record == record && IsTransferred(trace, record)
      modifies this`clockReads, this`steps, this`gets, this`resources, this`trace
      ensures Valid() && Working() && Settled(trace, begun) && old(trace) <= trace
      ensures r.Ok? ==> IsRegistered(trace, record)
      ensures r.Ok? && AllNamed(old(resources)[..|old(resources)| - 1]) ==> AllNamed(resources)
      ensures file.name == None ==> r == Err(Retention)
      ensures Smooth(s) && InTime(s, deadline) && ActiveAtOnce(file, mimeType) ==> r.Ok?
    {
      hide AllBounded, Polls, Cleanups, RegisteredFirst, SentFirst, TableOk, OnlyRecords, StillWorking, Settled;
      hide NameRegistered, IsRegistered, IsTransferred, Smooth, InTime;
      if file.name == None { return Err(Retention); }
      var unregistered := Register(record, file.name.value);
      if unregistered.Some? { return Err(unregistered.value); }
      ghost var registered := trace;
      r := AwaitActiveMedia(file, file.name.value, mimeType);
      RegisteredStays(registered, trace, record);
    }

    /** A record is begun, its bytes sent, its name registered, and only then looked at. */
    method UploadMedia(size: nat, mimeType: string) returns (r: Result<string, Error>)
      requires Valid() && Working() && journalOpen && Settled(trace, begun)
      modifies this`clockReads, this`steps, this`gets, this`begun, this`resources, this`trace
      ensures Valid() && Working() && Settled(trace, begun) && old(trace) <= trace
      ensures r.Ok? ==> begun == old(begun) + 1 && IsRegistered(trace, old(begun)) && 1 <= size <= 5_242_880
      ensures r.Ok? && AllNamed(old(resources)) ==> AllNamed(resources)
      ensures Smooth(s) && mimeType == TypeOf(s) && InTime(s, deadline) && 1 <= size <= 5_242_880 ==> r.Ok?
      ensures 0 < size <= MAX_MEDIA_BYTES && s.journal(old(steps)).Some? ==> r == Err(s.journal(old(steps)).value)
      ensures
        && 0 < size <= MAX_MEDIA_BYTES && s.journal(old(steps)) == None && s.journal(old(steps) + 1) == None
        && s.clock(old(clockReads)) < deadline && s.clock(old(clockReads) + 1) < deadline
        && s.step(old(steps) + 2).Some? ==>
          r.Err? && begun == old(begun) + 1 && Stopped(old(begun), s.step(old(steps) + 2).value) in trace
    {
      hide AllBounded, Polls, Cleanups, RegisteredFirst, SentFirst, TableOk, OnlyRecords, StillWorking, Settled, Smooth, InTime;
      hide NameRegistered, IsRegistered, IsTransferred, IsStopped, IsAbandoned, Caught;
      if size == 0 || size > MAX_MEDIA_BYTES { return Err(Plain); }
      var fault := JournalCall();
      if fault.Some? { return Err(fault.value); }
      var remaining := RemainingWork();
      if remaining.Err? { return Err(remaining.error); }
      var record := Begin();
      if record.Err? { return Err(record.error); }
      var sent, transferStarted := SendMedia(record.value);
      if sent.Err? && !transferStarted {
        var raised := GiveUp(record.value, sent.error);
        return Err(raised);
      }
      SettledSent(trace, record.value);
      if sent.Err? { return Err(Reraised(sent.error)); }
      r := Adopt(record.value, sent.value, mimeType);
    }

    // -------------------------------------------------------------- the whole invocation

    /** The request of the interaction, and its response as a document. */
    method Post() returns (r: Result<(), Error>)
      requires Valid() && Working() && Settled(trace, begun)
      modifies this`clockReads, this`steps, this`trace
      ensures Valid() && Working() && Settled(trace, begun) && old(trace) <= trace
      ensures Smooth(s) && InTime(s, deadline) ==> r.Ok?
    {
      hide AllBounded, Polls, Cleanups, RegisteredFirst, SentFirst, TableOk, OnlyRecords, StillWorking, Settled, Smooth, InTime;
      var forClient := RemainingWork();
      if forClient.Err? { return Err(forClient.error); }
      var client := NetworkStep();
      if client.Err? { return Err(Reraised(client.error)); }
      var forRequest := RemainingWork();
      if forRequest.Err? { return Err(forRequest.error); }
      SettledGrows(trace, Requested(forRequest.value.0, forRequest.value.1), begun);
      Log(Requested(forRequest.value.0, forRequest.value.1));
      var posted := NetworkStep();
      if posted.Err? { return Err(Reraised(posted.error)); }
      var parsed := NetworkStep();
      if parsed.Err? { return Err(if parsed.error.Nesting? then Plain else Reraised(parsed.error)); }
      return Ok(());
    }

    /** The interaction itself, once every part is in place. */
    method Interact() returns (r: Result<(), Error>)
      requires Valid() && Working() && Settled(trace, begun)
      modifies this`clockReads, this`steps, this`trace
      ensures Valid() && Working() && Settled(trace, begun) && old(trace) <= trace
      ensures Smooth(s) && InTime(s, deadline) ==> r.Ok?
    {
      hide AllBounded, Polls, Cleanups, RegisteredFirst, SentFirst, TableOk, OnlyRecords, StillWorking, Settled, Smooth, InTime;
      if journalOpen {
        var fault := JournalCall();
        if fault.Some? { return Err(fault.value); }
      }
      r := Post();
      if r.Err? { return r; }
      if journalOpen {
        var fault := JournalCall();
        if fault.Some? { return Err(fault.value); }
      }
      var inTime := RemainingWork();
      if inTime.Err? { return Err(inTime.error); }
      var understood := NetworkStep();
      if understood.Err? { return Err(understood.error); }
      inTime := RemainingWork();
      if inTime.Err? { return Err(inTime.error); }
      return Ok(());
    }

    /** The journal is opened with the first media part, and the part is uploaded. */
    method OpenAndUpload(request: Request, size: nat, mimeType: string) returns (r: Result<(), Error>)
      requires Valid() && Working() && Settled(trace, begun)
      modifies this
      ensures deadline == old(deadline)
      ensures Valid() && Working() && Settled(trace, begun) && old(trace) <= trace
      ensures r.Ok? ==> begun == old(begun) + 1 && IsRegistered(trace, old(begun)) && 1 <= size <= 5_242_880
      ensures r.Ok? && AllNamed(old(resources)) ==> AllNamed(resources)
      ensures journalOpen ==> old(journalOpen) || (request.consent && request.durableStorage)
      ensures Smooth(s) && InTime(s, deadline) && request.consent && request.durableStorage && mimeType == TypeOf(s)
              && 1 <= size <= 5_242_880
              ==> r.Ok?
      ensures !old(journalOpen) && Uploadable(request, MediaPart(size, mimeType))
              && s.journal(old(steps)) == None && s.journal(old(steps) + 1).Some? ==>
        journalOpen && r == Err(s.journal(old(steps) + 1).value)
      ensures !old(journalOpen) && Uploadable(request, MediaPart(size, mimeType))
              && s.journal(old(steps)) == None && s.journal(old(steps) + 1) == None && s.journal(old(steps) + 2) == None
              && s.clock(old(clockReads)) < deadline && s.clock(old(clockReads) + 1) < deadline
              && s.step(old(steps) + 3).Some? ==>
        r.Err? && journalOpen && begun == old(begun) + 1 && Stopped(old(begun), s.step(old(steps) + 3).value) in trace
    {
      hide AllBounded, Polls, Cleanups, RegisteredFirst, SentFirst, TableOk, OnlyRecords, StillWorking, Settled;
      hide IsRegistered, AllNamed, Smooth, InTime;
      if !request.consent { return Err(Plain); }
      if !journalOpen {
        if !request.durableStorage { return Err(Retention); }
        var fault := JournalCall();
        if fault.Some? { return Err(fault.value); }
        journalOpen := true;
      }
      var uri := UploadMedia(size, mimeType);
      r := if uri.Err? then Err(uri.error) else Ok(());
    }

    /** Every media part is uploaded in turn. */
    method UploadParts(request: Request) returns (r: Result<(), Error>)
      requires Valid() && Working() && begun == 0 && !journalOpen
      modifies this
      ensures deadline == old(deadline)
      ensures Valid() && Working() && Settled(trace, begun)
      ensures r.Ok? ==> begun == MediaParts(request.parts) && AllRegistered(trace, begun) && Admitted(request.parts)
      ensures r.Ok? && AllNamed(old(resources)) ==> AllNamed(resources)
      ensures journalOpen ==> request.consent && request.durableStorage
      ensures Smooth(s) && InTime(s, deadline) && Sound(request, TypeOf(s)) ==> r.Ok?
      ensures FirstRenewalFails(s, old(steps), request) ==> journalOpen && r == Err(s.journal(old(steps) + 1).value)
      ensures FirstClientFails(s, old(clockReads), old(steps), deadline, request) ==>
        journalOpen && begun == 1 && Stopped(0, s.step(old(steps) + 3).value) in trace
    {
      hide AllBounded, Polls, Cleanups, RegisteredFirst, SentFirst, TableOk, OnlyRecords, StillWorking, SettledOne;
      hide IsRegistered, AllNamed, Smooth, InTime, Sound, Admitted, Uploadable;
      var i := 0;
      NothingAdmitted();
      while i < |request.parts|
        invariant 0 <= i <= |request.parts| && deadline == old(deadline)
        invariant Valid() && Working() && Settled(trace, begun)
        invariant begun == MediaParts(request.parts[..i]) && AllRegistered(trace, begun) && Admitted(request.parts[..i])
        invariant (AllNamed(old(resources)) ==> AllNamed(resources)) && (journalOpen ==> request.consent && request.durableStorage)
        invariant i == 0 ==> !journalOpen && steps == old(steps) && clockReads == old(clockReads)
        invariant i > 0 ==>
          && !FirstRenewalFails(s, old(steps), request)
          && !FirstClientFails(s, old(clockReads), old(steps), deadline, request)
      {
        assert request.parts[..i + 1][..i] == request.parts[..i];
        AdmittedSnoc(request.parts, i);
        if Sound(request, TypeOf(s)) { SoundPart(request, TypeOf(s), i); }
        NotUploadable(request, request.parts[i]);
        match request.parts[i] {
          case TextPart =>
          case ImageUrlPart => return Err(Plain);
          case MediaPart(size, mimeType) =>
            ghost var before, n := trace, begun;
            var uploaded := OpenAndUpload(request, size, mimeType);
            if uploaded.Err? { return uploaded; }
            AllRegisteredStays(before, trace, n);
        }
        i := i + 1;
      }
      assert request.parts[..|request.parts|] == request.parts;
      return Ok(());
    }

    // -------------------------------------------------------------- cleaning up

    /** One deletion within the time of the cleanup. */
    method DeleteMedia(name: string) returns (deleted: bool)
      requires Valid() && Settled(trace, begun)
      modifies this`clockReads, this`steps, this`trace
      ensures Valid() && Settled(trace, begun) && old(trace) <= trace && Cleanups(trace) == old(Cleanups(trace))
      ensures Smooth(s) && InTime(s, cleanupDeadline) ==> deleted
      ensures InTime(s, cleanupDeadline) || deleted ==> AsksToDelete(trace, |old(trace)|, name)
    {
      hide AllBounded, Polls, Cleanups, RegisteredFirst, SentFirst, TableOk, OnlyRecords, Settled, Smooth, InTime;
      var now := ReadClock();
      if cleanupDeadline - now <= 0.0 { return false; }
      now := ReadClock();
      var remaining := cleanupDeadline - now;
      if remaining <= 0.0 { return false; }
      var allowance := if remaining < DELETE_TIMEOUT_SECONDS then remaining else DELETE_TIMEOUT_SECONDS;
      SettledGrows(trace, DeleteRequested(name, now, allowance), begun);
      Log(DeleteRequested(name, now, allowance));
      assert trace[|old(trace)|] == DeleteRequested(name, now, allowance);
      var reply := NetworkStep();
      return reply.Ok?;
    }

    method RepositoryCall() returns (works: bool)
      modifies this`steps
      ensures works == s.repository(old(steps)) && steps == old(steps) + 1
    {
      works := s.repository(steps);
      steps := steps + 1;
    }

    /** When ownership could not be handed over, the exact local name is deleted and nothing concluded from it. */
    method DeleteLocally(name: Option<string>)
      requires Valid() && Settled(trace, begun)
      modifies this`clockReads, this`steps, this`trace
      ensures Valid() && Settled(trace, begun) && old(trace) <= trace && Cleanups(trace) == old(Cleanups(trace))
      ensures name.Some? && InTime(s, cleanupDeadline) ==> AsksToDelete(trace, |old(trace)|, name.value)
    {
      if name.Some? { var deleted := DeleteMedia(name.value); }
    }

    /** One entry of the table: resolved only by a confirmed deletion the repository has recorded. */
    method CleanUpOne(i: nat) returns (resolved: bool)
      requires Valid() && Settled(trace, begun) && i < |resources|
      modifies this`clockReads, this`steps, this`trace
      ensures Valid() && Settled(trace, begun) && old(trace) <= trace && Cleanups(trace) == old(Cleanups(trace))
      ensures resolved && HonestClaims(s) ==> Confirmed(trace, resources[i].record)
      ensures Smooth(s) && InTime(s, cleanupDeadline) && resources[i].name.Some? ==> resolved
      // Without an owner who takes the record over, the file is deleted under its local name.
      ensures InTime(s, cleanupDeadline) && resources[i].name.Some?
              && (!s.relinquish(old(steps)).Relinquished? || s.claim(old(steps) + 1, resources[i].name).ClaimFails?)
              ==> AsksToDelete(trace, |old(trace)|, resources[i].name.value)
    {
      hide AllBounded, Polls, Cleanups, RegisteredFirst, SentFirst, OnlyRecords, Settled, InTime;
      var record, localName := resources[i].record, resources[i].name;
      var relinquished := s.relinquish(steps);
      steps := steps + 1;
      if relinquished.RelinquishFails? { DeleteLocally(localName); return false; }
      if relinquished.ManualReview? {
        if localName.Some? {
          var deleted := DeleteMedia(localName.value);
          ghost var once := trace;
          if !deleted { DeleteLocally(localName); }
          StaysAsked(once, trace, |old(trace)|, localName.value);
        }
        return false;
      }
      var claim := s.claim(steps, localName);
      steps := steps + 1;
      if claim.ClaimFails? { DeleteLocally(localName); return false; }
      if claim.NothingClaimed? || claim.name == None { return false; }
      var deleted := DeleteMedia(claim.name.value);
      if !deleted { var retry := RepositoryCall(); return false; }
      var marked := RepositoryCall();
      if !marked { var retry := RepositoryCall(); return false; }
      SettledGrows(trace, Deleted(record, claim.name.value), begun);
      Log(Deleted(record, claim.name.value));
      assert Deleted(record, claim.name.value) in trace;
      return true;
    }

    /** Every entry is visited, latest first, even when no time is left. */
    method CleanUp() returns (error: Option<Error>)
      requires Valid() && Working() && Settled(trace, begun)
      modifies this`cleanupDeadline, this`clockReads, this`steps, this`trace
      ensures Valid() && Settled(trace, begun) && Cleanups(trace) == 1 && old(trace) <= trace
      ensures cleanupDeadline == s.clock(old(clockReads)) + 30.0
      ensures Quick(s) ==> InTime(s, cleanupDeadline)
      ensures error in {None, Some(Retention)}
      ensures Smooth(s) && InTime(s, cleanupDeadline) && AllNamed(resources) ==> error == None
      ensures NobodyTakesOver(s) && InTime(s, cleanupDeadline) ==>
        forall k :: 0 <= k < |resources| && resources[k].name.Some? ==> AsksToDelete(trace, |old(trace)|, resources[k].name.value)
      ensures error == None && HonestClaims(s) ==> forall r: nat :: r < begun ==> Resolved(trace, r)
    {
      hide AllBounded, Polls, Cleanups, RegisteredFirst, SentFirst, OnlyRecords, Settled, HonestClaims, Confirmed, Smooth, InTime;
      var now := ReadClock();
      NothingDeletedYet(trace, deadline, cleanupDeadline, now + CLEANUP_BUDGET_SECONDS);
      cleanupDeadline := now + CLEANUP_BUDGET_SECONDS;
      SettledGrows(trace, CleanupBegan, begun);
      Log(CleanupBegan);
      var unresolved := false;
      var i := |resources|;
      while i > 0
        invariant 0 <= i <= |resources| && cleanupDeadline == now + CLEANUP_BUDGET_SECONDS
        invariant Valid() && Settled(trace, begun) && Cleanups(trace) == 1 && old(trace) <= trace
        invariant !unresolved && HonestClaims(s) ==>
          forall k :: i <= k < |resources| ==> Confirmed(trace, resources[k].record)
        invariant Smooth(s) && InTime(s, cleanupDeadline) && AllNamed(resources) ==> !unresolved
        invariant NobodyTakesOver(s) && InTime(s, cleanupDeadline) ==>
          forall k :: i <= k < |resources| && resources[k].name.Some? ==> AsksToDelete(trace, |old(trace)|, resources[k].name.value)
      {
        i := i - 1;
        ghost var before := trace;
        var resolved := CleanUpOne(i);
        ConfirmedStays(before, trace);
        forall k | i <= k < |resources| && resources[k].name.Some? && NobodyTakesOver(s) && InTime(s, cleanupDeadline)
          ensures AsksToDelete(trace, |old(trace)|, resources[k].name.value)
        {
          if k == i { AskedLater(trace, |old(trace)|, |before|, resources[k].name.value); }
          else { StaysAsked(before, trace, |old(trace)|, resources[k].name.value); }
        }
        if !resolved { unresolved := true; }
      }
      error := if unresolved then Some(Retention) else None;
      AllResolved(resources, trace, begun);
    }

    /** Another journal deletes what it likes within the same time, and then raises what it likes. */
    method CleanUpCustom(deletes: seq<string>, raises: Option<Error>) returns (error: Option<Error>)
      requires Valid() && Working() && Settled(trace, begun)
      modifies this`cleanupDeadline, this`clockReads, this`steps, this`trace
      ensures Valid() && Settled(trace, begun) && Cleanups(trace) == 1 && old(trace) <= trace
      ensures error == raises
    {
      hide AllBounded, Polls, Cleanups, RegisteredFirst, SentFirst, TableOk, OnlyRecords, Settled, Smooth, InTime;
      var now := ReadClock();
      NothingDeletedYet(trace, deadline, cleanupDeadline, now + CLEANUP_BUDGET_SECONDS);
      cleanupDeadline := now + CLEANUP_BUDGET_SECONDS;
      SettledGrows(trace, CleanupBegan, begun);
      Log(CleanupBegan);
      for i := 0 to |deletes|
        invariant Valid() && Settled(trace, begun) && Cleanups(trace) == 1 && old(trace) <= trace
      {
        var deleted := DeleteMedia(deletes[i]);
      }
      return raises;
    }

    /** The cleanup of the journal at hand. */
    method Finish() returns (error: Option<Error>)
      requires Valid() && Working() && Settled(trace, begun)
      modifies this`cleanupDeadline, this`clockReads, this`steps, this`trace
      ensures Valid() && Settled(trace, begun) && Cleanups(trace) == 1 && old(trace) <= trace
      ensures s.cleaner.Custom? ==> error == s.cleaner.raises
      ensures s.cleaner.Shipped? ==> error in {None, Some(Retention)}
      ensures s.cleaner.Shipped? && error == None && HonestClaims(s) ==> forall r: nat :: r < begun ==> Resolved(trace, r)
      ensures Smooth(s) && Quick(s) && AllNamed(resources) ==> error == None
    {
      hide AllBounded, Polls, Cleanups, RegisteredFirst, SentFirst, TableOk, OnlyRecords, StillWorking, Settled;
      hide HonestClaims, Resolved, InTime, Quick, AllNamed;
      match s.cleaner {
        case Shipped => error := CleanUp();
        case Custom(deletes, raises) => error := CleanUpCustom(deletes, raises);
      }
    }

    /** The body of the invocation, inside the handlers around it. */
    method Work(request: Request) returns (r: Result<(), Error>)
      requires Valid() && Working() && begun == 0 && trace == [] && !journalOpen
      modifies this
      ensures deadline == old(deadline)
      ensures Valid() && Working() && Settled(trace, begun)
      ensures r.Ok? ==> begun == MediaParts(request.parts) && AllRegistered(trace, begun)
      ensures r.Ok? ==> request.modelIsValid && Admitted(request.parts) && AllNamed(resources)
      ensures r.Err? ==> r.error !in {Value, Lookup}
      ensures journalOpen ==> request.consent && request.durableStorage && request.modelIsValid
      ensures Smooth(s) && InTime(s, deadline) && Sound(request, TypeOf(s)) ==> r.Ok?
      ensures request.modelIsValid && FirstRenewalFails(s, old(steps), request) ==>
        journalOpen && r == Err(Enveloped(s.journal(old(steps) + 1).value))
      ensures request.modelIsValid && FirstClientFails(s, old(clockReads), old(steps), deadline, request) ==>
        journalOpen && begun == 1 && Stopped(0, s.step(old(steps) + 3).value) in trace
    {
      NoResources(resources, trace);
      hide AllBounded, Polls, Cleanups, RegisteredFirst, SentFirst, TableOk, OnlyRecords, StillWorking, SettledOne;
      hide IsRegistered, AllNamed, Smooth, InTime, Admitted, FirstRenewalFails, FirstClientFails;
      if !request.modelIsValid { return Err(Plain); }
      r := UploadParts(request);
      ghost var uploaded := trace;
      if r.Ok? { r := Interact(); }
      if r.Err? { r := Err(Enveloped(r.error)); }
      AllRegisteredStays(uploaded, trace, if r.Ok? then begun else 0);
    }

    /**
     * On every exit: each begun record was sent or stopped, and abandoned exactly when it was
     * stopped by an exception the handlers catch; cleanup ran once exactly when a journal was
     * opened; and with the shipped journal the invocation ends in a retention error unless every
     * file it may have left behind is confirmed deleted.
     */
    method Complete(request: Request) returns (r: Result<(), Error>, ghost body: Result<(), Error>, ghost cleanup: Option<Error>)
      requires Valid() && Working() && begun == 0 && trace == [] && !journalOpen
      modifies this
      ensures Valid() && Settled(trace, begun) && RegisteredFirst(trace)
      ensures deadline == s.clock(old(clockReads)) + request.timeout && AllBounded(trace, deadline, cleanupDeadline)
      ensures Polls(trace) <= 30
      ensures forall e :: e in trace ==> (e.Slept? ==> e.allowance <= 2.0) && (e.DeleteRequested? ==> e.allowance <= 15.0)
      // Nothing is begun, let alone sent, without consent, durable storage and an admitted model.
      ensures begun > 0 ==> request.consent && request.durableStorage && request.modelIsValid
      ensures r.Ok? ==> request.modelIsValid && Admitted(request.parts)
      // Whatever nothing speaks against succeeds when nothing fails and time does not run out.
      ensures Smooth(s) && Quick(s) && Sound(request, TypeOf(s)) && InTime(s, deadline) ==> r.Ok?
      ensures Cleanups(trace) == if journalOpen then 1 else 0
      ensures r.Ok? ==> begun == MediaParts(request.parts) && AllRegistered(trace, begun)
      ensures body.Err? ==> body.error !in {Value, Lookup}
      ensures r == Concluded(body, cleanup) && (!journalOpen ==> cleanup == None)
      // A retention error of the body survives exactly the journals that can be trusted with it.
      ensures journalOpen && body == Err(Retention) ==> (r == Err(Retention) <==> KeepsRetention(s.cleaner))
      ensures s.cleaner.Shipped? ==> cleanup in {None, Some(Retention)}
      ensures s.cleaner.Shipped? && (body == Err(Retention) || cleanup == Some(Retention)) ==> r == Err(Retention)
      // Nothing is left behind in silence.
      ensures s.cleaner.Shipped? && HonestClaims(s) && r != Err(Retention) ==>
        forall record: nat :: record < begun ==> Resolved(trace, record)
      ensures s.cleaner.Shipped? && HonestClaims(s) ==>
        forall record: nat, error :: Stopped(record, error) in trace && !Caught(error) ==> r == Err(Retention)
      // Two ways through the first part.
      ensures request.modelIsValid && FirstRenewalFails(s, old(steps), request) ==>
        journalOpen && body == Err(Enveloped(s.journal(old(steps) + 1).value))
      ensures request.modelIsValid && FirstClientFails(s, old(clockReads) + 1, old(steps), deadline, request) ==>
        journalOpen && begun == 1 && Stopped(0, s.step(old(steps) + 3).value) in trace
    {
      hide RegisteredFirst, SentFirst, TableOk, IsRegistered, HonestClaims, Confirmed, SettledOne, Resolved;
      hide Smooth, InTime, Sound, Admitted, AllNamed, Quick, Uploadable, FirstRenewalFails, FirstClientFails;
      hide AllBounded, Polls, Cleanups, OnlyRecords;
      cleanup := None;
      var now := ReadClock();
      NothingBounded(deadline + 0.0, now + request.timeout, cleanupDeadline);
      deadline := now + request.timeout;
      r := Work(request);
      body := r;
      if journalOpen {
        ghost var worked := trace;
        var error := Finish();
        cleanup := error;
        AllRegisteredStays(worked, trace, if body.Ok? then begun else 0);
        if error.Some? { r := Err(error.value); }
      }
      StrandedAreUnresolved(trace, begun);
      AllowancesBounded(trace, deadline, cleanupDeadline);
    }
  }

  // ---------------------------------------------------------------- two runs

  /** Surroundings in which everything works but the k-th journal call or network step. */
  function FailingAt(k: nat, journal: Option<Error>, step: Option<Error>, cleaner: Cleaner): Surroundings {
    Surroundings(
      _ => 0.0,
      n => if n == k then journal else None,
      n => if n == k then step else None,
      _ => Metadata(None, "", Processing, None, false),
      _ => Relinquished,
      (_, _) => NothingClaimed,
      _ => true,
      cleaner)
  }

  const SMALL_IMAGE := Request([MediaPart(1, "image/png")], true, true, true, 60.0)

  /** With any journal that cannot be trusted with it, the retention error of a body gets lost. */
  method RetentionCanBeMasked(cleaner: Cleaner) returns (r: Result<(), Error>, ghost body: Result<(), Error>)
    requires !KeepsRetention(cleaner)
    ensures body == Err(Retention) && r != Err(Retention)
  {
    var s := FailingAt(1, Some(Retention), None, cleaner);
    var run := new Invocation(s);
    assert FirstRenewalFails(s, run.steps, SMALL_IMAGE);
    ghost var cleanup;
    r, body, cleanup := run.Complete(SMALL_IMAGE);
  }

  /**
   * When no client can be made, for a reason the handlers do not catch, a record is begun whose
   * bytes were never sent and that is not abandoned; with the shipped journal the invocation
   * ends in a retention error all the same.
   */
  method UnsentCanStayOpen(error: Error) returns (r: Result<(), Error>, ghost trace: seq<Event>)
    requires !Caught(error)
    ensures Stopped(0, error) in trace && !IsTransferred(trace, 0) && !IsAbandoned(trace, 0) && !Resolved(trace, 0)
    ensures r == Err(Retention)
  {
    var s := FailingAt(3, None, Some(error), Shipped);
    var run := new Invocation(s);
    assert FirstClientFails(s, run.clockReads + 1, run.steps, 60.0, SMALL_IMAGE);
    assert HonestClaims(s);
    ghost var body, cleanup;
    r, body, cleanup := run.Complete(SMALL_IMAGE);
    trace := run.trace;
    StrandedIsUnresolved(trace, 0, error);
  }

  // ---------------------------------------------------------------- the trace of an invocation

  /** What happened so far neither sent, stopped nor abandoned anything since `before`. */
  ghost predicate Quiet(before: seq<Event>, after: seq<Event>) {
    before <= after && forall i :: |before| <= i < |after| ==> RecordOf(after[i]) == None
  }

  lemma QuietKeeps(before: seq<Event>, after: seq<Event>, record: nat)
    requires Quiet(before, after) && Settled(before, record)
    requires !IsTransferred(before, record) && !IsStopped(before, record) && !IsAbandoned(before, record)
    ensures Settled(after, record)
    ensures !IsTransferred(after, record) && !IsStopped(after, record) && !IsAbandoned(after, record)
    decreases |after|
  {
    if after == before {
    } else {
      var shorter := after[..|after| - 1];
      assert after == shorter + [after[|after| - 1]];
      QuietKeeps(before, shorter, record);
      SettledGrows(shorter, after[|after| - 1], record);
    }
  }

  lemma SendingKeeps(trace: seq<Event>, record: nat, at: real, allowance: real)
    requires Settled(trace, record) && !IsStopped(trace, record) && !IsAbandoned(trace, record)
    ensures Settled(trace + [Transferred(record, at, allowance)], record)
    ensures !IsStopped(trace + [Transferred(record, at, allowance)], record)
    ensures !IsAbandoned(trace + [Transferred(record, at, allowance)], record)
    ensures IsTransferred(trace + [Transferred(record, at, allowance)], record)
  {
    var e := Transferred(record, at, allowance);
    SettledGrows(trace, e, record);
    assert e in trace + [e];
  }

  lemma StrandedAreUnresolved(trace: seq<Event>, n: nat)
    requires Settled(trace, n) && SentFirst(trace) && OnlyRecords(trace, n)
    ensures forall record: nat, error :: Stopped(record, error) in trace && !Caught(error) ==>
              record < n && !Resolved(trace, record)
  {
    hide SettledOne, SentFirst, Resolved;
    forall record: nat, error | Stopped(record, error) in trace && !Caught(error)
      ensures record < n && !Resolved(trace, record)
    {
      assert RecordOf(Stopped(record, error)).value < n;
      StrandedIsUnresolved(trace, record, error);
    }
  }

  lemma StaysRegistered(before: seq<Event>, after: seq<Event>, name: string)
    requires before <= after && NameRegistered(before, name)
    ensures NameRegistered(after, name)
  {
    var e :| e in before && e.Registered? && e.name == name;
    assert e in after;
  }

  lemma RegisteredStays(before: seq<Event>, after: seq<Event>, record: nat)
    requires before <= after && IsRegistered(before, record)
    ensures IsRegistered(after, record)
  {
    var e :| e in before && e.Registered? && e.record == record;
    assert e in after;
  }

  lemma AllRegisteredStays(before: seq<Event>, after: seq<Event>, n: nat)
    requires before <= after && AllRegistered(before, n)
    ensures AllRegistered(after, n)
  {
    hide IsRegistered;
    forall r: nat | r < n ensures IsRegistered(after, r) { RegisteredStays(before, after, r); }
  }

  /** A request to delete the file of this name has been made since event `from`. */
  ghost predicate AsksToDelete(trace: seq<Event>, from: nat, name: string) {
    exists k :: from <= k < |trace| && trace[k].DeleteRequested? && trace[k].name == name
  }

  lemma StaysAsked(before: seq<Event>, after: seq<Event>, from: nat, name: string)
    requires before <= after
    ensures AsksToDelete(before, from, name) ==> AsksToDelete(after, from, name)
  {
    if AsksToDelete(before, from, name) {
      var k :| from <= k < |before| && before[k].DeleteRequested? && before[k].name == name;
      assert after[k] == before[k];
    }
  }

  lemma AskedLater(trace: seq<Event>, from: nat, later: nat, name: string)
    requires from <= later && AsksToDelete(trace, later, name)
    ensures AsksToDelete(trace, from, name)
  {
  }

  /** No record can be handed over to the repository. */
  ghost predicate NobodyTakesOver(s: Surroundings) { forall k: nat :: !s.relinquish(k).Relinquished? }

  lemma ConfirmedStays(before: seq<Event>, after: seq<Event>)
    requires before <= after
    ensures forall r: nat :: Confirmed(before, r) ==> Confirmed(after, r)
  {
    assert forall e :: e in before ==> e in after;
  }

  lemma NothingBounded(before: real, after: real, cleanupDeadline: real)
    ensures AllBounded([], before, cleanupDeadline) && AllBounded([], after, cleanupDeadline)
  {
  }

  lemma NoResources(resources: seq<Resource>, trace: seq<Event>)
    requires TableOk(resources, trace, 0)
    ensures resources == [] && AllNamed(resources)
  {
    assert |resources| > 0 ==> resources[0].record < 0;
  }

  lemma AllowancesBounded(trace: seq<Event>, deadline: real, cleanupDeadline: real)
    requires AllBounded(trace, deadline, cleanupDeadline)
    ensures forall e :: e in trace ==> (e.Slept? ==> e.allowance <= 2.0) && (e.DeleteRequested? ==> e.allowance <= 15.0)
  {
  }

  lemma NothingDeletedYet(trace: seq<Event>, deadline: real, before: real, after: real)
    requires AllBounded(trace, deadline, before) && StillWorking(trace)
    ensures AllBounded(trace, deadline, after)
  {
  }

  /** When every entry of the table is confirmed deleted, no record is left unresolved. */
  lemma AllResolved(resources: seq<Resource>, trace: seq<Event>, begun: nat)
    requires TableOk(resources, trace, begun)
    ensures (forall k :: 0 <= k < |resources| ==> Confirmed(trace, resources[k].record)) ==>
              forall r: nat :: r < begun ==> Resolved(trace, r)
  {
    hide Confirmed;
    if forall k :: 0 <= k < |resources| ==> Confirmed(trace, resources[k].record) {
      forall r: nat | r < begun ensures Resolved(trace, r) {
        if Holds(resources, r) { var i :| 0 <= i < |resources| && resources[i].record == r; }
      }
    }
  }

  // ---------------------------------------------------------------- the journal's table

  lemma BeginTable(resources: seq<Resource>, trace: seq<Event>, begun: nat)
    requires TableOk(resources, trace, begun)
    ensures TableOk(resources + [Resource(begun, None)], trace, begun + 1)
  {
    var more := resources + [Resource(begun, None)];
    assert more[|resources|].record == begun;
    forall r: nat | r < begun ensures Holds(more, r) || Abandoned(r, true) in trace {
      if Holds(resources, r) {
        var i :| 0 <= i < |resources| && resources[i].record == r;
        assert more[i].record == r;
      }
    }
  }

  lemma AbandonTable(resources: seq<Resource>, trace: seq<Event>, begun: nat)
    requires TableOk(resources, trace, begun) && |resources| > 0
    requires Abandoned(resources[|resources| - 1].record, true) in trace
    ensures TableOk(resources[..|resources| - 1], trace, begun)
  {
    var fewer := resources[..|resources| - 1];
    forall r: nat | r < begun ensures Holds(fewer, r) || Abandoned(r, true) in trace {
      if Holds(resources, r) {
        var i :| 0 <= i < |resources| && resources[i].record == r;
        if i < |fewer| { assert fewer[i].record == r; }
      }
    }
  }

  lemma RegisterTable(resources: seq<Resource>, trace: seq<Event>, begun: nat, record: nat, name: string)
    requires TableOk(resources, trace, begun) && |resources| > 0 && resources[|resources| - 1].record == record
    requires Registered(record, name) in trace
    ensures TableOk(resources[|resources| - 1 := Resource(record, Some(name))], trace, begun)
  {
    var named := resources[|resources| - 1 := Resource(record, Some(name))];
    forall r: nat | r < begun ensures Holds(named, r) || Abandoned(r, true) in trace {
      if Holds(resources, r) {
        var i :| 0 <= i < |resources| && resources[i].record == r;
        assert named[i].record == r;
      }
    }
  }
}
