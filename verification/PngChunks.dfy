/**
 * The PNG chunk scanner of backend/src/job_apply_pro/ai/media_normalization.py against
 * the chunk grammar of the W3C PNG Specification (sections 5.3 and 5.6).  The checksum is
 * any function from bytes to 32-bit numbers.
 */
module PngChunks {
  import opened Prelude
  import opened Bytes

  type word = n: nat | n < 0x1_0000_0000

  datatype Verdict = Accepted | Corrupt | Animated

  const IHDR: seq<byte> := [73, 72, 68, 82]
  const PLTE: seq<byte> := [80, 76, 84, 69]
  const IDAT: seq<byte> := [73, 68, 65, 84]
  const IEND: seq<byte> := [73, 69, 78, 68]
  const ACTL: seq<byte> := [97, 99, 84, 76]
  const FCTL: seq<byte> := [102, 99, 84, 76]
  const FDAT: seq<byte> := [102, 100, 65, 84]

  /** The kinds by the names they have in the specification. */
  lemma KindNames()
    ensures IHDR == Ascii("IHDR") && PLTE == Ascii("PLTE") && IDAT == Ascii("IDAT") && IEND == Ascii("IEND")
    ensures ACTL == Ascii("acTL") && FCTL == Ascii("fcTL") && FDAT == Ascii("fdAT")
  {
  }

  // ---------------------------------------------------------------- grammar

  datatype Chunk = Chunk(kind: seq<byte>, payload: seq<byte>)

  predicate Sized(c: Chunk) { |c.kind| == 4 && |c.payload| < 0x1_0000_0000 }

  predicate AllSized(cs: seq<Chunk>) { forall i :: 0 <= i < |cs| ==> Sized(cs[i]) }

  function Print(c: Chunk, crc: seq<byte> -> word): seq<byte>
    requires Sized(c)
  {
    Be32(|c.payload|) + c.kind + c.payload + Be32(crc(c.kind + c.payload))
  }

  function PrintAll(cs: seq<Chunk>, crc: seq<byte> -> word): seq<byte>
    requires AllSized(cs)
  {
    if cs == [] then [] else Print(cs[0], crc) + PrintAll(cs[1..], crc)
  }

  predicate Lettered(kind: seq<byte>) {
    forall i :: 0 <= i < |kind| ==> 65 <= kind[i] <= 90 || 97 <= kind[i] <= 122
  }

  predicate Critical(kind: seq<byte>) { |kind| > 0 && kind[0] / 32 % 2 == 0 }

  /** Of kinds in letters, the critical ones begin with a capital. */
  lemma CriticalBegins(kind: seq<byte>)
    requires |kind| > 0 && Lettered(kind)
    ensures Critical(kind) <==> 'A' as int <= kind[0] <= 'Z' as int
  {
    assert 65 <= kind[0] <= 90 || 97 <= kind[0] <= 122;
  }

  predicate AnimationKind(kind: seq<byte>) { kind == ACTL || kind == FCTL || kind == FDAT }

  ghost predicate HasKind(cs: seq<Chunk>, kind: seq<byte>) { exists i :: 0 <= i < |cs| && cs[i].kind == kind }

  /** Some image data has already been followed by another kind of chunk. */
  ghost predicate PixelsEnded(cs: seq<Chunk>) {
    exists j, k :: 0 <= j < k < |cs| && cs[j].kind == IDAT && cs[k].kind != IDAT
  }

  /** Chunk `i` is of a known or ancillary kind and stands where its kind may stand. */
  ghost predicate Allowed(cs: seq<Chunk>, i: nat)
    requires i < |cs|
  {
    var kind, before := cs[i].kind, cs[..i];
    && Lettered(kind) && !AnimationKind(kind) && kind != IEND
    && (Critical(kind) ==> kind == IHDR || kind == PLTE || kind == IDAT)
    && (if i == 0 then kind == IHDR && |cs[i].payload| == 13 else kind != IHDR)
    && (kind == PLTE ==> !HasKind(before, PLTE) && !HasKind(before, IDAT))
    && (kind == IDAT ==> !PixelsEnded(before))
  }

  ghost predicate WellFormedPrefix(cs: seq<Chunk>) {
    AllSized(cs) && forall i: nat :: i < |cs| ==> Allowed(cs, i)
  }

  /**
   * A leading 13-byte IHDR and no other, at most one PLTE before the image data, the image
   * data contiguous and present, no unknown critical or animation chunk, an empty IEND last.
   */
  ghost predicate WellFormed(cs: seq<Chunk>) {
    && |cs| > 0
    && var body, last := cs[..|cs| - 1], cs[|cs| - 1];
       var ended := HasKind(body, IDAT) && last == Chunk(IEND, []);
       WellFormedPrefix(body) && ended
  }

  // ---------------------------------------------------------------- scanner

  datatype ScanState = ScanState(header: bool, palette: bool, pixels: bool, pixelsEnded: bool)

  const START: ScanState := ScanState(false, false, false, false)

  datatype Round = Go(st: ScanState) | Stop(verdict: Verdict)

  function After(st: ScanState, kind: seq<byte>): ScanState {
    ScanState(
      st.header || kind == IHDR,
      st.palette || kind == PLTE,
      st.pixels || kind == IDAT,
      st.pixelsEnded || (st.pixels && kind != IDAT))
  }

  /** The checks on one framed chunk; `atEnd` says nothing follows it. */
  function Decide(st: ScanState, c: Chunk, atEnd: bool): Round {
    var kind, size := c.kind, |c.payload|;
    if !Lettered(kind) || (!st.header && kind != IHDR) then Stop(Corrupt)
    else if kind == IHDR && (st.header || size != 13) then Stop(Corrupt)
    else if kind == PLTE && (st.palette || st.pixels) then Stop(Corrupt)
    else if kind == IDAT && st.pixelsEnded then Stop(Corrupt)
    else if Critical(kind) && kind != IHDR && kind != PLTE && kind != IDAT && kind != IEND then Stop(Corrupt)
    else if AnimationKind(kind) then Stop(Animated)
    else if kind == IEND then if size != 0 || !atEnd || !st.pixels then Stop(Corrupt) else Stop(Accepted)
    else Go(After(st, kind))
  }

  /** The chunk framed at `offset` with a matching checksum, and the offset behind it. */
  function ReadChunk(data: seq<byte>, offset: nat, crc: seq<byte> -> word): (r: Option<(Chunk, nat)>)
    requires offset <= |data|
    ensures r.Some? ==> offset < r.value.1 <= |data| && |r.value.0.kind| == 4
  {
    if |data| - offset < 12 then None
    else
      var size := Be32Value(data[offset..offset + 4]);
      var end := offset + 12 + size;
      if end > |data| || crc(data[offset + 4..end - 4]) != Be32Value(data[end - 4..end]) then None
      else Some((Chunk(data[offset + 4..offset + 8], data[offset + 8..end - 4]), end))
  }

  function Scan(data: seq<byte>, offset: nat, st: ScanState, crc: seq<byte> -> word): Verdict
    requires offset <= |data|
    decreases |data| - offset
  {
    match ReadChunk(data, offset, crc)
    case None => Corrupt
    case Some((c, end)) =>
      match Decide(st, c, end == |data|)
      case Stop(v) => v
      case Go(st1) => Scan(data, end, st1, crc)
  }

  // ---------------------------------------------------------------- one chunk

  lemma ReadsPrintedChunk(data: seq<byte>, offset: nat, c: Chunk, rest: seq<byte>, crc: seq<byte> -> word)
    requires offset <= |data| && Sized(c) && data[offset..] == Print(c, crc) + rest
    ensures ReadChunk(data, offset, crc) == Some((c, offset + |Print(c, crc)|))
    ensures data[offset + |Print(c, crc)|..] == rest
  {
    hide Be32, Be32Value;
    var size, sum := Be32(|c.payload|), Be32(crc(c.kind + c.payload));
    var n := |c.payload|;
    assert data[offset..] == size + (c.kind + (c.payload + (sum + rest)));
    Reads(data, offset, size, c.kind + (c.payload + (sum + rest)));
    Reads(data, offset + 4, c.kind, c.payload + (sum + rest));
    Reads(data, offset + 8, c.payload, sum + rest);
    Reads(data, offset + 8 + n, sum, rest);
    assert data[offset + 4..offset + 8 + n] == c.kind + c.payload;
  }

  lemma PrintsReadChunk(data: seq<byte>, offset: nat, crc: seq<byte> -> word)
    requires offset <= |data| && ReadChunk(data, offset, crc).Some?
    ensures
      var (c, end) := ReadChunk(data, offset, crc).value;
      Sized(c) && data[offset..end] == Print(c, crc)
  {
    var (c, end) := ReadChunk(data, offset, crc).value;
    Be32OfValue(data[offset..offset + 4]);
    Be32OfValue(data[end - 4..end]);
    assert data[offset + 4..end - 4] == c.kind + c.payload;
    assert data[offset..end] == data[offset..offset + 4] + data[offset + 4..end - 4] + data[end - 4..end];
  }

  lemma PrintsSomething(c: Chunk, crc: seq<byte> -> word)
    requires Sized(c)
    ensures |Print(c, crc)| > 0
  {
  }

  // ---------------------------------------------------------------- state and grammar

  function StateAfter(cs: seq<Chunk>): ScanState {
    if cs == [] then START else After(StateAfter(cs[..|cs| - 1]), cs[|cs| - 1].kind)
  }

  lemma KindGrows(body: seq<Chunk>, c: Chunk, kind: seq<byte>)
    ensures HasKind(body + [c], kind) <==> HasKind(body, kind) || c.kind == kind
  {
    var cs := body + [c];
    if HasKind(body, kind) { var i :| 0 <= i < |body| && body[i].kind == kind; assert cs[i].kind == kind; }
    if c.kind == kind { assert cs[|body|].kind == kind; }
  }

  lemma PixelsEndedGrows(body: seq<Chunk>, c: Chunk)
    ensures PixelsEnded(body + [c]) <==> PixelsEnded(body) || (HasKind(body, IDAT) && c.kind != IDAT)
  {
    var cs := body + [c];
    assert forall i :: 0 <= i < |body| ==> cs[i] == body[i];
    if PixelsEnded(body) {
      var j, k :| 0 <= j < k < |body| && body[j].kind == IDAT && body[k].kind != IDAT;
      assert cs[j].kind == IDAT && cs[k].kind != IDAT;
    }
    if HasKind(body, IDAT) && c.kind != IDAT {
      var j :| 0 <= j < |body| && body[j].kind == IDAT;
      assert cs[j].kind == IDAT && cs[|body|].kind != IDAT;
    }
    if PixelsEnded(cs) {
      var j, k :| 0 <= j < k < |cs| && cs[j].kind == IDAT && cs[k].kind != IDAT;
      assert body[j].kind == IDAT;
      if k < |body| { assert body[k].kind != IDAT; }
    }
  }

  /** The scanner's four flags say what the grammar asks about the chunks read so far. */
  lemma {:induction false} StateMeaning(cs: seq<Chunk>)
    ensures StateAfter(cs).header <==> HasKind(cs, IHDR)
    ensures StateAfter(cs).palette <==> HasKind(cs, PLTE)
    ensures StateAfter(cs).pixels <==> HasKind(cs, IDAT)
    ensures StateAfter(cs).pixelsEnded <==> PixelsEnded(cs)
  {
    if cs != [] {
      var body, c := cs[..|cs| - 1], cs[|cs| - 1];
      assert cs == body + [c];
      StateMeaning(body);
      KindGrows(body, c, IHDR);
      KindGrows(body, c, PLTE);
      KindGrows(body, c, IDAT);
      PixelsEndedGrows(body, c);
    }
  }

  /** What the scanner requires of a chunk that is not the last. */
  predicate Admits(st: ScanState, c: Chunk) {
    Sized(c) && Decide(st, c, false).Go?
  }

  /** For the chunk after an allowed prefix, the grammar's rules are the scanner's. */
  lemma LastAllowed(body: seq<Chunk>, c: Chunk)
    requires WellFormedPrefix(body)
    ensures Sized(c) && Allowed(body + [c], |body|) <==> Admits(StateAfter(body), c)
  {
    StateMeaning(body);
    assert (body + [c])[..|body|] == body;
    assert HasKind(body, IHDR) <==> body != [] by {
      if body != [] { assert Allowed(body, 0) && body[0].kind == IHDR; }
    }
  }

  lemma PrefixGrows(body: seq<Chunk>, c: Chunk)
    ensures WellFormedPrefix(body + [c]) <==> WellFormedPrefix(body) && Admits(StateAfter(body), c)
  {
    var cs := body + [c];
    forall i: nat | i < |body| ensures cs[i] == body[i] && (Allowed(cs, i) <==> Allowed(body, i)) {
      assert cs[..i] == body[..i];
    }
    assert WellFormedPrefix(cs) <==> WellFormedPrefix(body) && Sized(cs[|body|]) && Allowed(cs, |body|);
    if WellFormedPrefix(body) { LastAllowed(body, c); }
  }

  /** The conditions under which the scanner accepts `c` as the end of the image. */
  predicate Closes(st: ScanState, c: Chunk) { c == Chunk(IEND, []) && st.pixels && st.header }

  lemma EndGrows(body: seq<Chunk>, c: Chunk)
    ensures WellFormed(body + [c]) <==> WellFormedPrefix(body) && Closes(StateAfter(body), c)
  {
    StateMeaning(body);
    assert (body + [c])[..|body|] == body;
    if WellFormedPrefix(body) && HasKind(body, IDAT) { assert Allowed(body, 0) && body[0].kind == IHDR; }
  }

  lemma PrintAllSized(cs: seq<Chunk>, c: Chunk, crc: seq<byte> -> word)
    requires AllSized([c] + cs)
    ensures AllSized(cs) && Sized(c) && PrintAll([c] + cs, crc) == Print(c, crc) + PrintAll(cs, crc)
  {
    assert ([c] + cs)[0] == c && ([c] + cs)[1..] == cs;
    forall i | 0 <= i < |cs| ensures Sized(cs[i]) { assert ([c] + cs)[i + 1] == cs[i]; }
  }

  lemma {:induction false} PrefixOfPrefix(body: seq<Chunk>, more: seq<Chunk>)
    requires WellFormedPrefix(body + more)
    ensures WellFormedPrefix(body)
    decreases |more|
  {
    hide Allowed, Admits, AllSized, WellFormedPrefix;
    if more == [] { assert body + more == body; }
    else {
      var n := |more| - 1;
      assert body + more == (body + more[..n]) + [more[n]];
      PrefixGrows(body + more[..n], more[n]);
      PrefixOfPrefix(body, more[..n]);
    }
  }

  lemma BodyIsPrefix(all: seq<Chunk>)
    requires WellFormed(all)
    ensures all != [] && WellFormedPrefix(all[..|all| - 1])
  {
  }

  lemma Regroup(read: seq<Chunk>, c: Chunk, rest: seq<Chunk>)
    requires rest != []
    ensures read + ([c] + rest) == read + [c] + rest
    ensures (read + [c] + rest)[..|read| + |rest|] == read + [c] + rest[..|rest| - 1]
    ensures (read + [c])[..|read|] == read
  {
  }

  lemma FirstIsAdmitted(read: seq<Chunk>, c: Chunk, rest: seq<Chunk>)
    requires rest != [] && WellFormed(read + ([c] + rest))
    ensures Admits(StateAfter(read), c) && StateAfter(read + [c]) == After(StateAfter(read), c.kind)
    ensures WellFormed(read + [c] + rest)
  {
    hide WellFormed, Admits, WellFormedPrefix, After;
    Regroup(read, c, rest);
    BodyIsPrefix(read + [c] + rest);
    PrefixOfPrefix(read + [c], rest[..|rest| - 1]);
    PrefixGrows(read, c);
  }

  lemma AdmittedGrows(read: seq<Chunk>, c: Chunk)
    requires WellFormedPrefix(read) && Admits(StateAfter(read), c)
    ensures WellFormedPrefix(read + [c]) && StateAfter(read + [c]) == After(StateAfter(read), c.kind)
  {
    PrefixGrows(read, c);
    assert (read + [c])[..|read|] == read;
  }

  // ---------------------------------------------------------------- both directions

  lemma ScanUsesRound(data: seq<byte>, offset: nat, st: ScanState, crc: seq<byte> -> word, c: Chunk, end: nat)
    requires offset <= |data| && ReadChunk(data, offset, crc) == Some((c, end))
    ensures Admits(st, c) ==> Scan(data, offset, st, crc) == Scan(data, end, After(st, c.kind), crc)
    ensures Closes(st, c) && end == |data| ==> Scan(data, offset, st, crc) == Accepted
  {
    if Admits(st, c) { assert c.kind != IEND; }
  }

  /** At the first printed chunk of a well-formed image the scanner goes on past it. */
  lemma PrintedRound(data: seq<byte>, offset: nat, read: seq<Chunk>, cs: seq<Chunk>, crc: seq<byte> -> word)
    returns (end: nat)
    requires offset <= |data| && cs != [] && WellFormed(read + cs)
    requires AllSized(cs) && data[offset..] == PrintAll(cs, crc)
    ensures offset < end <= |data| && AllSized(cs[1..]) && data[end..] == PrintAll(cs[1..], crc)
    ensures
      if |cs| == 1 then Scan(data, offset, StateAfter(read), crc) == Accepted
      else
        && WellFormed(read + [cs[0]] + cs[1..])
        && Scan(data, offset, StateAfter(read), crc) == Scan(data, end, StateAfter(read + [cs[0]]), crc)
  {
    hide WellFormed, Admits, Closes, After, Scan, ReadChunk, Decide, Print, Sized;
    var c, rest := cs[0], cs[1..];
    assert cs == [c] + rest;
    PrintAllSized(rest, c, crc);
    PrintsSomething(c, crc);
    ReadsPrintedChunk(data, offset, c, PrintAll(rest, crc), crc);
    end := offset + |Print(c, crc)|;
    ScanUsesRound(data, offset, StateAfter(read), crc, c, end);
    if rest == [] {
      assert cs == [c];
      EndGrows(read, c);
    } else {
      FirstIsAdmitted(read, c, rest);
    }
  }

  /** The scanner accepts every printed well-formed image. */
  lemma {:induction false} ScanIsComplete(data: seq<byte>, offset: nat, read: seq<Chunk>, cs: seq<Chunk>, crc: seq<byte> -> word)
    requires offset <= |data| && cs != [] && WellFormed(read + cs)
    requires AllSized(cs) && data[offset..] == PrintAll(cs, crc)
    ensures Scan(data, offset, StateAfter(read), crc) == Accepted
    decreases |cs|
  {
    var end := PrintedRound(data, offset, read, cs, crc);
    if |cs| > 1 { ScanIsComplete(data, end, read + [cs[0]], cs[1..], crc); }
  }

  /** The checks on a framed chunk let pass what the grammar admits, and accept what it closes with. */
  lemma DecideMeans(st: ScanState, c: Chunk, atEnd: bool)
    requires Sized(c)
    ensures Decide(st, c, atEnd).Go? ==> Admits(st, c) && c.kind != IEND && Decide(st, c, atEnd) == Go(After(st, c.kind))
    ensures Decide(st, c, atEnd) == Stop(Accepted) ==> Closes(st, c) && c.kind == IEND && atEnd
  {
  }

  lemma AcceptedGoesOn(data: seq<byte>, offset: nat, st: ScanState, crc: seq<byte> -> word)
    requires offset <= |data| && Scan(data, offset, st, crc) == Accepted
    ensures ReadChunk(data, offset, crc).Some?
    ensures
      var (c, end) := ReadChunk(data, offset, crc).value;
      match Decide(st, c, end == |data|)
      case Stop(v) => v == Accepted
      case Go(st1) => Scan(data, end, st1, crc) == Accepted
  {
    hide ReadChunk, Decide;
  }

  /** One accepted round: the chunk read, and what remains to be accepted. */
  lemma AcceptedRound(data: seq<byte>, offset: nat, st: ScanState, crc: seq<byte> -> word) returns (c: Chunk, end: nat)
    requires offset <= |data| && Scan(data, offset, st, crc) == Accepted
    ensures offset < end <= |data| && Sized(c) && data[offset..] == Print(c, crc) + data[end..]
    ensures
      if c.kind == IEND then Closes(st, c) && end == |data|
      else Admits(st, c) && Scan(data, end, After(st, c.kind), crc) == Accepted
  {
    hide Scan, ReadChunk, Decide, Admits, Closes, After, Print, Sized;
    AcceptedGoesOn(data, offset, st, crc);
    c, end := ReadChunk(data, offset, crc).value.0, ReadChunk(data, offset, crc).value.1;
    PrintsReadChunk(data, offset, crc);
    DecideMeans(st, c, end == |data|);
    assert data[offset..] == data[offset..end] + data[end..];
  }

  lemma ConsReading(
    data: seq<byte>, offset: nat, read: seq<Chunk>, c: Chunk, end: nat, rest: seq<Chunk>, crc: seq<byte> -> word)
    returns (cs: seq<Chunk>)
    requires offset <= end <= |data| && Sized(c) && data[offset..] == Print(c, crc) + data[end..]
    requires WellFormed(read + [c] + rest) && AllSized(rest) && data[end..] == PrintAll(rest, crc)
    ensures WellFormed(read + cs) && AllSized(cs) && data[offset..] == PrintAll(cs, crc)
  {
    hide WellFormed, Print, Sized;
    cs := [c] + rest;
    assert read + [c] + rest == read + cs;
    assert forall i :: 0 <= i < |rest| ==> cs[i + 1] == rest[i];
    PrintAllSized(rest, c, crc);
  }

  /** Whatever the scanner accepts is a printed well-formed image. */
  lemma {:induction false} ScanIsSound(data: seq<byte>, offset: nat, read: seq<Chunk>, crc: seq<byte> -> word)
    returns (cs: seq<Chunk>)
    requires offset <= |data| && WellFormedPrefix(read) && Scan(data, offset, StateAfter(read), crc) == Accepted
    ensures WellFormed(read + cs) && AllSized(cs) && data[offset..] == PrintAll(cs, crc)
    decreases |data| - offset
  {
    var c, end := AcceptedRound(data, offset, StateAfter(read), crc);
    if c.kind == IEND {
      cs := [c];
      EndGrows(read, c);
      assert [c] == [c] + [] && PrintAll([], crc) == [];
      PrintAllSized([], c, crc);
      assert data[end..] == [];
    } else {
      AdmittedGrows(read, c);
      var rest := ScanIsSound(data, end, read + [c], crc);
      cs := ConsReading(data, offset, read, c, end, rest, crc);
    }
  }

  /** Bytes tile into chunks in at most one way. */
  lemma {:induction false} ReadingIsUnique(cs: seq<Chunk>, ds: seq<Chunk>, crc: seq<byte> -> word)
    requires AllSized(cs) && AllSized(ds) && PrintAll(cs, crc) == PrintAll(ds, crc)
    ensures cs == ds
  {
    hide Print, Sized, ReadChunk;
    if cs != [] {
      assert cs == [cs[0]] + cs[1..];
      PrintAllSized(cs[1..], cs[0], crc);
      PrintsSomething(cs[0], crc);
    }
    if ds != [] {
      assert ds == [ds[0]] + ds[1..];
      PrintAllSized(ds[1..], ds[0], crc);
      PrintsSomething(ds[0], crc);
    }
    if cs != [] && ds != [] {
      var data := PrintAll(cs, crc);
      assert data[0..] == data;
      ReadsPrintedChunk(data, 0, cs[0], PrintAll(cs[1..], crc), crc);
      ReadsPrintedChunk(data, 0, ds[0], PrintAll(ds[1..], crc), crc);
      ReadingIsUnique(cs[1..], ds[1..], crc);
    }
  }

  /** Behind the 8 bytes of the signature, `data` prints a well-formed list of chunks. */
  ghost predicate IsImage(data: seq<byte>, crc: seq<byte> -> word) {
    |data| >= 8 && exists cs :: WellFormed(cs) && AllSized(cs) && data[8..] == PrintAll(cs, crc)
  }

  lemma AcceptsOnlyImages(data: seq<byte>, crc: seq<byte> -> word)
    requires |data| >= 8 && Scan(data, 8, START, crc) == Accepted
    ensures IsImage(data, crc)
  {
    var cs := ScanIsSound(data, 8, [], crc);
    assert [] + cs == cs;
  }

  lemma AcceptsExactlyImages(data: seq<byte>, crc: seq<byte> -> word)
    requires |data| >= 8
    ensures Scan(data, 8, START, crc) == Accepted <==> IsImage(data, crc)
  {
    if IsImage(data, crc) {
      var cs :| WellFormed(cs) && AllSized(cs) && data[8..] == PrintAll(cs, crc);
      assert [] + cs == cs;
      ScanIsComplete(data, 8, [], cs, crc);
    } else if Scan(data, 8, START, crc) == Accepted {
      AcceptsOnlyImages(data, crc);
    }
  }

  // ---------------------------------------------------------------- animations

  /** A chunk of kind acTL, fcTL or fdAT. */
  predicate Animates(c: Chunk) { c.kind in {[97, 99, 84, 76], [102, 99, 84, 76], [102, 100, 65, 84]} }

  /** `tail` prints an allowed prefix, then an animation chunk, then anything. */
  ghost predicate AnimatesAfter(tail: seq<byte>, cs: seq<Chunk>, c: Chunk, rest: seq<byte>, crc: seq<byte> -> word) {
    && AllSized(cs) && WellFormedPrefix(cs) && cs != []
    && Sized(c) && Animates(c)
    && tail == PrintAll(cs, crc) + (Print(c, crc) + rest)
  }

  /** Behind the signature stands what a still image may begin with, up to a whole animation chunk. */
  ghost predicate IsAnimated(data: seq<byte>, crc: seq<byte> -> word) {
    |data| >= 8 && exists cs, c, rest :: AnimatesAfter(data[8..], cs, c, rest, crc)
  }

  lemma DecidesAnimated(st: ScanState, c: Chunk, atEnd: bool)
    requires Sized(c)
    ensures Decide(st, c, atEnd) == Stop(Animated) <==>
      st.header && Animates(c)
  {
  }

  lemma PrefixHasHeader(cs: seq<Chunk>)
    requires WellFormedPrefix(cs)
    ensures StateAfter(cs).header <==> cs != []
  {
    StateMeaning(cs);
    if cs != [] { assert Allowed(cs, 0) && cs[0].kind == IHDR; }
  }

  /** At printed bytes the scanner decides on the chunk that was printed. */
  lemma ScanAtPrinted(data: seq<byte>, offset: nat, st: ScanState, c: Chunk, rest: seq<byte>, crc: seq<byte> -> word)
    returns (end: nat)
    requires offset <= |data| && Sized(c) && data[offset..] == Print(c, crc) + rest
    ensures offset < end <= |data| && data[end..] == rest
    ensures Decide(st, c, end == |data|).Stop? ==> Scan(data, offset, st, crc) == Decide(st, c, end == |data|).verdict
    ensures Decide(st, c, end == |data|).Go? ==> Scan(data, offset, st, crc) == Scan(data, end, Decide(st, c, end == |data|).st, crc)
  {
    hide ReadChunk, Decide, Print;
    ReadsPrintedChunk(data, offset, c, rest, crc);
    end := offset + |Print(c, crc)|;
  }

  lemma AdmittedFirst(read: seq<Chunk>, c: Chunk, later: seq<Chunk>)
    requires WellFormedPrefix(read + ([c] + later))
    ensures WellFormedPrefix((read + [c]) + later) && Admits(StateAfter(read), c)
    ensures StateAfter(read + [c]) == After(StateAfter(read), c.kind)
  {
    hide Admits, WellFormedPrefix, After;
    assert read + ([c] + later) == (read + [c]) + later;
    PrefixOfPrefix(read + [c], later);
    PrefixGrows(read, c);
    assert (read + [c])[..|read|] == read;
  }

  lemma {:induction false} FindsAnimation(
    data: seq<byte>, offset: nat, read: seq<Chunk>, cs: seq<Chunk>, c: Chunk, rest: seq<byte>, crc: seq<byte> -> word)
    requires offset <= |data| && AllSized(cs) && WellFormedPrefix(read + cs) && read + cs != []
    requires Sized(c) && Animates(c)
    requires data[offset..] == PrintAll(cs, crc) + (Print(c, crc) + rest)
    ensures Scan(data, offset, StateAfter(read), crc) == Animated
    decreases |cs|
  {
    hide WellFormedPrefix, Admits, After, Scan, Decide, Print, StateAfter, Animates;
    if cs == [] {
      assert read + cs == read && data[offset..] == Print(c, crc) + rest;
      PrefixHasHeader(read);
      var end := ScanAtPrinted(data, offset, StateAfter(read), c, rest, crc);
      DecidesAnimated(StateAfter(read), c, end == |data|);
    } else {
      var first, later := cs[0], cs[1..];
      assert cs == [first] + later;
      PrintAllSized(later, first, crc);
      AdmittedFirst(read, first, later);
      assert data[offset..] == Print(first, crc) + (PrintAll(later, crc) + (Print(c, crc) + rest));
      var end := ScanAtPrinted(data, offset, StateAfter(read), first, PrintAll(later, crc) + (Print(c, crc) + rest), crc);
      AdmittedGoes(StateAfter(read), first, end == |data|);
      FindsAnimation(data, end, read + [first], later, c, rest, crc);
    }
  }

  lemma AdmittedGoes(st: ScanState, c: Chunk, atEnd: bool)
    requires Admits(st, c)
    ensures Decide(st, c, atEnd) == Go(After(st, c.kind))
  {
  }

  lemma AnimatedGoesOn(data: seq<byte>, offset: nat, st: ScanState, crc: seq<byte> -> word) returns (c: Chunk, end: nat)
    requires offset <= |data| && Scan(data, offset, st, crc) == Animated
    ensures offset < end <= |data| && Sized(c) && data[offset..] == Print(c, crc) + data[end..]
    ensures
      || Decide(st, c, end == |data|) == Stop(Animated)
      || (Admits(st, c) && Scan(data, end, After(st, c.kind), crc) == Animated)
  {
    hide ReadChunk, Decide, Admits, Print, Sized;
    c, end := ReadChunk(data, offset, crc).value.0, ReadChunk(data, offset, crc).value.1;
    PrintsReadChunk(data, offset, crc);
    DecideMeans(st, c, end == |data|);
    assert data[offset..] == data[offset..end] + data[end..];
  }

  lemma ConsAnimation(
    data: seq<byte>, offset: nat, first: Chunk, end: nat, later: seq<Chunk>, c: Chunk, rest: seq<byte>, crc: seq<byte> -> word)
    requires offset <= end <= |data| && Sized(first) && data[offset..] == Print(first, crc) + data[end..]
    requires AllSized(later) && Sized(c) && data[end..] == PrintAll(later, crc) + (Print(c, crc) + rest)
    ensures AllSized([first] + later) && data[offset..] == PrintAll([first] + later, crc) + (Print(c, crc) + rest)
  {
    hide Print, Sized;
    var cs := [first] + later;
    assert forall i :: 0 <= i < |later| ==> cs[i + 1] == later[i];
    PrintAllSized(later, first, crc);
  }

  lemma OnlyAnimation(data: seq<byte>, offset: nat, c: Chunk, end: nat, crc: seq<byte> -> word)
    requires offset <= end <= |data| && Sized(c) && data[offset..] == Print(c, crc) + data[end..]
    ensures data[offset..] == PrintAll([], crc) + (Print(c, crc) + data[end..])
  {
    hide Print;
  }

  /** What the scanner calls animated has an animation chunk behind an allowed prefix. */
  lemma {:induction false} AnimatedIsSound(data: seq<byte>, offset: nat, read: seq<Chunk>, crc: seq<byte> -> word)
    returns (cs: seq<Chunk>, c: Chunk, rest: seq<byte>)
    requires offset <= |data| && WellFormedPrefix(read) && Scan(data, offset, StateAfter(read), crc) == Animated
    ensures AllSized(cs) && WellFormedPrefix(read + cs) && read + cs != []
    ensures Sized(c) && Animates(c)
    ensures data[offset..] == PrintAll(cs, crc) + (Print(c, crc) + rest)
    decreases |data| - offset
  {
    hide WellFormedPrefix, Admits, After, Scan, Decide, Print, Sized, StateAfter, Animates, PrintAll;
    var first, end := AnimatedGoesOn(data, offset, StateAfter(read), crc);
    DecidesAnimated(StateAfter(read), first, end == |data|);
    if Decide(StateAfter(read), first, end == |data|) == Stop(Animated) {
      cs, c, rest := [], first, data[end..];
      PrefixHasHeader(read);
      assert read + cs == read;
      OnlyAnimation(data, offset, first, end, crc);
    } else {
      AdmittedGrows(read, first);
      var later, last, more := AnimatedIsSound(data, end, read + [first], crc);
      cs, c, rest := [first] + later, last, more;
      ConsAnimation(data, offset, first, end, later, c, rest, crc);
      assert read + cs == (read + [first]) + later;
    }
  }

  lemma AnimationIsFound(data: seq<byte>, cs: seq<Chunk>, c: Chunk, rest: seq<byte>, crc: seq<byte> -> word)
    requires |data| >= 8 && AnimatesAfter(data[8..], cs, c, rest, crc)
    ensures Scan(data, 8, START, crc) == Animated
  {
    assert StateAfter([]) == START && [] + cs == cs;
    hide Scan, WellFormedPrefix, Print, PrintAll, StateAfter;
    FindsAnimation(data, 8, [], cs, c, rest, crc);
  }

  /** The scanner calls animated exactly what begins as a still image may and goes on with an animation chunk. */
  lemma AnimatedExactly(data: seq<byte>, crc: seq<byte> -> word)
    requires |data| >= 8
    ensures Scan(data, 8, START, crc) == Animated <==> IsAnimated(data, crc)
  {
    assert StateAfter([]) == START;
    NothingIsAllowed();
    hide Scan, WellFormedPrefix, Print, PrintAll, StateAfter, Sized;
    if Scan(data, 8, START, crc) == Animated {
      var cs, c, rest := AnimatedIsSound(data, 8, [], crc);
      assert [] + cs == cs;
      assert AnimatesAfter(data[8..], cs, c, rest, crc);
    }
    hide AnimatesAfter;
    forall cs, c, rest | AnimatesAfter(data[8..], cs, c, rest, crc) ensures Scan(data, 8, START, crc) == Animated {
      AnimationIsFound(data, cs, c, rest, crc);
    }
  }

  lemma NothingIsAllowed()
    ensures WellFormedPrefix([])
  {
  }

  // ---------------------------------------------------------------- the loop

  /** What one framed chunk does to the four flags, in the order the source checks. */
  method HandleChunk(kind: seq<byte>, size: nat, atEnd: bool, header: bool, palette: bool, pixels: bool, ended: bool)
    returns (round: Round)
    requires |kind| == 4
    ensures forall c: Chunk :: c.kind == kind && |c.payload| == size ==>
              round == Decide(ScanState(header, palette, pixels, ended), c, atEnd)
  {
    var seenHeader, seenPalette, seenPixels, pixelsEnded := header, palette, pixels, ended;
    if !Lettered(kind) { return Stop(Corrupt); }
    if !seenHeader && kind != IHDR { return Stop(Corrupt); }
    if kind == IHDR {
      if seenHeader || size != 13 { return Stop(Corrupt); }
      seenHeader := true;
    } else if kind == PLTE {
      if seenPalette || seenPixels { return Stop(Corrupt); }
      seenPalette := true;
    } else if kind == IDAT {
      if pixelsEnded { return Stop(Corrupt); }
      seenPixels := true;
    } else if Critical(kind) && kind != IEND {
      return Stop(Corrupt);
    }
    if kind == ACTL || kind == FCTL || kind == FDAT { return Stop(Animated); }
    if seenPixels && kind != IDAT { pixelsEnded := true; }
    if kind == IEND {
      return Stop(if size != 0 || !atEnd || !seenPixels then Corrupt else Accepted);
    }
    return Go(ScanState(seenHeader, seenPalette, seenPixels, pixelsEnded));
  }

  /** The framing checks at the head of a round. */
  method FrameChunk(data: seq<byte>, offset: nat, crc: seq<byte> -> word) returns (r: Option<(Chunk, nat)>)
    requires offset <= |data|
    ensures r == ReadChunk(data, offset, crc)
  {
    if |data| - offset < 12 { return None; }
    var size := Be32Value(data[offset..offset + 4]);
    var kind := data[offset + 4..offset + 8];
    var end := offset + 12 + size;
    if end > |data| { return None; }
    var expected := Be32Value(data[end - 4..end]);
    if crc(data[offset + 4..end - 4]) != expected { return None; }
    return Some((Chunk(kind, data[offset + 8..end - 4]), end));
  }

  /** The scanning loop, which starts behind the signature. */
  method ScanChunks(data: seq<byte>, crc: seq<byte> -> word) returns (v: Verdict)
    ensures |data| < 8 ==> v == Corrupt
    ensures |data| >= 8 ==> v == Scan(data, 8, START, crc)
  {
    var offset, st := 8, START;
    while offset < |data|
      invariant |data| >= 8 ==> offset <= |data|
      invariant |data| >= 8 ==> Scan(data, 8, START, crc) == Scan(data, offset, st, crc)
      decreases |data| - offset
    {
      var framed := FrameChunk(data, offset, crc);
      if framed == None { return Corrupt; }
      var (c, end) := framed.value;
      var round := HandleChunk(c.kind, |c.payload|, end == |data|, st.header, st.palette, st.pixels, st.pixelsEnded);
      assert round == Decide(st, c, end == |data|);
      match round {
        case Stop(verdict) => return verdict;
        case Go(next) => st, offset := next, end;
      }
    }
    return Corrupt;
  }

  /** The validator accepts exactly the images of the grammar, and calls animated exactly the animated ones. */
  method ValidateChunks(data: seq<byte>, crc: seq<byte> -> word) returns (v: Verdict)
    ensures v == Accepted <==> IsImage(data, crc)
    ensures v == Animated <==> IsAnimated(data, crc)
  {
    v := ScanChunks(data, crc);
    if |data| >= 8 {
      AcceptsExactlyImages(data, crc);
      AnimatedExactly(data, crc);
    }
  }
}
