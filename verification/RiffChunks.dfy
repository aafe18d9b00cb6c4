/**
 * The RIFF/WebP chunk scanner of backend/src/job_apply_pro/ai/media_normalization.py against
 * the padded chunks of RFC 9649 (sections 2.3 and 2.4).
 */
module RiffChunks {
  import opened Prelude
  import opened Bytes

  datatype Verdict = Accepted | Corrupt | Animated

  const ANIM: seq<byte> := [65, 78, 73, 77]
  const ANMF: seq<byte> := [65, 78, 77, 70]

  lemma KindNames()
    ensures ANIM == Ascii("ANIM") && ANMF == Ascii("ANMF")
  {
  }

  // ---------------------------------------------------------------- grammar

  /** A chunk of odd size is followed by one padding byte of any value. */
  datatype Chunk = Chunk(kind: seq<byte>, payload: seq<byte>, pad: seq<byte>)

  predicate Shaped(c: Chunk) {
    |c.kind| == 4 && |c.payload| < 0x1_0000_0000 && |c.pad| == |c.payload| % 2
  }

  predicate AllShaped(cs: seq<Chunk>) { forall i :: 0 <= i < |cs| ==> Shaped(cs[i]) }

  predicate Moving(c: Chunk) { c.kind == ANIM || c.kind == ANMF }

  predicate Still(cs: seq<Chunk>) { forall i :: 0 <= i < |cs| ==> !Moving(cs[i]) }

  function Print(c: Chunk): seq<byte>
    requires Shaped(c)
  {
    c.kind + Le32(|c.payload|) + c.payload + c.pad
  }

  function PrintAll(cs: seq<Chunk>): seq<byte>
    requires AllShaped(cs)
  {
    if cs == [] then [] else Print(cs[0]) + PrintAll(cs[1..])
  }

  /** Behind the 12-byte header, `data` is a tiling of its declared size by still chunks. */
  ghost predicate IsImage(data: seq<byte>) {
    && |data| >= 12 && Le32Value(data[4..8]) == |data| - 8
    && exists cs :: AllShaped(cs) && Still(cs) && data[12..] == PrintAll(cs)
  }

  /** Behind the header, `data` tiles into still chunks up to a whole animation chunk. */
  ghost predicate IsMoving(data: seq<byte>) {
    && |data| >= 12 && Le32Value(data[4..8]) == |data| - 8
    && exists cs, c, rest :: TilesTo(data[12..], cs, c, rest)
  }

  ghost predicate TilesTo(tail: seq<byte>, cs: seq<Chunk>, c: Chunk, rest: seq<byte>) {
    AllShaped(cs) && Still(cs) && Shaped(c) && Moving(c) && tail == PrintAll(cs) + (Print(c) + rest)
  }

  // ---------------------------------------------------------------- scanner

  function ReadChunk(data: seq<byte>, offset: nat): (r: Option<(Chunk, nat)>)
    requires offset <= |data|
    ensures r.Some? ==> offset < r.value.1 <= |data|
  {
    if |data| - offset < 8 then None
    else
      var size := Le32Value(data[offset + 4..offset + 8]);
      var body := offset + 8;
      if body + size + size % 2 > |data| then None
      else
        var end := body + size + size % 2;
        Some((Chunk(data[offset..offset + 4], data[body..body + size], data[body + size..end]), end))
  }

  function Scan(data: seq<byte>, offset: nat): Verdict
    requires offset <= |data|
    decreases |data| - offset
  {
    if offset == |data| then Accepted
    else
      match ReadChunk(data, offset)
      case None => Corrupt
      case Some((c, end)) => if Moving(c) then Animated else Scan(data, end)
  }

  // ---------------------------------------------------------------- one chunk

  lemma ReadsPrintedChunk(data: seq<byte>, offset: nat, c: Chunk, rest: seq<byte>)
    requires offset <= |data| && Shaped(c) && data[offset..] == Print(c) + rest
    ensures ReadChunk(data, offset) == Some((c, offset + |Print(c)|)) && data[offset + |Print(c)|..] == rest
  {
    hide Le32, Le32Value;
    var n := |c.payload|;
    assert data[offset..] == c.kind + (Le32(n) + (c.payload + (c.pad + rest)));
    Reads(data, offset, c.kind, Le32(n) + (c.payload + (c.pad + rest)));
    Reads(data, offset + 4, Le32(n), c.payload + (c.pad + rest));
    Reads(data, offset + 8, c.payload, c.pad + rest);
    Reads(data, offset + 8 + n, c.pad, rest);
  }

  lemma PrintsReadChunk(data: seq<byte>, offset: nat)
    requires offset <= |data| && ReadChunk(data, offset).Some?
    ensures
      var (c, end) := ReadChunk(data, offset).value;
      Shaped(c) && data[offset..] == Print(c) + data[end..]
  {
    var (c, end) := ReadChunk(data, offset).value;
    Le32OfValue(data[offset + 4..offset + 8]);
    hide Le32, Le32Value;
    var body := offset + 8 + |c.payload|;
    Tiles(data, offset, offset + 4, offset + 8, body, end);
    assert Print(c) == data[offset..offset + 4] + data[offset + 4..offset + 8] + data[offset + 8..body] + data[body..end];
  }

  lemma Tiles(data: seq<byte>, a: nat, b: nat, c: nat, d: nat, e: nat)
    requires a <= b <= c <= d <= e <= |data|
    ensures data[a..] == (data[a..b] + data[b..c] + data[c..d] + data[d..e]) + data[e..]
  {
  }

  lemma ConsTiling(c: Chunk, cs: seq<Chunk>)
    requires AllShaped(cs) && Shaped(c)
    ensures AllShaped([c] + cs) && PrintAll([c] + cs) == Print(c) + PrintAll(cs)
    ensures Still([c] + cs) <==> !Moving(c) && Still(cs)
  {
    assert ([c] + cs)[0] == c && ([c] + cs)[1..] == cs;
    forall i | 0 <= i < |cs| ensures ([c] + cs)[i + 1] == cs[i] {}
    assert Still([c] + cs) <==> !Moving(c) && Still(cs);
  }

  // ---------------------------------------------------------------- both directions

  lemma ScanAtChunk(data: seq<byte>, offset: nat, c: Chunk, rest: seq<byte>)
    requires offset <= |data| && Shaped(c) && data[offset..] == Print(c) + rest
    ensures offset < offset + |Print(c)| <= |data| && data[offset + |Print(c)|..] == rest
    ensures Scan(data, offset) == if Moving(c) then Animated else Scan(data, offset + |Print(c)|)
  {
    hide Le32, Le32Value, ReadChunk;
    ReadsPrintedChunk(data, offset, c, rest);
  }

  /** The scanner walks over printed still chunks to whatever follows them. */
  lemma {:induction false} ScanSkipsPrinted(data: seq<byte>, offset: nat, cs: seq<Chunk>, rest: seq<byte>)
    requires offset <= |data| && AllShaped(cs) && Still(cs) && data[offset..] == PrintAll(cs) + rest
    ensures offset + |PrintAll(cs)| <= |data| && data[offset + |PrintAll(cs)|..] == rest
    ensures Scan(data, offset) == Scan(data, offset + |PrintAll(cs)|)
    decreases |cs|
  {
    hide Le32, Le32Value, ReadChunk;
    if cs == [] { assert data[offset..] == rest; }
    else {
      var c, later := cs[0], cs[1..];
      assert data[offset..] == Print(c) + (PrintAll(later) + rest);
      ScanAtChunk(data, offset, c, PrintAll(later) + rest);
      ScanSkipsPrinted(data, offset + |Print(c)|, later, rest);
    }
  }

  /** A chunk in front of a tiling. */
  lemma ConsReading(tail: seq<byte>, c: Chunk, cs: seq<Chunk>, more: seq<byte>) returns (all: seq<Chunk>)
    requires Shaped(c) && !Moving(c) && tail == Print(c) + more && AllShaped(cs) && Still(cs)
    ensures AllShaped(all) && Still(all)
    ensures more == PrintAll(cs) ==> tail == PrintAll(all)
    ensures forall last, rest :: TilesTo(more, cs, last, rest) ==> TilesTo(tail, all, last, rest)
  {
    all := [c] + cs;
    ConsTiling(c, cs);
  }

  /** Whatever the scanner does not call corrupt is a tiling, whole or up to an animation chunk. */
  lemma {:induction false} ScanIsSound(data: seq<byte>, offset: nat) returns (cs: seq<Chunk>)
    requires offset <= |data|
    ensures AllShaped(cs) && Still(cs)
    ensures Scan(data, offset) == Accepted ==> data[offset..] == PrintAll(cs)
    ensures Scan(data, offset) == Animated ==> exists c, rest :: TilesTo(data[offset..], cs, c, rest)
    decreases |data| - offset
  {
    cs := [];
    if offset < |data| && ReadChunk(data, offset).Some? {
      var (c, end) := ReadChunk(data, offset).value;
      PrintsReadChunk(data, offset);
      if Moving(c) {
        assert TilesTo(data[offset..], [], c, data[end..]);
      } else {
        var later := ScanIsSound(data, end);
        cs := ConsReading(data[offset..], c, later, data[end..]);
      }
    }
  }

  /** Bytes tile into chunks in at most one way. */
  lemma {:induction false} ReadingIsUnique(cs: seq<Chunk>, ds: seq<Chunk>)
    requires AllShaped(cs) && AllShaped(ds) && PrintAll(cs) == PrintAll(ds)
    ensures cs == ds
  {
    if cs != [] && ds != [] {
      var data := PrintAll(cs);
      assert data[0..] == data;
      ReadsPrintedChunk(data, 0, cs[0], PrintAll(cs[1..]));
      ReadsPrintedChunk(data, 0, ds[0], PrintAll(ds[1..]));
      ReadingIsUnique(cs[1..], ds[1..]);
    }
  }

  lemma AcceptsExactlyImages(data: seq<byte>)
    requires |data| >= 12 && Le32Value(data[4..8]) == |data| - 8
    ensures Scan(data, 12) == Accepted <==> IsImage(data)
  {
    hide Le32, Le32Value, ReadChunk;
    if IsImage(data) {
      var cs :| AllShaped(cs) && Still(cs) && data[12..] == PrintAll(cs);
      assert data[12..] == PrintAll(cs) + [];
      ScanSkipsPrinted(data, 12, cs, []);
    } else {
      var read := ScanIsSound(data, 12);
    }
  }

  lemma CallsAnimatedExactlyMoving(data: seq<byte>)
    requires |data| >= 12 && Le32Value(data[4..8]) == |data| - 8
    ensures Scan(data, 12) == Animated <==> IsMoving(data)
  {
    hide Le32, Le32Value, ReadChunk;
    if IsMoving(data) {
      var cs, c, rest :| TilesTo(data[12..], cs, c, rest);
      ScanSkipsPrinted(data, 12, cs, Print(c) + rest);
      ScanAtChunk(data, 12 + |PrintAll(cs)|, c, rest);
    } else {
      var read := ScanIsSound(data, 12);
    }
  }

  // ---------------------------------------------------------------- the loop

  /** The validator accepts exactly the still images, and calls animated exactly the moving ones. */
  method ValidateChunks(data: seq<byte>) returns (v: Verdict)
    requires |data| >= 12
    ensures v == Accepted <==> IsImage(data)
    ensures v == Animated <==> IsMoving(data)
  {
    if Le32Value(data[4..8]) != |data| - 8 { return Corrupt; }
    AcceptsExactlyImages(data);
    CallsAnimatedExactlyMoving(data);
    var offset := 12;
    while offset < |data|
      invariant offset <= |data| && Scan(data, 12) == Scan(data, offset)
      decreases |data| - offset
    {
      if |data| - offset < 8 { return Corrupt; }
      var kind := data[offset..offset + 4];
      var size := Le32Value(data[offset + 4..offset + 8]);
      ghost var from := offset;
      offset := offset + 8 + size + size % 2;
      if offset > |data| { return Corrupt; }
      assert ReadChunk(data, from).value.0.kind == kind && ReadChunk(data, from).value.1 == offset;
      if kind == ANIM || kind == ANMF { return Animated; }
    }
    return Accepted;
  }
}
