/**
 * The JPEG marker scanner of backend/src/job_apply_pro/ai/media_normalization.py against
 * a grammar of marker segments (section B.1.1 of ITU-T T.81).
 */
module JpegFraming {
  import opened Prelude
  import opened Bytes

  const SOS: byte := 0xDA
  const EOI: byte := 0xD9
  const DNL: byte := 0xDC
  const TEM: byte := 0x01

  datatype Verdict = Accepted | Corrupt | MultiFrame

  // ---------------------------------------------------------------- grammar

  /**
   * One marker: the entropy-coded bytes before it, the fill bytes in front of its code
   * beyond the first 0xFF, its code, and the payload of a length-bearing segment.
   */
  datatype Marker = Marker(lead: seq<byte>, fill: nat, code: byte, payload: seq<byte>)

  predicate StuffedOrRestart(code: byte) { code == 0 || 0xD0 <= code <= 0xD7 }

  predicate HasLength(code: byte) { 0xC0 <= code < 0xFF && !(0xD0 <= code <= 0xD9) }

  predicate FrameHeader(code: byte) { 0xC0 <= code <= 0xCF && code != 0xC4 && code != 0xC8 && code != 0xCC }

  /** The identifier of a Multi-Picture Format segment. */
  const MPF: seq<byte> := [0x4D, 0x50, 0x46, 0x00]

  predicate MpfSegment(m: Marker) { m.code == 0xE2 && |m.payload| >= 4 && m.payload[..4] == MPF }

  /** What stands behind the code of a marker. */
  function PrintSegment(m: Marker): seq<byte>
    requires HasLength(m.code) ==> |m.payload| + 2 < 0x1_0000
  {
    if HasLength(m.code) then Be16(|m.payload| + 2) + m.payload else []
  }

  function Print(m: Marker): seq<byte>
    requires HasLength(m.code) ==> |m.payload| + 2 < 0x1_0000
  {
    m.lead + seq(m.fill + 1, _ => 0xFF) + [m.code] + PrintSegment(m)
  }

  predicate Shaped(m: Marker) {
    && 0xFF !in m.lead
    && (StuffedOrRestart(m.code) || m.code == TEM || m.code == EOI || HasLength(m.code))
    && (if HasLength(m.code) then |m.payload| + 2 < 0x1_0000 else m.payload == [])
  }

  predicate AllShaped(ms: seq<Marker>) { forall i :: 0 <= i < |ms| ==> Shaped(ms[i]) }

  function PrintAll(ms: seq<Marker>): seq<byte>
    requires AllShaped(ms)
  {
    if ms == [] then [] else Print(ms[0]) + PrintAll(ms[1..])
  }

  /** Entropy-coded bytes, stuffed bytes and restart markers occur only inside a scan. */
  predicate NeedsScan(m: Marker) { m.lead != [] || StuffedOrRestart(m.code) }

  /** Every length-bearing segment but DNL ends a scan; SOS begins the next one. */
  predicate EndsScan(m: Marker) { HasLength(m.code) && m.code != DNL }

  ghost predicate InScan(ms: seq<Marker>, i: nat)
    requires i <= |ms|
  {
    exists j :: 0 <= j < i && ms[j].code == SOS && forall k :: j < k < i ==> !EndsScan(ms[k])
  }

  ghost predicate Allowed(ms: seq<Marker>, i: nat)
    requires i < |ms|
  {
    && ms[i].code != EOI && !MpfSegment(ms[i])
    && (NeedsScan(ms[i]) ==> InScan(ms, i))
    && (FrameHeader(ms[i].code) ==> forall j :: 0 <= j < i ==> !FrameHeader(ms[j].code))
  }

  /** What may precede the end of an image: no EOI, no MPF segment, and at most one frame header. */
  ghost predicate WellFormedPrefix(ms: seq<Marker>) {
    AllShaped(ms) && forall i: nat :: i < |ms| ==> Allowed(ms, i)
  }

  /** The markers after SOI: at least one scan, at most one frame, and EOI last and only there. */
  ghost predicate WellFormed(ms: seq<Marker>) {
    && |ms| > 0
    && var body, last := ms[..|ms| - 1], ms[|ms| - 1];
       var ended := Shaped(last) && last.code == EOI && (NeedsScan(last) ==> InScan(body, |body|));
       var scanned := exists i :: 0 <= i < |body| && body[i].code == SOS;
       WellFormedPrefix(body) && ended && scanned
  }

  // ---------------------------------------------------------------- scanner

  datatype ScanState = ScanState(inScan: bool, sawScan: bool, frames: nat)

  const START: ScanState := ScanState(false, false, 0)

  function After(st: ScanState, code: byte): ScanState {
    if !HasLength(code) then st
    else ScanState(
           code == SOS || (code == DNL && st.inScan),
           st.sawScan || code == SOS,
           if FrameHeader(code) then st.frames + 1 else st.frames)
  }

  function FirstFF(data: seq<byte>, from: nat): (i: nat)
    requires from <= |data|
    ensures from <= i <= |data| && (i < |data| ==> data[i] == 0xFF)
    decreases |data| - from
  {
    if from == |data| || data[from] == 0xFF then from else FirstFF(data, from + 1)
  }

  function FirstNonFF(data: seq<byte>, from: nat): (i: nat)
    requires from <= |data|
    ensures from <= i <= |data| && (i < |data| ==> data[i] != 0xFF)
    decreases |data| - from
  {
    if from == |data| || data[from] != 0xFF then from else FirstNonFF(data, from + 1)
  }

  lemma {:induction false} SkipsToFF(data: seq<byte>, from: nat)
    requires from <= |data|
    ensures 0xFF !in data[from..FirstFF(data, from)]
    decreases |data| - from
  {
    if from < |data| && data[from] != 0xFF {
      SkipsToFF(data, from + 1);
      assert data[from..FirstFF(data, from)] == [data[from]] + data[from + 1..FirstFF(data, from)];
    }
  }

  lemma {:induction false} SkipsOnlyFF(data: seq<byte>, from: nat)
    requires from <= |data|
    ensures data[from..FirstNonFF(data, from)] == seq(FirstNonFF(data, from) - from, _ => 0xFF)
    decreases |data| - from
  {
    if from < |data| && data[from] == 0xFF {
      SkipsOnlyFF(data, from + 1);
      assert data[from..FirstNonFF(data, from)] == [data[from]] + data[from + 1..FirstNonFF(data, from)];
    }
  }

  lemma {:induction false} FindsFF(data: seq<byte>, from: nat, i: nat)
    requires from <= i < |data| && 0xFF !in data[from..i] && data[i] == 0xFF
    ensures FirstFF(data, from) == i
    decreases i - from
  {
    if from < i {
      assert data[from] == data[from..i][0] && data[from + 1..i] == data[from..i][1..];
      FindsFF(data, from + 1, i);
    }
  }

  lemma {:induction false} FindsNonFF(data: seq<byte>, from: nat, n: nat)
    requires from + n < |data| && data[from..from + n] == seq(n, _ => 0xFF) && data[from + n] != 0xFF
    ensures FirstNonFF(data, from) == from + n
    decreases n
  {
    if n > 0 {
      assert data[from] == data[from..from + n][0];
      assert data[from + 1..from + n] == data[from..from + n][1..] == seq(n - 1, _ => 0xFF);
      FindsNonFF(data, from + 1, n - 1);
    }
  }

  /** The next marker at `offset`, whatever the state, and the offset behind it. */
  function ReadMarker(data: seq<byte>, offset: nat): (r: Option<(Marker, nat)>)
    requires offset <= |data|
    ensures r.Some? ==> offset < r.value.1 <= |data|
  {
    var first := FirstFF(data, offset);
    var at := FirstNonFF(data, first);
    if at == |data| then None
    else
      var code, next := data[at], at + 1;
      var bare := Marker(data[offset..first], at - first - 1, code, []);
      if StuffedOrRestart(code) || code == EOI || code == TEM then Some((bare, next))
      else if !HasLength(code) || |data| - next < 2 then None
      else
        var end := next + Be16Value(data[next..next + 2]);
        if end < next + 2 || end > |data| then None
        else Some((bare.(payload := data[next + 2..end]), end))
  }

  datatype Round = Go(st: ScanState, next: nat) | Stop(verdict: Verdict)

  /** What one round of the scanning loop decides when `at` holds the code of the next marker. */
  function Decide(data: seq<byte>, at: nat, st: ScanState): (r: Round)
    requires at < |data|
    ensures r.Go? ==> at < r.next <= |data|
  {
    var code, next := data[at], at + 1;
    if StuffedOrRestart(code) then if st.inScan then Go(st, next) else Stop(Corrupt)
    else if code == EOI then if st.sawScan && next == |data| then Stop(Accepted) else Stop(Corrupt)
    else if code == TEM then Go(st, next)
    else if !HasLength(code) || |data| - next < 2 then Stop(Corrupt)
    else
      var size := Be16Value(data[next..next + 2]);
      if size < 2 || next + size > |data| then Stop(Corrupt)
      else if FrameHeader(code) && st.frames > 0 then Stop(MultiFrame)
      else if code == 0xE2 && size >= 6 && data[next + 2..next + 6] == MPF then Stop(MultiFrame)
      else Go(After(st, code), next + size)
  }

  /** The verdict of the scanner standing at `offset` in state `st`. */
  function Scan(data: seq<byte>, offset: nat, st: ScanState): Verdict
    requires offset <= |data|
    decreases |data| - offset
  {
    if offset == |data| || (!st.inScan && data[offset] != 0xFF) then Corrupt
    else
      var at := FirstNonFF(data, FirstFF(data, offset));
      if at == |data| then Corrupt
      else
        match Decide(data, at, st)
        case Stop(v) => v
        case Go(st1, next) => Scan(data, next, st1)
  }

  // ---------------------------------------------------------------- one marker

  /** The entropy-coded bytes and fill bytes in front of a code are found where they were printed. */
  lemma ReadsPrintedCode(data: seq<byte>, offset: nat, m: Marker, rest: seq<byte>)
    requires offset <= |data| && Shaped(m)
    requires data[offset..] == m.lead + (seq(m.fill + 1, _ => 0xFF) + ([m.code] + rest))
    ensures
      var first := FirstFF(data, offset);
      var at := FirstNonFF(data, first);
      && at < |data| && data[at] == m.code && data[offset..first] == m.lead && at - first - 1 == m.fill
      && data[at + 1..] == rest
  {
    var ones := seq(m.fill + 1, _ => 0xFF);
    Reads(data, offset, m.lead, ones + ([m.code] + rest));
    var first := offset + |m.lead|;
    Reads(data, first, ones, [m.code] + rest);
    Reads(data, first + m.fill + 1, [m.code], rest);
    assert data[first] == data[first..][0] == ones[0];
    assert data[first + m.fill + 1] == data[first + m.fill + 1..][0] == m.code;
    FindsFF(data, offset, first);
    FindsNonFF(data, first, m.fill + 1);
  }

  lemma ReadsPrintedSegment(data: seq<byte>, next: nat, payload: seq<byte>, rest: seq<byte>)
    requires next <= |data| && |payload| + 2 < 0x1_0000
    requires data[next..] == Be16(|payload| + 2) + (payload + rest)
    ensures next + 2 + |payload| <= |data| && Be16Value(data[next..next + 2]) == |payload| + 2
    ensures data[next + 2..next + 2 + |payload|] == payload && data[next + 2 + |payload|..] == rest
  {
    Reads(data, next, Be16(|payload| + 2), payload + rest);
    Reads(data, next + 2, payload, rest);
  }

  lemma PrintsInParts(m: Marker, rest: seq<byte>)
    requires Shaped(m)
    ensures Print(m) + rest == m.lead + (seq(m.fill + 1, _ => 0xFF) + ([m.code] + (PrintSegment(m) + rest)))
    ensures |Print(m)| == |m.lead| + m.fill + 2 + |PrintSegment(m)|
  {
  }

  /** What was printed behind a code is found there. */
  lemma ReadsPrintedTail(data: seq<byte>, next: nat, m: Marker, rest: seq<byte>)
    requires next <= |data| && Shaped(m) && data[next..] == PrintSegment(m) + rest
    ensures
      var end := next + |PrintSegment(m)|;
      && end <= |data| && data[end..] == rest
      && if HasLength(m.code) then
           next + 2 <= end && end == next + Be16Value(data[next..next + 2]) && data[next + 2..end] == m.payload
         else end == next && m.payload == []
  {
    hide Be16, Be16Value;
    if HasLength(m.code) {
      assert PrintSegment(m) + rest == Be16(|m.payload| + 2) + (m.payload + rest);
      ReadsPrintedSegment(data, next, m.payload, rest);
      Be16Size(|m.payload| + 2);
    }
  }

  lemma Be16Size(n: nat)
    requires n < 0x1_0000
    ensures |Be16(n)| == 2
  {
  }

  /** A marker all of whose parts are found at their places is what the scanner reads there. */
  lemma ReadsFromParts(data: seq<byte>, offset: nat, m: Marker, end: nat)
    requires offset <= |data| && Shaped(m)
    requires
      var first := FirstFF(data, offset);
      var at := FirstNonFF(data, first);
      && at < |data| && data[at] == m.code && data[offset..first] == m.lead && at - first - 1 == m.fill
      && at + 1 <= end <= |data|
      && if HasLength(m.code) then
           at + 3 <= end && end == at + 1 + Be16Value(data[at + 1..at + 3]) && data[at + 3..end] == m.payload
         else end == at + 1 && m.payload == []
    ensures ReadMarker(data, offset) == Some((m, end))
  {
    hide Be16Value, FirstFF, FirstNonFF;
  }

  /** At a printed marker the scanner reads exactly that marker. */
  lemma ReadsPrintedMarker(data: seq<byte>, offset: nat, m: Marker, rest: seq<byte>)
    requires offset <= |data| && Shaped(m) && data[offset..] == Print(m) + rest
    ensures ReadMarker(data, offset) == Some((m, offset + |Print(m)|)) && data[offset + |Print(m)|..] == rest
  {
    hide Be16, Be16Value, FirstFF, FirstNonFF, Print, PrintSegment, ReadMarker, HasLength;
    PrintsInParts(m, rest);
    ReadsPrintedCode(data, offset, m, PrintSegment(m) + rest);
    var next := FirstNonFF(data, FirstFF(data, offset)) + 1;
    ReadsPrintedTail(data, next, m, rest);
    assert offset + |Print(m)| == next + |PrintSegment(m)|;
    ReadsFromParts(data, offset, m, offset + |Print(m)|);
  }

  /** The bytes up to the code of the next marker are its lead, its fill bytes and its code. */
  lemma PrintsReadCode(data: seq<byte>, offset: nat)
    requires offset <= |data| && FirstNonFF(data, FirstFF(data, offset)) < |data|
    ensures
      var first := FirstFF(data, offset);
      var at := FirstNonFF(data, first);
      && first < at && 0xFF !in data[offset..first]
      && data[offset..at + 1] == data[offset..first] + seq(at - first, _ => 0xFF) + [data[at]]
  {
    var first := FirstFF(data, offset);
    var at := FirstNonFF(data, first);
    SkipsToFF(data, offset);
    SkipsOnlyFF(data, first);
    assert data[offset..at + 1] == data[offset..first] + data[first..at] + [data[at]];
  }

  lemma PrintsReadSegment(data: seq<byte>, next: nat, end: nat, m: Marker)
    requires HasLength(m.code) && next + 2 <= end <= |data| && end == next + Be16Value(data[next..next + 2])
    requires m.payload == data[next + 2..end]
    ensures |m.payload| + 2 < 0x1_0000 && data[next..end] == PrintSegment(m)
  {
    Be16OfValue(data[next..next + 2]);
    Splits(data, next, next + 2, end);
  }

  /** What is read behind a code is a segment if the code has a length, and nothing otherwise. */
  lemma PrintsReadTail(data: seq<byte>, offset: nat)
    requires offset <= |data| && ReadMarker(data, offset).Some?
    ensures
      var (m, end) := ReadMarker(data, offset).value;
      var at := FirstNonFF(data, FirstFF(data, offset));
      Shaped(m.(lead := [])) && at < |data| && at + 1 <= end && data[at + 1..end] == PrintSegment(m)
  {
    var at := FirstNonFF(data, FirstFF(data, offset));
    var (m, end) := ReadMarker(data, offset).value;
    if HasLength(m.code) { PrintsReadSegment(data, at + 1, end, m); }
  }

  /** The parts of what is read that stand in front of a segment. */
  lemma ReadShape(data: seq<byte>, offset: nat)
    requires offset <= |data| && ReadMarker(data, offset).Some?
    ensures
      var (m, end) := ReadMarker(data, offset).value;
      var first := FirstFF(data, offset);
      var at := FirstNonFF(data, first);
      && first < at < end && m.lead == data[offset..first] && m.fill == at - first - 1 && m.code == data[at]
  {
    var first := FirstFF(data, offset);
    if first < |data| { assert data[first] == 0xFF; }
  }

  /** What the scanner reads prints back as the bytes it was read from. */
  lemma PrintsReadMarker(data: seq<byte>, offset: nat)
    requires offset <= |data| && ReadMarker(data, offset).Some?
    ensures
      var (m, end) := ReadMarker(data, offset).value;
      Shaped(m) && data[offset..end] == Print(m)
  {
    hide ReadMarker, FirstFF, FirstNonFF, PrintSegment;
    ReadShape(data, offset);
    PrintsReadTail(data, offset);
    PrintsReadCode(data, offset);
    Splits(data, offset, FirstNonFF(data, FirstFF(data, offset)) + 1, ReadMarker(data, offset).value.1);
  }

  lemma Splits(data: seq<byte>, from: nat, mid: nat, end: nat)
    requires from <= mid <= end <= |data|
    ensures data[from..end] == data[from..mid] + data[mid..end]
  {
  }

  // ---------------------------------------------------------------- state and grammar

  function StateAfter(ms: seq<Marker>): ScanState {
    if ms == [] then START else After(StateAfter(ms[..|ms| - 1]), ms[|ms| - 1].code)
  }

  ghost predicate SawScan(ms: seq<Marker>) { exists i :: 0 <= i < |ms| && ms[i].code == SOS }

  ghost predicate SawFrame(ms: seq<Marker>) { exists i :: 0 <= i < |ms| && FrameHeader(ms[i].code) }

  lemma SawGrows(body: seq<Marker>, m: Marker)
    ensures SawScan(body + [m]) <==> SawScan(body) || m.code == SOS
    ensures SawFrame(body + [m]) <==> SawFrame(body) || FrameHeader(m.code)
  {
    hide FrameHeader;
    var ms := body + [m];
    assert ms[|body|] == m;
    if SawScan(body) { var i :| 0 <= i < |body| && body[i].code == SOS; assert ms[i].code == SOS; }
    if SawFrame(body) { var i :| 0 <= i < |body| && FrameHeader(body[i].code); assert ms[i] == body[i]; }
  }

  lemma HaveLength(code: byte)
    ensures code == SOS || FrameHeader(code) ==> HasLength(code)
  {
  }

  /** The scanner's three variables say what the grammar asks about the markers read so far. */
  lemma {:induction false} StateMeaning(ms: seq<Marker>)
    ensures StateAfter(ms).inScan <==> InScan(ms, |ms|)
    ensures StateAfter(ms).sawScan <==> SawScan(ms)
    ensures StateAfter(ms).frames > 0 <==> SawFrame(ms)
  {
    if ms != [] {
      hide InScan, SawScan, SawFrame, FrameHeader, HasLength;
      var n := |ms| - 1;
      var body, m := ms[..n], ms[n];
      StateMeaning(body);
      assert ms == body + [m];
      HaveLength(m.code);
      InScanGrows(body, m);
      SawGrows(body, m);
    }
  }

  lemma InScanGrows(body: seq<Marker>, m: Marker)
    ensures InScan(body + [m], |body| + 1) <==> m.code == SOS || (InScan(body, |body|) && !EndsScan(m))
    ensures forall i: nat :: i <= |body| ==> (InScan(body + [m], i) <==> InScan(body, i))
  {
    var ms := body + [m];
    assert forall k :: 0 <= k < |body| ==> ms[k] == body[k];
    forall i: nat | i <= |body|
      ensures InScan(ms, i) <==> InScan(body, i)
    {
      if InScan(body, i) {
        var j :| 0 <= j < i && body[j].code == SOS && forall k :: j < k < i ==> !EndsScan(body[k]);
        assert ms[j].code == SOS;
      }
    }
    if InScan(ms, |body| + 1) && m.code != SOS {
      var j :| 0 <= j < |body| + 1 && ms[j].code == SOS && forall k :: j < k < |body| + 1 ==> !EndsScan(ms[k]);
      assert !EndsScan(ms[|body|]);
    }
    if m.code == SOS { assert ms[|body|].code == SOS; }
    if InScan(body, |body|) && !EndsScan(m) {
      var j :| 0 <= j < |body| && body[j].code == SOS && forall k :: j < k < |body| ==> !EndsScan(body[k]);
      assert ms[j].code == SOS;
    }
  }

  /** The checks the scanner makes on one more marker are those the grammar makes on it. */
  predicate Admits(st: ScanState, m: Marker) {
    && Shaped(m) && m.code != EOI
    && (NeedsScan(m) ==> st.inScan)
    && !(FrameHeader(m.code) && st.frames > 0)
    && !MpfSegment(m)
  }

  lemma PrefixGrows(body: seq<Marker>, m: Marker)
    ensures WellFormedPrefix(body + [m]) <==> WellFormedPrefix(body) && Admits(StateAfter(body), m)
  {
    var ms := body + [m];
    StateMeaning(body);
    InScanGrows(body, m);
    assert forall k :: 0 <= k < |body| ==> ms[k] == body[k];
    assert ms[|body|] == m;
    forall i: nat | i < |body| ensures Allowed(ms, i) <==> Allowed(body, i) { assert ms[i] == body[i]; }
    if WellFormedPrefix(ms) { assert Allowed(ms, |body|); }
  }

  lemma PrintAllShaped(ms: seq<Marker>, m: Marker)
    requires AllShaped([m] + ms)
    ensures AllShaped(ms) && Shaped(m) && PrintAll([m] + ms) == Print(m) + PrintAll(ms)
  {
    assert ([m] + ms)[0] == m && ([m] + ms)[1..] == ms;
    forall i | 0 <= i < |ms| ensures Shaped(ms[i]) { assert ([m] + ms)[i + 1] == ms[i]; }
  }

  /** The conditions under which the scanner accepts `m` as the end of the image. */
  predicate Closes(st: ScanState, m: Marker) {
    Shaped(m) && m.code == EOI && (NeedsScan(m) ==> st.inScan) && st.sawScan
  }

  lemma EndGrows(body: seq<Marker>, m: Marker)
    ensures WellFormed(body + [m]) <==> WellFormedPrefix(body) && Closes(StateAfter(body), m)
  {
    StateMeaning(body);
    assert (body + [m])[..|body|] == body;
  }

  // ---------------------------------------------------------------- both directions

  /** What is read behind a code. */
  lemma ReadEnd(data: seq<byte>, offset: nat)
    requires offset <= |data| && ReadMarker(data, offset).Some?
    ensures
      var (m, end) := ReadMarker(data, offset).value;
      var next := FirstNonFF(data, FirstFF(data, offset)) + 1;
      if HasLength(m.code) then
        next + 2 <= end <= |data| && end == next + Be16Value(data[next..next + 2]) && m.payload == data[next + 2..end]
      else end == next
  {
  }

  lemma MpfBytes(data: seq<byte>, from: nat, end: nat)
    requires from + 4 <= end <= |data|
    ensures data[from..from + 4] == data[from..end][..4]
  {
  }

  /** At the code of a marker, the scanner's checks are those of the grammar. */
  lemma DecidesOnCode(data: seq<byte>, at: nat, st: ScanState, m: Marker, end: nat)
    requires at < end <= |data| && m.code == data[at] && Shaped(m) && (m.lead == [] || st.inScan)
    requires
      if HasLength(m.code) then
        at + 3 <= end && end == at + 1 + Be16Value(data[at + 1..at + 3]) && m.payload == data[at + 3..end]
      else end == at + 1
    ensures Decide(data, at, st).Go? <==> Admits(st, m)
    ensures Admits(st, m) ==> Decide(data, at, st) == Go(After(st, m.code), end)
    ensures Decide(data, at, st) == Stop(Accepted) <==> Closes(st, m) && end == |data|
  {
    hide Be16Value;
    if HasLength(m.code) && end >= at + 7 { MpfBytes(data, at + 3, end); }
  }

  /** On a marker that can be read, the round goes on past it exactly when the grammar admits it. */
  lemma DecidesOnMarker(data: seq<byte>, offset: nat, st: ScanState)
    requires offset <= |data| && ReadMarker(data, offset).Some?
    ensures
      var (m, end) := ReadMarker(data, offset).value;
      var at := FirstNonFF(data, FirstFF(data, offset));
      && (m.lead == [] || st.inScan ==>
            && (Admits(st, m) ==> Decide(data, at, st) == Go(After(st, m.code), end))
            && (Closes(st, m) && end == |data| ==> Decide(data, at, st) == Stop(Accepted))
            && (Decide(data, at, st).Go? ==> Admits(st, m))
            && (Decide(data, at, st) == Stop(Accepted) ==> Closes(st, m) && end == |data|))
  {
    hide ReadMarker, Decide, Admits, Closes, After, FirstFF, FirstNonFF, Shaped, Print, HasLength, Be16Value;
    PrintsReadMarker(data, offset);
    ReadShape(data, offset);
    ReadEnd(data, offset);
    var (m, end) := ReadMarker(data, offset).value;
    if m.lead == [] || st.inScan { DecidesOnCode(data, FirstNonFF(data, FirstFF(data, offset)), st, m, end); }
  }

  lemma PrintsSomething(m: Marker)
    requires Shaped(m)
    ensures |Print(m)| > 0
  {
  }

  /** Neither check of the grammar lets entropy-coded bytes through outside a scan. */
  lemma LeadNeedsScan(st: ScanState, m: Marker)
    ensures Admits(st, m) || Closes(st, m) ==> m.lead == [] || st.inScan
  {
  }

  /** The scanner accepts every printed well-formed image. */
  lemma {:induction false} ScanIsComplete(data: seq<byte>, offset: nat, read: seq<Marker>, ms: seq<Marker>)
    requires offset <= |data| && ms != [] && WellFormed(read + ms)
    requires AllShaped(ms) && data[offset..] == PrintAll(ms)
    ensures Scan(data, offset, StateAfter(read)) == Accepted
    decreases |ms|
  {
    hide WellFormed, WellFormedPrefix, StateAfter, Scan, ReadMarker, Decide, Admits, Closes, After;
    hide FirstFF, FirstNonFF, Shaped, Print;
    var m, rest := ms[0], ms[1..];
    assert ms == [m] + rest;
    PrintAllShaped(rest, m);
    ReadsPrintedMarker(data, offset, m, PrintAll(rest));
    PrintsSomething(m);
    DecidesOnMarker(data, offset, StateAfter(read));
    ScanUsesRound(data, offset, StateAfter(read));
    LeadNeedsScan(StateAfter(read), m);
    if rest == [] {
      assert ms == [m];
      EndGrows(read, m);
    } else {
      FirstIsAdmitted(read, m, rest);
      ScanIsComplete(data, offset + |Print(m)|, read + [m], rest);
    }
  }

  /** A round is decided at the marker that can be read, unless bytes precede it outside a scan. */
  lemma ScanUsesRound(data: seq<byte>, offset: nat, st: ScanState)
    requires offset <= |data|
    ensures
      var at := FirstNonFF(data, FirstFF(data, offset));
      if ReadMarker(data, offset).None? then Scan(data, offset, st) == Corrupt
      else
        && at < |data|
        && Scan(data, offset, st) ==
           if ReadMarker(data, offset).value.0.lead != [] && !st.inScan then Corrupt
           else match Decide(data, at, st) case Stop(v) => v case Go(st1, next) => Scan(data, next, st1)
  {
    var first := FirstFF(data, offset);
    if first < |data| { assert data[first] == 0xFF; }
  }

  lemma BodyIsPrefix(all: seq<Marker>)
    requires WellFormed(all)
    ensures all != [] && WellFormedPrefix(all[..|all| - 1])
  {
  }

  lemma Regroup(read: seq<Marker>, m: Marker, rest: seq<Marker>)
    requires rest != []
    ensures read + ([m] + rest) == read + [m] + rest
    ensures (read + [m] + rest)[..|read| + |rest|] == read + [m] + rest[..|rest| - 1]
    ensures (read + [m])[..|read|] == read
  {
  }

  lemma FirstIsAdmitted(read: seq<Marker>, m: Marker, rest: seq<Marker>)
    requires rest != [] && WellFormed(read + ([m] + rest))
    ensures Admits(StateAfter(read), m) && StateAfter(read + [m]) == After(StateAfter(read), m.code)
    ensures WellFormed(read + [m] + rest)
  {
    hide WellFormed, Admits, WellFormedPrefix, After;
    Regroup(read, m, rest);
    BodyIsPrefix(read + [m] + rest);
    PrefixOfPrefix(read + [m], rest[..|rest| - 1]);
    PrefixGrows(read, m);
  }

  lemma {:induction false} PrefixOfPrefix(body: seq<Marker>, more: seq<Marker>)
    requires WellFormedPrefix(body + more)
    ensures WellFormedPrefix(body)
    decreases |more|
  {
    hide Allowed, Admits, AllShaped, WellFormedPrefix;
    if more == [] { assert body + more == body; }
    else {
      var n := |more| - 1;
      assert body + more == (body + more[..n]) + [more[n]];
      PrefixGrows(body + more[..n], more[n]);
      PrefixOfPrefix(body, more[..n]);
    }
  }

  /** One accepted round: the marker read, and what remains to be accepted. */
  lemma AcceptedRound(data: seq<byte>, offset: nat, st: ScanState) returns (m: Marker, end: nat)
    requires offset <= |data| && Scan(data, offset, st) == Accepted
    ensures offset < end <= |data| && Shaped(m) && data[offset..] == Print(m) + data[end..]
    ensures if m.code == EOI then Closes(st, m) && end == |data| else Admits(st, m) && Scan(data, end, After(st, m.code)) == Accepted
  {
    hide Scan, ReadMarker, Decide, After, FirstFF, FirstNonFF, Shaped, NeedsScan, MpfSegment, FrameHeader, Print;
    ScanUsesRound(data, offset, st);
    m, end := ReadMarker(data, offset).value.0, ReadMarker(data, offset).value.1;
    PrintsReadMarker(data, offset);
    DecidesOnMarker(data, offset, st);
    assert data[offset..] == data[offset..end] + data[end..];
  }

  /** Whatever the scanner accepts is a printed well-formed image. */
  lemma {:induction false} ScanIsSound(data: seq<byte>, offset: nat, read: seq<Marker>) returns (ms: seq<Marker>)
    requires offset <= |data| && WellFormedPrefix(read) && Scan(data, offset, StateAfter(read)) == Accepted
    ensures WellFormed(read + ms) && AllShaped(ms) && data[offset..] == PrintAll(ms)
    decreases |data| - offset
  {
    var m, end := AcceptedRound(data, offset, StateAfter(read));
    if m.code == EOI {
      ms := [m];
      EndGrows(read, m);
      PrintOne(m);
    } else {
      AdmittedGrows(read, m);
      var rest := ScanIsSound(data, end, read + [m]);
      ms := ConsReading(data, offset, read, m, end, rest);
    }
  }

  lemma ConsReading(data: seq<byte>, offset: nat, read: seq<Marker>, m: Marker, end: nat, rest: seq<Marker>)
    returns (ms: seq<Marker>)
    requires offset <= end <= |data| && Shaped(m) && data[offset..] == Print(m) + data[end..]
    requires WellFormed(read + [m] + rest) && AllShaped(rest) && data[end..] == PrintAll(rest)
    ensures WellFormed(read + ms) && AllShaped(ms) && data[offset..] == PrintAll(ms)
  {
    hide WellFormed, Print, Shaped;
    ms := [m] + rest;
    assert read + [m] + rest == read + ms;
    assert forall i :: 0 <= i < |rest| ==> ms[i + 1] == rest[i];
    PrintAllShaped(rest, m);
  }

  lemma PrintOne(m: Marker)
    requires Shaped(m)
    ensures PrintAll([m]) == Print(m)
  {
    assert [m][1..] == [] && PrintAll([m][1..]) == [];
  }

  lemma AdmittedGrows(read: seq<Marker>, m: Marker)
    requires WellFormedPrefix(read) && Admits(StateAfter(read), m)
    ensures WellFormedPrefix(read + [m]) && StateAfter(read + [m]) == After(StateAfter(read), m.code)
  {
    PrefixGrows(read, m);
    assert (read + [m])[..|read|] == read;
  }

  /** Bytes can be read as a list of markers in at most one way. */
  lemma {:induction false} ReadingIsUnique(ms: seq<Marker>, ns: seq<Marker>)
    requires AllShaped(ms) && AllShaped(ns) && PrintAll(ms) == PrintAll(ns)
    ensures ms == ns
  {
    if ms != [] && ns != [] {
      var data := PrintAll(ms);
      PrintAllShaped(ms[1..], ms[0]);
      PrintAllShaped(ns[1..], ns[0]);
      assert data[0..] == data && ms == [ms[0]] + ms[1..] && ns == [ns[0]] + ns[1..];
      ReadsPrintedMarker(data, 0, ms[0], PrintAll(ms[1..]));
      ReadsPrintedMarker(data, 0, ns[0], PrintAll(ns[1..]));
      ReadingIsUnique(ms[1..], ns[1..]);
    }
  }

  /** Behind its first two bytes, which the gate requires to be SOI, `data` prints a well-formed list of markers. */
  ghost predicate IsImage(data: seq<byte>) {
    |data| >= 2 && exists ms :: WellFormed(ms) && AllShaped(ms) && data[2..] == PrintAll(ms)
  }

  lemma AcceptsOnlyImages(data: seq<byte>)
    requires |data| >= 2 && Scan(data, 2, START) == Accepted
    ensures IsImage(data)
  {
    var ms := ScanIsSound(data, 2, []);
    assert [] + ms == ms;
  }

  lemma AcceptsPrinted(data: seq<byte>, ms: seq<Marker>)
    requires |data| >= 2 && WellFormed(ms) && AllShaped(ms) && data[2..] == PrintAll(ms)
    ensures Scan(data, 2, START) == Accepted
  {
    hide Scan, WellFormedPrefix, AllShaped, PrintAll;
    assert StateAfter([]) == START && [] + ms == ms;
    ScanIsComplete(data, 2, [], ms);
  }

  lemma AcceptsExactlyImages(data: seq<byte>)
    requires |data| >= 2
    ensures Scan(data, 2, START) == Accepted <==> IsImage(data)
  {
    hide WellFormed, Scan, AllShaped;
    if IsImage(data) {
      var ms :| WellFormed(ms) && AllShaped(ms) && data[2..] == PrintAll(ms);
      AcceptsPrinted(data, ms);
    } else if Scan(data, 2, START) == Accepted {
      AcceptsOnlyImages(data);
    }
  }

  // ---------------------------------------------------------------- several frames

  /** A second frame header, or a Multi-Picture Format segment. */
  ghost predicate AnotherFrame(ms: seq<Marker>, m: Marker) {
    && Shaped(m) && (m.lead == [] || InScan(ms, |ms|))
    && ((FrameHeader(m.code) && exists i :: 0 <= i < |ms| && FrameHeader(ms[i].code))
        || (m.code == 0xE2 && |m.payload| >= 4 && m.payload[..4] == [0x4D, 0x50, 0x46, 0x00]))
  }

  /** `tail` prints what an image may begin with, then another frame, then anything. */
  ghost predicate RepeatsAfter(tail: seq<byte>, ms: seq<Marker>, m: Marker, rest: seq<byte>) {
    AllShaped(ms) && WellFormedPrefix(ms) && AnotherFrame(ms, m) && tail == PrintAll(ms) + (Print(m) + rest)
  }

  /** Behind SOI stands what an image may begin with, up to a whole segment that begins another frame. */
  ghost predicate IsMultiFrame(data: seq<byte>) {
    |data| >= 2 && exists ms, m, rest :: RepeatsAfter(data[2..], ms, m, rest)
  }

  /** The conditions under which the scanner stops at `m` for another frame. */
  predicate Repeats(st: ScanState, m: Marker) {
    Shaped(m) && (m.lead == [] || st.inScan) && ((FrameHeader(m.code) && st.frames > 0) || MpfSegment(m))
  }

  lemma RepeatsMeans(ms: seq<Marker>, m: Marker)
    ensures AnotherFrame(ms, m) <==> Repeats(StateAfter(ms), m)
  {
    StateMeaning(ms);
    hide InScan, StateAfter;
  }

  lemma DecidesRepeated(data: seq<byte>, at: nat, st: ScanState, m: Marker, end: nat)
    requires at < end <= |data| && m.code == data[at] && Shaped(m) && (m.lead == [] || st.inScan)
    requires
      if HasLength(m.code) then
        at + 3 <= end && end == at + 1 + Be16Value(data[at + 1..at + 3]) && m.payload == data[at + 3..end]
      else end == at + 1
    ensures Decide(data, at, st) == Stop(MultiFrame) <==> Repeats(st, m)
  {
    hide Be16Value;
    if HasLength(m.code) && end >= at + 7 { MpfBytes(data, at + 3, end); }
  }

  /** On a marker that can be read, the round stops for another frame exactly when there is one. */
  lemma ScanRepeats(data: seq<byte>, offset: nat, st: ScanState)
    requires offset <= |data| && ReadMarker(data, offset).Some?
    ensures
      var (m, end) := ReadMarker(data, offset).value;
      && (Repeats(st, m) ==> Scan(data, offset, st) == MultiFrame)
      && (Admits(st, m) ==> Scan(data, offset, st) == Scan(data, end, After(st, m.code)))
      && (Scan(data, offset, st) == MultiFrame ==> Repeats(st, m) || Admits(st, m))
  {
    hide ReadMarker, Decide, Admits, Closes, After, FirstFF, FirstNonFF, Shaped, Print, HasLength, Be16Value, Repeats, Scan;
    PrintsReadMarker(data, offset);
    ReadShape(data, offset);
    ReadEnd(data, offset);
    DecidesOnMarker(data, offset, st);
    ScanUsesRound(data, offset, st);
    var (m, end) := ReadMarker(data, offset).value;
    LeadNeedsScan(st, m);
    RepeatsNeedsScan(st, m);
    if m.lead == [] || st.inScan { DecidesRepeated(data, FirstNonFF(data, FirstFF(data, offset)), st, m, end); }
  }

  lemma RepeatsNeedsScan(st: ScanState, m: Marker)
    ensures Repeats(st, m) ==> m.lead == [] || st.inScan
  {
  }

  lemma AdmittedFirst(read: seq<Marker>, m: Marker, later: seq<Marker>)
    requires WellFormedPrefix(read + ([m] + later))
    ensures WellFormedPrefix((read + [m]) + later) && Admits(StateAfter(read), m)
    ensures StateAfter(read + [m]) == After(StateAfter(read), m.code)
  {
    hide Admits, WellFormedPrefix, After;
    assert read + ([m] + later) == (read + [m]) + later;
    PrefixOfPrefix(read + [m], later);
    PrefixGrows(read, m);
    assert (read + [m])[..|read|] == read;
  }

  lemma {:induction false} FindsFrame(
    data: seq<byte>, offset: nat, read: seq<Marker>, ms: seq<Marker>, m: Marker, rest: seq<byte>)
    requires offset <= |data| && AllShaped(ms) && WellFormedPrefix(read + ms)
    requires Shaped(m) && Repeats(StateAfter(read + ms), m) && data[offset..] == PrintAll(ms) + (Print(m) + rest)
    ensures Scan(data, offset, StateAfter(read)) == MultiFrame
    decreases |ms|
  {
    hide WellFormedPrefix, Admits, After, Scan, Repeats, Print, StateAfter, ReadMarker;
    if ms == [] {
      assert read + ms == read && data[offset..] == Print(m) + rest;
      ReadsPrintedMarker(data, offset, m, rest);
      ScanRepeats(data, offset, StateAfter(read));
    } else {
      var first, later := ms[0], ms[1..];
      assert ms == [first] + later;
      PrintAllShaped(later, first);
      AdmittedFirst(read, first, later);
      assert read + ms == (read + [first]) + later;
      var more := PrintAll(later) + (Print(m) + rest);
      assert data[offset..] == Print(first) + more;
      ReadsPrintedMarker(data, offset, first, more);
      ScanRepeats(data, offset, StateAfter(read));
      FindsFrame(data, offset + |Print(first)|, read + [first], later, m, rest);
    }
  }

  lemma RepeatedGoesOn(data: seq<byte>, offset: nat, st: ScanState) returns (m: Marker, end: nat)
    requires offset <= |data| && Scan(data, offset, st) == MultiFrame
    ensures offset < end <= |data| && Shaped(m) && data[offset..] == Print(m) + data[end..]
    ensures Repeats(st, m) || (Admits(st, m) && Scan(data, end, After(st, m.code)) == MultiFrame)
  {
    hide Scan, ReadMarker, Decide, After, FirstFF, FirstNonFF, Shaped, Print, Repeats, Admits;
    ScanUsesRound(data, offset, st);
    m, end := ReadMarker(data, offset).value.0, ReadMarker(data, offset).value.1;
    PrintsReadMarker(data, offset);
    ScanRepeats(data, offset, st);
    assert data[offset..] == data[offset..end] + data[end..];
  }

  lemma ConsRepeat(data: seq<byte>, offset: nat, first: Marker, end: nat, later: seq<Marker>, m: Marker, rest: seq<byte>)
    requires offset <= end <= |data| && Shaped(first) && data[offset..] == Print(first) + data[end..]
    requires AllShaped(later) && Shaped(m) && data[end..] == PrintAll(later) + (Print(m) + rest)
    ensures AllShaped([first] + later) && data[offset..] == PrintAll([first] + later) + (Print(m) + rest)
  {
    hide Print, Shaped;
    var ms := [first] + later;
    assert forall i :: 0 <= i < |later| ==> ms[i + 1] == later[i];
    PrintAllShaped(later, first);
  }

  lemma OnlyRepeat(data: seq<byte>, offset: nat, m: Marker, end: nat)
    requires offset <= end <= |data| && Shaped(m) && data[offset..] == Print(m) + data[end..]
    ensures AllShaped([]) && data[offset..] == PrintAll([]) + (Print(m) + data[end..])
  {
    hide Print;
  }

  /** What the scanner calls multi-frame has another frame behind the beginning of an image. */
  lemma {:induction false} RepeatedIsSound(data: seq<byte>, offset: nat, read: seq<Marker>)
    returns (ms: seq<Marker>, m: Marker, rest: seq<byte>)
    requires offset <= |data| && WellFormedPrefix(read) && Scan(data, offset, StateAfter(read)) == MultiFrame
    ensures AllShaped(ms) && WellFormedPrefix(read + ms) && Shaped(m) && Repeats(StateAfter(read + ms), m)
    ensures data[offset..] == PrintAll(ms) + (Print(m) + rest)
    decreases |data| - offset
  {
    hide WellFormedPrefix, Admits, After, Scan, Repeats, Print, PrintAll, StateAfter, AllShaped, Shaped;
    var first, end := RepeatedGoesOn(data, offset, StateAfter(read));
    if Repeats(StateAfter(read), first) {
      ms, m, rest := [], first, data[end..];
      assert read + ms == read;
      OnlyRepeat(data, offset, first, end);
    } else {
      AdmittedGrows(read, first);
      var later, last, more := RepeatedIsSound(data, end, read + [first]);
      ms, m, rest := [first] + later, last, more;
      ConsRepeat(data, offset, first, end, later, m, rest);
      assert read + ms == (read + [first]) + later;
    }
  }

  lemma FrameIsFound(data: seq<byte>, ms: seq<Marker>, m: Marker, rest: seq<byte>)
    requires |data| >= 2 && RepeatsAfter(data[2..], ms, m, rest)
    ensures Scan(data, 2, START) == MultiFrame
  {
    StartsEmpty();
    hide Scan, WellFormedPrefix, Print, PrintAll, StateAfter, AnotherFrame, Repeats, Shaped;
    RepeatsMeans(ms, m);
    RepeatsShaped(StateAfter(ms), m);
    assert [] + ms == ms;
    FindsFrame(data, 2, [], ms, m, rest);
  }

  lemma FoundFrameRepeats(data: seq<byte>)
    requires |data| >= 2 && Scan(data, 2, START) == MultiFrame
    ensures IsMultiFrame(data)
  {
    StartsEmpty();
    NothingIsAllowed();
    hide Scan, WellFormedPrefix, Print, PrintAll, StateAfter, AnotherFrame, Repeats, AllShaped, Shaped;
    var ms, m, rest := RepeatedIsSound(data, 2, []);
    assert [] + ms == ms;
    RepeatsMeans(ms, m);
    assert RepeatsAfter(data[2..], ms, m, rest);
  }

  lemma StartsEmpty()
    ensures StateAfter([]) == START
  {
  }

  /** The scanner calls multi-frame exactly what begins as an image may and goes on with another frame. */
  lemma MultiFrameExactly(data: seq<byte>)
    requires |data| >= 2
    ensures Scan(data, 2, START) == MultiFrame <==> IsMultiFrame(data)
  {
    hide Scan, RepeatsAfter;
    if Scan(data, 2, START) == MultiFrame { FoundFrameRepeats(data); }
    forall ms, m, rest | RepeatsAfter(data[2..], ms, m, rest) ensures Scan(data, 2, START) == MultiFrame {
      FrameIsFound(data, ms, m, rest);
    }
  }

  lemma NothingIsAllowed()
    ensures WellFormedPrefix([])
  {
  }

  lemma RepeatsShaped(st: ScanState, m: Marker)
    requires Repeats(st, m)
    ensures Shaped(m)
  {
  }

  /** The codes of the grammar, one by one (table B.1 of ITU-T T.81). */
  lemma Codes(code: byte)
    ensures SOS == 0xDA && EOI == 0xD9 && DNL == 0xDC && TEM == 0x01
    ensures FrameHeader(code) <==>
      code in {0xC0, 0xC1, 0xC2, 0xC3, 0xC5, 0xC6, 0xC7, 0xC9, 0xCA, 0xCB, 0xCD, 0xCE, 0xCF}
    ensures StuffedOrRestart(code) <==> code in {0x00, 0xD0, 0xD1, 0xD2, 0xD3, 0xD4, 0xD5, 0xD6, 0xD7}
    ensures HasLength(code) <==> 0xC0 <= code <= 0xFE && !StuffedOrRestart(code) && code != 0xD8 && code != 0xD9
  {
  }

  // ---------------------------------------------------------------- the loop

  /** `bytes.find` for 0xFF, with the length in place of -1. */
  method FindFF(data: seq<byte>, from: nat) returns (i: nat)
    requires from <= |data|
    ensures i == FirstFF(data, from)
  {
    i := from;
    while i < |data| && data[i] != 0xFF
      invariant from <= i <= |data| && FirstFF(data, i) == FirstFF(data, from)
    {
      i := i + 1;
    }
  }

  /** The inner loop over fill bytes. */
  method SkipFill(data: seq<byte>, from: nat) returns (i: nat)
    requires from <= |data|
    ensures i == FirstNonFF(data, from)
  {
    i := from;
    while i < |data| && data[i] == 0xFF
      invariant from <= i <= |data| && FirstNonFF(data, i) == FirstNonFF(data, from)
    {
      i := i + 1;
    }
  }

  /** The rest of a round, once `at` holds the code of a marker. */
  method HandleMarker(data: seq<byte>, at: nat, inScan: bool, sawScan: bool, frames: nat) returns (round: Round)
    requires at < |data| && data[at] != 0xFF && frames <= 1
    ensures round.Go? ==> round.st.frames <= 1
    ensures round == Decide(data, at, ScanState(inScan, sawScan, frames))
  {
    var marker, offset, frameCount := data[at], at + 1, frames;
    if marker == 0x00 || 0xD0 <= marker <= 0xD7 {
      if !inScan { return Stop(Corrupt); }
      return Go(ScanState(inScan, sawScan, frameCount), offset);
    }
    if marker == 0xD9 {
      if !sawScan || offset != |data| { return Stop(Corrupt); }
      return Stop(Accepted);
    }
    if marker == 0x01 {
      return Go(ScanState(inScan, sawScan, frameCount), offset);
    }
    if marker == 0xD8 || marker < 0xC0 || |data| - offset < 2 { return Stop(Corrupt); }
    var size := Be16Value(data[offset..offset + 2]);
    var end := offset + size;
    if size < 2 || end > |data| { return Stop(Corrupt); }
    if FrameHeader(marker) {
      frameCount := frameCount + 1;
      if frameCount > 1 { return Stop(MultiFrame); }
    }
    if marker == 0xE2 && size >= 6 && data[offset + 2..offset + 6] == MPF {
      return Stop(MultiFrame);
    }
    if marker == 0xDA {
      return Go(ScanState(true, true, frameCount), end);
    }
    return Go(ScanState(inScan && marker == 0xDC, sawScan, frameCount), end);
  }

  /** The scanning loop: three variables and an offset that only grows. */
  method ScanMarkers(data: seq<byte>) returns (v: Verdict)
    ensures |data| < 2 ==> v == Corrupt
    ensures |data| >= 2 ==> v == Scan(data, 2, START)
  {
    var offset, inScan, sawScan, frameCount := 2, false, false, 0;
    while offset < |data|
      invariant 0 <= frameCount <= 1
      invariant |data| >= 2 ==> offset <= |data|
      invariant |data| >= 2 ==> Scan(data, 2, START) == Scan(data, offset, ScanState(inScan, sawScan, frameCount))
      decreases |data| - offset
    {
      if inScan {
        offset := FindFF(data, offset);
        if offset == |data| { return Corrupt; }
      } else if data[offset] != 0xFF {
        return Corrupt;
      }
      offset := SkipFill(data, offset);
      if offset == |data| { return Corrupt; }
      var round := HandleMarker(data, offset, inScan, sawScan, frameCount);
      match round {
        case Stop(verdict) => return verdict;
        case Go(st, next) => inScan, sawScan, frameCount, offset := st.inScan, st.sawScan, st.frames, next;
      }
    }
    return Corrupt;
  }

  /** The validator accepts exactly the images of the grammar, and calls multi-frame exactly those with another frame. */
  method ValidateFraming(data: seq<byte>) returns (v: Verdict)
    ensures v == Accepted <==> IsImage(data)
    ensures v == MultiFrame <==> IsMultiFrame(data)
  {
    v := ScanMarkers(data);
    if |data| >= 2 {
      AcceptsExactlyImages(data);
      MultiFrameExactly(data);
    }
  }
}
