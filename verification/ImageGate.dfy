/**
 * The checks an uploaded image passes before any decoder sees it
 * (backend/src/job_apply_pro/ai/media_normalization.py).
 */
module ImageGate {
  import opened Prelude
  import opened Bytes
  import JpegFraming
  import PngChunks
  import RiffChunks

  const MAX_MEDIA_BYTES := 5 * 1024 * 1024

  datatype Format = JPEG | PNG | WEBP

  datatype Rejection = WrongSize | Mismatch | LenientDecoder | Invalid | Animated | MultiFrame

  const SOI: seq<byte> := [0xFF, 0xD8]
  const PNG_SIGNATURE: seq<byte> := [0x89, 0x50, 0x4E, 0x47, 0x0D, 0x0A, 0x1A, 0x0A]
  const RIFF: seq<byte> := [0x52, 0x49, 0x46, 0x46]
  const WEBP_FORM: seq<byte> := [0x57, 0x45, 0x42, 0x50]

  predicate MatchesSignature(data: seq<byte>, format: Format) {
    match format
    case PNG => PNG_SIGNATURE <= data
    case JPEG => SOI + [0xFF] <= data
    case WEBP => |data| >= 12 && RIFF <= data && data[8..12] == WEBP_FORM
  }

  /** What the first bytes of each format are, in figures. */
  predicate Begins(data: seq<byte>, format: Format) {
    match format
    case PNG => [0x89, 0x50, 0x4E, 0x47, 0x0D, 0x0A, 0x1A, 0x0A] <= data
    case JPEG => [0xFF, 0xD8, 0xFF] <= data
    case WEBP => |data| >= 12 && data[..4] == Ascii("RIFF") && data[8..12] == Ascii("WEBP")
  }

  lemma SignatureExactly(data: seq<byte>, format: Format)
    ensures MatchesSignature(data, format) <==> Begins(data, format)
  {
    assert SOI + [0xFF] == [0xFF, 0xD8, 0xFF];
    assert RIFF == Ascii("RIFF") && WEBP_FORM == Ascii("WEBP");
  }

  /** A whole file of the format, by its grammar alone. */
  ghost predicate IsFile(data: seq<byte>, format: Format, crc: seq<byte> -> PngChunks.word) {
    match format
    case JPEG => SOI <= data && JpegFraming.IsImage(data)
    case PNG => PNG_SIGNATURE <= data && PngChunks.IsImage(data, crc)
    case WEBP => |data| >= 12 && RIFF <= data && data[8..12] == WEBP_FORM && RiffChunks.IsImage(data)
  }

  /** A file of the format that is an animation, as far as it was read. */
  ghost predicate IsAnimation(data: seq<byte>, format: Format, crc: seq<byte> -> PngChunks.word) {
    match format
    case JPEG => false
    case PNG => PngChunks.IsAnimated(data, crc)
    case WEBP => RiffChunks.IsMoving(data)
  }

  /** The byte behind SOI that the signature asks for is there in every file of the JPEG grammar. */
  lemma GrammarGivesSignature(data: seq<byte>)
    requires SOI <= data && JpegFraming.IsImage(data)
    ensures SOI + [0xFF] <= data
  {
    var ms: seq<JpegFraming.Marker> :| JpegFraming.WellFormed(ms) && JpegFraming.AllShaped(ms) && data[2..] == JpegFraming.PrintAll(ms);
    assert !JpegFraming.InScan(ms, 0);
    if |ms| > 1 { assert JpegFraming.Allowed(ms[..|ms| - 1], 0); }
    assert ms[0].lead == [];
    assert JpegFraming.Print(ms[0])[0] == 0xFF;
    assert data[2] == data[2..][0];
  }

  method ValidateContainer(data: seq<byte>, format: Format, crc: seq<byte> -> PngChunks.word)
    returns (r: Result<(), Rejection>)
    requires MatchesSignature(data, format)
    ensures r.Ok? <==> IsFile(data, format, crc)
    ensures r == Err(Animated) <==> IsAnimation(data, format, crc)
    ensures r == Err(MultiFrame) <==> format == JPEG && JpegFraming.IsMultiFrame(data)
    ensures r.Err? ==> r.error in {Invalid, Animated, MultiFrame}
  {
    match format {
      case JPEG =>
        var v := JpegFraming.ValidateFraming(data);
        r := match v case Accepted => Ok(()) case Corrupt => Err(Invalid) case MultiFrame => Err(MultiFrame);
      case PNG =>
        var v := PngChunks.ValidateChunks(data, crc);
        r := match v case Accepted => Ok(()) case Corrupt => Err(Invalid) case Animated => Err(Animated);
      case WEBP =>
        var v := RiffChunks.ValidateChunks(data);
        r := match v case Accepted => Ok(()) case Corrupt => Err(Invalid) case Animated => Err(Animated);
    }
  }

  /**
   * Exactly the files of the declared format's grammar within the size limit get past the
   * gate, and none while the decoders have been told to accept truncated data; a declared type
   * of no known format gets past it never.
   */
  method Gate(data: seq<byte>, declared: Option<Format>, lenient: bool, crc: seq<byte> -> PngChunks.word)
    returns (r: Result<Format, Rejection>)
    ensures r.Ok? <==> !lenient && 0 < |data| <= 5_242_880 && declared.Some? && IsFile(data, declared.value, crc)
    ensures r.Ok? ==> r.value == declared.value
    ensures r == Err(LenientDecoder) <==>
      lenient && 0 < |data| <= 5_242_880 && declared.Some? && Begins(data, declared.value)
    ensures r == Err(WrongSize) <==> data == [] || |data| > 5_242_880
    ensures r == Err(Mismatch) <==>
      0 < |data| <= 5_242_880 && (declared.None? || !Begins(data, declared.value))
    ensures r == Err(Animated) <==>
      && !lenient && 0 < |data| <= 5_242_880 && declared.Some? && Begins(data, declared.value)
      && IsAnimation(data, declared.value, crc)
    ensures r == Err(MultiFrame) <==>
      && !lenient && 0 < |data| <= 5_242_880 && declared == Some(JPEG) && Begins(data, JPEG)
      && JpegFraming.IsMultiFrame(data)
  {
    if declared.Some? { SignatureExactly(data, declared.value); }
    if data == [] || |data| > MAX_MEDIA_BYTES { return Err(WrongSize); }
    if declared == None { return Err(Mismatch); }
    var format := declared.value;
    if !MatchesSignature(data, format) {
      if IsFile(data, JPEG, crc) && format == JPEG { GrammarGivesSignature(data); }
      return Err(Mismatch);
    }
    if lenient { return Err(LenientDecoder); }
    var checked := ValidateContainer(data, format, crc);
    if checked.Err? { return Err(checked.error); }
    return Ok(format);
  }
}
