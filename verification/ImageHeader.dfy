/** _image_kind: the dimensions an image header declares, for PNG, JPEG and WebP. */
module ImageHeader {
  import opened Endian
  import opened Wrappers

  datatype Size = Size(width: nat, height: nat)
  datatype Format = Png | Jpeg | Webp
  datatype Image = Image(format: Format, size: Size)
  datatype ImageError = FormatInvalid | ImageInvalid | DimensionsInvalid

  const MAX_PIXELS := 32_000_000
  const PNG_SIGNATURE: seq<byte> := [0x89, 0x50, 0x4E, 0x47, 0x0D, 0x0A, 0x1A, 0x0A]
  const IHDR: seq<byte> := [0x49, 0x48, 0x44, 0x52]
  const RIFF: seq<byte> := [0x52, 0x49, 0x46, 0x46]
  const WEBP: seq<byte> := [0x57, 0x45, 0x42, 0x50]
  const VP8X: seq<byte> := [0x56, 0x50, 0x38, 0x58]
  const VP8_: seq<byte> := [0x56, 0x50, 0x38, 0x20]
  const VP8L: seq<byte> := [0x56, 0x50, 0x38, 0x4C]
  const START_CODE: seq<byte> := [0x9D, 0x01, 0x2A]

  // ----- the JPEG walk

  /** Markers that stand alone: SOI, EOI, TEM and the restart markers. */
  predicate Standalone(marker: byte) {
    0xD0 <= marker <= 0xD9 || marker == 0x01
  }

  /** Start-of-frame markers. */
  predicate StartOfFrame(marker: byte) {
    0xC0 <= marker <= 0xCF && marker != 0xC4 && marker != 0xC8 && marker != 0xCC
  }

  function SkipFill(raw: seq<byte>, p: nat): (q: nat)
    requires p <= |raw|
    ensures p <= q <= |raw|
    ensures forall k | p <= k < q :: raw[k] == 0xFF
    ensures q < |raw| ==> raw[q] != 0xFF
    decreases |raw| - p
  {
    if p < |raw| && raw[p] == 0xFF then SkipFill(raw, p + 1) else p
  }

  /** The two bytes at a position, as a big-endian number. */
  function Field(raw: seq<byte>, p: nat): (n: nat)
    requires p + 2 <= |raw|
    ensures n < 0x1_0000
  {
    256 * (raw[p] as int) + raw[p + 1]
  }

  lemma FieldIsBig(raw: seq<byte>, p: nat)
    requires p + 2 <= |raw|
    ensures Big(raw[p..p + 2]) == Field(raw, p)
    ensures BigBytes(Field(raw, p), 2) == raw[p..p + 2]
  {
    var bs := raw[p..p + 2];
    assert bs[..1] == [raw[p]] && [raw[p]][..0] == [];
    assert Big(bs[..1]) == raw[p];
    BigUnique(bs);
  }

  datatype Step = Stop | Found(size: Size) | Go(next: nat)

  /** One turn of the walk. */
  function StepAt(raw: seq<byte>, p: nat): (step: Step)
    ensures step.Go? ==> p < step.next <= |raw|
  {
    if p + 4 >= |raw| || raw[p] != 0xFF then Stop
    else
      var q := SkipFill(raw, p);
      if q == |raw| then Stop
      else if Standalone(raw[q]) then Go(q + 1)
      else if q + 3 > |raw| then Stop
      else
        var length := Field(raw, q + 1);
        if length < 2 || q + 1 + length > |raw| then Stop
        else if !StartOfFrame(raw[q]) then Go(q + 1 + length)
        else if length < 7 then Stop
        else Found(Size(Field(raw, q + 6), Field(raw, q + 4)))
  }

  /** What the walk finds from a position on. */
  function Walk(raw: seq<byte>, p: nat): Option<Size>
    decreases |raw| - p
  {
    match StepAt(raw, p)
    case Stop => None
    case Found(size) => Some(size)
    case Go(next) => Walk(raw, next)
  }

  method SkipFillBytes(raw: seq<byte>, start: nat) returns (position: nat)
    requires start <= |raw|
    ensures position == SkipFill(raw, start)
  {
    position := start;
    while position < |raw| && raw[position] == 0xFF
      invariant start <= position <= |raw|
      invariant SkipFill(raw, position) == SkipFill(raw, start)
    {
      position := position + 1;
    }
  }

  /** One turn: fill bytes, then a standalone marker or a segment with its length. */
  method Turn(raw: seq<byte>, start: nat) returns (step: Step)
    requires start + 4 < |raw|
    ensures step == StepAt(raw, start)
  {
    if raw[start] != 0xFF {
      return Stop;
    }
    var position := SkipFillBytes(raw, start);
    if position >= |raw| {
      return Stop;
    }
    var marker := raw[position];
    position := position + 1;
    if Standalone(marker) {
      return Go(position);
    }
    if position + 2 > |raw| {
      return Stop;
    }
    FieldIsBig(raw, position);
    var length := Big(raw[position..position + 2]);
    if length < 2 || position + length > |raw| {
      return Stop;
    }
    if !StartOfFrame(marker) {
      return Go(position + length);
    }
    if length < 7 {
      return Stop;
    }
    FieldIsBig(raw, position + 3);
    FieldIsBig(raw, position + 5);
    var height, width := Big(raw[position + 3..position + 5]), Big(raw[position + 5..position + 7]);
    return Found(Size(width, height));
  }

  /** The walk as it runs, from behind the start marker. */
  method JpegSize(raw: seq<byte>) returns (size: Option<Size>)
    ensures size == Walk(raw, 2)
  {
    var position := 2;
    while position + 4 < |raw|
      invariant Walk(raw, position) == Walk(raw, 2)
      decreases |raw| - position
    {
      var step := Turn(raw, position);
      match step
      case Stop => break;
      case Found(found) => return Some(found);
      case Go(next) => position := next;
    }
    return None;
  }

  // ----- the format, by section B.2.2 of ITU-T T.81: segments, then a frame header

  function Fill(n: nat): (bs: seq<byte>)
    ensures |bs| == n
  {
    seq(n, _ => 0xFF)
  }

  /** Fill bytes and a marker. */
  function MarkerBefore(fill: nat, marker: byte, rest: seq<byte>): seq<byte> {
    Fill(fill) + ([marker] + rest)
  }

  datatype Segment =
    | Bare(fill: nat, marker: byte)
    | Marked(fill: nat, marker: byte, body: seq<byte>)
  {
    predicate Ok() {
      && fill >= 1
      && match this
         case Bare(_, marker) => Standalone(marker)
         case Marked(_, marker, body) =>
           marker != 0xFF && !Standalone(marker) && !StartOfFrame(marker) && |body| + 2 < 0x1_0000
    }

    /** The bytes of this segment, with what follows it. */
    function Before(rest: seq<byte>): seq<byte> {
      match this
      case Bare(fill, marker) => MarkerBefore(fill, marker, rest)
      case Marked(fill, marker, body) => MarkerBefore(fill, marker, BigBytes(|body| + 2, 2) + (body + rest))
    }
  }

  datatype Frame = Frame(fill: nat, marker: byte, precision: byte, size: Size, components: seq<byte>) {
    predicate Ok() {
      && fill >= 1 && StartOfFrame(marker) && |components| + 7 < 0x1_0000
      && size.width < 0x1_0000 && size.height < 0x1_0000
    }

    /** Length, precision, lines, samples per line and components, with what follows. */
    function Before(rest: seq<byte>): seq<byte> {
      MarkerBefore(fill, marker, HeaderBefore(components + rest))
    }

    function HeaderBefore(rest: seq<byte>): seq<byte> {
      BigBytes(|components| + 7, 2) + ([precision] + SizeBefore(rest))
    }

    function SizeBefore(rest: seq<byte>): seq<byte> {
      BigBytes(size.height, 2) + (BigBytes(size.width, 2) + rest)
    }
  }

  predicate SegmentsOk(segments: seq<Segment>) {
    forall s | s in segments :: s.Ok()
  }

  function Encode(segments: seq<Segment>, end: seq<byte>): (bs: seq<byte>)
    ensures |bs| >= |end|
  {
    if segments == [] then end else segments[0].Before(Encode(segments[1..], end))
  }

  /** The bytes from `p` on are segments without a frame, then that frame, then anything. */
  predicate Decomposes(raw: seq<byte>, p: nat, segments: seq<Segment>, frame: Frame, tail: seq<byte>) {
    p <= |raw| && SegmentsOk(segments) && frame.Ok() && raw[p..] == Encode(segments, frame.Before(tail))
  }

  ghost predicate HasFrame(raw: seq<byte>, p: nat, size: Size) {
    exists segments, frame, tail :: Decomposes(raw, p, segments, frame, tail) && frame.size == size
  }

  /** Fill bytes, then a byte that is not one. */
  lemma {:induction false} SkipsFill(raw: seq<byte>, p: nat, fill: nat)
    requires p + fill < |raw| && raw[p + fill] != 0xFF
    requires forall k | p <= k < p + fill :: raw[k] == 0xFF
    ensures SkipFill(raw, p) == p + fill
    decreases fill
  {
    if fill > 0 {
      SkipsFill(raw, p + 1, fill - 1);
    }
  }

  lemma Peel(raw: seq<byte>, p: nat, a: seq<byte>, rest: seq<byte>)
    requires p <= |raw| && raw[p..] == a + rest
    ensures p + |a| <= |raw| && raw[p..p + |a|] == a && raw[p + |a|..] == rest
  {
    assert raw[p..p + |a|] == raw[p..][..|a|];
    assert raw[p + |a|..] == raw[p..][|a|..];
  }

  lemma {:induction false} PeelField(raw: seq<byte>, p: nat, n: nat, rest: seq<byte>)
    requires p <= |raw| && n < 0x1_0000 && raw[p..] == BigBytes(n, 2) + rest
    ensures p + 2 <= |raw| && Field(raw, p) == n && raw[p + 2..] == rest
  {
    Peel(raw, p, BigBytes(n, 2), rest);
    Ranges();
    BigRoundTrip(n, 2);
    FieldIsBig(raw, p);
  }

  lemma PeelMarker(raw: seq<byte>, p: nat, fill: nat, marker: byte, rest: seq<byte>)
    requires p <= |raw| && raw[p..] == MarkerBefore(fill, marker, rest) && marker != 0xFF
    ensures p + fill < |raw| && SkipFill(raw, p) == p + fill && raw[p + fill] == marker
    ensures fill >= 1 ==> raw[p] == 0xFF
    ensures raw[p + fill + 1..] == rest
  {
    Peel(raw, p, Fill(fill), [marker] + rest);
    Peel(raw, p + fill, [marker], rest);
    assert raw[p + fill..p + fill + 1][0] == marker;
    forall k | p <= k < p + fill
      ensures raw[k] == 0xFF
    {
      assert raw[k] == raw[p..p + fill][k - p];
    }
    SkipsFill(raw, p, fill);
  }

  lemma SizeFields(raw: seq<byte>, p: nat, frame: Frame, rest: seq<byte>)
    requires p <= |raw| && frame.Ok() && raw[p..] == frame.SizeBefore(rest)
    ensures p + 4 + |rest| == |raw|
    ensures Field(raw, p) == frame.size.height && Field(raw, p + 2) == frame.size.width
  {
    PeelField(raw, p, frame.size.height, BigBytes(frame.size.width, 2) + rest);
    PeelField(raw, p + 2, frame.size.width, rest);
  }

  /** The fields of an encoded frame lie where the walk reads them. */
  lemma HeaderFields(raw: seq<byte>, p: nat, frame: Frame, rest: seq<byte>)
    requires p <= |raw| && frame.Ok() && raw[p..] == frame.HeaderBefore(rest)
    ensures p + 7 + |rest| == |raw| && Field(raw, p) == |frame.components| + 7
    ensures Field(raw, p + 3) == frame.size.height && Field(raw, p + 5) == frame.size.width
  {
    PeelField(raw, p, |frame.components| + 7, [frame.precision] + frame.SizeBefore(rest));
    Peel(raw, p + 2, [frame.precision], frame.SizeBefore(rest));
    SizeFields(raw, p + 3, frame, rest);
  }

  lemma StepFindsFrame(raw: seq<byte>, p: nat, frame: Frame, tail: seq<byte>)
    requires p <= |raw| && frame.Ok() && raw[p..] == frame.Before(tail)
    ensures StepAt(raw, p) == Found(frame.size)
  {
    PeelMarker(raw, p, frame.fill, frame.marker, frame.HeaderBefore(frame.components + tail));
    HeaderFields(raw, p + frame.fill + 1, frame, frame.components + tail);
  }

  lemma StepSkipsMarked(raw: seq<byte>, p: nat, segment: Segment, rest: seq<byte>) returns (next: nat)
    requires p + 4 < |raw| && segment.Ok() && segment.Marked? && raw[p..] == segment.Before(rest)
    ensures StepAt(raw, p) == Go(next) && raw[next..] == rest
  {
    var q := p + segment.fill;
    PeelMarker(raw, p, segment.fill, segment.marker, BigBytes(|segment.body| + 2, 2) + (segment.body + rest));
    PeelField(raw, q + 1, |segment.body| + 2, segment.body + rest);
    Peel(raw, q + 3, segment.body, rest);
    next := q + 3 + |segment.body|;
  }

  lemma StepSkipsBare(raw: seq<byte>, p: nat, segment: Segment, rest: seq<byte>) returns (next: nat)
    requires p + 4 < |raw| && segment.Ok() && segment.Bare? && raw[p..] == segment.Before(rest)
    ensures StepAt(raw, p) == Go(next) && raw[next..] == rest
  {
    PeelMarker(raw, p, segment.fill, segment.marker, rest);
    next := p + segment.fill + 1;
  }

  /** For all segments without a frame, whatever their fill bytes, and then a frame and anything behind it,
      the walk finds that frame's size. */
  lemma {:induction false} WalkFinds(raw: seq<byte>, p: nat, segments: seq<Segment>, frame: Frame, tail: seq<byte>)
    requires Decomposes(raw, p, segments, frame, tail)
    ensures Walk(raw, p) == Some(frame.size)
    decreases |segments|
  {
    if segments == [] {
      StepFindsFrame(raw, p, frame, tail);
    } else {
      var rest := Encode(segments[1..], frame.Before(tail));
      assert segments[0] in segments;
      assert |raw[p..]| >= |rest| >= |frame.Before(tail)| >= 9;
      var next;
      if segments[0].Bare? {
        next := StepSkipsBare(raw, p, segments[0], rest);
      } else {
        next := StepSkipsMarked(raw, p, segments[0], rest);
      }
      WalkFinds(raw, next, segments[1..], frame, tail);
    }
  }

  /** The fill bytes and the marker at a position. */
  lemma MarkerAt(raw: seq<byte>, p: nat)
    requires p < |raw| && SkipFill(raw, p) < |raw|
    ensures var q := SkipFill(raw, p); raw[p..] == MarkerBefore(q - p, raw[q], raw[q + 1..])
  {
    var q := SkipFill(raw, p);
    assert raw[p..q] == Fill(q - p);
    assert raw[p..] == raw[p..q] + ([raw[q]] + raw[q + 1..]);
  }

  lemma FieldAt(raw: seq<byte>, p: nat)
    requires p + 2 <= |raw|
    ensures raw[p..] == BigBytes(Field(raw, p), 2) + raw[p + 2..]
  {
    FieldIsBig(raw, p);
    assert raw[p..] == raw[p..p + 2] + raw[p + 2..];
  }

  lemma SizeAt(raw: seq<byte>, p: nat, frame: Frame, tail: seq<byte>)
    requires p + 4 <= |raw| && frame.size == Size(Field(raw, p + 2), Field(raw, p))
    requires raw[p + 4..] == frame.components + tail
    ensures raw[p..] == frame.SizeBefore(frame.components + tail)
  {
    FieldAt(raw, p);
    FieldAt(raw, p + 2);
  }

  lemma HeaderAt(raw: seq<byte>, p: nat, frame: Frame, tail: seq<byte>)
    requires p + 7 <= |raw| && Field(raw, p) == |frame.components| + 7 && raw[p + 2] == frame.precision
    requires frame.size == Size(Field(raw, p + 5), Field(raw, p + 3))
    requires raw[p + 7..] == frame.components + tail
    ensures raw[p..] == frame.HeaderBefore(frame.components + tail)
  {
    FieldAt(raw, p);
    SizeAt(raw, p + 3, frame, tail);
    assert raw[p + 2..] == [raw[p + 2]] + raw[p + 3..];
  }

  /** The frame header that the walk reads at a position. */
  lemma FrameAt(raw: seq<byte>, p: nat, q: nat, next: nat) returns (frame: Frame)
    requires p < q && q + 8 <= next <= |raw| && q == SkipFill(raw, p) && next == q + 1 + Field(raw, q + 1)
    requires StartOfFrame(raw[q])
    ensures frame.Ok() && raw[p..] == frame.Before(raw[next..])
    ensures frame.size == Size(Field(raw, q + 6), Field(raw, q + 4))
  {
    var size := Size(Field(raw, q + 6), Field(raw, q + 4));
    frame := Frame(q - p, raw[q], raw[q + 3], size, raw[q + 8..next]);
    MarkerAt(raw, p);
    HeaderAt(raw, q + 1, frame, raw[next..]) by {
      assert raw[q + 8..] == raw[q + 8..next] + raw[next..];
    }
  }

  lemma {:induction false} MarkedAt(raw: seq<byte>, p: nat, body: seq<byte>, rest: seq<byte>)
    requires p + 2 <= |raw| && Field(raw, p) == |body| + 2 && raw[p + 2..] == body + rest
    ensures raw[p..] == BigBytes(|body| + 2, 2) + (body + rest)
  {
    FieldAt(raw, p);
  }

  /** What the walk steps over is a segment. */
  lemma SegmentAt(raw: seq<byte>, p: nat) returns (segment: Segment)
    requires StepAt(raw, p).Go?
    ensures segment.Ok() && raw[p..] == segment.Before(raw[StepAt(raw, p).next..])
  {
    var q, next := SkipFill(raw, p), StepAt(raw, p).next;
    MarkerAt(raw, p);
    if Standalone(raw[q]) {
      segment := Bare(q - p, raw[q]);
    } else {
      var body := raw[q + 3..next];
      segment := Marked(q - p, raw[q], body);
      MarkedAt(raw, q + 1, body, raw[next..]) by {
        assert raw[q + 3..] == body + raw[next..];
      }
    }
  }

  lemma Prepend(raw: seq<byte>, p: nat, next: nat, segment: Segment, segments: seq<Segment>, frame: Frame,
                tail: seq<byte>)
    requires p <= next <= |raw| && segment.Ok() && raw[p..] == segment.Before(raw[next..])
    requires Decomposes(raw, next, segments, frame, tail)
    ensures Decomposes(raw, p, [segment] + segments, frame, tail)
  {
    assert ([segment] + segments)[1..] == segments;
  }

  lemma FoundAt(raw: seq<byte>, p: nat) returns (frame: Frame, tail: seq<byte>)
    requires StepAt(raw, p).Found?
    ensures frame.Ok() && raw[p..] == frame.Before(tail) && frame.size == StepAt(raw, p).size
  {
    var q := SkipFill(raw, p);
    var next := q + 1 + Field(raw, q + 1);
    frame := FrameAt(raw, p, q, next);
    tail := raw[next..];
  }

  /** What the walk finds is a frame behind segments without one: nothing else makes it answer. */
  lemma {:induction false} WalkOnlyFinds(raw: seq<byte>, p: nat)
      returns (segments: seq<Segment>, frame: Frame, tail: seq<byte>)
    requires Walk(raw, p).Some?
    ensures Decomposes(raw, p, segments, frame, tail) && frame.size == Walk(raw, p).value
    decreases |raw| - p
  {
    match StepAt(raw, p)
    case Go(next) =>
      var segment := SegmentAt(raw, p);
      segments, frame, tail := WalkOnlyFinds(raw, next);
      Prepend(raw, p, next, segment, segments, frame, tail);
      segments := [segment] + segments;
    case Found(size) =>
      frame, tail := FoundAt(raw, p);
      segments := [];
  }

  /** On every byte string the walk answers exactly when the bytes are segments without a frame and then a
      frame, and it answers with that frame's size. */
  lemma {:induction false} WalkIsExact(raw: seq<byte>, p: nat, size: Size)
    ensures Walk(raw, p) == Some(size) <==> HasFrame(raw, p, size)
  {
    if Walk(raw, p) == Some(size) {
      var segments, frame, tail := WalkOnlyFinds(raw, p);
    }
    if HasFrame(raw, p, size) {
      var segments, frame, tail :| Decomposes(raw, p, segments, frame, tail) && frame.size == size;
      WalkFinds(raw, p, segments, frame, tail);
    }
  }

  // ----- PNG and WebP

  predicate IsPng(raw: seq<byte>) {
    |raw| >= 16 && raw[..8] == PNG_SIGNATURE && raw[12..16] == IHDR
  }

  predicate IsJpeg(raw: seq<byte>) {
    |raw| >= 3 && raw[..3] == [0xFF, 0xD8, 0xFF] && raw[|raw| - 2..] == [0xFF, 0xD9]
  }

  predicate IsWebp(raw: seq<byte>) {
    |raw| >= 12 && raw[..4] == RIFF && raw[8..12] == WEBP
  }

  function PngSize(raw: seq<byte>): Option<Size> {
    if |raw| < 33 then None else Some(Size(Big(raw[16..20]), Big(raw[20..24])))
  }

  function WebpSize(raw: seq<byte>): Option<Size> {
    if |raw| < 30 || Little(raw[4..8]) + 8 != |raw| then None
    else if raw[12..16] == VP8X then Some(Size(1 + Little(raw[24..27]), 1 + Little(raw[27..30])))
    else if raw[12..16] == VP8_ && raw[23..26] == START_CODE then
      Some(Size(Little(raw[26..28]) % 0x4000, Little(raw[28..30]) % 0x4000))
    else if raw[12..16] == VP8L && raw[20] == 0x2F then
      var bits := Little(raw[21..25]);
      Some(Size(bits % 0x4000 + 1, bits / 0x4000 % 0x4000 + 1))
    else None
  }

  predicate SizeOk(size: Size) {
    64 <= size.width <= 8192 && 64 <= size.height <= 8192 && size.width * size.height <= MAX_PIXELS
  }

  function Checked(format: Format, size: Option<Size>): Result<Image, ImageError> {
    if size.None? then Err(ImageInvalid)
    else if SizeOk(size.value) then Ok(Image(format, size.value))
    else Err(DimensionsInvalid)
  }

  function KindOf(raw: seq<byte>): Result<Image, ImageError> {
    if IsPng(raw) then Checked(Png, PngSize(raw))
    else if IsJpeg(raw) then Checked(Jpeg, Walk(raw, 2))
    else if IsWebp(raw) then Checked(Webp, WebpSize(raw))
    else Err(FormatInvalid)
  }

  /** _image_kind */
  method ImageKind(raw: seq<byte>) returns (r: Result<Image, ImageError>)
    ensures r == KindOf(raw)
  {
    if IsPng(raw) {
      return Checked(Png, PngSize(raw));
    }
    if IsJpeg(raw) {
      var size := JpegSize(raw);
      return Checked(Jpeg, size);
    }
    if IsWebp(raw) {
      return Checked(Webp, WebpSize(raw));
    }
    return Err(FormatInvalid);
  }

  // ----- writing a header and reading it back

  function PngFile(length: seq<byte>, size: Size, rest: seq<byte>): seq<byte> {
    PNG_SIGNATURE + length + IHDR + BigBytes(size.width, 4) + BigBytes(size.height, 4) + rest
  }

  /** A RIFF container with its size filled in, and a first chunk of whatever declared length. */
  function WebpFile(kind: seq<byte>, declared: seq<byte>, payload: seq<byte>): seq<byte> {
    RIFF + LittleBytes(12 + |payload|, 4) + WEBP + kind + declared + payload
  }

  function Vp8xPayload(flags: seq<byte>, size: Size, rest: seq<byte>): seq<byte>
    requires size.width >= 1 && size.height >= 1
  {
    flags + (LittleBytes(size.width - 1, 3) + (LittleBytes(size.height - 1, 3) + rest))
  }

  /** The frame tag, the start code, and 14-bit sizes with two bits of scale above them. */
  function Vp8Payload(tag: seq<byte>, size: Size, scaleX: nat, scaleY: nat, rest: seq<byte>): seq<byte> {
    (tag + START_CODE) + (Scaled(size.width, scaleX) + (Scaled(size.height, scaleY) + rest))
  }

  function Scaled(n: nat, scale: nat): seq<byte> {
    LittleBytes(n + 0x4000 * scale, 2)
  }

  /** The signature, then 14 bits of width and of height, each less one, and four more bits. */
  function Vp8lPayload(size: Size, flags: nat, rest: seq<byte>): seq<byte>
    requires size.width >= 1 && size.height >= 1
  {
    [0x2F] + (Packed(size, flags) + rest)
  }

  function Packed(size: Size, flags: nat): seq<byte>
    requires size.width >= 1 && size.height >= 1
  {
    LittleBytes(size.width - 1 + 0x4000 * (size.height - 1) + 0x1000_0000 * flags, 4)
  }

  lemma Ranges()
    ensures Range(2) == 0x1_0000 && Range(3) == 0x100_0000 && Range(4) == 0x1_0000_0000
  {
    assert Range(1) == 256;
    assert Range(2) == 0x1_0000;
    assert Range(3) == 0x100_0000;
  }

  /** Section 4.1.1 of RFC 2083: every size written into an IHDR chunk is read back. */
  lemma PngRoundTrip(length: seq<byte>, size: Size, rest: seq<byte>)
    requires |length| == 4 && |rest| >= 9 && size.width < 0x1_0000_0000 && size.height < 0x1_0000_0000
    ensures KindOf(PngFile(length, size, rest)) == Checked(Png, Some(size))
  {
    var raw := PngFile(length, size, rest);
    Ranges();
    BigRoundTrip(size.width, 4);
    BigRoundTrip(size.height, 4);
    assert raw[..8] == PNG_SIGNATURE && raw[12..16] == IHDR;
    assert raw[16..20] == BigBytes(size.width, 4) && raw[20..24] == BigBytes(size.height, 4);
  }

  /** Reading then writing: the accepted PNG files are the written ones. */
  lemma PngIsWritten(raw: seq<byte>)
    requires IsPng(raw) && PngSize(raw).Some?
    ensures raw == PngFile(raw[8..12], PngSize(raw).value, raw[24..])
  {
    BigUnique(raw[16..20]);
    BigUnique(raw[20..24]);
    assert raw == raw[..8] + raw[8..12] + raw[12..16] + raw[16..20] + raw[20..24] + raw[24..];
  }

  /** A container is read as one, with its payload from byte 20 on. */
  lemma WebpEnvelope(kind: seq<byte>, declared: seq<byte>, payload: seq<byte>)
    requires |kind| == 4 && |declared| == 4 && 12 + |payload| < 0x1_0000_0000
    ensures var raw := WebpFile(kind, declared, payload);
      && IsWebp(raw) && !IsPng(raw) && !IsJpeg(raw) && Little(raw[4..8]) + 8 == |raw|
      && raw[12..16] == kind && raw[20..] == payload
  {
    var raw := WebpFile(kind, declared, payload);
    Ranges();
    LittleRoundTrip(12 + |payload|, 4);
    assert raw[4..8] == LittleBytes(12 + |payload|, 4);
    assert raw[..4] == RIFF && raw[0] == 0x52 && raw[8..12] == WEBP;
    assert raw[12..16] == kind && raw[20..] == payload;
    assert raw[..8][0] == 0x52 && raw[..3][0] == 0x52;
  }

  /** Section 2.7 of RFC 9649 */
  lemma Vp8xRoundTrip(declared: seq<byte>, flags: seq<byte>, size: Size, rest: seq<byte>)
    requires |declared| == 4 && |flags| == 4 && 1 <= size.width <= 0x100_0000 && 1 <= size.height <= 0x100_0000
    requires |rest| + 22 < 0x1_0000_0000
    ensures KindOf(WebpFile(VP8X, declared, Vp8xPayload(flags, size, rest))) == Checked(Webp, Some(size))
  {
    var payload := Vp8xPayload(flags, size, rest);
    var raw := WebpFile(VP8X, declared, payload);
    WebpEnvelope(VP8X, declared, payload);
    Ranges();
    LittleRoundTrip(size.width - 1, 3);
    LittleRoundTrip(size.height - 1, 3);
    var width, height := LittleBytes(size.width - 1, 3), LittleBytes(size.height - 1, 3);
    Peel(raw, 20, flags, width + (height + rest));
    Peel(raw, 24, width, height + rest);
    Peel(raw, 27, height, rest);
  }

  lemma ScaledRoundTrip(n: nat, scale: nat)
    requires n < 0x4000 && scale < 4
    ensures Little(Scaled(n, scale)) % 0x4000 == n
  {
    Ranges();
    LittleRoundTrip(n + 0x4000 * scale, 2);
  }

  /** Section 9.1 of RFC 6386: the scale bits do not change the size. */
  lemma Vp8RoundTrip(declared: seq<byte>, tag: seq<byte>, size: Size, scaleX: nat, scaleY: nat, rest: seq<byte>)
    requires |declared| == 4 && |tag| == 3 && size.width < 0x4000 && size.height < 0x4000 && scaleX < 4 && scaleY < 4
    requires |rest| + 22 < 0x1_0000_0000
    ensures KindOf(WebpFile(VP8_, declared, Vp8Payload(tag, size, scaleX, scaleY, rest))) == Checked(Webp, Some(size))
  {
    var payload := Vp8Payload(tag, size, scaleX, scaleY, rest);
    var raw := WebpFile(VP8_, declared, payload);
    WebpEnvelope(VP8_, declared, payload);
    ScaledRoundTrip(size.width, scaleX);
    ScaledRoundTrip(size.height, scaleY);
    Peel(raw, 20, tag + START_CODE, Scaled(size.width, scaleX) + (Scaled(size.height, scaleY) + rest));
    Peel(raw, 26, Scaled(size.width, scaleX), Scaled(size.height, scaleY) + rest);
    Peel(raw, 28, Scaled(size.height, scaleY), rest);
    assert raw[23..26] == (tag + START_CODE)[3..];
    assert VP8_[3] != VP8X[3];
  }

  lemma Fourteen(low: nat, high: nat)
    requires low < 0x4000
    ensures (low + 0x4000 * high) / 0x4000 == high && (low + 0x4000 * high) % 0x4000 == low
  {
  }

  lemma PackedRoundTrip(size: Size, flags: nat)
    requires 1 <= size.width <= 0x4000 && 1 <= size.height <= 0x4000 && flags < 16
    ensures var bits := Little(Packed(size, flags));
      bits % 0x4000 == size.width - 1 && bits / 0x4000 % 0x4000 == size.height - 1
  {
    var high := size.height - 1 + 0x4000 * flags;
    var bits := size.width - 1 + 0x4000 * high;
    assert bits < 0x1_0000_0000 && Packed(size, flags) == LittleBytes(bits, 4);
    Ranges();
    LittleRoundTrip(bits, 4);
    Fourteen(size.width - 1, high);
    Fourteen(size.height - 1, flags);
  }

  /** Section 2.6 of RFC 9649. The header ends at byte 25, but files under 30 bytes are refused, so a size is read
      back exactly if five bytes follow the header. */
  lemma Vp8lRoundTrip(declared: seq<byte>, size: Size, flags: nat, rest: seq<byte>)
    requires |declared| == 4 && 1 <= size.width <= 0x4000 && 1 <= size.height <= 0x4000 && flags < 16
    requires |rest| + 17 < 0x1_0000_0000
    ensures var kind := KindOf(WebpFile(VP8L, declared, Vp8lPayload(size, flags, rest)));
      && kind == (if 5 <= |rest| then Checked(Webp, Some(size)) else Err(ImageInvalid))
      && (SizeOk(size) ==> (kind.Ok? <==> 5 <= |rest|))
  {
    var payload := Vp8lPayload(size, flags, rest);
    var raw := WebpFile(VP8L, declared, payload);
    WebpEnvelope(VP8L, declared, payload);
    PackedRoundTrip(size, flags);
    Peel(raw, 20, [0x2F], Packed(size, flags) + rest);
    Peel(raw, 21, Packed(size, flags), rest);
    assert raw[20..21][0] == 0x2F;
    assert VP8L[3] != VP8X[3] && VP8L[3] != VP8_[3];
  }

  /** A JPEG file: the start marker, segments, a frame, anything, and the end marker. */
  function JpegFile(segments: seq<Segment>, frame: Frame, middle: seq<byte>): seq<byte> {
    [0xFF, 0xD8] + Encode(segments, frame.Before(middle + [0xFF, 0xD9]))
  }

  predicate EndsWith(bs: seq<byte>, end: seq<byte>) {
    |end| <= |bs| && bs[|bs| - |end|..] == end
  }

  lemma EndsBehind(a: seq<byte>, bs: seq<byte>, end: seq<byte>)
    requires EndsWith(bs, end)
    ensures EndsWith(a + bs, end)
  {
    assert (a + bs)[|a + bs| - |end|..] == bs[|bs| - |end|..];
  }

  lemma FrameEnds(frame: Frame, tail: seq<byte>, end: seq<byte>)
    requires EndsWith(tail, end)
    ensures EndsWith(frame.Before(tail), end)
  {
    var behind := frame.components + tail;
    EndsBehind(frame.components, tail, end);
    EndsBehind(BigBytes(frame.size.width, 2), behind, end);
    EndsBehind(BigBytes(frame.size.height, 2), BigBytes(frame.size.width, 2) + behind, end);
    var sized := frame.SizeBefore(behind);
    EndsBehind([frame.precision], sized, end);
    var length := BigBytes(|frame.components| + 7, 2);
    EndsBehind(length, [frame.precision] + sized, end);
    EndsBehind([frame.marker], length + ([frame.precision] + sized), end);
    EndsBehind(Fill(frame.fill), [frame.marker] + (length + ([frame.precision] + sized)), end);
  }

  lemma SegmentEnds(segment: Segment, rest: seq<byte>, end: seq<byte>)
    requires EndsWith(rest, end)
    ensures EndsWith(segment.Before(rest), end)
  {
    match segment
    case Bare(fill, marker) =>
      EndsBehind([marker], rest, end);
      EndsBehind(Fill(fill), [marker] + rest, end);
    case Marked(fill, marker, body) =>
      var length := BigBytes(|body| + 2, 2);
      EndsBehind(body, rest, end);
      EndsBehind(length, body + rest, end);
      EndsBehind([marker], length + (body + rest), end);
      EndsBehind(Fill(fill), [marker] + (length + (body + rest)), end);
  }

  lemma {:induction false} EncodeEnds(segments: seq<Segment>, rest: seq<byte>, end: seq<byte>)
    requires EndsWith(rest, end)
    ensures EndsWith(Encode(segments, rest), end)
  {
    if segments != [] {
      EncodeEnds(segments[1..], rest, end);
      SegmentEnds(segments[0], Encode(segments[1..], rest), end);
    }
  }

  lemma {:induction false} EncodeStarts(segments: seq<Segment>, frame: Frame, tail: seq<byte>)
    requires SegmentsOk(segments) && frame.Ok()
    ensures var bs := Encode(segments, frame.Before(tail)); |bs| >= 9 && bs[0] == 0xFF
  {
    assert |frame.Before(tail)| >= 9;
    if segments != [] {
      assert segments[0] in segments;
      assert Fill(segments[0].fill)[0] == 0xFF;
    } else {
      assert Fill(frame.fill)[0] == 0xFF;
    }
  }

  lemma JpegFileIsJpeg(segments: seq<Segment>, frame: Frame, middle: seq<byte>)
    requires SegmentsOk(segments) && frame.Ok()
    ensures IsJpeg(JpegFile(segments, frame, middle)) && !IsPng(JpegFile(segments, frame, middle))
  {
    var tail := middle + [0xFF, 0xD9];
    var body := Encode(segments, frame.Before(tail));
    var raw := [0xFF, 0xD8] + body;
    EndsBehind(middle, [0xFF, 0xD9], [0xFF, 0xD9]);
    FrameEnds(frame, tail, [0xFF, 0xD9]);
    EncodeEnds(segments, frame.Before(tail), [0xFF, 0xD9]);
    EndsBehind([0xFF, 0xD8], body, [0xFF, 0xD9]);
    EncodeStarts(segments, frame, tail);
    assert raw[..3] == [0xFF, 0xD8, 0xFF] && raw[..8][0] == 0xFF;
  }

  /** Writing and reading a JPEG file: the size is that of its first frame, whatever the segments before it
      and the bytes behind it. */
  lemma JpegRoundTrip(segments: seq<Segment>, frame: Frame, middle: seq<byte>)
    requires SegmentsOk(segments) && frame.Ok()
    ensures KindOf(JpegFile(segments, frame, middle)) == Checked(Jpeg, Some(frame.size))
  {
    var raw := JpegFile(segments, frame, middle);
    JpegFileIsJpeg(segments, frame, middle);
    assert raw[2..] == Encode(segments, frame.Before(middle + [0xFF, 0xD9]));
    WalkFinds(raw, 2, segments, frame, middle + [0xFF, 0xD9]);
  }

  /** A file in the JPEG envelope is accepted with a size exactly when segments without a frame and a frame of
      that size follow the start marker, and the size is allowed. */
  lemma JpegIsExact(raw: seq<byte>, size: Size)
    requires IsJpeg(raw)
    ensures KindOf(raw) == Ok(Image(Jpeg, size)) <==> HasFrame(raw, 2, size) && SizeOk(size)
  {
    WalkIsExact(raw, 2, size);
    assert raw[0] == 0xFF by {
      assert raw[..3][0] == 0xFF;
    }
    assert !IsPng(raw) by {
      assert |raw| >= 8 ==> raw[..8][0] == raw[0];
    }
  }
}
