/** Which files are accepted as images, and with which size: exactly those that the three formats write. */
module ImageFormats {
  import opened Endian
  import opened ImageHeader
  import opened Wrappers

  // ----- the formats, without the reader

  ghost predicate WrittenPng(raw: seq<byte>, size: Size) {
    exists length, rest :: PngParts(raw, size, length, rest)
  }

  predicate PngParts(raw: seq<byte>, size: Size, length: seq<byte>, rest: seq<byte>) {
    && |length| == 4 && |rest| >= 9 && size.width < 0x1_0000_0000 && size.height < 0x1_0000_0000
    && raw == PngFile(length, size, rest)
  }

  /** A start marker, segments without a frame, a frame of this size, and an end marker behind. */
  ghost predicate WrittenJpeg(raw: seq<byte>, size: Size) {
    |raw| >= 4 && raw[..2] == [0xFF, 0xD8] && raw[|raw| - 2..] == [0xFF, 0xD9] && HasFrame(raw, 2, size)
  }

  datatype WebpForm =
    | Extended(flags: seq<byte>)
    | Lossy(tag: seq<byte>, scaleX: nat, scaleY: nat)
    | Lossless(flagBits: nat)

  predicate WebpParts(raw: seq<byte>, size: Size, form: WebpForm, declared: seq<byte>, rest: seq<byte>) {
    && |declared| == 4 && |raw| - 8 < 0x1_0000_0000
    && match form
       case Extended(flags) =>
         && |flags| == 4 && 1 <= size.width <= 0x100_0000 && 1 <= size.height <= 0x100_0000
         && raw == WebpFile(VP8X, declared, Vp8xPayload(flags, size, rest))
       case Lossy(tag, scaleX, scaleY) =>
         && |tag| == 3 && size.width < 0x4000 && size.height < 0x4000 && scaleX < 4 && scaleY < 4
         && raw == WebpFile(VP8_, declared, Vp8Payload(tag, size, scaleX, scaleY, rest))
       case Lossless(bits) =>
         && bits < 16 && 1 <= size.width <= 0x4000 && 1 <= size.height <= 0x4000 && 5 <= |rest|
         && raw == WebpFile(VP8L, declared, Vp8lPayload(size, bits, rest))
  }

  ghost predicate WrittenWebp(raw: seq<byte>, size: Size) {
    exists form, declared, rest :: WebpParts(raw, size, form, declared, rest)
  }

  ghost predicate Written(raw: seq<byte>, format: Format, size: Size) {
    match format
    case Png => WrittenPng(raw, size)
    case Jpeg => WrittenJpeg(raw, size)
    case Webp => WrittenWebp(raw, size)
  }

  predicate Allowed(size: Size) {
    64 <= size.width <= 8192 && 64 <= size.height <= 8192 && size.width * size.height <= 32_000_000
  }

  // ----- what is written is read

  lemma WrittenPngIsRead(raw: seq<byte>, size: Size)
    requires WrittenPng(raw, size)
    ensures KindOf(raw) == Checked(Png, Some(size))
  {
    var length, rest :| PngParts(raw, size, length, rest);
    PngRoundTrip(length, size, rest);
  }

  lemma WrittenJpegIsRead(raw: seq<byte>, size: Size)
    requires WrittenJpeg(raw, size)
    ensures IsJpeg(raw)
  {
    var segments, frame, tail :| Decomposes(raw, 2, segments, frame, tail) && frame.size == size;
    EncodeStarts(segments, frame, tail);
    assert raw[2] == raw[2..][0] == 0xFF;
    assert raw[..2][0] == 0xFF && raw[..2][1] == 0xD8;
    assert raw[..3] == [0xFF, 0xD8, 0xFF];
  }

  lemma WrittenWebpIsRead(raw: seq<byte>, size: Size)
    requires WrittenWebp(raw, size)
    ensures KindOf(raw) == Checked(Webp, Some(size))
  {
    var form, declared, rest :| WebpParts(raw, size, form, declared, rest);
    match form
    case Extended(flags) => Vp8xRoundTrip(declared, flags, size, rest);
    case Lossy(tag, scaleX, scaleY) => Vp8RoundTrip(declared, tag, size, scaleX, scaleY, rest);
    case Lossless(bits) => Vp8lRoundTrip(declared, size, bits, rest);
  }

  // ----- what is read was written

  lemma ReadPngIsWritten(raw: seq<byte>)
    requires IsPng(raw) && PngSize(raw).Some?
    ensures WrittenPng(raw, PngSize(raw).value)
  {
    PngIsWritten(raw);
    Ranges();
    assert PngParts(raw, PngSize(raw).value, raw[8..12], raw[24..]);
  }

  /** The container of a file that carries its own size. */
  lemma ReadContainer(raw: seq<byte>)
    requires IsWebp(raw) && |raw| >= 30 && Little(raw[4..8]) + 8 == |raw|
    ensures raw == WebpFile(raw[12..16], raw[16..20], raw[20..])
    ensures |raw| - 8 < 0x1_0000_0000
  {
    Ranges();
    LittleUnique(raw[4..8]);
    assert 12 + |raw[20..]| == |raw| - 8;
    assert raw == raw[..4] + raw[4..8] + raw[8..12] + raw[12..16] + raw[16..20] + raw[20..];
  }

  lemma ReadExtended(raw: seq<byte>)
    requires |raw| >= 30
    ensures var size := Size(1 + Little(raw[24..27]), 1 + Little(raw[27..30]));
      && size.width <= 0x100_0000 && size.height <= 0x100_0000
      && raw[20..] == Vp8xPayload(raw[20..24], size, raw[30..])
  {
    Ranges();
    LittleUnique(raw[24..27]);
    LittleUnique(raw[27..30]);
    Cut(raw, 20, 24);
    Cut(raw, 24, 27);
    Cut(raw, 27, 30);
  }

  lemma Cut(raw: seq<byte>, i: nat, j: nat)
    requires i <= j <= |raw|
    ensures raw[i..] == raw[i..j] + raw[j..]
  {
  }

  lemma {:induction false} ReadScaled(bs: seq<byte>)
    requires |bs| == 2
    ensures Little(bs) / 0x4000 < 4 && bs == Scaled(Little(bs) % 0x4000, Little(bs) / 0x4000)
  {
    Ranges();
    LittleUnique(bs);
    assert Little(bs) == Little(bs) % 0x4000 + 0x4000 * (Little(bs) / 0x4000);
  }

  lemma ReadLossy(raw: seq<byte>)
    requires |raw| >= 30 && raw[23..26] == START_CODE
    ensures var width, height := Little(raw[26..28]), Little(raw[28..30]);
      && width / 0x4000 < 4 && height / 0x4000 < 4
      && raw[20..] == Vp8Payload(raw[20..23], Size(width % 0x4000, height % 0x4000), width / 0x4000, height / 0x4000,
                                 raw[30..])
  {
    ReadScaled(raw[26..28]);
    ReadScaled(raw[28..30]);
    Cut(raw, 20, 26);
    assert raw[20..26] == raw[20..23] + raw[23..26];
    Cut(raw, 26, 28);
    Cut(raw, 28, 30);
  }

  lemma Unpack(bits: nat)
    requires bits < 0x1_0000_0000
    ensures bits == bits % 0x4000 + 0x4000 * (bits / 0x4000 % 0x4000) + 0x1000_0000 * (bits / 0x4000 / 0x4000)
    ensures bits / 0x4000 / 0x4000 < 16
  {
  }

  lemma ReadLossless(raw: seq<byte>)
    requires |raw| >= 30 && raw[20] == 0x2F
    ensures var bits := Little(raw[21..25]);
      var size := Size(bits % 0x4000 + 1, bits / 0x4000 % 0x4000 + 1);
      && bits / 0x4000 / 0x4000 < 16
      && raw[20..] == Vp8lPayload(size, bits / 0x4000 / 0x4000, raw[25..])
  {
    Ranges();
    LittleUnique(raw[21..25]);
    Unpack(Little(raw[21..25]));
    Cut(raw, 20, 21);
    Cut(raw, 21, 25);
    assert raw[20..21] == [0x2F];
  }

  lemma ReadWebpIsWritten(raw: seq<byte>)
    requires IsWebp(raw) && WebpSize(raw).Some?
    ensures WrittenWebp(raw, WebpSize(raw).value)
  {
    var size := WebpSize(raw).value;
    ReadContainer(raw);
    var declared := raw[16..20];
    if raw[12..16] == VP8X {
      ReadExtended(raw);
      assert WebpParts(raw, size, Extended(raw[20..24]), declared, raw[30..]);
    } else if raw[12..16] == VP8_ && raw[23..26] == START_CODE {
      ReadLossy(raw);
      var width, height := Little(raw[26..28]), Little(raw[28..30]);
      assert WebpParts(raw, size, Lossy(raw[20..23], width / 0x4000, height / 0x4000), declared, raw[30..]);
    } else {
      ReadLossless(raw);
      assert WebpParts(raw, size, Lossless(Little(raw[21..25]) / 0x4000 / 0x4000), declared, raw[25..]);
    }
  }

  // ----- the theorem

  lemma {:induction false} PngIsExact(raw: seq<byte>, size: Size)
    ensures KindOf(raw) == Ok(Image(Png, size)) <==> WrittenPng(raw, size) && Allowed(size)
  {
    if WrittenPng(raw, size) {
      WrittenPngIsRead(raw, size);
    }
    if KindOf(raw) == Ok(Image(Png, size)) {
      ReadPngIsWritten(raw);
    }
  }

  lemma {:induction false} JpegsAreExact(raw: seq<byte>, size: Size)
    ensures KindOf(raw) == Ok(Image(Jpeg, size)) <==> WrittenJpeg(raw, size) && Allowed(size)
  {
    if WrittenJpeg(raw, size) {
      WrittenJpegIsRead(raw, size);
    }
    if IsJpeg(raw) {
      JpegIsExact(raw, size);
      assert raw[..3][..2] == raw[..2] && [0xFF, 0xD8, 0xFF][..2] == [0xFF, 0xD8];
      if KindOf(raw) == Ok(Image(Jpeg, size)) {
        assert Walk(raw, 2).Some?;
        WalksFour(raw);
      }
    }
  }

  lemma {:induction false} WalksFour(raw: seq<byte>)
    requires |raw| >= 2 && Walk(raw, 2).Some?
    ensures |raw| >= 4
  {
  }

  lemma {:induction false} WebpIsExact(raw: seq<byte>, size: Size)
    ensures KindOf(raw) == Ok(Image(Webp, size)) <==> WrittenWebp(raw, size) && Allowed(size)
  {
    if WrittenWebp(raw, size) {
      WrittenWebpIsRead(raw, size);
    }
    if KindOf(raw) == Ok(Image(Webp, size)) {
      ReadWebpIsWritten(raw);
    }
  }

  /** On every byte string: it is accepted in a format with a size exactly if it is a file that the format writes for
      that size, and the size is allowed. */
  lemma {:induction false} AcceptedIsWritten(raw: seq<byte>, format: Format, size: Size)
    ensures KindOf(raw) == Ok(Image(format, size)) <==> Written(raw, format, size) && Allowed(size)
  {
    match format
    case Png => PngIsExact(raw, size);
    case Jpeg => JpegsAreExact(raw, size);
    case Webp => WebpIsExact(raw, size);
  }

  /** The frame markers of table B.1 of ITU-T T.81, and the markers without a length. */
  lemma MarkersAreTheTables(marker: byte)
    ensures StartOfFrame(marker) <==>
      marker in {0xC0, 0xC1, 0xC2, 0xC3, 0xC5, 0xC6, 0xC7, 0xC9, 0xCA, 0xCB, 0xCD, 0xCE, 0xCF}
    ensures Standalone(marker) <==>
      marker in {0x01, 0xD0, 0xD1, 0xD2, 0xD3, 0xD4, 0xD5, 0xD6, 0xD7, 0xD8, 0xD9}
  {
  }
}
