/**
 Verifying an uploaded image while it streams by: its size, the first bytes of it, and the
 dimensions that a PNG, WebP or JPEG header declares.
 */
module ImageUpload {
  import opened Wrappers

  type Byte = x: int | 0 <= x < 256

  const MAX_BYTES: nat := 2 * 1024 * 1024
  const HEADER_LIMIT: nat := 64 * 1024

  datatype ContentType = Png | Jpeg | Webp

  datatype Metadata = Metadata(contentType: ContentType, width: nat, height: nat)

  datatype Intent = Intent(contentType: ContentType, sizeBytes: int, width: int, height: int)

  datatype Verdict = Accepted | TooLarge | WrongSize | WrongSignature | WrongDimensions

  // ---------- reading a header ----------

  function Be16(b: seq<Byte>, at: nat): nat
    requires at + 2 <= |b|
  {
    256 * (b[at] as int) + b[at + 1]
  }

  function Be32(b: seq<Byte>, at: nat): nat
    requires at + 4 <= |b|
  {
    0x1_0000 * Be16(b, at) + Be16(b, at + 2)
  }

  function Le24(b: seq<Byte>, at: nat): nat
    requires at + 3 <= |b|
  {
    (b[at] as int) + 256 * (b[at + 1] as int) + 0x1_0000 * (b[at + 2] as int)
  }

  const PNG_SIGNATURE: seq<Byte> := [137, 80, 78, 71, 13, 10, 26, 10]

  /** Decoding as "ascii" drops the top bit of every byte. */
  predicate ReadsAs(b: seq<Byte>, at: nat, text: string)
    requires at + |text| <= |b|
  {
    forall i :: 0 <= i < |text| ==> b[at + i] % 128 == text[i] as int
  }

  predicate IsFrame(marker: Byte) { 0xc0 <= marker <= 0xc3 }

  /** From `offset` on: skip to a marker, take the size from a frame header, else jump over the
      segment. Stops where a frame header would not fit any more. */
  function ScanJpeg(b: seq<Byte>, offset: nat): Option<Metadata>
    decreases |b| - offset
  {
    if offset + 9 >= |b| then None
    else if b[offset] != 0xff then ScanJpeg(b, offset + 1)
    else if IsFrame(b[offset + 1]) then Some(Metadata(Jpeg, Be16(b, offset + 7), Be16(b, offset + 5)))
    else if Be16(b, offset + 2) < 2 then None
    else ScanJpeg(b, offset + 2 + Be16(b, offset + 2))
  }

  function MetadataOf(b: seq<Byte>): Option<Metadata> {
    if |b| >= 24 && b[..8] == PNG_SIGNATURE then Some(Metadata(Png, Be32(b, 16), Be32(b, 20)))
    else if |b| >= 30 && ReadsAs(b, 0, "RIFF") && ReadsAs(b, 8, "WEBP") && ReadsAs(b, 12, "VP8X") then
      Some(Metadata(Webp, 1 + Le24(b, 24), 1 + Le24(b, 27)))
    else if |b| >= 4 && b[0] == 0xff && b[1] == 0xd8 then ScanJpeg(b, 2)
    else None
  }

  /** The scan as it is written: every read is inside the buffer, and it ends. */
  method ImageMetadata(buffer: seq<Byte>) returns (metadata: Option<Metadata>)
    ensures metadata == MetadataOf(buffer)
  {
    if |buffer| >= 24 && buffer[..8] == PNG_SIGNATURE {
      return Some(Metadata(Png, Be32(buffer, 16), Be32(buffer, 20)));
    }
    if |buffer| >= 30 && ReadsAs(buffer, 0, "RIFF") && ReadsAs(buffer, 8, "WEBP") {
      if ReadsAs(buffer, 12, "VP8X") { return Some(Metadata(Webp, 1 + Le24(buffer, 24), 1 + Le24(buffer, 27))); }
      NotJpeg(buffer);
    }
    if |buffer| >= 4 && buffer[0] == 0xff && buffer[1] == 0xd8 {
      var offset := 2;
      while offset + 9 < |buffer|
        invariant ScanJpeg(buffer, 2) == ScanJpeg(buffer, offset)
        decreases |buffer| - offset
      {
        if buffer[offset] != 0xff {
          offset := offset + 1;
          continue;
        }
        var length := Be16(buffer, offset + 2);
        if IsFrame(buffer[offset + 1]) {
          return Some(Metadata(Jpeg, Be16(buffer, offset + 7), Be16(buffer, offset + 5)));
        }
        if length < 2 { break; }
        offset := offset + 2 + length;
      }
    }
    metadata := None;
  }

  lemma {:induction false} NotJpeg(b: seq<Byte>)
    requires |b| >= 4 && ReadsAs(b, 0, "RIFF")
    ensures b[0] != 0xff
  {
    assert "RIFF"[0] == 'R';
    assert b[0 + 0] % 128 == "RIFF"[0] as int;
  }

  // ---------- what the parser recovers ----------

  function PutBe16(v: nat): (s: seq<Byte>)
    requires v < 0x1_0000
    ensures |s| == 2 && Be16(s, 0) == v
  {
    [v / 256, v % 256]
  }

  function PutBe32(v: nat): (s: seq<Byte>)
    requires v < 0x1_0000_0000
    ensures |s| == 4 && Be32(s, 0) == v
  {
    PutBe16(v / 0x1_0000) + PutBe16(v % 0x1_0000)
  }

  function PutLe24(v: nat): (s: seq<Byte>)
    requires v < 0x100_0000
    ensures |s| == 3 && Le24(s, 0) == v
  {
    [v % 256, v / 256 % 256, v / 0x1_0000]
  }

  function Text(t: string): (s: seq<Byte>)
    requires forall i :: 0 <= i < |t| ==> t[i] < 128 as char
    ensures |s| == |t| && ReadsAs(s, 0, t)
  {
    seq(|t|, i requires 0 <= i < |t| => t[i] as int)
  }

  /** A PNG file begins with its signature and the IHDR chunk (sections 5.2 and 11.2.2 of the PNG
      specification). */
  function PngStart(width: nat, height: nat): (s: seq<Byte>)
    requires width < 0x1_0000_0000 && height < 0x1_0000_0000
    ensures |s| == 24
  {
    PNG_SIGNATURE + PutBe32(13) + Text("IHDR") + PutBe32(width) + PutBe32(height)
  }

  lemma {:induction false} ReadsPng(width: nat, height: nat, rest: seq<Byte>)
    requires width < 0x1_0000_0000 && height < 0x1_0000_0000
    ensures MetadataOf(PngStart(width, height) + rest) == Some(Metadata(Png, width, height))
  {
    hide PutBe32, Text;
    var b := PngStart(width, height) + rest;
    assert b[..8] == PNG_SIGNATURE;
    assert b[16..20] == PutBe32(width) && b[20..24] == PutBe32(height);
    assert Be32(b, 16) == Be32(b[16..20], 0) && Be32(b, 20) == Be32(b[20..24], 0);
  }

  datatype Segment = Segment(marker: Byte, payload: seq<Byte>)

  ghost predicate WellFormed(segments: seq<Segment>) {
    forall i :: 0 <= i < |segments| ==> !IsFrame(segments[i].marker) && |segments[i].payload| + 2 < 0x1_0000
  }

  /** The segments from number `i` on, each as marker, length and payload. */
  function SegmentBytes(segments: seq<Segment>, i: nat): seq<Byte>
    requires WellFormed(segments) && i <= |segments|
    decreases |segments| - i
  {
    if i == |segments| then []
    else SegmentHead(segments[i]) + segments[i].payload + SegmentBytes(segments, i + 1)
  }

  /** A frame header (section B.2.2 of ITU-T T.81): marker, length, precision, lines, samples. */
  function Frame(marker: Byte, length: nat, precision: Byte, width: nat, height: nat): (s: seq<Byte>)
    requires length < 0x1_0000 && width < 0x1_0000 && height < 0x1_0000
    ensures |s| == 9
  {
    [0xff, marker] + PutBe16(length) + [precision] + PutBe16(height) + PutBe16(width)
  }

  lemma {:induction false} SliceByte(b: seq<Byte>, at: nat, n: nat, i: nat)
    requires at + n <= |b| && i < n
    ensures b[at..at + n][i] == b[at + i]
  {
  }

  lemma {:induction false} Slice16(b: seq<Byte>, at: nat, n: nat, i: nat)
    requires at + n <= |b| && i + 2 <= n
    ensures Be16(b, at + i) == Be16(b[at..at + n][i..i + 2], 0)
  {
    SliceByte(b, at, n, i);
    SliceByte(b, at, n, i + 1);
  }

  lemma {:induction false} ScansFrame(b: seq<Byte>, at: nat, marker: Byte, length: nat, precision: Byte, width: nat,
      height: nat)
    requires length < 0x1_0000 && width < 0x1_0000 && height < 0x1_0000 && IsFrame(marker)
    requires at + 9 < |b| && b[at..at + 9] == Frame(marker, length, precision, width, height)
    ensures ScanJpeg(b, at) == Some(Metadata(Jpeg, width, height))
  {
    hide PutBe16;
    var f := b[at..at + 9];
    SliceByte(b, at, 9, 0);
    SliceByte(b, at, 9, 1);
    assert f[5..7] == PutBe16(height) && f[7..9] == PutBe16(width);
    Slice16(b, at, 9, 5);
    Slice16(b, at, 9, 7);
  }

  lemma {:induction false} ScansSegment(b: seq<Byte>, at: nat, s: Segment)
    requires !IsFrame(s.marker) && |s.payload| + 2 < 0x1_0000
    requires at + 9 < |b|
    requires b[at..at + 4] == SegmentHead(s)
    ensures ScanJpeg(b, at) == ScanJpeg(b, at + 4 + |s.payload|)
  {
    hide PutBe16;
    var h := b[at..at + 4];
    SliceByte(b, at, 4, 0);
    SliceByte(b, at, 4, 1);
    assert h[2..4] == PutBe16(|s.payload| + 2);
    Slice16(b, at, 4, 2);
  }

  function SegmentHead(s: Segment): (h: seq<Byte>)
    requires |s.payload| + 2 < 0x1_0000
    ensures |h| == 4
  {
    [0xff, s.marker] + PutBe16(|s.payload| + 2)
  }

  /** One segment: among the first `n` bytes the scan steps over it, or has nothing left. */
  lemma {:induction false} StepsOver(b: seq<Byte>, n: nat, at: nat, s: Segment, more: seq<Byte>)
    requires !IsFrame(s.marker) && |s.payload| + 2 < 0x1_0000 && n <= |b|
    requires at <= |b| && b[at..] == SegmentHead(s) + s.payload + more
    ensures var next := at + 4 + |s.payload|;
            next <= |b| && b[next..] == more && ScanJpeg(b[..n], at) == ScanJpeg(b[..n], next)
  {
    hide SegmentHead, ScanJpeg, IsFrame;
    assert b[at + 4 + |s.payload|..] == b[at..][4 + |s.payload|..] == more;
    if at + 9 < n {
      assert b[..n][at..at + 4] == b[at..][..4] == SegmentHead(s);
      ScansSegment(b[..n], at, s);
    } else {
      NothingLeft(b[..n], at);
      NothingLeft(b[..n], at + 4 + |s.payload|);
    }
  }

  lemma {:induction false} SegmentsFrom(segments: seq<Segment>, i: nat, tail: seq<Byte>)
    requires WellFormed(segments) && i < |segments|
    ensures !IsFrame(segments[i].marker) && |segments[i].payload| + 2 < 0x1_0000
    ensures SegmentBytes(segments, i) + tail
         == SegmentHead(segments[i]) + segments[i].payload + (SegmentBytes(segments, i + 1) + tail)
    ensures |SegmentBytes(segments, i)| == 4 + |segments[i].payload| + |SegmentBytes(segments, i + 1)|
  {
    hide PutBe16;
  }

  /** Scanning the first `n` bytes of a file whose segments from number `i` on stand at `at`: the scan
      gets to the frame if the frame and one byte more are among them, and to nothing otherwise. */
  lemma {:induction false} ScansSegments(b: seq<Byte>, n: nat, at: nat, segments: seq<Segment>, i: nat, tail: seq<Byte>)
    requires WellFormed(segments) && i <= |segments| && n <= |b|
    requires at <= |b| && b[at..] == SegmentBytes(segments, i) + tail
    ensures var next := at + |SegmentBytes(segments, i)|;
            && next <= |b| && b[next..] == tail
            && ScanJpeg(b[..n], at) == if next + 9 < n then ScanJpeg(b[..n], next) else None
    decreases |segments| - i
  {
    hide ScanJpeg, IsFrame, SegmentHead;
    if i < |segments| {
      SegmentsFrom(segments, i, tail);
      hide SegmentBytes;
      StepsOver(b, n, at, segments[i], SegmentBytes(segments, i + 1) + tail);
      ScansSegments(b, n, at + 4 + |segments[i].payload|, segments, i + 1, tail);
    } else {
      assert SegmentBytes(segments, i) == [];
      if at + 9 >= n { NothingLeft(b[..n], at); }
    }
  }

  lemma {:induction false} NothingLeft(b: seq<Byte>, at: nat)
    requires at + 9 >= |b|
    ensures ScanJpeg(b, at) == None
  {
  }

  /** A JPEG file: its segments, the frame header and what follows it. */
  datatype JpegFile = JpegFile(segments: seq<Segment>, marker: Byte, length: nat, precision: Byte,
      width: nat, height: nat, rest: seq<Byte>)

  ghost predicate IsJpeg(f: JpegFile) {
    WellFormed(f.segments) && IsFrame(f.marker) && f.length < 0x1_0000 && f.width < 0x1_0000 && f.height < 0x1_0000
  }

  function FrameOf(f: JpegFile): (s: seq<Byte>)
    requires IsJpeg(f)
    ensures |s| == 9
  {
    Frame(f.marker, f.length, f.precision, f.width, f.height)
  }

  function JpegBytes(f: JpegFile): seq<Byte>
    requires IsJpeg(f)
  {
    [0xff, 0xd8] + (SegmentBytes(f.segments, 0) + (FrameOf(f) + f.rest))
  }

  /** Where the frame header ends. */
  function FrameEnd(f: JpegFile): nat
    requires IsJpeg(f)
  {
    2 + |SegmentBytes(f.segments, 0)| + 9
  }

  lemma {:induction false} StartsAsJpeg(b: seq<Byte>)
    requires |b| >= 2 && b[0] == 0xff && b[1] == 0xd8
    ensures MetadataOf(b) == if |b| >= 4 then ScanJpeg(b, 2) else None
  {
    hide ScanJpeg;
    if |b| >= 24 { assert b[..8][0] != PNG_SIGNATURE[0]; }
    if |b| >= 30 && ReadsAs(b, 0, "RIFF") { NotJpeg(b); }
  }

  /** Whatever segments come before the frame header, the first `n` bytes of the file give its
      dimensions exactly when they hold the frame header and one byte more. */
  lemma {:induction false} ReadsJpeg(f: JpegFile, n: nat)
    requires IsJpeg(f) && n <= |JpegBytes(f)|
    ensures MetadataOf(JpegBytes(f)[..n]) == if FrameEnd(f) < n then Some(Metadata(Jpeg, f.width, f.height)) else None
  {
    hide SegmentBytes, FrameOf, ScanJpeg, MetadataOf, IsFrame;
    var b, at := JpegBytes(f), FrameEnd(f) - 9;
    var h := b[..n];
    assert b[2..] == SegmentBytes(f.segments, 0) + (FrameOf(f) + f.rest);
    ScansSegments(b, n, 2, f.segments, 0, FrameOf(f) + f.rest);
    if n < 2 {
      TooShort(h);
    } else {
      StartsAsJpeg(h);
      if FrameEnd(f) < n {
        assert h[at..at + 9] == b[at..][..9] == FrameOf(f);
        FrameScanned(f, h, at);
      }
    }
  }

  lemma {:induction false} TooShort(b: seq<Byte>)
    requires |b| < 4
    ensures MetadataOf(b) == None
  {
  }

  lemma {:induction false} FrameScanned(f: JpegFile, b: seq<Byte>, at: nat)
    requires IsJpeg(f) && at + 9 < |b| && b[at..at + 9] == FrameOf(f)
    ensures ScanJpeg(b, at) == Some(Metadata(Jpeg, f.width, f.height))
  {
    hide ScanJpeg, Frame;
    ScansFrame(b, at, f.marker, f.length, f.precision, f.width, f.height);
  }

  /** The start of an extended WebP file (RFC 9649, section 2.7). */
  function WebpStart(fileSize: nat, chunkSize: nat, flags: nat, width: nat, height: nat): (s: seq<Byte>)
    requires fileSize < 0x1_0000_0000 && chunkSize < 0x1_0000_0000 && flags < 0x1_0000_0000
    requires 0 < width <= 0x100_0000 && 0 < height <= 0x100_0000
    ensures |s| == 30
  {
    Text("RIFF") + PutBe32(fileSize) + Text("WEBP") + Text("VP8X") + PutBe32(chunkSize) + PutBe32(flags)
      + PutLe24(width - 1) + PutLe24(height - 1)
  }

  lemma {:induction false} ReadsInside(b: seq<Byte>, at: nat, t: string)
    requires at + |t| <= |b| && ReadsAs(b[at..at + |t|], 0, t)
    ensures ReadsAs(b, at, t)
  {
    var part := b[at..at + |t|];
    forall i | 0 <= i < |t| ensures b[at + i] % 128 == t[i] as int { assert part[0 + i] % 128 == t[i] as int; }
  }

  lemma {:induction false} WebpSignature(fileSize: nat, chunkSize: nat, flags: nat, width: nat, height: nat,
      rest: seq<Byte>)
    requires fileSize < 0x1_0000_0000 && chunkSize < 0x1_0000_0000 && flags < 0x1_0000_0000
    requires 0 < width <= 0x100_0000 && 0 < height <= 0x100_0000
    ensures var b := WebpStart(fileSize, chunkSize, flags, width, height) + rest;
            && b[0] == 'R' as int && ReadsAs(b, 0, "RIFF") && ReadsAs(b, 8, "WEBP") && ReadsAs(b, 12, "VP8X")
            && b[24..27] == PutLe24(width - 1) && b[27..30] == PutLe24(height - 1)
  {
    var b := WebpStart(fileSize, chunkSize, flags, width, height) + rest;
    assert Text("RIFF")[0] == 'R' as int;
    hide PutBe32, PutLe24, Text, ReadsAs;
    assert b[0..0 + 4] == Text("RIFF") && b[8..8 + 4] == Text("WEBP") && b[12..12 + 4] == Text("VP8X");
    assert b[0] == Text("RIFF")[0];
    ReadsInside(b, 0, "RIFF");
    ReadsInside(b, 8, "WEBP");
    ReadsInside(b, 12, "VP8X");
  }

  lemma {:induction false} Slice24(b: seq<Byte>, at: nat)
    requires at + 3 <= |b|
    ensures Le24(b, at) == Le24(b[at..at + 3], 0)
  {
  }

  lemma {:induction false} ReadsWebp(fileSize: nat, chunkSize: nat, flags: nat, width: nat, height: nat,
      rest: seq<Byte>)
    requires fileSize < 0x1_0000_0000 && chunkSize < 0x1_0000_0000 && flags < 0x1_0000_0000
    requires 0 < width <= 0x100_0000 && 0 < height <= 0x100_0000
    ensures MetadataOf(WebpStart(fileSize, chunkSize, flags, width, height) + rest)
         == Some(Metadata(Webp, width, height))
  {
    var b := WebpStart(fileSize, chunkSize, flags, width, height) + rest;
    WebpSignature(fileSize, chunkSize, flags, width, height, rest);
    NotPng(b);
    Slice24(b, 24);
    Slice24(b, 27);
    hide WebpStart, PutLe24, ReadsAs, Le24;
  }

  lemma {:induction false} NotPng(b: seq<Byte>)
    requires |b| >= 8 && ReadsAs(b, 0, "RIFF")
    ensures b[..8] != PNG_SIGNATURE
  {
    assert "RIFF"[0] == 'R';
    assert b[0 + 0] % 128 == "RIFF"[0] as int;
    assert b[..8][0] == b[0];
  }

  /** The top bits of the signature do not count: with any of them changed the file still reads as
      the WebP it is not. */
  lemma {:induction false} TopBitsIgnored(b: seq<Byte>, c: seq<Byte>)
    requires |b| == |c| >= 30 && ReadsAs(b, 0, "RIFF") && ReadsAs(b, 8, "WEBP") && ReadsAs(b, 12, "VP8X")
    requires forall i :: 0 <= i < |b| ==> if i < 4 || 8 <= i < 16 then c[i] % 128 == b[i] % 128 else c[i] == b[i]
    ensures MetadataOf(c) == MetadataOf(b)
  {
    SameReading(b, c, 0, "RIFF");
    SameReading(b, c, 8, "WEBP");
    SameReading(b, c, 12, "VP8X");
    NotPng(b);
    NotPng(c);
  }

  lemma {:induction false} SameReading(b: seq<Byte>, c: seq<Byte>, at: nat, t: string)
    requires at + |t| <= |b| == |c| && ReadsAs(b, at, t)
    requires forall i :: at <= i < at + |t| ==> c[i] % 128 == b[i] % 128
    ensures ReadsAs(c, at, t)
  {
    forall i | 0 <= i < |t| ensures c[at + i] % 128 == t[i] as int { assert b[at + i] % 128 == t[i] as int; }
  }

  /** One such file: its first byte is 210, not the 82 of a capital R, and it is read all the same. */
  lemma {:induction false} ForgedSignatureReads(fileSize: nat, chunkSize: nat, flags: nat, width: nat, height: nat,
      rest: seq<Byte>)
    requires fileSize < 0x1_0000_0000 && chunkSize < 0x1_0000_0000 && flags < 0x1_0000_0000
    requires 0 < width <= 0x100_0000 && 0 < height <= 0x100_0000
    ensures var file := WebpStart(fileSize, chunkSize, flags, width, height) + rest;
            file[0] == 'R' as int && MetadataOf(file[0 := 210]) == Some(Metadata(Webp, width, height))
  {
    var file := WebpStart(fileSize, chunkSize, flags, width, height) + rest;
    ReadsWebp(fileSize, chunkSize, flags, width, height, rest);
    WebpSignature(fileSize, chunkSize, flags, width, height, rest);
    hide WebpStart, MetadataOf;
    FirstLetter(file);
    TopBitsIgnored(file, file[0 := 210]);
  }

  lemma {:induction false} FirstLetter(b: seq<Byte>)
    requires |b| >= 4 && ReadsAs(b, 0, "RIFF")
    ensures b[0] % 128 == 82 == 'R' as int
  {
    assert "RIFF"[0] == 'R';
    assert b[0 + 0] % 128 == "RIFF"[0] as int;
  }

  // ---------- the verifying stream ----------

  /** The bytes of the first `n` chunks. */
  function Bytes(chunks: seq<seq<Byte>>, n: nat): seq<Byte>
    requires n <= |chunks|
  {
    if n == 0 then [] else Bytes(chunks, n - 1) + chunks[n - 1]
  }

  function Header(bytes: seq<Byte>): seq<Byte> { if |bytes| <= HEADER_LIMIT then bytes else bytes[..HEADER_LIMIT] }

  /** What the received bytes decide. */
  function Judge(intent: Intent, bytes: seq<Byte>): Verdict {
    if |bytes| > MAX_BYTES then TooLarge
    else if |bytes| != intent.sizeBytes then WrongSize
    else
      match MetadataOf(Header(bytes))
      case None => WrongSignature
      case Some(m) =>
        if m.contentType != intent.contentType then WrongSignature
        else if m.width != intent.width || m.height != intent.height then WrongDimensions
        else Accepted
  }

  class VerifyingStream {
    var size: nat
    var headers: seq<seq<Byte>>
    var headerBytes: nat
    const intent: Intent

    /** What the stream remembers of the bytes that have gone by. */
    ghost predicate Saw(bytes: seq<Byte>)
      reads this
    {
      size == |bytes| && Bytes(headers, |headers|) == Header(bytes) && headerBytes == |Header(bytes)|
    }

    constructor (intent: Intent)
      ensures Saw([]) && this.intent == intent
    {
      size, headers, headerBytes := 0, [], 0;
      this.intent := intent;
    }

    /** One chunk; false is the error that ends the stream. */
    method Transform(chunk: seq<Byte>, ghost before: seq<Byte>) returns (ok: bool)
      requires Saw(before)
      modifies this
      ensures Saw(before + chunk)
      ensures ok <==> |before + chunk| <= MAX_BYTES
    {
      size := size + |chunk|;
      if headerBytes < HEADER_LIMIT {
        var part := if |chunk| <= HEADER_LIMIT - headerBytes then chunk else chunk[..HEADER_LIMIT - headerBytes];
        headers := headers + [part];
        headerBytes := headerBytes + |part|;
        assert Header(before) == before;
        assert Header(before + chunk) == before + part;
        BytesOfPrefix(headers, headers[..|headers| - 1], |headers| - 1);
      } else {
        assert Header(before + chunk) == Header(before);
      }
      ok := size <= MAX_BYTES;
    }

    method Verify(ghost bytes: seq<Byte>) returns (verdict: Verdict)
      requires Saw(bytes) && |bytes| <= MAX_BYTES
      ensures verdict == Judge(intent, bytes)
    {
      if size != intent.sizeBytes { return WrongSize; }
      var header := ConcatParts(headers);
      var metadata := ImageMetadata(header);
      if metadata == None || metadata.value.contentType != intent.contentType { return WrongSignature; }
      if metadata.value.width != intent.width || metadata.value.height != intent.height { return WrongDimensions; }
      verdict := Accepted;
    }
  }

  lemma {:induction false} BytesOfPrefix(a: seq<seq<Byte>>, b: seq<seq<Byte>>, n: nat)
    requires n <= |a| && n <= |b| && forall i :: 0 <= i < n ==> a[i] == b[i]
    ensures Bytes(a, n) == Bytes(b, n)
  {
    if n > 0 { BytesOfPrefix(a, b, n - 1); }
  }

  method ConcatParts(parts: seq<seq<Byte>>) returns (bytes: seq<Byte>)
    ensures bytes == Bytes(parts, |parts|)
  {
    bytes := [];
    for i := 0 to |parts|
      invariant bytes == Bytes(parts, i)
    {
      bytes := bytes + parts[i];
    }
  }

  lemma {:induction false} BytesGrow(chunks: seq<seq<Byte>>, m: nat, n: nat)
    requires m <= n <= |chunks|
    ensures |Bytes(chunks, m)| <= |Bytes(chunks, n)|
  {
    if m < n { BytesGrow(chunks, m, n - 1); }
  }

  /** An upload piped through the verifier: however the bytes are cut into chunks, the verdict is
      that of the bytes. */
  method ReceiveUpload(intent: Intent, chunks: seq<seq<Byte>>) returns (verdict: Verdict)
    ensures verdict == Judge(intent, Bytes(chunks, |chunks|))
  {
    var stream := new VerifyingStream(intent);
    for i := 0 to |chunks|
      invariant stream.Saw(Bytes(chunks, i)) && stream.intent == intent
      invariant |Bytes(chunks, i)| <= MAX_BYTES
    {
      var ok := stream.Transform(chunks[i], Bytes(chunks, i));
      if !ok {
        BytesGrow(chunks, i + 1, |chunks|);
        return TooLarge;
      }
    }
    verdict := stream.Verify(Bytes(chunks, |chunks|));
  }

  /** A PNG of at least its own header is accepted exactly for what it declares and is. */
  lemma {:induction false} AcceptsPng(intent: Intent, width: nat, height: nat, rest: seq<Byte>)
    requires width < 0x1_0000_0000 && height < 0x1_0000_0000
    ensures var bytes := PngStart(width, height) + rest;
            Judge(intent, bytes) == Accepted <==> |bytes| <= MAX_BYTES && intent == Intent(Png, |bytes|, width, height)
  {
    var start := PngStart(width, height);
    hide PngStart, MetadataOf;
    var bytes := start + rest;
    var kept := if |bytes| <= HEADER_LIMIT then rest else rest[..HEADER_LIMIT - 24];
    assert Header(bytes) == start + kept;
    ReadsPng(width, height, kept);
  }

  /** A JPEG is accepted exactly for its own size and dimensions, within 2 MiB, provided its frame
      header ends inside the first 64 KiB; behind longer segments it counts as another format. */
  lemma {:induction false} AcceptsJpeg(intent: Intent, f: JpegFile)
    requires IsJpeg(f)
    ensures var bytes := JpegBytes(f);
            && (Judge(intent, bytes) == Accepted <==>
                  && |bytes| <= MAX_BYTES && intent == Intent(Jpeg, |bytes|, f.width, f.height)
                  && FrameEnd(f) < |Header(bytes)|)
            && (|bytes| <= MAX_BYTES && intent.sizeBytes == |bytes| && FrameEnd(f) >= |Header(bytes)| ==>
                  Judge(intent, bytes) == WrongSignature)
  {
    var bytes := JpegBytes(f);
    hide JpegBytes, FrameEnd, MetadataOf;
    assert Header(bytes) == bytes[..|Header(bytes)|];
    ReadsJpeg(f, |Header(bytes)|);
  }

  /** An extended WebP is accepted exactly for its own size and canvas, within 2 MiB. */
  lemma {:induction false} AcceptsWebp(intent: Intent, fileSize: nat, chunkSize: nat, flags: nat, width: nat,
      height: nat, rest: seq<Byte>)
    requires fileSize < 0x1_0000_0000 && chunkSize < 0x1_0000_0000 && flags < 0x1_0000_0000
    requires 0 < width <= 0x100_0000 && 0 < height <= 0x100_0000
    ensures var bytes := WebpStart(fileSize, chunkSize, flags, width, height) + rest;
            Judge(intent, bytes) == Accepted <==> |bytes| <= MAX_BYTES && intent == Intent(Webp, |bytes|, width, height)
  {
    var start := WebpStart(fileSize, chunkSize, flags, width, height);
    hide WebpStart, MetadataOf;
    var bytes := start + rest;
    var kept := if |bytes| <= HEADER_LIMIT then rest else rest[..HEADER_LIMIT - 30];
    assert Header(bytes) == start + kept;
    ReadsWebp(fileSize, chunkSize, flags, width, height, kept);
  }

  // ---------- in plain bytes ----------

  /** Dimensions are big-endian in PNG and JPEG and little-endian in WebP. */
  lemma {:induction false} ByteOrders()
    ensures Be16([1, 2], 0) == 258 && Be32([0, 0, 1, 44], 0) == 300 && Le24([44, 1, 0], 0) == 300
    ensures Be32([1, 0, 0, 0], 0) == 0x100_0000 && Le24([0, 0, 1], 0) == 0x1_0000
    ensures forall m: Byte :: IsFrame(m) <==> m == 0xc0 || m == 0xc1 || m == 0xc2 || m == 0xc3
  {
  }

  /** Whatever is not one of the three formats is refused: a PNG is read only after its eight signature
      bytes, a WebP only after RIFF, WEBP and VP8X, a JPEG only after FF D8. */
  lemma {:induction false} FormatsHaveSignatures(b: seq<Byte>)
    requires MetadataOf(b).Some?
    ensures MetadataOf(b).value.contentType == Png <==>
      (|b| >= 24 && b[0] == 137 && b[1] == 80 && b[2] == 78 && b[3] == 71
       && b[4] == 13 && b[5] == 10 && b[6] == 26 && b[7] == 10)
    ensures MetadataOf(b).value.contentType == Jpeg ==> |b| >= 4 && b[0] == 0xff && b[1] == 0xd8
    ensures MetadataOf(b).value.contentType == Webp ==>
      (|b| >= 30 && Low(b, 0) == [82, 73, 70, 70] && Low(b, 8) == [87, 69, 66, 80] && Low(b, 12) == [86, 80, 56, 88])
  {
    hide ScanJpeg;
    JpegOnly(b, 2);
    if |b| >= 24 && b[..8] == PNG_SIGNATURE {
      forall i | 0 <= i < 8 ensures b[i] == PNG_SIGNATURE[i] { assert b[i] == b[..8][i]; }
    }
    if |b| >= 24 && b[0] == 137 && b[1] == 80 && b[2] == 78 && b[3] == 71
       && b[4] == 13 && b[5] == 10 && b[6] == 26 && b[7] == 10 { assert b[..8] == PNG_SIGNATURE; }
    if MetadataOf(b).value.contentType == Webp {
      FourLetters(b, 0, "RIFF");
      FourLetters(b, 8, "WEBP");
      FourLetters(b, 12, "VP8X");
    }
  }

  /** Four bytes without their top bits. */
  function Low(b: seq<Byte>, at: nat): seq<Byte>
    requires at + 4 <= |b|
  {
    [b[at] % 128, b[at + 1] % 128, b[at + 2] % 128, b[at + 3] % 128]
  }

  lemma {:induction false} FourLetters(b: seq<Byte>, at: nat, t: string)
    requires at + 4 <= |b| && |t| == 4 && ReadsAs(b, at, t)
    ensures Low(b, at) == [t[0] as int, t[1] as int, t[2] as int, t[3] as int]
  {
    assert b[at + 0] % 128 == t[0] as int && b[at + 1] % 128 == t[1] as int;
  }

  lemma {:induction false} JpegOnly(b: seq<Byte>, offset: nat)
    ensures ScanJpeg(b, offset).Some? ==> ScanJpeg(b, offset).value.contentType == Jpeg
    decreases |b| - offset
  {
    if offset + 9 < |b| {
      if b[offset] != 0xff {
        JpegOnly(b, offset + 1);
      } else if !IsFrame(b[offset + 1]) && Be16(b, offset + 2) >= 2 {
        JpegOnly(b, offset + 2 + Be16(b, offset + 2));
      }
    }
  }

  /** Which error an upload gets: its size is looked at first, then its signature, then its dimensions;
      and an accepted one is of the intended format. */
  lemma {:induction false} VerdictSays(intent: Intent, bytes: seq<Byte>)
    ensures Judge(intent, bytes) == TooLarge <==> |bytes| > 2_097_152
    ensures Judge(intent, bytes) == WrongSize <==> |bytes| <= 2_097_152 && |bytes| != intent.sizeBytes
    ensures |bytes| <= 2_097_152 && |bytes| == intent.sizeBytes ==>
      (var found := MetadataOf(if |bytes| <= 65_536 then bytes else bytes[..65_536]);
       && (Judge(intent, bytes) == WrongSignature
           <==> found.None? || found.value.contentType != intent.contentType)
       && (Judge(intent, bytes) == Accepted
           <==> found.Some? && found.value.contentType == intent.contentType
                && found.value.width == intent.width && found.value.height == intent.height))
  {
    hide MetadataOf;
  }
}
