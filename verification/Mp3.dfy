/** MP3 headers as the slicer and the scanner read them, and slicing by byte position. */
module Mp3 {
  import opened Bytes
  import opened Reals
  import Id3
  import opened Options

  const SYNC_WINDOW := 65536 + 256

  predicate IsTagged(f: seq<byte>) {
    |f| >= 10 && f[..3] == Ascii("ID3")
  }

  /** Where the audio starts: behind the ID3v2 tag, if any. */
  function AudioOffset(f: seq<byte>): nat {
    if IsTagged(f) then SyncSafe(f[6], f[7], f[8], f[9]) + 10 else 0
  }

  /* ---------------- frame headers ---------------- */

  function BitrateV1(i: nat): (kbps: nat)
    requires i < 16
    ensures 0 < i < 15 ==> kbps > 0
  {
    [0, 32, 40, 48, 56, 64, 80, 96, 112, 128, 160, 192, 224, 256, 320, 0][i]
  }

  function BitrateV2(i: nat): (kbps: nat)
    requires i < 16
    ensures 0 < i < 15 ==> kbps > 0
  {
    [0, 8, 16, 24, 32, 40, 48, 56, 64, 80, 96, 112, 128, 144, 160, 0][i]
  }

  function SampleRate(version: nat, i: nat): (hertz: nat)
    requires i < 4
    ensures i < 3 ==> hertz > 0
  {
    if version == 3 then [44100, 48000, 32000, 0][i]
    else if version == 2 then [22050, 24000, 16000, 0][i]
    else [11025, 12000, 8000, 0][i]
  }

  function Version(c: seq<byte>, i: nat): nat
    requires i + 4 <= |c|
  {
    c[i + 1] / 8 % 4
  }

  /** A Layer III frame header with usable bitrate and sample rate. */
  predicate IsFrame(c: seq<byte>, i: nat)
    requires i + 4 <= |c|
  {
    && c[i] == 0xFF && c[i + 1] >= 0xE0 && Version(c, i) != 1 && c[i + 1] / 2 % 4 == 1
    && 0 < c[i + 2] / 16 < 15 && c[i + 2] / 4 % 4 != 3
  }

  function Bitrate(c: seq<byte>, i: nat): (kbps: nat)
    requires i + 4 <= |c|
    ensures IsFrame(c, i) ==> kbps > 0
  {
    if Version(c, i) == 3 then BitrateV1(c[i + 2] / 16) else BitrateV2(c[i + 2] / 16)
  }

  function Hertz(c: seq<byte>, i: nat): (hertz: nat)
    requires i + 4 <= |c|
    ensures IsFrame(c, i) ==> hertz > 0
  {
    SampleRate(Version(c, i), c[i + 2] / 4 % 4)
  }

  function SamplesPerFrame(c: seq<byte>, i: nat): (n: nat)
    requires i + 4 <= |c|
    ensures n > 0
  {
    if Version(c, i) == 3 then 1152 else 576
  }

  /** Where a Xing header would be: behind the side information. */
  function XingAt(c: seq<byte>, i: nat): nat
    requires i + 4 <= |c|
  {
    i + 4 +
    if Version(c, i) == 3 then if c[i + 3] / 64 == 3 then 17 else 32
    else if c[i + 3] / 64 == 3 then 9 else 17
  }

  datatype Xing = Xing(frames: Option<nat>, toc: Option<seq<byte>>)

  predicate HasXing(c: seq<byte>, x: nat) {
    x + 12 <= |c| && (c[x..x + 4] == Ascii("Xing") || c[x..x + 4] == Ascii("Info"))
  }

  function XingFlags(c: seq<byte>, x: nat): nat
    requires HasXing(c, x)
  {
    BE(c[x + 4..x + 8])
  }

  function TocOf(c: seq<byte>, x: nat): (toc: Option<seq<byte>>)
    requires HasXing(c, x)
    ensures toc.Some? ==> |toc.value| == 100
  {
    var flags := XingFlags(c, x);
    var t := x + 8 + 4 * (flags % 2) + 4 * (flags / 2 % 2);
    if flags / 4 % 2 == 1 && t + 100 <= |c| then Some(c[t..t + 100]) else None
  }

  function XingOf(c: seq<byte>, i: nat): (xing: Xing)
    requires i + 4 <= |c|
    ensures xing.toc.Some? ==> |xing.toc.value| == 100
  {
    var x := XingAt(c, i);
    if !HasXing(c, x) then Xing(None, None)
    else Xing(if XingFlags(c, x) % 2 == 1 then Some(BE(c[x + 8..x + 12])) else None, TocOf(c, x))
  }

  /** The first frame header at or after i that has a byte behind it. */
  function FirstFrame(c: seq<byte>, i: nat): (r: Option<nat>)
    ensures r.Some? ==> i <= r.value && r.value + 4 < |c| && IsFrame(c, r.value)
    ensures forall j: nat | i <= j && j + 4 < |c| && (r.Some? ==> j < r.value) :: !IsFrame(c, j)
    decreases |c| - i
  {
    if i + 4 >= |c| then None
    else if IsFrame(c, i) then Some(i)
    else FirstFrame(c, i + 1)
  }

  function Chunk(f: seq<byte>, offset: nat): (c: seq<byte>)
    requires offset <= |f|
    ensures |c| == if |f| - offset < SYNC_WINDOW then |f| - offset else SYNC_WINDOW
  {
    f[offset..if |f| - offset < SYNC_WINDOW then |f| else offset + SYNC_WINDOW]
  }

  /* ---------------- the slicer's reading ---------------- */

  datatype Info = Info(audioStart: nat, bitrate: nat, sampleRate: nat, samplesPerFrame: nat,
                       totalFrames: nat, totalDuration: real, toc: Option<seq<byte>>, audioBytes: nat)

  /** Seconds the slicer believes the audio lasts. */
  function Seconds(frames: nat, samplesPerFrame: nat, sampleRate: nat, audioBytes: nat, bitrate: nat): real
    requires sampleRate > 0 && bitrate > 0
  {
    if frames * samplesPerFrame == 0 then audioBytes as real * 8.0 / bitrate as real / 1000.0
    else (frames * samplesPerFrame) as real / sampleRate as real
  }

  function InfoAt(f: seq<byte>, offset: nat, i: nat): Info
    requires offset <= |f| && i + 4 < |Chunk(f, offset)| && IsFrame(Chunk(f, offset), i)
  {
    var c := Chunk(f, offset);
    var xing := XingOf(c, i);
    var frames := if xing.frames.Some? then xing.frames.value else 0;
    var bytes := |f| - (offset + i);
    Info(offset + i, Bitrate(c, i), Hertz(c, i), SamplesPerFrame(c, i), frames,
         Seconds(frames, SamplesPerFrame(c, i), Hertz(c, i), bytes, Bitrate(c, i)), xing.toc, bytes)
  }

  function InfoOf(f: seq<byte>): Option<Info> {
    if |f| < 10 || |f| - AudioOffset(f) <= 4 then None
    else
      match FirstFrame(Chunk(f, AudioOffset(f)), 0)
      case None => None
      case Some(i) => Some(InfoAt(f, AudioOffset(f), i))
  }

  /** The body of parseMP3Info's loop once a frame header is found. */
  method ReadFrame(f: seq<byte>, audioOffset: nat, i: nat) returns (info: Info)
    requires audioOffset <= |f| && i + 4 < |Chunk(f, audioOffset)| && IsFrame(Chunk(f, audioOffset), i)
    ensures info == InfoAt(f, audioOffset, i)
  {
    var chunk := Chunk(f, audioOffset);
    hide Chunk, BitrateV1, BitrateV2, SampleRate, IsFrame, XingAt, HasXing, BE, Bitrate, Hertz, SamplesPerFrame,
         XingFlags, TocOf;
    var bitrate, sampleRate, samplesPerFrame := Bitrate(chunk, i), Hertz(chunk, i), SamplesPerFrame(chunk, i);
    var audioStart := audioOffset + i;
    var audioBytes := |f| - audioStart;
    var totalFrames: nat, totalDuration: real, toc: Option<seq<byte>> := 0, 0.0, None;
    var xingIdx := XingAt(chunk, i);
    if HasXing(chunk, xingIdx) {
      HasXingLength(chunk, xingIdx);
      if XingFlags(chunk, xingIdx) % 2 == 1 {
        totalFrames := BE(chunk[xingIdx + 8..xingIdx + 12]);
        totalDuration := (totalFrames * samplesPerFrame) as real / sampleRate as real;
        NonZero(totalFrames * samplesPerFrame, sampleRate);
      }
      toc := ReadToc(chunk, xingIdx);
    }
    if totalDuration == 0.0 && bitrate > 0 {
      totalDuration := audioBytes as real * 8.0 / bitrate as real / 1000.0;
    }
    return Info(audioStart, bitrate, sampleRate, samplesPerFrame, totalFrames, totalDuration, toc, audioBytes);
  }

  method ReadToc(chunk: seq<byte>, xingIdx: nat) returns (toc: Option<seq<byte>>)
    requires HasXing(chunk, xingIdx)
    ensures toc == TocOf(chunk, xingIdx)
  {
    hide BE, Ascii;
    var flags := XingFlags(chunk, xingIdx);
    if flags / 4 % 2 == 1 {
      var tocOff := xingIdx + 8;
      if flags % 2 == 1 {
        tocOff := tocOff + 4;
      }
      if flags / 2 % 2 == 1 {
        tocOff := tocOff + 4;
      }
      if tocOff + 100 <= |chunk| {
        return Some(chunk[tocOff..tocOff + 100]);
      }
    }
    return None;
  }

  lemma HasXingLength(c: seq<byte>, x: nat)
    requires HasXing(c, x)
    ensures x + 12 <= |c|
  {
  }

  lemma NonZero(n: nat, d: nat)
    requires d > 0
    ensures n as real / d as real == 0.0 <==> n == 0
    ensures n as real / d as real >= 0.0
  {
    Quotient(n as real, d as real);
  }

  /** parseMP3Info */
  method ParseInfo(f: seq<byte>) returns (r: Option<Info>)
    ensures r == InfoOf(f)
  {
    if |f| < 10 {
      return None;
    }
    var audioOffset: nat := 0;
    if f[..3] == Ascii("ID3") {
      audioOffset := SyncSafe(f[6], f[7], f[8], f[9]) + 10;
    }
    if |f| - audioOffset <= 4 {
      return None;
    }
    var chunk := Chunk(f, audioOffset);
    hide Chunk, SyncSafe, IsFrame, InfoAt, Ascii;
    for i := 0 to |chunk| - 4
      invariant FirstFrame(chunk, 0) == FirstFrame(chunk, i)
    {
      if !IsFrame(chunk, i) {
        continue;
      }
      var info := ReadFrame(f, audioOffset, i);
      return Some(info);
    }
    return None;
  }

  /* ---------------- the scanner's reading ---------------- */

  datatype Scan = Scan(seconds: nat, kbps: nat)

  function ScanAt(f: seq<byte>, offset: nat, i: nat): Scan
    requires offset <= |f| && i + 4 < |Chunk(f, offset)| && IsFrame(Chunk(f, offset), i)
  {
    var c := Chunk(f, offset);
    match XingOf(c, i).frames
    case Some(n) =>
      var seconds := Div(n * SamplesPerFrame(c, i), Hertz(c, i));
      Scan(seconds, if seconds > 0 then Div(|f| * 8 / 1000, seconds) else 0)
    case None => Scan(Div(Div((|f| - (offset + i)) * 8, Bitrate(c, i)), 1000), Bitrate(c, i))
  }

  function ScanOf(f: seq<byte>, audioOffset: nat): Option<Scan> {
    if audioOffset == 0 && |f| < 10 then None
    else
      var offset := if audioOffset == 0 then AudioOffset(f) else audioOffset;
      if |f| - offset <= 4 then None
      else
        match FirstFrame(Chunk(f, offset), 0)
        case None => None
        case Some(i) => Some(ScanAt(f, offset, i))
  }

  /** The body of parseMP3Duration's loop once a frame header is found. */
  method ScanFrame(f: seq<byte>, audioOffset: nat, i: nat) returns (scan: Scan)
    requires audioOffset <= |f| && i + 4 < |Chunk(f, audioOffset)| && IsFrame(Chunk(f, audioOffset), i)
    ensures scan == ScanAt(f, audioOffset, i)
  {
    var chunk := Chunk(f, audioOffset);
    hide Chunk, BitrateV1, BitrateV2, SampleRate, IsFrame, XingAt, HasXing, BE, Bitrate, Hertz, SamplesPerFrame,
         XingFlags, TocOf, Div;
    var bitrate, sampleRate, samplesPerFrame := Bitrate(chunk, i), Hertz(chunk, i), SamplesPerFrame(chunk, i);
    var xingIdx := XingAt(chunk, i);
    if HasXing(chunk, xingIdx) {
      HasXingLength(chunk, xingIdx);
      if XingFlags(chunk, xingIdx) % 2 == 1 {
        var totalFrames := BE(chunk[xingIdx + 8..xingIdx + 12]);
        var dur := Div(totalFrames * samplesPerFrame, sampleRate);
        var avgBitrate := 0;
        if dur > 0 {
          avgBitrate := Div(|f| * 8 / 1000, dur);
        }
        return Scan(dur, avgBitrate);
      }
    }
    var audioBytesEst := |f| - (audioOffset + i);
    return Scan(Div(Div(audioBytesEst * 8, bitrate), 1000), bitrate);
  }

  /** parseMP3Duration; an offset of 0 means the tag is not known yet. */
  method ParseDuration(f: seq<byte>, audioOffset: nat) returns (r: Option<Scan>)
    ensures r == ScanOf(f, audioOffset)
  {
    var offset := audioOffset;
    if offset == 0 {
      if |f| < 10 {
        return None;
      }
      if f[..3] == Ascii("ID3") {
        offset := SyncSafe(f[6], f[7], f[8], f[9]) + 10;
      }
    }
    if |f| - offset <= 4 {
      return None;
    }
    var chunk := Chunk(f, offset);
    hide Chunk, SyncSafe, IsFrame, ScanAt, Ascii;
    for i := 0 to |chunk| - 4
      invariant FirstFrame(chunk, 0) == FirstFrame(chunk, i)
    {
      if !IsFrame(chunk, i) {
        continue;
      }
      var scan := ScanFrame(f, offset, i);
      return Some(scan);
    }
    return None;
  }

  /* ---------------- the two readings agree ---------------- */

  /** The offset the scanner hands over: what readID3v2 found, 0 without a tag it knows. */
  function TagSize(f: seq<byte>): nat {
    match Id3.TagsOf(f)
    case Some(read) => read.tagSize
    case None => 0
  }

  lemma TagSizeIs(f: seq<byte>)
    ensures TagSize(f) == if Id3.IsTag(f) then AudioOffset(f) else 0
    ensures Id3.IsTag(f) ==> AudioOffset(f) > 0 && |f| >= 10
  {
    hide Id3.Fold, Id3.FramesRead, SyncSafe, Ascii;
  }

  /** A Xing header that claims no frames: the one case in which the readings part. */
  predicate ClaimsNoFrames(f: seq<byte>) {
    |f| >= 10 && |f| - AudioOffset(f) > 4
    && var c := Chunk(f, AudioOffset(f)); FirstFrame(c, 0).Some? && XingOf(c, FirstFrame(c, 0).value).frames == Some(0)
  }

  lemma IntNested(n: nat, a: nat, b: nat)
    requires a > 0 && b > 0
    ensures a * b > 0 && Div(Div(n, a), b) == Div(n, a * b)
  {
    DivIs(n, a);
    var q, r := Div(n, a), n % a;
    DivIs(q, b);
    var q2, r2 := Div(q, b), q % b;
    hide Div;
    Expand(a, b, q2, r2);
    Multiple(b, a);
    Below(a, b, r, r2);
    NestedIs(n, a * b, q2, a * r2 + r);
  }

  lemma NestedIs(n: nat, m: nat, q: nat, r: nat)
    requires m > 0 && n == m * q + r && r < m
    ensures Div(n, m) == q
  {
    ModIs(n, m, q, r);
  }

  lemma Below(a: nat, b: nat, r: nat, r2: nat)
    requires r < a && r2 < b
    ensures 0 <= a * r2 + r < a * b
  {
    NonNegative(a, r2);
    NonNegative(a, b - 1 - r2);
    assert a * (b - 1 - r2) == a * b - a - a * r2;
  }

  lemma Expand(a: int, b: int, x: int, y: int)
    ensures a * (b * x + y) == a * b * x + a * y
  {
    assert a * (b * x) == a * b * x;
  }

  lemma NonNegative(a: nat, b: nat)
    ensures a * b >= 0
  {
  }

  lemma RealNested(x: real, a: real, b: real)
    requires a > 0.0 && b > 0.0
    ensures a * b > 0.0 && x / a / b == x / (a * b)
  {
    var y := x / a / b;
    assert y * b == x / a;
    assert y * b * a == x;
    assert y * (a * b) == x;
  }

  lemma CbrFloor(bytes: nat, bitrate: nat)
    requires bitrate > 0
    ensures (bytes as real * 8.0 / bitrate as real / 1000.0).Floor == Div(Div(bytes * 8, bitrate), 1000)
  {
    Product(bytes, 8);
    Product(bitrate, 1000);
    RealNested((bytes * 8) as real, bitrate as real, 1000.0);
    IntNested(bytes * 8, bitrate, 1000);
    FloorOfQuotient(bytes * 8, bitrate * 1000);
  }

  lemma FrameAgrees(f: seq<byte>, offset: nat, i: nat)
    requires offset <= |f| && i + 4 < |Chunk(f, offset)| && IsFrame(Chunk(f, offset), i)
    ensures var info, scan, frames := InfoAt(f, offset, i), ScanAt(f, offset, i), XingOf(Chunk(f, offset), i).frames;
      && scan.seconds == (if frames == Some(0) then 0 else info.totalDuration.Floor)
      && (frames.None? ==> scan.kbps == info.bitrate)
  {
    var c := Chunk(f, offset);
    hide Chunk, IsFrame, Bitrate, Hertz, XingOf, SamplesPerFrame;
    var n := XingOf(c, i).frames;
    if n.Some? && n.value > 0 {
      Multiple(n.value, SamplesPerFrame(c, i));
      FloorOfQuotient(n.value * SamplesPerFrame(c, i), Hertz(c, i));
    } else {
      CbrFloor(|f| - (offset + i), Bitrate(c, i));
    }
  }

  /** Scanner and slicer accept the same files, and the scanner's seconds are the floor of the slicer's, whether the
      scanner was handed the tag's size or looks for the tag itself. */
  lemma ReadingsAgree(f: seq<byte>)
    ensures ScanOf(f, TagSize(f)) == ScanOf(f, 0)
    ensures InfoOf(f).Some? <==> ScanOf(f, 0).Some?
    ensures InfoOf(f).Some? ==>
      ScanOf(f, 0).value.seconds == if ClaimsNoFrames(f) then 0 else InfoOf(f).value.totalDuration.Floor
  {
    TagSizeIs(f);
    hide Chunk, SyncSafe, IsFrame, InfoAt, ScanAt, XingOf, FirstFrame, TagSize, Id3.IsTag, AudioOffset;
    if InfoOf(f).Some? {
      FrameAgrees(f, AudioOffset(f), FirstFrame(Chunk(f, AudioOffset(f)), 0).value);
    }
  }

  /** When they part, the slicer estimates from the bitrate, so its duration is not the scanner's 0. */
  lemma NoFramesMeansEstimate(f: seq<byte>)
    requires ClaimsNoFrames(f)
    ensures ScanOf(f, 0) == Some(Scan(0, 0))
    ensures var info := InfoOf(f).value;
      info.totalDuration == info.audioBytes as real * 8.0 / info.bitrate as real / 1000.0 > 0.0
  {
    hide SyncSafe, IsFrame, XingOf, FirstFrame, Bitrate, Hertz, SamplesPerFrame;
    var c := Chunk(f, AudioOffset(f));
    var i := FirstFrame(c, 0).value;
    CbrPositive(|f| - (AudioOffset(f) + i), Bitrate(c, i));
  }

  /** An MPEG1 frame header of 128 kbps, 32 bytes of side information, a Xing header that claims a number of frames,
      and n bytes more. */
  function XingFile(frames: nat, n: nat): seq<byte> {
    [0xFF, 0xFB, 0x90, 0] + seq(32, i => 0) + Ascii("Xing") + BEBytes(1, 4) + BEBytes(frames, 4) + seq(n, i => 0)
  }

  lemma XingFileBytes(frames: nat, n: nat)
    requires frames < Pow256(4)
    ensures var f := XingFile(frames, n);
      && |f| == 48 + n && f[0] == 0xFF && f[1] == 0xFB && f[2] == 0x90 && f[3] == 0
      && f[36..40] == Ascii("Xing") && BE(f[40..44]) == 1 && BE(f[44..48]) == frames
  {
    var f := XingFile(frames, n);
    assert f[36..40] == Ascii("Xing") && f[40..44] == BEBytes(1, 4) && f[44..48] == BEBytes(frames, 4);
    BERoundTrip(1, 4);
    BERoundTrip(frames, 4);
  }

  /** What is read of such a file: its first frame, the frames claimed, and no table. */
  lemma XingFileRead(frames: nat, n: nat)
    requires frames < Pow256(4) && 0 < n < SYNC_WINDOW - 48
    ensures var f := XingFile(frames, n);
      && AudioOffset(f) == 0 && Chunk(f, 0) == f && FirstFrame(f, 0) == Some(0)
      && XingOf(f, 0) == Xing(Some(frames), None) && Bitrate(f, 0) == 128 && Hertz(f, 0) == 44100
      && SamplesPerFrame(f, 0) == 1152 && |f| == 48 + n
  {
    XingFileBytes(frames, n);
    var f := XingFile(frames, n);
    hide XingFile, Ascii, BE, SyncSafe;
    NotTagged(f);
    assert Chunk(f, 0) == f;
    assert IsFrame(f, 0) && FirstFrame(f, 0) == Some(0);
    assert XingAt(f, 0) == 36 && HasXing(f, 36);
  }

  /** On this file the readings part: the scanner reads 0 seconds, the slicer a positive estimate. */
  lemma NoFramesInput()
    ensures ClaimsNoFrames(XingFile(0, 1))
    ensures ScanOf(XingFile(0, 1), 0) == Some(Scan(0, 0)) && InfoOf(XingFile(0, 1)).Some? &&
      InfoOf(XingFile(0, 1)).value.totalDuration > 0.0
  {
    XingFileRead(0, 1);
    hide XingFile, FirstFrame, Chunk, AudioOffset, ScanOf, XingOf;
    NoFramesMeansEstimate(XingFile(0, 1));
    ReadingsAgree(XingFile(0, 1));
  }

  lemma NotTagged(f: seq<byte>)
    requires |f| >= 3 && f[0] != 73
    ensures AudioOffset(f) == 0
  {
    assert Ascii("ID3")[0] == 73;
    assert f[..3][0] == f[0];
  }

  lemma CbrPositive(bytes: nat, bitrate: nat)
    requires bytes > 0 && bitrate > 0
    ensures bytes as real * 8.0 / bitrate as real / 1000.0 > 0.0
  {
    var x := bytes as real * 8.0 / bitrate as real;
    assert x * bitrate as real > 0.0;
    RealMultiple(x, bitrate as real);
  }

  /* ---------------- byte positions ---------------- */

  type Toc = s: seq<byte> | |s| == 100 witness seq(100, i => 0)

  function Entry(toc: Toc, i: nat): nat
    requires i < 100
  {
    toc[i]
  }

  function Between(a: nat, b: nat, t: real): real {
    a as real + t * (b as real - a as real)
  }

  /** The table read as a curve over 0 to 100, in 256ths of the audio. */
  function Curve(toc: Toc, x: real): real
    requires 0.0 <= x < 100.0
  {
    var i := x.Floor;
    if i >= 99 then Entry(toc, 99) as real
    else Between(Entry(toc, i), Entry(toc, i + 1), x - i as real)
  }

  /** The part of n bytes that v 256ths are. */
  function Share(v: real, n: nat): real {
    v / 256.0 * n as real
  }

  /** tocLookup */
  function TocLookup(toc: Toc, audioBytes: nat, fraction: real): int {
    if fraction <= 0.0 then 0
    else if fraction >= 1.0 then audioBytes
    else Share(Curve(toc, fraction * 100.0), audioBytes).Floor
  }

  ghost predicate NonDecreasing(toc: Toc) {
    forall i: nat, j: nat | i <= j < 100 :: Entry(toc, i) <= Entry(toc, j)
  }

  lemma BetweenBounds(a: nat, b: nat, t: real)
    requires 0.0 <= t <= 1.0
    ensures a <= b ==> a as real <= Between(a, b, t) <= b as real
    ensures b <= a ==> b as real <= Between(a, b, t) <= a as real
  {
    var d := b as real - a as real;
    if a <= b {
      ScaleUp(t, 1.0, d);
    } else {
      ScaleUp(t, 1.0, -d);
      Negate(t, d);
    }
  }

  lemma Negate(t: real, d: real)
    ensures t * -d == -(t * d)
  {
  }

  lemma ScaleUp(x: real, y: real, k: real)
    requires 0.0 <= x <= y && k >= 0.0
    ensures 0.0 <= x * k <= y * k
  {
  }

  lemma CurveBounds(toc: Toc, x: real)
    requires 0.0 <= x < 100.0
    ensures 0.0 <= Curve(toc, x) <= 255.0
    ensures NonDecreasing(toc) ==>
      Entry(toc, x.Floor) as real <= Curve(toc, x) <= Entry(toc, if x.Floor < 99 then x.Floor + 1 else 99) as real
  {
    var i := x.Floor;
    EntryBound(toc, i);
    if i < 99 {
      EntryBound(toc, i + 1);
      hide Entry, Between;
      BetweenBounds(Entry(toc, i), Entry(toc, i + 1), x - i as real);
    }
  }

  lemma EntryBound(toc: Toc, i: nat)
    requires i < 100
    ensures Entry(toc, i) <= 255
  {
  }

  lemma ShareOrder(v: real, w: real, n: nat)
    requires 0.0 <= v <= w <= 256.0
    ensures 0.0 <= Share(v, n) <= Share(w, n) <= n as real
  {
    ScaleUp(v / 256.0, w / 256.0, n as real);
    ScaleUp(w / 256.0, 1.0, n as real);
  }

  lemma FloorOrder(x: real, y: real, n: nat)
    requires 0.0 <= x <= y <= n as real
    ensures 0 <= x.Floor <= y.Floor <= n
  {
  }

  /** A position is never before the audio nor behind it, whatever the table holds. */
  lemma TocInRange(toc: Toc, audioBytes: nat, fraction: real)
    ensures 0 <= TocLookup(toc, audioBytes, fraction) <= audioBytes
  {
    if 0.0 < fraction < 1.0 {
      hide Curve, Share;
      CurveBounds(toc, fraction * 100.0);
      var v := Curve(toc, fraction * 100.0);
      ShareOrder(v, v, audioBytes);
      FloorOrder(Share(v, audioBytes), Share(v, audioBytes), audioBytes);
    }
  }

  lemma CurveRises(toc: Toc, x: real, y: real)
    requires NonDecreasing(toc) && 0.0 <= x <= y < 100.0
    ensures Curve(toc, x) <= Curve(toc, y)
  {
    var i := x.Floor;
    if i < y.Floor {
      CurveBounds(toc, x);
      CurveBounds(toc, y);
      hide Curve;
    } else if i < 99 {
      assert Entry(toc, i) <= Entry(toc, i + 1);
      hide Entry;
      ScaleUp(x - i as real, y - i as real, Entry(toc, i + 1) as real - Entry(toc, i) as real);
    }
  }

  /** With a non-decreasing table a later time is never at an earlier byte, across segment joins and both ends. */
  lemma TocRises(toc: Toc, audioBytes: nat, x: real, y: real)
    requires NonDecreasing(toc) && x <= y
    ensures TocLookup(toc, audioBytes, x) <= TocLookup(toc, audioBytes, y)
  {
    TocInRange(toc, audioBytes, x);
    TocInRange(toc, audioBytes, y);
    if 0.0 < x && y < 1.0 {
      hide Curve, Share;
      var v, w := Curve(toc, x * 100.0), Curve(toc, y * 100.0);
      CurveRises(toc, x * 100.0, y * 100.0);
      CurveBounds(toc, x * 100.0);
      CurveBounds(toc, y * 100.0);
      ShareOrder(v, w, audioBytes);
      FloorOrder(Share(v, audioBytes), Share(w, audioBytes), audioBytes);
    }
  }

  lemma Percent(x: real)
    requires 0.0 < x < 100.0
    ensures 0.0 < x / 100.0 < 1.0 && x / 100.0 * 100.0 == x
  {
  }

  /** Fractions a tenth of the way into segment i and at its end, and what they look up in 2560 bytes of audio. */
  lemma Segment(toc: Toc, i: nat)
    requires i < 99
    ensures TocLookup(toc, 2560, (i as real + 0.1) / 100.0) == 9 * Entry(toc, i) + Entry(toc, i + 1)
    ensures TocLookup(toc, 2560, (i as real + 1.0) / 100.0) == 10 * Entry(toc, i + 1)
  {
    var x, y := i as real + 0.1, i as real + 1.0;
    Percent(x);
    Percent(y);
    SegmentCurve(toc, i);
    hide Entry, Curve;
  }

  lemma SegmentCurve(toc: Toc, i: nat)
    requires i < 99
    ensures Curve(toc, i as real + 0.1) == Between(Entry(toc, i), Entry(toc, i + 1), 0.1)
    ensures Curve(toc, i as real + 1.0) == Entry(toc, i + 1) as real
  {
    FloorIs(i as real + 0.1, i);
    FloorIs(i as real + 1.0, i + 1);
    hide Entry;
  }

  lemma {:induction false} StepsSuffice(toc: Toc, i: nat, j: nat)
    requires (forall k: nat | k < 99 :: Entry(toc, k) <= Entry(toc, k + 1)) && i <= j < 100
    ensures Entry(toc, i) <= Entry(toc, j)
  {
    hide Entry;
    if i < j {
      StepsSuffice(toc, i, j - 1);
      assert Entry(toc, j - 1) <= Entry(toc, j - 1 + 1);
    }
  }

  ghost predicate PositionsRise(toc: Toc) {
    forall n: nat, x, y | x <= y :: TocLookup(toc, n, x) <= TocLookup(toc, n, y)
  }

  /** Positions rise with time for every length of audio exactly when the table does not decrease. */
  lemma TocRisesIff(toc: Toc)
    ensures PositionsRise(toc) <==> NonDecreasing(toc)
  {
    if NonDecreasing(toc) {
      forall n: nat, x, y | x <= y ensures TocLookup(toc, n, x) <= TocLookup(toc, n, y) {
        TocRises(toc, n, x, y);
      }
    }
    if PositionsRise(toc) {
      forall k: nat | k < 99 ensures Entry(toc, k) <= Entry(toc, k + 1) {
        Segment(toc, k);
        hide TocLookup, Entry;
        assert (k as real + 0.1) / 100.0 <= (k as real + 1.0) / 100.0;
        assert TocLookup(toc, 2560, (k as real + 0.1) / 100.0) <= TocLookup(toc, 2560, (k as real + 1.0) / 100.0);
      }
      forall i: nat, j: nat | i <= j < 100 ensures Entry(toc, i) <= Entry(toc, j) {
        StepsSuffice(toc, i, j);
      }
    }
  }

  /** The highest entry first, then zeros. */
  const FALLING: Toc := [255] + seq(99, i => 0)

  /** With this table a later time is at an earlier byte. */
  lemma FallingInput()
    ensures TocLookup(FALLING, 2560, 0.1 / 100.0) == 9 * 255 && TocLookup(FALLING, 2560, 1.0 / 100.0) == 0
  {
    Segment(FALLING, 0);
  }

  /* ---------------- the slice ---------------- */

  datatype Response = Fallback | Sent(contentLength: nat, body: seq<byte>)

  /** What parseMP3Info promises its caller; no slice depends on more. */
  ghost predicate Usable(f: seq<byte>, info: Info) {
    && info.bitrate > 0 && info.sampleRate > 0 && info.totalDuration > 0.0
    && info.audioBytes > 0 && info.audioStart + info.audioBytes == |f|
    && (info.toc.Some? ==> |info.toc.value| == 100)
  }

  lemma SecondsPositive(frames: nat, samplesPerFrame: nat, sampleRate: nat, audioBytes: nat, bitrate: nat)
    requires sampleRate > 0 && bitrate > 0 && audioBytes > 0
    ensures Seconds(frames, samplesPerFrame, sampleRate, audioBytes, bitrate) > 0.0
  {
    NonZero(frames * samplesPerFrame, sampleRate);
    CbrPositive(audioBytes, bitrate);
  }

  lemma InfoUsable(f: seq<byte>)
    requires InfoOf(f).Some?
    ensures Usable(f, InfoOf(f).value)
  {
    hide SyncSafe, IsFrame, XingOf, FirstFrame, Bitrate, Hertz, SamplesPerFrame, Seconds;
    var c := Chunk(f, AudioOffset(f));
    var i := FirstFrame(c, 0).value;
    var info := InfoAt(f, AudioOffset(f), i);
    SecondsPositive(info.totalFrames, SamplesPerFrame(c, i), Hertz(c, i), info.audioBytes, Bitrate(c, i));
  }

  function BytesPerSecond(info: Info): real {
    info.bitrate as real * 1000.0 / 8.0
  }

  /** The byte a time falls on. */
  function Position(info: Info, time: real): int
    requires info.totalDuration > 0.0 && (info.toc.Some? ==> |info.toc.value| == 100)
  {
    match info.toc
    case Some(toc) => info.audioStart + TocLookup(toc, info.audioBytes, time / info.totalDuration)
    case None => info.audioStart + (time * BytesPerSecond(info)).Floor
  }

  function Cut(f: seq<byte>, info: Info, startTime: real, duration: real): Response
    requires startTime >= 0.0 && duration > 0.0 && Usable(f, info)
  {
    var endTime := if startTime + duration > info.totalDuration then info.totalDuration else startTime + duration;
    if startTime >= endTime then Fallback
    else
      var lo := Position(info, startTime);
      var hi := if Position(info, endTime) > |f| then |f| else Position(info, endTime);
      StartsInAudio(info, startTime);
      if lo >= hi then Fallback else Sent(hi - lo, f[lo..hi])
  }

  function Sliced(f: seq<byte>, startTime: real, duration: real): Response
    requires startTime >= 0.0 && duration > 0.0
  {
    match InfoOf(f)
    case None => Fallback
    case Some(info) =>
      InfoUsable(f);
      Cut(f, info, startTime, duration)
  }

  lemma ByteNonNegative(time: real, rate: real)
    requires time >= 0.0 && rate >= 0.0
    ensures (time * rate).Floor >= 0
  {
    ScaleUp(0.0, time, rate);
  }

  lemma StartsInAudio(info: Info, time: real)
    requires time >= 0.0 && info.totalDuration > 0.0 && (info.toc.Some? ==> |info.toc.value| == 100)
    ensures Position(info, time) >= info.audioStart
  {
    hide TocLookup;
    if info.toc.Some? {
      TocInRange(info.toc.value, info.audioBytes, time / info.totalDuration);
    } else {
      ByteNonNegative(time, BytesPerSecond(info));
    }
  }

  /** The byte range of a slice, by table or by bitrate. */
  method Positions(info: Info, startTime: real, endTime: real) returns (startByte: int, endByte: int)
    requires info.totalDuration > 0.0 && info.bitrate > 0 && (info.toc.Some? ==> |info.toc.value| == 100)
    ensures startByte == Position(info, startTime) && endByte == Position(info, endTime)
  {
    hide TocLookup;
    if info.toc.Some? && info.totalDuration > 0.0 {
      startByte := info.audioStart + TocLookup(info.toc.value, info.audioBytes, startTime / info.totalDuration);
      endByte := info.audioStart + TocLookup(info.toc.value, info.audioBytes, endTime / info.totalDuration);
    } else {
      var bytesPerSec := info.bitrate as real * 1000.0 / 8.0;
      startByte := info.audioStart + (startTime * bytesPerSec).Floor;
      endByte := info.audioStart + (endTime * bytesPerSec).Floor;
    }
  }

  /** sliceMP3 */
  method Slice(f: seq<byte>, startTime: real, duration: real) returns (r: Response)
    requires startTime >= 0.0 && duration > 0.0
    ensures r == Sliced(f, startTime, duration)
  {
    var parsed := ParseInfo(f);
    InfoNotEmpty(f);
    hide InfoOf, Position;
    if parsed.None? || parsed.value.sampleRate == 0 {
      return Fallback;
    }
    var info := parsed.value;
    InfoUsable(f);
    var endTime := startTime + duration;
    if info.totalDuration > 0.0 && endTime > info.totalDuration {
      endTime := info.totalDuration;
    }
    if startTime >= endTime {
      return Fallback;
    }
    var startByte, endByte := Positions(info, startTime, endTime);
    StartsInAudio(info, startTime);
    if startByte < info.audioStart {
      startByte := info.audioStart;
    }
    if endByte > |f| {
      endByte := |f|;
    }
    if startByte >= endByte {
      return Fallback;
    }
    return Sent(endByte - startByte, f[startByte..endByte]);
  }

  lemma InfoNotEmpty(f: seq<byte>)
    ensures InfoOf(f).Some? ==> InfoOf(f).value.sampleRate > 0
  {
    if InfoOf(f).Some? {
      InfoUsable(f);
    }
  }

  /** A slice that is sent lies inside the audio and is as long as its Content-Length says. */
  lemma SliceInside(f: seq<byte>, startTime: real, duration: real) returns (lo: nat, hi: nat)
    requires startTime >= 0.0 && duration > 0.0 && Sliced(f, startTime, duration).Sent?
    ensures InfoOf(f).Some? && InfoOf(f).value.audioStart <= lo < hi <= |f|
    ensures Sliced(f, startTime, duration) == Sent(|f[lo..hi]|, f[lo..hi])
  {
    InfoUsable(f);
    var info := InfoOf(f).value;
    hide InfoOf, Position;
    StartsInAudio(info, startTime);
    lo := Position(info, startTime);
    hi := lo + Sliced(f, startTime, duration).contentLength;
  }

  lemma CutTiles(f: seq<byte>, info: Info, start: real, d: real, e: real)
    requires start >= 0.0 && d > 0.0 && e > 0.0 && Usable(f, info)
    requires Cut(f, info, start, d).Sent? && Cut(f, info, start + d, e).Sent?
    ensures var first, second := Cut(f, info, start, d).body, Cut(f, info, start + d, e).body;
      Cut(f, info, start, d + e) == Sent(|first + second|, first + second)
  {
    hide Position;
    StartsInAudio(info, start);
    StartsInAudio(info, start + d);
    var end := if start + d + e > info.totalDuration then info.totalDuration else start + d + e;
    var lo, mid := Position(info, start), Position(info, start + d);
    var hi := if Position(info, end) > |f| then |f| else Position(info, end);
    assert f[lo..hi] == f[lo..mid] + f[mid..hi];
  }

  lemma TwoTile(f: seq<byte>, start: real, d: real, e: real)
    requires start >= 0.0 && d > 0.0 && e > 0.0 && Sliced(f, start, d).Sent? && Sliced(f, start + d, e).Sent?
    ensures var first, second := Sliced(f, start, d).body, Sliced(f, start + d, e).body;
      Sliced(f, start, d + e) == Sent(|first + second|, first + second)
  {
    var info := InfoOf(f).value;
    InfoUsable(f);
    hide Cut, InfoOf, Usable;
    CutTiles(f, info, start, d, e);
  }

  ghost predicate Positive(durations: seq<real>) {
    forall k: nat | k < |durations| :: durations[k] > 0.0
  }

  function Total(durations: seq<real>): real {
    if durations == [] then 0.0 else durations[0] + Total(durations[1..])
  }

  /** The bytes of slices asked for one after the other; None when one of them falls back to the whole file. */
  function Played(f: seq<byte>, start: real, durations: seq<real>): Option<seq<byte>>
    requires start >= 0.0 && Positive(durations)
    decreases durations
  {
    if durations == [] then Some([])
    else
      match (Sliced(f, start, durations[0]), Played(f, start + durations[0], durations[1..]))
      case (Sent(_, first), Some(rest)) => Some(first + rest)
      case _ => None
  }

  /** Playing a file in pieces plays the same bytes as playing it in one, with a table as without. */
  lemma {:induction false} SlicesTile(f: seq<byte>, start: real, durations: seq<real>)
    requires start >= 0.0 && durations != [] && Positive(durations) && Played(f, start, durations).Some?
    ensures Total(durations) > 0.0
    ensures var all := Played(f, start, durations).value; Sliced(f, start, Total(durations)) == Sent(|all|, all)
    decreases durations
  {
    hide Sliced, Played;
    var d, rest := durations[0], durations[1..];
    PlayedParts(f, start, durations);
    if rest == [] {
      var lo, hi := SliceInside(f, start, d);
      PlayedNone(f, start + d);
    } else {
      SlicesTile(f, start + d, rest);
      TwoTile(f, start, d, Total(rest));
    }
  }

  lemma PlayedParts(f: seq<byte>, start: real, durations: seq<real>)
    requires start >= 0.0 && durations != [] && Positive(durations) && Played(f, start, durations).Some?
    ensures var d, rest := durations[0], durations[1..];
      && d > 0.0 && Positive(rest) && Sliced(f, start, d).Sent? && Played(f, start + d, rest).Some?
      && Played(f, start, durations).value == Sliced(f, start, d).body + Played(f, start + d, rest).value
  {
    hide Sliced;
  }

  lemma PlayedNone(f: seq<byte>, start: real)
    requires start >= 0.0
    ensures Played(f, start, []) == Some([])
  {
  }

  lemma CbrBytes(bytes: nat, bitrate: nat)
    requires bitrate > 0
    ensures bytes as real * 8.0 / bitrate as real / 1000.0 * (bitrate as real * 1000.0 / 8.0) == bytes as real
  {
    var b := bitrate as real;
    var x := bytes as real * 8.0 / b;
    assert x * b == bytes as real * 8.0;
    assert x / 1000.0 * (b * 1000.0 / 8.0) == x * b / 8.0;
  }

  /** A slice from 0 to the end or behind it is all of the audio if and only if there is a table, or no frames are
      claimed, or the frames claimed last as long as the audio does at the first frame's bitrate. */
  lemma WholeAudio(f: seq<byte>, duration: real)
    requires InfoOf(f).Some? && duration >= InfoOf(f).value.totalDuration && duration > 0.0
    ensures var info := InfoOf(f).value;
      Sliced(f, 0.0, duration) == Sent(info.audioBytes, f[info.audioStart..]) <==>
        || info.toc.Some? || info.totalFrames == 0
        || (info.totalDuration * BytesPerSecond(info)).Floor >= info.audioBytes
  {
    hide InfoOf, Position, Cut, BytesPerSecond;
    InfoUsable(f);
    var info := InfoOf(f).value;
    if info.totalFrames == 0 {
      CbrDuration(f);
    }
    Ends(info);
    CutWhole(f, info, duration);
  }

  /** 4000 bytes behind a header that claims one frame: the slice from 0 to the end leaves the last 3631 out. */
  lemma ShortCountInput()
    ensures var f := XingFile(1, 4000);
      InfoOf(f).Some? && InfoOf(f).value.totalDuration < 1.0
      && Sliced(f, 0.0, 1.0) == Sent(417, f[..417])
  {
    var f := XingFile(1, 4000);
    XingFileRead(1, 4000);
    hide XingFile, FirstFrame, Chunk, AudioOffset, XingOf, IsFrame, Bitrate, Hertz, SamplesPerFrame;
    var info := InfoOf(f).value;
    assert info.totalDuration == 1152.0 / 44100.0;
    assert (info.totalDuration * BytesPerSecond(info)).Floor == 417;
  }

  lemma CutWhole(f: seq<byte>, info: Info, duration: real)
    requires Usable(f, info) && duration > 0.0 && duration >= info.totalDuration
    requires Position(info, 0.0) == info.audioStart
    ensures Cut(f, info, 0.0, duration) == Sent(info.audioBytes, f[info.audioStart..]) <==>
      Position(info, info.totalDuration) >= |f|
  {
    hide Position;
    if Position(info, info.totalDuration) >= |f| {
      assert f[info.audioStart..|f|] == f[info.audioStart..];
    }
  }

  lemma CbrDuration(f: seq<byte>)
    requires InfoOf(f).Some? && InfoOf(f).value.totalFrames == 0
    ensures var info := InfoOf(f).value;
      info.totalDuration == info.audioBytes as real * 8.0 / info.bitrate as real / 1000.0
  {
    hide SyncSafe, IsFrame, XingOf, FirstFrame, Bitrate, Hertz, SamplesPerFrame;
  }

  lemma Ends(info: Info)
    requires info.totalDuration > 0.0 && info.bitrate > 0 && (info.toc.Some? ==> |info.toc.value| == 100)
    ensures Position(info, 0.0) == info.audioStart
    ensures info.toc.Some? ==> Position(info, info.totalDuration) == info.audioStart + info.audioBytes
    ensures info.toc.None? ==>
      Position(info, info.totalDuration) == info.audioStart + (info.totalDuration * BytesPerSecond(info)).Floor
    ensures info.totalDuration == info.audioBytes as real * 8.0 / info.bitrate as real / 1000.0 ==>
      (info.totalDuration * BytesPerSecond(info)).Floor == info.audioBytes
  {
    CbrBytes(info.audioBytes, info.bitrate);
  }

  /* ---------------- times as bytes ---------------- */

  /** The audio byte a time falls on.  With a table: 0 at the start, all bytes at the end, and in between, at t of the
      way through the k-th hundredth of the length, as many 256ths of the bytes as entry k and the next give, in
      proportion; the last entry counts for the rest.  Without one: 125 bytes a second for every kbps. */
  ghost predicate FallsOn(info: Info, time: real, offset: int) {
    match info.toc
    case Some(toc) =>
      && |toc| == 100
      && (time <= 0.0 ==> offset == 0) && (time >= info.totalDuration ==> offset == info.audioBytes)
      && (0.0 < time < info.totalDuration ==> exists k: nat, t :: Interpolates(info, toc, time, k, t, offset))
    case None => offset == (time * (125 * info.bitrate) as real).Floor
  }

  ghost predicate Interpolates(info: Info, toc: Toc, time: real, k: nat, t: real, offset: int) {
    && k < 100 && 0.0 <= t < 1.0 && time * 100.0 == (k as real + t) * info.totalDuration
    && offset == (((1.0 - t) * toc[k] as real + t * toc[if k < 99 then k + 1 else 99] as real) / 256.0
                  * info.audioBytes as real).Floor
  }

  lemma PositionIs(info: Info, time: real, offset: int)
    requires info.totalDuration > 0.0 && time >= 0.0 && FallsOn(info, time, offset)
    ensures info.toc.Some? ==> |info.toc.value| == 100
    ensures Position(info, time) == info.audioStart + offset
  {
    if info.toc.Some? {
      hide Interpolates;
      FractionOrder(time, info.totalDuration);
      if 0.0 < time < info.totalDuration {
        var k: nat, t :| Interpolates(info, info.toc.value, time, k, t, offset);
        InterpolatedIs(info, info.toc.value, time, k, t, offset);
      }
      hide TocLookup;
    } else {
      assert BytesPerSecond(info) == (125 * info.bitrate) as real;
    }
  }

  lemma InterpolatedIs(info: Info, toc: Toc, time: real, k: nat, t: real, offset: int)
    requires info.totalDuration > 0.0 && Interpolates(info, toc, time, k, t, offset)
    requires 0.0 < time / info.totalDuration < 1.0
    ensures TocLookup(toc, info.audioBytes, time / info.totalDuration) == offset
  {
    FractionIs(time, info.totalDuration, k as real + t);
    FloorIs(k as real + t, k);
    Proportion(toc[k], toc[if k < 99 then k + 1 else 99], t);
    hide Between;
    assert Curve(toc, k as real + t) == Between(toc[k], toc[if k < 99 then k + 1 else 99], t);
    hide Curve;
  }

  lemma FractionOrder(time: real, total: real)
    requires total > 0.0
    ensures time <= 0.0 <==> time / total <= 0.0
    ensures time >= total <==> time / total >= 1.0
  {
    var x := time / total;
    assert x * total == time;
    if x > 0.0 {
      assert x * total > 0.0;
    } else {
      assert -x * total >= 0.0;
    }
    if x >= 1.0 {
      assert (x - 1.0) * total >= 0.0;
    } else {
      assert (1.0 - x) * total > 0.0;
    }
  }

  lemma FractionIs(time: real, total: real, x: real)
    requires total > 0.0 && time * 100.0 == x * total
    ensures time / total * 100.0 == x
  {
    var y := time / total;
    assert y * total == time;
    assert (y * 100.0 - x) * total == 0.0;
  }

  lemma Proportion(a: nat, b: nat, t: real)
    ensures (1.0 - t) * a as real + t * b as real == Between(a, b, t)
    ensures a == b ==> Between(a, b, t) == a as real
  {
  }

  /** A slice is the bytes from the one the start falls on up to the one the end falls on, as far as the file goes;
      the whole file is served when the start is behind the end of the audio or no byte is left. */
  lemma SliceInSeconds(f: seq<byte>, info: Info, startTime: real, duration: real, first: int, last: int)
    requires InfoOf(f) == Some(info) && startTime >= 0.0 && duration > 0.0
    requires FallsOn(info, startTime, first)
    requires FallsOn(info, if startTime + duration > info.totalDuration then info.totalDuration
                           else startTime + duration, last)
    ensures first >= 0
    ensures var lo, hi := info.audioStart + first,
                          if info.audioStart + last > |f| then |f| else info.audioStart + last;
      Sliced(f, startTime, duration) ==
        if startTime >= info.totalDuration || lo >= hi then Fallback else Sent(hi - lo, f[lo..hi])
  {
    hide InfoOf, Position, FallsOn;
    InfoUsable(f);
    var end := if startTime + duration > info.totalDuration then info.totalDuration else startTime + duration;
    PositionIs(info, startTime, first);
    PositionIs(info, end, last);
    StartsInAudio(info, startTime);
  }
}
