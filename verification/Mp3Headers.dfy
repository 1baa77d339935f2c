/** MP3 frame and Xing headers written field by field, and what both parsers read of them. */
module Mp3Headers {
  import opened Bytes
  import opened Mp3
  import opened Reals
  import opened Options

  /** The fields of a Layer III frame header: version 3 is MPEG1, 2 MPEG2 and 0 MPEG2.5; mode 3 is mono. */
  datatype Header = Header(version: nat, protection: nat, bitrate: nat, rate: nat, low: nat, mode: nat, extension: nat)

  ghost predicate ValidHeader(h: Header) {
    && h.version in {0, 2, 3} && h.protection < 2 && 0 < h.bitrate < 15 && h.rate < 3
    && h.low < 4 && h.mode < 4 && h.extension < 64
  }

  function HeaderBytes(h: Header): seq<byte>
    requires ValidHeader(h)
  {
    [0xFF, 0xE0 + 8 * h.version + 2 + h.protection, 16 * h.bitrate + 4 * h.rate + h.low, 64 * h.mode + h.extension]
  }

  function Power2(n: nat): (p: nat)
    ensures p > 0
  {
    if n == 0 then 1 else 2 * Power2(n - 1)
  }

  /** The bitrates of MPEG1 come in groups of four with steps that double from group to group; those of the other
      versions go up by 8 and, beyond 64, by 16. */
  function Kbps(h: Header): (kbps: nat)
    requires ValidHeader(h)
    ensures kbps > 0
  {
    if h.version == 3 then (4 + (h.bitrate - 1) % 4) * 8 * Power2((h.bitrate - 1) / 4)
    else if h.bitrate <= 8 then 8 * h.bitrate
    else 64 + 16 * (h.bitrate - 8)
  }

  /** MPEG2 halves the sample rates of MPEG1, and MPEG2.5 those of MPEG2. */
  function SamplesPerSecond(h: Header): (hertz: nat)
    requires ValidHeader(h)
    ensures hertz > 0
  {
    [44100, 48000, 32000][h.rate] / (if h.version == 3 then 1 else if h.version == 2 then 2 else 4)
  }

  function Samples(h: Header): nat {
    if h.version == 3 then 1152 else 576
  }

  /** The side information behind the header: 32 bytes in MPEG1 and 17 otherwise, 17 and 9 in mono. */
  function SideLength(h: Header): nat {
    match (h.version == 3, h.mode == 3)
    case (true, false) => 32
    case (true, true) => 17
    case (false, false) => 17
    case (false, true) => 9
  }

  /** A frame header is read field by field. */
  lemma ReadsHeader(c: seq<byte>, i: nat, h: Header)
    requires ValidHeader(h) && i + 4 <= |c| && c[i..i + 4] == HeaderBytes(h)
    ensures IsFrame(c, i) && Bitrate(c, i) == Kbps(h) && Hertz(c, i) == SamplesPerSecond(h)
    ensures SamplesPerFrame(c, i) == Samples(h) && XingAt(c, i) == i + 4 + SideLength(h)
  {
    var b := c[i..i + 4];
    assert c[i] == b[0] && c[i + 1] == b[1] && c[i + 2] == b[2] && c[i + 3] == b[3];
    FieldsOf(h);
    Rates(h);
    hide BitrateV1, BitrateV2, SampleRate, Kbps, SamplesPerSecond;
  }

  lemma FieldsOf(h: Header)
    requires ValidHeader(h)
    ensures var b := HeaderBytes(h);
      && b[1] >= 0xE0 && b[1] / 8 % 4 == h.version && b[1] / 2 % 4 == 1
      && b[2] / 16 == h.bitrate && b[2] / 4 % 4 == h.rate && b[3] / 64 == h.mode
  {
  }

  lemma Rates(h: Header)
    requires ValidHeader(h)
    ensures (if h.version == 3 then BitrateV1(h.bitrate) else BitrateV2(h.bitrate)) == Kbps(h)
    ensures SampleRate(h.version, h.rate) == SamplesPerSecond(h)
  {
    assert Power2(0) == 1 && Power2(1) == 2 && Power2(2) == 4 && Power2(3) == 8;
    hide Power2;
  }

  /** And nothing else is taken for one. */
  lemma IsFrameIff(c: seq<byte>, i: nat)
    requires i + 4 <= |c|
    ensures IsFrame(c, i) <==> exists h :: ValidHeader(h) && c[i..i + 4] == HeaderBytes(h)
  {
    if IsFrame(c, i) {
      var h := WrittenAs(c, i);
    }
    hide IsFrame, HeaderBytes, ValidHeader;
    forall h | ValidHeader(h) && c[i..i + 4] == HeaderBytes(h) ensures IsFrame(c, i) {
      ReadsHeader(c, i, h);
    }
  }

  lemma WrittenAs(c: seq<byte>, i: nat) returns (h: Header)
    requires i + 4 <= |c| && IsFrame(c, i)
    ensures ValidHeader(h) && c[i..i + 4] == HeaderBytes(h)
  {
    h := Header(c[i + 1] / 8 % 4, c[i + 1] % 2, c[i + 2] / 16, c[i + 2] / 4 % 4, c[i + 2] % 4, c[i + 3] / 64,
                c[i + 3] % 64);
    ByteParts(c[i + 1], c[i + 2], c[i + 3]);
    assert c[i..i + 4] == [c[i], c[i + 1], c[i + 2], c[i + 3]];
  }

  lemma ByteParts(a: byte, b: byte, c: byte)
    ensures a >= 0xE0 && a / 2 % 4 == 1 ==> a as int == 0xE0 + 8 * (a as int / 8 % 4) + 2 + a as int % 2
    ensures b as int == 16 * (b as int / 16) + 4 * (b as int / 4 % 4) + b as int % 4
    ensures c as int == 64 * (c as int / 64) + c as int % 64
  {
  }

  /* ---------------- Xing headers ---------------- */

  datatype Fields = Fields(info: bool, frames: Option<nat>, bytes: Option<nat>, toc: Option<seq<byte>>, quality: bool)

  ghost predicate ValidFields(x: Fields) {
    && (x.frames.Some? ==> x.frames.value < Pow256(4))
    && (x.toc.Some? ==> |x.toc.value| == 100)
  }

  function Flags(x: Fields): (flags: nat)
    ensures flags < 16
  {
    (if x.frames.Some? then 1 else 0) + (if x.bytes.Some? then 2 else 0) + (if x.toc.Some? then 4 else 0)
    + if x.quality then 8 else 0
  }

  function Number(n: Option<nat>): seq<byte> {
    if n.Some? then BEBytes(n.value, 4) else []
  }

  function XingBytes(x: Fields): seq<byte> {
    Ascii(if x.info then "Info" else "Xing") + BEBytes(Flags(x), 4) + Number(x.frames) + Number(x.bytes)
    + if x.toc.Some? then x.toc.value else []
  }

  lemma FlagBits(x: Fields)
    ensures Flags(x) % 2 == (if x.frames.Some? then 1 else 0)
    ensures Flags(x) / 2 % 2 == (if x.bytes.Some? then 1 else 0)
    ensures Flags(x) / 4 % 2 == if x.toc.Some? then 1 else 0
  {
  }

  /** The places of the fields in a Xing header. */
  lemma XingPlaces(x: Fields, rest: seq<byte>)
    requires ValidFields(x)
    ensures var s, t := XingBytes(x) + rest, 8 + |Number(x.frames)| + |Number(x.bytes)|;
      && |s| >= 8 && s[..4] == Ascii(if x.info then "Info" else "Xing") && s[4..8] == BEBytes(Flags(x), 4)
      && (x.frames.Some? ==> |s| >= 12 && s[8..12] == BEBytes(x.frames.value, 4))
      && (x.toc.Some? ==> t + 100 <= |s| && s[t..t + 100] == x.toc.value)
  {
    hide BEBytes, Ascii, Flags;
  }

  lemma Moved(c: seq<byte>, at: nat, s: seq<byte>, i: nat, j: nat)
    requires at <= |c| && c[at..] == s && i <= j <= |s|
    ensures at + j <= |c| && c[at + i..at + j] == s[i..j]
  {
    assert c[at + i..at + j] == c[at..][i..j];
  }

  /** A Xing header is read field by field, each at its place behind those that are there. */
  lemma ReadsXing(c: seq<byte>, at: nat, x: Fields, rest: seq<byte>)
    requires ValidFields(x) && at + 12 <= |c| && c[at..] == XingBytes(x) + rest
    ensures HasXing(c, at) && TocOf(c, at) == x.toc
    ensures (XingFlags(c, at) % 2 == 1) == x.frames.Some?
    ensures x.frames.Some? ==> BE(c[at + 8..at + 12]) == x.frames.value
  {
    hide BE, BEBytes, Ascii, Flags, Pow256, XingBytes;
    var s, t := XingBytes(x) + rest, 8 + |Number(x.frames)| + |Number(x.bytes)|;
    XingPlaces(x, rest);
    FlagBits(x);
    Small();
    BERoundTrip(Flags(x), 4);
    Moved(c, at, s, 0, 4);
    Moved(c, at, s, 4, 8);
    if x.frames.Some? {
      BERoundTrip(x.frames.value, 4);
      Moved(c, at, s, 8, 12);
    }
    if x.toc.Some? {
      Moved(c, at, s, t, t + 100);
    }
  }

  lemma Small()
    ensures 16 < Pow256(4)
  {
  }

  /* ---------------- whole files ---------------- */

  /** A tag or nothing, a frame header, side information, a Xing header and what follows. */
  ghost predicate IsVbr(f: seq<byte>, prefix: seq<byte>, h: Header, side: seq<byte>, x: Fields, rest: seq<byte>) {
    && ValidHeader(h) && |side| == SideLength(h) && ValidFields(x)
    && f == prefix + (HeaderBytes(h) + side + (XingBytes(x) + rest))
    && |prefix| == AudioOffset(f) && |f| >= 10 && |f| >= |prefix| + 4 + |side| + 12
  }

  /** The first frame of such a file, and the Xing header in it. */
  lemma FrontOfVbr(f: seq<byte>, prefix: seq<byte>, h: Header, side: seq<byte>, x: Fields, rest: seq<byte>)
    requires IsVbr(f, prefix, h, side, x, rest)
    ensures var c := Chunk(f, |prefix|);
      && |c| > 4 && FirstFrame(c, 0) == Some(0) && c[0..4] == HeaderBytes(h)
      && XingOf(c, 0) == Xing(x.frames, x.toc)
  {
    hide Ascii, BE, BEBytes, AudioOffset, FirstFrame, IsFrame, TocOf, XingAt;
    var c, at := Chunk(f, |prefix|), 4 + |side|;
    var all := HeaderBytes(h) + side + (XingBytes(x) + rest);
    assert f[|prefix|..] == all;
    assert c == all[..|c|];
    XingShort(x);
    var n := |c| - at - |XingBytes(x)|;
    assert all[..4] == HeaderBytes(h) && all[at..] == XingBytes(x) + rest;
    if n >= 0 {
      assert c[at..] == XingBytes(x) + rest[..n];
      ReadsXing(c, at, x, rest[..n]);
    }
    ReadsHeader(c, 0, h);
    FirstIs(c);
  }

  lemma XingShort(x: Fields)
    requires ValidFields(x)
    ensures |XingBytes(x)| <= 116
  {
  }

  lemma FirstIs(c: seq<byte>)
    requires |c| > 4 && IsFrame(c, 0)
    ensures FirstFrame(c, 0) == Some(0)
  {
  }

  /** The length of so many frames, or without a count of so many bytes at the bitrate of the first frame. */
  function Length(h: Header, frames: nat, bytes: nat): real
    requires ValidHeader(h)
  {
    if frames == 0 then bytes as real * 8.0 / Kbps(h) as real / 1000.0
    else (frames * Samples(h)) as real / SamplesPerSecond(h) as real
  }

  /** The same in whole seconds, and the average bitrate of the file or else that of the first frame. */
  function WholeSeconds(h: Header, frames: Option<nat>, bytes: nat, size: nat): Scan
    requires ValidHeader(h)
  {
    match frames
    case Some(n) =>
      var seconds := Div(n * Samples(h), SamplesPerSecond(h));
      Scan(seconds, if seconds > 0 then Div(size * 8 / 1000, seconds) else 0)
    case None => Scan(Div(bytes * 8, Kbps(h)) / 1000, Kbps(h))
  }

  /** Both parsers read what was written: the slicer the position, the rates, the frame count, the table and the
      length; the scanner the length in whole seconds and the bitrate. */
  lemma ReadsVbr(f: seq<byte>, prefix: seq<byte>, h: Header, side: seq<byte>, x: Fields, rest: seq<byte>)
    requires IsVbr(f, prefix, h, side, x, rest)
    ensures ValidHeader(h) && |f| >= |prefix|
    ensures var frames, bytes := if x.frames.Some? then x.frames.value else 0, |f| - |prefix|;
      InfoOf(f) == Some(Info(|prefix|, Kbps(h), SamplesPerSecond(h), Samples(h), frames,
                             Length(h, frames, bytes), x.toc, bytes))
    ensures ScanOf(f, 0) == Some(WholeSeconds(h, x.frames, |f| - |prefix|, |f|))
  {
    FrontOfVbr(f, prefix, h, side, x, rest);
    VbrSizes(f, prefix, h, side, x, rest);
    ReadsInfo(f, |prefix|, h, x);
    ReadsScan(f, |prefix|, h, x);
  }

  /** A tag or nothing, a frame header, and no Xing header where one would be. */
  ghost predicate IsPlain(f: seq<byte>, prefix: seq<byte>, h: Header, rest: seq<byte>) {
    && ValidHeader(h) && f == prefix + (HeaderBytes(h) + rest) && rest != []
    && |prefix| == AudioOffset(f) && |f| >= 10
    && var n := SideLength(h);
       n + 8 <= |rest| ==> rest[n..n + 4] != Ascii("Xing") && rest[n..n + 4] != Ascii("Info")
  }

  /** Without a Xing header both parsers go by the bitrate of the first frame. */
  lemma ReadsPlain(f: seq<byte>, prefix: seq<byte>, h: Header, rest: seq<byte>)
    requires IsPlain(f, prefix, h, rest)
    ensures ValidHeader(h) && |f| >= |prefix|
    ensures InfoOf(f) == Some(Info(|prefix|, Kbps(h), SamplesPerSecond(h), Samples(h), 0,
                                   Length(h, 0, |f| - |prefix|), None, |f| - |prefix|))
    ensures ScanOf(f, 0) == Some(WholeSeconds(h, None, |f| - |prefix|, |f|))
  {
    hide Ascii, AudioOffset, FirstFrame, IsFrame, XingAt, InfoOf, ScanOf, XingFlags, TocOf, Length, WholeSeconds;
    var c, all := Chunk(f, |prefix|), HeaderBytes(h) + rest;
    assert f[|prefix|..] == all;
    assert c == all[..|c|];
    assert c[0..4] == HeaderBytes(h);
    ReadsHeader(c, 0, h);
    FirstIs(c);
    var n := SideLength(h);
    if n + 16 <= |c| {
      Behind(HeaderBytes(h), rest, c, n, n + 4);
    }
    hide HeaderBytes, SideLength;
    var none := Fields(false, None, None, None, false);
    assert XingOf(c, 0) == Xing(None, None);
    ReadsInfo(f, |prefix|, h, none);
    ReadsScan(f, |prefix|, h, none);
  }

  lemma Behind(front: seq<byte>, rest: seq<byte>, c: seq<byte>, i: nat, j: nat)
    requires c <= front + rest && i <= j && |front| + j <= |c|
    ensures j <= |rest| && c[|front| + i..|front| + j] == rest[i..j]
  {
    var a, b := c[|front| + i..|front| + j], rest[i..j];
    assert forall k | 0 <= k < j - i :: a[k] == (front + rest)[|front| + i + k];
  }

  lemma VbrSizes(f: seq<byte>, prefix: seq<byte>, h: Header, side: seq<byte>, x: Fields, rest: seq<byte>)
    requires IsVbr(f, prefix, h, side, x, rest)
    ensures ValidHeader(h) && |f| >= 10 && |f| > |prefix| + 4 && |prefix| == AudioOffset(f)
  {
  }

  lemma ReadsInfo(f: seq<byte>, offset: nat, h: Header, x: Fields)
    requires ValidHeader(h) && |f| >= 10 && |f| > offset + 4 && offset == AudioOffset(f)
    requires var c := Chunk(f, offset);
      |c| > 4 && FirstFrame(c, 0) == Some(0) && c[0..4] == HeaderBytes(h) && XingOf(c, 0) == Xing(x.frames, x.toc)
    ensures var frames, bytes := if x.frames.Some? then x.frames.value else 0, |f| - offset;
      InfoOf(f) == Some(Info(offset, Kbps(h), SamplesPerSecond(h), Samples(h), frames, Length(h, frames, bytes), x.toc,
                             bytes))
  {
    hide Chunk, AudioOffset, FirstFrame, IsFrame, Bitrate, Hertz, SamplesPerFrame, XingOf, Kbps, SamplesPerSecond,
         HeaderBytes, ValidHeader, Length, Seconds, XingAt, Samples;
    ReadsHeader(Chunk(f, offset), 0, h);
    LengthIs(h, if x.frames.Some? then x.frames.value else 0, |f| - offset);
  }

  lemma LengthIs(h: Header, frames: nat, bytes: nat)
    requires ValidHeader(h)
    ensures Length(h, frames, bytes) == Seconds(frames, Samples(h), SamplesPerSecond(h), bytes, Kbps(h))
  {
    hide Kbps, SamplesPerSecond;
    NoSamples(frames, Samples(h));
  }

  lemma ReadsScan(f: seq<byte>, offset: nat, h: Header, x: Fields)
    requires ValidHeader(h) && |f| >= 10 && |f| > offset + 4 && offset == AudioOffset(f)
    requires var c := Chunk(f, offset);
      |c| > 4 && FirstFrame(c, 0) == Some(0) && c[0..4] == HeaderBytes(h) && XingOf(c, 0) == Xing(x.frames, x.toc)
    ensures ScanOf(f, 0) == Some(WholeSeconds(h, x.frames, |f| - offset, |f|))
  {
    ReadsHeader(Chunk(f, offset), 0, h);
    hide Chunk, AudioOffset, FirstFrame, IsFrame, Bitrate, Hertz, SamplesPerFrame, XingOf, Kbps, SamplesPerSecond,
         HeaderBytes;
  }

  lemma NoSamples(frames: nat, samples: nat)
    requires samples > 0
    ensures frames * samples == 0 <==> frames == 0
  {
    if frames > 0 {
      assert frames * samples >= samples;
    }
  }

  /* ---------------- where the audio starts ---------------- */

  /** A file that starts with "ID3" has its audio behind the tag of the size the header gives; any other starts with
      its audio. */
  lemma AudioStarts(f: seq<byte>, version: seq<byte>, n: nat, rest: seq<byte>)
    requires |version| == 3 && n < 0x1000_0000
    ensures f == [73, 68, 51] + version + SyncSafeBytes(n) + rest ==> AudioOffset(f) == 10 + n
    ensures |f| < 3 || f[..3] != [73, 68, 51] ==> AudioOffset(f) == 0
  {
    AsciiIs("ID3");
    assert Ascii("ID3") == [73, 68, 51];
    hide Ascii, SyncSafe, SyncSafeBytes;
    if f == [73, 68, 51] + version + SyncSafeBytes(n) + rest {
      SyncSafeRoundTrip(n);
      assert f[..3] == [73, 68, 51] && f[6..10] == SyncSafeBytes(n);
      assert f[6] == f[6..10][0] && f[7] == f[6..10][1] && f[8] == f[6..10][2] && f[9] == f[6..10][3];
    }
  }

  /** A frame header with a byte behind it, i bytes into the audio and within the first 65792. */
  ghost predicate HeaderAt(f: seq<byte>, offset: nat, i: nat) {
    && i + 4 < 65792 && offset + i + 4 < |f|
    && exists h :: ValidHeader(h) && f[offset + i..offset + i + 4] == HeaderBytes(h)
  }

  /** Both parsers accept exactly the files with such a header, and the audio starts at the first. */
  lemma FoundIff(f: seq<byte>)
    requires |f| >= 10
    ensures InfoOf(f).Some? == ScanOf(f, 0).Some? == exists i: nat :: HeaderAt(f, AudioOffset(f), i)
    ensures InfoOf(f).Some? ==>
      exists i: nat :: HeaderAt(f, AudioOffset(f), i) && InfoOf(f).value.audioStart == AudioOffset(f) + i
        && forall j: nat | j < i :: !HeaderAt(f, AudioOffset(f), j)
  {
    var offset := AudioOffset(f);
    hide AudioOffset, HeaderBytes, ValidHeader, IsFrame, HeaderAt, XingOf, Bitrate, Hertz, SamplesPerFrame, Chunk;
    if |f| - offset > 4 {
      var c := Chunk(f, offset);
      HeadersInChunk(f, offset);
      if FirstFrame(c, 0).Some? {
        assert HeaderAt(f, offset, FirstFrame(c, 0).value);
      }
    } else {
      NoRoom(f, offset);
    }
  }

  lemma NoRoom(f: seq<byte>, offset: nat)
    requires |f| <= offset + 4
    ensures forall i: nat :: !HeaderAt(f, offset, i)
  {
  }

  lemma HeadersInChunk(f: seq<byte>, offset: nat)
    requires offset + 4 < |f|
    ensures forall i: nat :: HeaderAt(f, offset, i) <==> i + 4 < |Chunk(f, offset)| && IsFrame(Chunk(f, offset), i)
  {
    hide HeaderBytes, ValidHeader, IsFrame;
    var c := Chunk(f, offset);
    forall i: nat ensures HeaderAt(f, offset, i) <==> i + 4 < |c| && IsFrame(c, i) {
      if i + 4 < |c| {
        IsFrameIff(c, i);
        FourOf(f, offset, i);
      }
    }
  }

  lemma FourOf(f: seq<byte>, offset: nat, i: nat)
    requires offset + 4 < |f| && i + 4 <= |Chunk(f, offset)|
    ensures offset + i + 4 <= |f| && Chunk(f, offset)[i..i + 4] == f[offset + i..offset + i + 4]
  {
    var a, b := Chunk(f, offset)[i..i + 4], f[offset + i..offset + i + 4];
    assert forall k | 0 <= k < 4 :: a[k] == f[offset + i + k] == b[k];
  }
}
