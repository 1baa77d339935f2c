/** Slicing WAV files: the chunk walk, the time-to-byte arithmetic and the rewritten headers. */
module Wav {
  import opened Bytes
  import opened Reals
  import opened Options

  const RIFF := Ascii("RIFF")
  const WAVE := Ascii("WAVE")
  const FMT := Ascii("fmt ")
  const DATA := Ascii("data")

  /** What the walk has found: the fmt body ([] for none yet), and where the data body is (offset 0 for none). */
  datatype Layout = Layout(fmt: seq<byte>, dataOffset: nat, dataSize: nat)

  function SampleRate(fmt: seq<byte>): nat {
    if |fmt| < 16 then 0 else LE(fmt[4..8])
  }

  function BlockAlign(fmt: seq<byte>): nat {
    if |fmt| < 16 then 0 else LE(fmt[12..14])
  }

  /** What a chunk adds, and where the next one starts. */
  datatype Turn = Turn(found: Layout, next: nat)

  /** The chunk at a position; None for an unusable fmt chunk, which ends the attempt. */
  function ChunkAt(f: seq<byte>, pos: nat, found: Layout): (t: Option<Turn>)
    requires pos + 8 < |f|
    ensures t.Some? ==> t.value.next >= pos + 8
  {
    var id, size := f[pos..pos + 4], LE(f[pos + 4..pos + 8]);
    if id == FMT && (size < 16 || size > 1024 || pos + 8 + size > |f|) then None
    else
      var found' := if id == FMT then found.(fmt := f[pos + 8..pos + 8 + size])
                    else if id == DATA then found.(dataOffset := pos + 8, dataSize := size)
                    else found;
      Some(Turn(found', pos + 8 + size + size % 2))
  }

  /** The chunk walk from a position on, until fmt and data are known or the file ends. */
  function Walk(f: seq<byte>, pos: nat, found: Layout): Option<Layout>
    decreases |f| - pos
  {
    if pos + 8 >= |f| then Some(found)
    else
      match ChunkAt(f, pos, found)
      case None => None
      case Some(t) => if t.found.fmt != [] && t.found.dataOffset > 0 then Some(t.found) else Walk(f, t.next, t.found)
  }

  function Parsed(f: seq<byte>): Option<Layout> {
    if |f| < 12 || f[0..4] != RIFF || f[8..12] != WAVE then None else Walk(f, 12, Layout([], 0, 0))
  }

  /** One round of the chunk loop. */
  method ReadChunkAt(f: seq<byte>, pos: nat, found: Layout) returns (r: Option<Turn>)
    requires pos + 8 < |f|
    ensures r == ChunkAt(f, pos, found)
  {
    hide LE, Ascii;
    var id, size := f[pos..pos + 4], LE(f[pos + 4..pos + 8]);
    var l, next := found, pos + 8 + size;
    if id == FMT {
      if size < 16 || size > 1024 {
        return None;
      }
      if pos + 8 + size > |f| {
        return None;
      }
      l := l.(fmt := f[pos + 8..pos + 8 + size]);
    } else if id == DATA {
      l := l.(dataOffset := pos + 8, dataSize := size);
    }
    if size % 2 != 0 {
      next := next + 1;
    }
    return Some(Turn(l, next));
  }

  method Parse(f: seq<byte>) returns (r: Option<Layout>)
    ensures r == Parsed(f)
  {
    if |f| < 12 || f[0..4] != RIFF || f[8..12] != WAVE {
      return None;
    }
    hide ChunkAt;
    var l, pos: nat := Layout([], 0, 0), 12;
    while pos < |f| - 8
      invariant Parsed(f) == Walk(f, pos, l)
      decreases |f| - pos
    {
      var chunk := ReadChunkAt(f, pos, l);
      if chunk.None? {
        return None;
      }
      l := chunk.value.found;
      if l.fmt != [] && l.dataOffset > 0 {
        return Some(l);
      }
      pos := chunk.value.next;
    }
    return Some(l);
  }

  /* ---------------- the slice ---------------- */

  datatype Response = Response(contentLength: nat, body: seq<byte>)

  function MinReal(a: real, b: real): real {
    if a > b then b else a
  }

  function Min(a: int, b: int): (m: int)
    ensures m <= a && m <= b && (m == a || m == b)
  {
    if a < b then a else b
  }

  /** The byte offset of the sample block at a time. */
  function BlockOffset(t: real, rate: nat, align: nat): int {
    (t * rate as real).Floor * align
  }

  lemma OffsetNonnegative(t: real, rate: nat, align: nat)
    requires t >= 0.0
    ensures BlockOffset(t, rate, align) >= 0
  {
  }

  /** The bytes of the data chunk between two times, in whole sample blocks; None when there are none. */
  function Bounds(rate: nat, align: nat, size: nat, startTime: real, duration: real): (r: Option<(nat, nat)>)
    requires rate > 0 && align > 0 && startTime >= 0.0 && duration > 0.0
    ensures r.Some? ==> r.value.0 < r.value.1 <= size
  {
    var endTime := MinReal(startTime + duration, size as real / (rate * align) as real);
    if startTime >= endTime then None
    else
      var startByte, endByte := BlockOffset(startTime, rate, align), Min(BlockOffset(endTime, rate, align), size);
      OffsetNonnegative(startTime, rate, align);
      if endByte - startByte <= 0 then None else Some((startByte, endByte))
  }

  /** What io.Copy of a LimitReader delivers: as many of the bytes as the file has. */
  function Copied(f: seq<byte>, offset: nat, n: nat): seq<byte> {
    if offset >= |f| then [] else f[offset..Min(offset + n, |f|)]
  }

  /** The emitted headers; a size written into four bytes wraps. */
  function Header(fmt: seq<byte>, size: nat): (h: seq<byte>)
    ensures |h| == 28 + |fmt|
  {
    RIFF + LEBytes(20 + |fmt| + size, 4) + WAVE + FMT + LEBytes(|fmt|, 4) + fmt + DATA + LEBytes(size, 4)
  }

  function Sliced(f: seq<byte>, startTime: real, duration: real): Option<Response>
    requires startTime >= 0.0 && duration > 0.0
  {
    match Parsed(f)
    case None => None
    case Some(l) =>
      var rate, align := SampleRate(l.fmt), BlockAlign(l.fmt);
      if rate == 0 || align == 0 || l.dataSize == 0 then None
      else
        match Bounds(rate, align, l.dataSize, startTime, duration)
        case None => None
        case Some((lo, hi)) =>
          Some(Response(28 + |l.fmt| + hi - lo, Header(l.fmt, hi - lo) + Copied(f, l.dataOffset + lo, hi - lo)))
  }

  /** The arithmetic of sliceWAV. */
  method ByteRange(sampleRate: nat, blockAlign: nat, dataSize: nat, startTime: real, duration: real)
    returns (r: Option<(nat, nat)>)
    requires sampleRate > 0 && blockAlign > 0 && startTime >= 0.0 && duration > 0.0
    ensures r == Bounds(sampleRate, blockAlign, dataSize, startTime, duration)
  {
    var totalDuration := dataSize as real / (sampleRate * blockAlign) as real;
    var endTime := startTime + duration;
    if endTime > totalDuration {
      endTime := totalDuration;
    }
    assert endTime == MinReal(startTime + duration, totalDuration);
    if startTime >= endTime {
      return None;
    }
    var startByte := BlockOffset(startTime, sampleRate, blockAlign);
    var endByte := BlockOffset(endTime, sampleRate, blockAlign);
    OffsetNonnegative(startTime, sampleRate, blockAlign);
    hide BlockOffset;
    if endByte > dataSize {
      endByte := dataSize;
    }
    if endByte - startByte <= 0 {
      return None;
    }
    return Some((startByte, endByte));
  }

  /** The writes of sliceWAV. */
  method Emit(f: seq<byte>, l: Layout, startByte: nat, sliceSize: nat) returns (r: Response)
    ensures r == Response(28 + |l.fmt| + sliceSize,
                          Header(l.fmt, sliceSize) + Copied(f, l.dataOffset + startByte, sliceSize))
  {
    var fmtLen := |l.fmt|;
    var totalLen := 12 + 8 + fmtLen + 8 + sliceSize;
    var w: seq<byte> := RIFF + LEBytes(totalLen - 8, 4) + WAVE;
    w := w + FMT + LEBytes(fmtLen, 4);
    w := w + l.fmt;
    w := w + DATA + LEBytes(sliceSize, 4);
    w := w + Copied(f, l.dataOffset + startByte, sliceSize);
    return Response(totalLen, w);
  }

  /** sliceWAV; None is the fall back to the whole file. */
  method Slice(f: seq<byte>, startTime: real, duration: real) returns (r: Option<Response>)
    requires startTime >= 0.0 && duration > 0.0
    ensures r == Sliced(f, startTime, duration)
  {
    hide Parsed, Header, Copied, SampleRate, BlockAlign, Bounds;
    var parsed := Parse(f);
    if parsed.None? {
      return None;
    }
    var l := parsed.value;
    var sampleRate, blockAlign := SampleRate(l.fmt), BlockAlign(l.fmt);
    if sampleRate == 0 || blockAlign == 0 || l.dataSize == 0 {
      return None;
    }
    var range := ByteRange(sampleRate, blockAlign, l.dataSize, startTime, duration);
    if range.None? {
      return None;
    }
    var response := Emit(f, l, range.value.0, range.value.1 - range.value.0);
    return Some(response);
  }

  /* ---------------- any chunk order ---------------- */

  datatype Chunk = Chunk(id: seq<byte>, body: seq<byte>)

  ghost predicate ValidChunk(c: Chunk) {
    |c.id| == 4 && |c.body| < Pow256(4)
  }

  ghost predicate OtherChunks(cs: seq<Chunk>) {
    forall c | c in cs :: ValidChunk(c) && c.id != FMT && c.id != DATA
  }

  function Encoded(c: Chunk): seq<byte> {
    c.id + LEBytes(|c.body|, 4) + c.body + if |c.body| % 2 == 1 then [0] else []
  }

  function EncodedAll(cs: seq<Chunk>): seq<byte> {
    if cs == [] then [] else Encoded(cs[0]) + EncodedAll(cs[1..])
  }

  /** A WAV file: RIFF header with any size field, then chunks. */
  function File(sizeField: seq<byte>, chunks: seq<byte>): seq<byte> {
    RIFF + sizeField + WAVE + chunks
  }

  ghost predicate ValidFmt(c: Chunk) {
    ValidChunk(c) && c.id == FMT && 16 <= |c.body| <= 1024
  }

  ghost predicate ValidData(c: Chunk) {
    ValidChunk(c) && c.id == DATA && c.body != []
  }

  /** One encoded chunk as the walk reads it. */
  lemma ReadChunk(f: seq<byte>, pos: nat, c: Chunk, rest: seq<byte>)
    requires ValidChunk(c) && pos <= |f| && f[pos..] == Encoded(c) + rest
    ensures pos + 8 + |c.body| <= |f|
    ensures f[pos..pos + 4] == c.id && LE(f[pos + 4..pos + 8]) == |c.body|
    ensures f[pos + 8..pos + 8 + |c.body|] == c.body
    ensures f[pos + 8 + |c.body| + |c.body| % 2..] == rest
  {
    LERoundTrip(|c.body|, 4);
    var e := Encoded(c) + rest;
    assert e[0..4] == c.id && e[4..8] == LEBytes(|c.body|, 4) && e[8..8 + |c.body|] == c.body;
    assert e[8 + |c.body| + |c.body| % 2..] == rest;
    assert f[pos..pos + 4] == e[0..4] && f[pos + 4..pos + 8] == e[4..8];
    assert f[pos + 8..pos + 8 + |c.body|] == e[8..8 + |c.body|];
  }

  lemma EncodedLength(c: Chunk)
    requires ValidChunk(c)
    ensures |Encoded(c)| == 8 + |c.body| + |c.body| % 2
  {
  }

  lemma SkipOne(f: seq<byte>, pos: nat, c: Chunk, rest: seq<byte>, found: Layout)
    requires ValidChunk(c) && c.id != FMT && c.id != DATA && pos <= |f| && f[pos..] == Encoded(c) + rest && rest != []
    requires found.fmt == [] || found.dataOffset == 0
    ensures pos + |Encoded(c)| <= |f| && f[pos + |Encoded(c)|..] == rest
    ensures Walk(f, pos, found) == Walk(f, pos + |Encoded(c)|, found)
  {
    hide LE, LEBytes, Ascii, Pow256, Encoded;
    ReadChunk(f, pos, c, rest);
    EncodedLength(c);
    WalkPast(f, pos, |c.body|, found);
  }

  lemma WalkPast(f: seq<byte>, pos: nat, size: nat, found: Layout)
    requires pos + 8 < |f| && f[pos..pos + 4] != FMT && f[pos..pos + 4] != DATA && LE(f[pos + 4..pos + 8]) == size
    requires found.fmt == [] || found.dataOffset == 0
    ensures Walk(f, pos, found) == Walk(f, pos + 8 + size + size % 2, found)
  {
    hide LE, Ascii;
  }

  /** Chunks that are neither fmt nor data are passed over. */
  lemma {:induction false} SkipOthers(f: seq<byte>, pos: nat, cs: seq<Chunk>, rest: seq<byte>, found: Layout)
    requires OtherChunks(cs) && pos <= |f| && f[pos..] == EncodedAll(cs) + rest && rest != []
    requires found.fmt == [] || found.dataOffset == 0
    ensures pos + |EncodedAll(cs)| <= |f| && f[pos + |EncodedAll(cs)|..] == rest
    ensures Walk(f, pos, found) == Walk(f, pos + |EncodedAll(cs)|, found)
    decreases cs
  {
    hide Walk, Encoded;
    if cs != [] {
      var c, more := cs[0], EncodedAll(cs[1..]) + rest;
      assert c in cs;
      assert f[pos..] == Encoded(c) + more;
      SkipOne(f, pos, c, more, found);
      SkipOthers(f, pos + |Encoded(c)|, cs[1..], rest, found);
    }
  }

  lemma IdsAre()
    ensures RIFF == [0x52, 0x49, 0x46, 0x46] && WAVE == [0x57, 0x41, 0x56, 0x45]
    ensures FMT == [0x66, 0x6D, 0x74, 0x20] && DATA == [0x64, 0x61, 0x74, 0x61]
  {
    AsciiIs("RIFF");
    AsciiIs("WAVE");
    AsciiIs("fmt ");
    AsciiIs("data");
  }

  lemma IdsDiffer()
    ensures FMT != DATA
  {
    assert FMT[0] == 102 && DATA[0] == 100;
  }

  lemma ReadFmt(f: seq<byte>, pos: nat, c: Chunk, rest: seq<byte>, found: Layout)
    requires ValidFmt(c) && pos <= |f| && f[pos..] == Encoded(c) + rest && found.fmt == []
    ensures pos + |Encoded(c)| <= |f| && f[pos + |Encoded(c)|..] == rest
    ensures Walk(f, pos, found) ==
      if found.dataOffset > 0 then Some(found.(fmt := c.body)) else Walk(f, pos + |Encoded(c)|, found.(fmt := c.body))
  {
    ReadChunk(f, pos, c, rest);
    assert |f[pos..]| == |Encoded(c)| + |rest|;
  }

  /** A data chunk header ends the walk once fmt is known, whether or not the file holds all of the body. */
  lemma ReadData(f: seq<byte>, pos: nat, size: nat, tail: seq<byte>, found: Layout)
    requires size < Pow256(4) && tail != [] && pos <= |f| && f[pos..] == DATA + LEBytes(size, 4) + tail &&
      found.fmt != []
    ensures pos + 8 <= |f| && f[pos + 8..] == tail
    ensures Walk(f, pos, found) == Some(found.(dataOffset := pos + 8, dataSize := size))
  {
    LERoundTrip(size, 4);
    hide Walk, LE, LEBytes, Ascii, Pow256;
    var e := DATA + LEBytes(size, 4) + tail;
    assert e[0..4] == DATA && e[4..8] == LEBytes(size, 4) && e[8..] == tail;
    assert f[pos..pos + 4] == f[pos..][0..4] && f[pos + 4..pos + 8] == f[pos..][4..8] && f[pos + 8..] == f[pos..][8..];
    WalkData(f, pos, size, found);
  }

  lemma WalkData(f: seq<byte>, pos: nat, size: nat, found: Layout)
    requires pos + 8 < |f| && f[pos..pos + 4] == DATA && LE(f[pos + 4..pos + 8]) == size && found.fmt != []
    ensures Walk(f, pos, found) == Some(found.(dataOffset := pos + 8, dataSize := size))
  {
    IdsDiffer();
    hide LE, Ascii;
  }

  lemma DataIs(c: Chunk)
    requires ValidData(c)
    ensures ValidChunk(c) && |c.id| == 4 && c.id == DATA && c.body != []
  {
  }

  lemma PassData(f: seq<byte>, pos: nat, c: Chunk, rest: seq<byte>, found: Layout)
    requires ValidData(c) && pos <= |f| && f[pos..] == Encoded(c) + rest && found.fmt == []
    ensures pos + 8 + |c.body| <= pos + |Encoded(c)| <= |f| && f[pos + |Encoded(c)|..] == rest
    ensures f[pos + 8..pos + 8 + |c.body|] == c.body
    ensures Walk(f, pos, found) == Walk(f, pos + |Encoded(c)|, found.(dataOffset := pos + 8, dataSize := |c.body|))
  {
    hide *;
    DataIs(c);
    ReadChunk(f, pos, c, rest);
    EncodedLength(c);
    WalkPastData(f, pos, |c.body|, found);
  }

  lemma WalkPastData(f: seq<byte>, pos: nat, size: nat, found: Layout)
    requires pos + 8 < |f| && f[pos..pos + 4] == DATA && LE(f[pos + 4..pos + 8]) == size && found.fmt == []
    ensures Walk(f, pos, found) == Walk(f, pos + 8 + size + size % 2, found.(dataOffset := pos + 8, dataSize := size))
  {
    IdsDiffer();
    hide LE, Ascii;
  }

  lemma FileStarts(sizeField: seq<byte>, chunks: seq<byte>)
    requires |sizeField| == 4
    ensures var f := File(sizeField, chunks);
      |f| >= 12 && f[12..] == chunks && Parsed(f) == Walk(f, 12, Layout([], 0, 0))
  {
    var f := File(sizeField, chunks);
    assert f[0..4] == RIFF && f[8..12] == WAVE;
  }

  /** fmt before data, among any other chunks: the walk finds both bodies. */
  lemma FindsFmtThenData(sizeField: seq<byte>, before: seq<Chunk>, fmt: Chunk, between: seq<Chunk>, size: nat,
                         tail: seq<byte>, f: seq<byte>)
    requires |sizeField| == 4 && OtherChunks(before) && ValidFmt(fmt) && OtherChunks(between) &&
      size < Pow256(4) && tail != []
    requires f == File(sizeField, EncodedAll(before) +
                                  (Encoded(fmt) + (EncodedAll(between) + (DATA + LEBytes(size, 4) + tail))))
    ensures var dataAt := 12 + |EncodedAll(before)| + |Encoded(fmt)| + |EncodedAll(between)| + 8;
      Parsed(f) == Some(Layout(fmt.body, dataAt, size)) && dataAt <= |f| && f[dataAt..] == tail
  {
    hide Walk, Encoded, EncodedAll, OtherChunks, File, Parsed, Ascii;
    var d := DATA + LEBytes(size, 4) + tail;
    var m := EncodedAll(between) + d;
    var e := Encoded(fmt) + m;
    FileStarts(sizeField, EncodedAll(before) + e);
    EncodedNonempty(fmt);
    SkipOthers(f, 12, before, e, Layout([], 0, 0));
    var p := 12 + |EncodedAll(before)|;
    ReadFmt(f, p, fmt, m, Layout([], 0, 0));
    var q := p + |Encoded(fmt)|;
    SkipOthers(f, q, between, d, Layout(fmt.body, 0, 0));
    ReadData(f, q + |EncodedAll(between)|, size, tail, Layout(fmt.body, 0, 0));
  }

  lemma EncodedNonempty(c: Chunk)
    ensures |Encoded(c)| >= 4
  {
  }

  /** data before fmt, among any other chunks: the same. */
  lemma FindsDataThenFmt(sizeField: seq<byte>, before: seq<Chunk>, data: Chunk, between: seq<Chunk>, fmt: Chunk,
                         rest: seq<byte>, f: seq<byte>)
    requires |sizeField| == 4 && OtherChunks(before) && ValidData(data) && OtherChunks(between) && ValidFmt(fmt)
    requires f == File(sizeField, EncodedAll(before) + (Encoded(data) + (EncodedAll(between) + (Encoded(fmt) + rest))))
    ensures var dataAt := 12 + |EncodedAll(before)| + 8;
      Parsed(f) == Some(Layout(fmt.body, dataAt, |data.body|))
      && dataAt + |data.body| <= |f| && f[dataAt..dataAt + |data.body|] == data.body
  {
    hide Walk, Encoded, EncodedAll, OtherChunks, File, Parsed, Ascii;
    var d := Encoded(fmt) + rest;
    var m := EncodedAll(between) + d;
    var e := Encoded(data) + m;
    FileStarts(sizeField, EncodedAll(before) + e);
    EncodedNonempty(fmt);
    EncodedNonempty(data);
    SkipOthers(f, 12, before, e, Layout([], 0, 0));
    var p := 12 + |EncodedAll(before)|;
    PassData(f, p, data, m, Layout([], 0, 0));
    var q := p + |Encoded(data)|;
    var found := Layout([], p + 8, |data.body|);
    SkipOthers(f, q, between, d, found);
    ReadFmt(f, q + |EncodedAll(between)|, fmt, rest, found);
  }

  /** What does not start as a RIFF file of type WAVE is answered with the whole file. */
  lemma RejectsOther(f: seq<byte>)
    requires |f| < 12 || f[0..4] != [0x52, 0x49, 0x46, 0x46] || f[8..12] != [0x57, 0x41, 0x56, 0x45]
    ensures Parsed(f) == None
  {
    IdsAre();
  }

  /** A fmt chunk that is too short, too long or cut off ends the attempt. */
  lemma RejectsFmt(sizeField: seq<byte>, before: seq<Chunk>, size: nat, rest: seq<byte>, f: seq<byte>)
    requires |sizeField| == 4 && OtherChunks(before) && size < Pow256(4) && rest != []
    requires size < 16 || size > 1024 || |rest| < size
    requires f == File(sizeField, EncodedAll(before) + (FMT + LEBytes(size, 4) + rest))
    ensures Parsed(f) == None
  {
    hide Walk, EncodedAll, OtherChunks, File, Parsed, Ascii, LE, LEBytes, Pow256;
    var e := FMT + LEBytes(size, 4) + rest;
    FileStarts(sizeField, EncodedAll(before) + e);
    SkipOthers(f, 12, before, e, Layout([], 0, 0));
    var p := 12 + |EncodedAll(before)|;
    LERoundTrip(size, 4);
    assert e[0..4] == FMT && e[4..8] == LEBytes(size, 4);
    assert f[p..p + 4] == f[p..][0..4] && f[p + 4..p + 8] == f[p..][4..8];
    EndsWalk(f, p, size, Layout([], 0, 0));
  }

  lemma EndsWalk(f: seq<byte>, pos: nat, size: nat, found: Layout)
    requires pos + 8 < |f| && f[pos..pos + 4] == FMT && LE(f[pos + 4..pos + 8]) == size
    requires size < 16 || size > 1024 || |f| < pos + 8 + size
    ensures Walk(f, pos, found) == None
  {
    hide LE, Ascii;
  }

  /* ---------------- the response parses back ---------------- */

  /** What the parser accepts: a usable fmt body or none, and a size that fits four bytes. */
  ghost predicate Reasonable(l: Layout) {
    (l.fmt == [] || 16 <= |l.fmt| <= 1024) && l.dataSize < Pow256(4)
  }

  lemma ChunkReasonable(f: seq<byte>, pos: nat, found: Layout)
    requires pos + 8 < |f| && Reasonable(found) && ChunkAt(f, pos, found).Some?
    ensures var t := ChunkAt(f, pos, found).value;
      Reasonable(t.found) && (t.found.dataOffset == found.dataOffset || t.found.dataOffset == pos + 8)
  {
    LEBound(f[pos + 4..pos + 8]);
    hide LE, Ascii, Pow256;
  }

  lemma {:induction false} WalkReasonable(f: seq<byte>, pos: nat, found: Layout)
    requires Reasonable(found) && Walk(f, pos, found).Some?
    ensures Reasonable(Walk(f, pos, found).value)
    ensures var l := Walk(f, pos, found).value; l.dataOffset == found.dataOffset || l.dataOffset >= pos + 8
    decreases |f| - pos
  {
    hide ChunkAt, Reasonable;
    if pos + 8 < |f| {
      ChunkReasonable(f, pos, found);
      var t := ChunkAt(f, pos, found).value;
      if !(t.found.fmt != [] && t.found.dataOffset > 0) {
        WalkReasonable(f, t.next, t.found);
      }
    }
  }

  /** A slice request that succeeds, with what it was computed from. */
  ghost predicate Slices(f: seq<byte>, l: Layout, lo: nat, hi: nat, startTime: real, duration: real) {
    && startTime >= 0.0 && duration > 0.0
    && Parsed(f) == Some(l) && SampleRate(l.fmt) > 0 && BlockAlign(l.fmt) > 0 && l.dataSize > 0
    && Bounds(SampleRate(l.fmt), BlockAlign(l.fmt), l.dataSize, startTime, duration) == Some((lo, hi))
  }

  /** Content-Length is the length of the body if and only if the requested bytes are all in the file. */
  lemma CompleteIff(f: seq<byte>, l: Layout, lo: nat, hi: nat, startTime: real, duration: real)
    requires Slices(f, l, lo, hi, startTime, duration)
    ensures var r := Sliced(f, startTime, duration).value;
      |r.body| == r.contentLength <==> l.dataOffset + hi <= |f|
  {
    hide Bounds;
  }

  lemma HeaderIsFile(fmt: seq<byte>, size: nat, pcm: seq<byte>)
    requires |fmt| % 2 == 0
    ensures Header(fmt, size) + pcm ==
      File(LEBytes(20 + |fmt| + size, 4), EncodedAll([]) +
           (Encoded(Chunk(FMT, fmt)) + (EncodedAll([]) + (DATA + LEBytes(size, 4) + pcm))))
  {
  }

  lemma ParsedFmt(f: seq<byte>, l: Layout)
    requires Parsed(f) == Some(l) && SampleRate(l.fmt) > 0
    ensures 16 <= |l.fmt| <= 1024 && l.dataSize < Pow256(4)
  {
    WalkReasonable(f, 12, Layout([], 0, 0));
  }

  lemma WhatIsSent(f: seq<byte>, l: Layout, lo: nat, hi: nat, startTime: real, duration: real)
    requires Slices(f, l, lo, hi, startTime, duration) && l.dataOffset + hi <= |f|
    ensures lo < hi
    ensures Sliced(f, startTime, duration) ==
      Some(Response(28 + |l.fmt| + (hi - lo), Header(l.fmt, hi - lo) + f[l.dataOffset + lo..l.dataOffset + hi]))
    ensures 16 <= |l.fmt| <= 1024 && l.dataSize < Pow256(4) && hi <= l.dataSize
  {
    hide Parsed, Header, Bounds, Pow256, SampleRate, BlockAlign;
    ParsedFmt(f, l);
    InBounds(SampleRate(l.fmt), BlockAlign(l.fmt), l.dataSize, startTime, duration);
  }

  lemma InBounds(rate: nat, align: nat, size: nat, startTime: real, duration: real)
    requires rate > 0 && align > 0 && startTime >= 0.0 && duration > 0.0
    ensures var r := Bounds(rate, align, size, startTime, duration); r.Some? ==> r.value.0 < r.value.1 <= size
  {
  }

  lemma OutputParses(fmt: seq<byte>, size: nat, pcm: seq<byte>)
    requires |fmt| % 2 == 0 && 16 <= |fmt| <= 1024 && size < Pow256(4) && pcm != []
    ensures Parsed(Header(fmt, size) + pcm) == Some(Layout(fmt, 28 + |fmt|, size))
    ensures (Header(fmt, size) + pcm)[28 + |fmt|..] == pcm
    ensures LE((Header(fmt, size) + pcm)[4..8]) == (20 + |fmt| + size) % Pow256(4)
  {
    hide Walk, ChunkAt, LE, LEBytes, Encoded, EncodedAll;
    HeaderIsFile(fmt, size, pcm);
    FindsFmtThenData(LEBytes(20 + |fmt| + size, 4), [], Chunk(FMT, fmt), [], size, pcm, Header(fmt, size) + pcm);
    WrappedSize(20 + |fmt| + size, 4);
    assert (Header(fmt, size) + pcm)[4..8] == LEBytes(20 + |fmt| + size, 4);
  }

  /** With an even fmt body and the data inside the file, parsing the response gives the same fmt body and exactly the
      requested bytes, and the sizes written are the true ones modulo 2^32. */
  lemma ResponseParses(f: seq<byte>, l: Layout, lo: nat, hi: nat, startTime: real, duration: real)
    requires Slices(f, l, lo, hi, startTime, duration) && |l.fmt| % 2 == 0 && l.dataOffset + hi <= |f|
    ensures var r := Sliced(f, startTime, duration).value;
      && Parsed(r.body) == Some(Layout(l.fmt, 28 + |l.fmt|, hi - lo))
      && r.body[28 + |l.fmt|..] == f[l.dataOffset + lo..l.dataOffset + hi]
      && |r.body| == r.contentLength
      && LE(r.body[4..8]) == (r.contentLength - 8) % Pow256(4)
  {
    hide Sliced, Parsed, Header, Bounds, Pow256, LE, SampleRate, BlockAlign;
    WhatIsSent(f, l, lo, hi, startTime, duration);
    SentParses(l.fmt, hi - lo, f[l.dataOffset + lo..l.dataOffset + hi]);
  }

  lemma SentParses(fmt: seq<byte>, size: nat, pcm: seq<byte>)
    requires |fmt| % 2 == 0 && 16 <= |fmt| <= 1024 && size < Pow256(4) && pcm != [] && |pcm| == size
    ensures var r := Response(28 + |fmt| + size, Header(fmt, size) + pcm);
      && Parsed(r.body) == Some(Layout(fmt, 28 + |fmt|, size)) && r.body[28 + |fmt|..] == pcm
      && |r.body| == r.contentLength && LE(r.body[4..8]) == (r.contentLength - 8) % Pow256(4)
  {
    hide *;
    OutputParses(fmt, size, pcm);
  }

  /** Writing a number into k bytes keeps it modulo 256^k. */
  lemma {:induction false} WrappedSize(n: nat, k: nat)
    ensures LE(LEBytes(n, k)) == n % Pow256(k)
  {
    if k > 0 {
      WrappedSize(n / 256, k - 1);
      assert LEBytes(n, k)[1..] == LEBytes(n / 256, k - 1);
      ModSplit(n, Pow256(k - 1));
    }
  }

  lemma ModSplit(n: nat, m: nat)
    requires m > 0
    ensures n % (256 * m) == n % 256 + 256 * (n / 256 % m)
  {
    var q, r := n / 256 / m, n / 256 % m;
    assert n == 256 * m * q + (256 * r + n % 256) by {
      assert n / 256 == m * q + r;
      assert 256 * (m * q) == 256 * m * q;
    }
    ModIs(n, 256 * m, q, 256 * r + n % 256);
  }

  /** The unpadded fmt chunk parses back if and only if its length is even: otherwise the walk is one byte late and
      never finds the data chunk that was written. */
  lemma ReparsesIff(f: seq<byte>, l: Layout, lo: nat, hi: nat, startTime: real, duration: real)
    requires Slices(f, l, lo, hi, startTime, duration) && l.dataOffset + hi <= |f|
    ensures var back := Parsed(Sliced(f, startTime, duration).value.body);
      (back.Some? && back.value.dataOffset == 28 + |l.fmt|) <==> |l.fmt| % 2 == 0
  {
    hide Sliced, Parsed, Header, Bounds, SampleRate, BlockAlign, Pow256;
    WhatIsSent(f, l, lo, hi, startTime, duration);
    hide Slices;
    var pcm := f[l.dataOffset + lo..l.dataOffset + hi];
    if |l.fmt| % 2 == 0 {
      OutputParses(l.fmt, hi - lo, pcm);
    } else {
      OddFmt(l.fmt, hi - lo, pcm);
    }
  }

  /* ---------------- inputs that fail ---------------- */

  const ONE := [1, 0, 0, 0]

  /** A fmt body of n bytes: PCM, one channel, one sample a second, one byte a sample. */
  function TinyFmt(n: nat): (fmt: seq<byte>)
    requires n >= 16
    ensures |fmt| == n
  {
    [1, 0, 1, 0] + ONE + ONE + [1, 0, 8, 0] + seq(n - 16, i => 0)
  }

  /** A file with such a body, a data chunk that claims four bytes, and these bytes behind its header. */
  function TinyFile(n: nat, pcm: seq<byte>): seq<byte>
    requires n >= 16
  {
    File(ONE, EncodedAll([]) + (Encoded(Chunk(FMT, TinyFmt(n))) + (EncodedAll([]) + (DATA + LEBytes(4, 4) + pcm))))
  }

  lemma TinyNumbers(n: nat)
    requires n >= 16
    ensures SampleRate(TinyFmt(n)) == 1 && BlockAlign(TinyFmt(n)) == 1
  {
    var fmt := TinyFmt(n);
    assert fmt[4..8] == ONE && fmt[12..14] == [1, 0];
    assert ONE == LEBytes(1, 4) && [1, 0] == LEBytes(1, 2);
    LERoundTrip(1, 4);
    LERoundTrip(1, 2);
  }

  lemma TinyBounds()
    ensures Bounds(1, 1, 4, 0.0, 2.0) == Some((0, 2))
  {
  }

  /** Asking such a file for the first two seconds asks for its first two bytes of data. */
  lemma TinySlices(n: nat, pcm: seq<byte>)
    requires 16 <= n <= 1024 && pcm != []
    ensures var f := TinyFile(n, pcm);
      var l := Layout(TinyFmt(n), |f| - |pcm|, 4);
      |f| >= |pcm| && Slices(f, l, 0, 2, 0.0, 2.0)
  {
    hide Walk, ChunkAt, LE, LEBytes, Encoded, EncodedAll, Bounds, SampleRate, BlockAlign, TinyFmt, Parsed, Ascii;
    var f, fmt := TinyFile(n, pcm), Chunk(FMT, TinyFmt(n));
    NoChunks();
    Small();
    FindsFmtThenData(ONE, [], fmt, [], 4, pcm, f);
    TinyNumbers(n);
    TinyBounds();
  }

  lemma NoChunks()
    ensures EncodedAll([]) == [] && OtherChunks([]) && |FMT| == 4
  {
  }

  lemma Small()
    ensures 1024 < Pow256(4)
  {
  }

  /** A fmt body of 17 bytes: the response does not parse back. */
  lemma OddFmtInput() returns (f: seq<byte>)
    ensures f == TinyFile(17, [5, 6, 7, 8])
    ensures Sliced(f, 0.0, 2.0).Some?
    ensures var back := Parsed(Sliced(f, 0.0, 2.0).value.body); !(back.Some? && back.value.dataOffset == 28 + 17)
  {
    hide *;
    f := TinyFile(17, [5, 6, 7, 8]);
    TinySlices(17, [5, 6, 7, 8]);
    var l := Layout(TinyFmt(17), |f| - 4, 4);
    SlicesSent(f, l, 0, 2, 0.0, 2.0);
    TinyHolds(f, 17, [5, 6, 7, 8]);
    ReparsesIff(f, l, 0, 2, 0.0, 2.0);
  }

  /** A data chunk cut off after its first byte: the response is not as long as its Content-Length. */
  lemma TruncatedInput() returns (f: seq<byte>)
    ensures f == TinyFile(16, [5])
    ensures Sliced(f, 0.0, 2.0).Some?
    ensures |Sliced(f, 0.0, 2.0).value.body| != Sliced(f, 0.0, 2.0).value.contentLength
  {
    hide *;
    f := TinyFile(16, [5]);
    TinySlices(16, [5]);
    var l := Layout(TinyFmt(16), |f| - 1, 4);
    SlicesSent(f, l, 0, 2, 0.0, 2.0);
    CompleteIff(f, l, 0, 2, 0.0, 2.0);
  }

  lemma TinyHolds(f: seq<byte>, n: nat, pcm: seq<byte>)
    requires n >= 16 && f == TinyFile(n, pcm)
    ensures |f| >= |pcm|
  {
  }

  lemma SlicesSent(f: seq<byte>, l: Layout, lo: nat, hi: nat, startTime: real, duration: real)
    requires Slices(f, l, lo, hi, startTime, duration)
    ensures startTime >= 0.0 && duration > 0.0 && Sliced(f, startTime, duration).Some?
  {
    hide Parsed, Bounds, SampleRate, BlockAlign;
  }

  lemma OddFmt(fmt: seq<byte>, size: nat, pcm: seq<byte>)
    requires |fmt| % 2 == 1 && 16 <= |fmt| <= 1024
    ensures var back := Parsed(Header(fmt, size) + pcm);
      back.Some? ==> back.value.dataOffset != 28 + |fmt|
  {
    var w := Header(fmt, size) + pcm;
    LERoundTrip(|fmt|, 4);
    assert w[0..4] == RIFF && w[8..12] == WAVE && w[12..16] == FMT && w[16..20] == LEBytes(|fmt|, 4);
    var late := 12 + 8 + |fmt| + 1;
    var found := Layout(w[20..20 + |fmt|], 0, 0);
    assert Parsed(w) == Walk(w, late, found);
    if Walk(w, late, found).Some? {
      WalkReasonable(w, late, found);
    }
  }

  /* ---------------- slices of slices ---------------- */

  /** The time at which a sample starts. */
  function At(sample: nat, rate: nat): real
    requires rate > 0
  {
    sample as real / rate as real
  }

  lemma AtExact(sample: nat, rate: nat)
    requires rate > 0
    ensures At(sample, rate) >= 0.0 && At(sample, rate) * rate as real == sample as real
  {
  }

  lemma AtOrder(i: nat, x: real, rate: nat)
    requires rate > 0
    ensures At(i, rate) >= x / rate as real <==> i as real >= x
  {
  }

  lemma AtSum(i: nat, j: nat, rate: nat)
    requires rate > 0
    ensures At(i, rate) + At(j, rate) == At(i + j, rate)
  {
  }

  lemma TotalTime(size: nat, rate: nat, align: nat)
    requires rate > 0 && align > 0
    ensures size as real / (rate * align) as real == size as real / align as real / rate as real
  {
    var x, r, a := size as real, rate as real, align as real;
    assert (rate * align) as real == r * a;
    var y := x / a / r;
    assert y * r == x / a;
    assert y * r * a == x;
    assert y * (r * a) == x;
  }

  /** The length of m sample blocks. */
  function Blocks(m: nat, align: nat): nat {
    m * align
  }

  lemma BlocksOrder(m: nat, e: nat, align: nat)
    requires align > 0
    ensures Blocks(m, align) < Blocks(e, align) <==> m < e
  {
    MulOrder(m, e, align);
  }

  lemma AtPositive(n: nat, rate: nat)
    requires rate > 0 && n > 0
    ensures At(n, rate) > 0.0
  {
  }

  lemma AlignedOffset(t: real, rate: nat, align: nat, sample: nat)
    requires t * rate as real >= sample as real && t * rate as real < sample as real + 1.0
    ensures BlockOffset(t, rate, align) == Blocks(sample, align)
  {
    assert (t * rate as real).Floor == sample;
  }

  /** The end of the slice, as a sample. */
  lemma EndSample(rate: nat, align: nat, size: nat, k: nat)
    requires rate > 0 && align > 0
    ensures var endTime := MinReal(At(k, rate), size as real / (rate * align) as real);
      BlockOffset(endTime, rate, align) == Blocks(Min(k, size / align), align)
  {
    var blocks := size as real / align as real;
    AtExact(k, rate);
    TotalTime(size, rate, align);
    FloorOfQuotient(size, align);
    AtOrder(k, blocks, rate);
    assert blocks / rate as real * rate as real == blocks;
    var endTime := MinReal(At(k, rate), size as real / (rate * align) as real);
    AlignedOffset(endTime, rate, align, Min(k, size / align));
  }

  /** At sample-aligned times the byte range is the sample range, cut at the last whole block. */
  lemma AlignedBounds(rate: nat, align: nat, size: nat, m: nat, n: nat)
    requires rate > 0 && align > 0 && n > 0
    ensures At(m, rate) >= 0.0 && At(n, rate) > 0.0
    ensures Bounds(rate, align, size, At(m, rate), At(n, rate)) ==
      var e := Min(m + n, size / align);
      if m < e then Some((Blocks(m, align), Blocks(e, align))) else None
  {
    hide BlockOffset, MinReal, At, Blocks, Min;
    AtExact(m, rate);
    AtPositive(n, rate);
    AtSum(m, n, rate);
    EndSample(rate, align, size, m + n);
    AlignedOffset(At(m, rate), rate, align, m);
    FloorOfQuotient(size, align);
    BlocksOrder(m, Min(m + n, size / align), align);
    EndNotBefore(rate, align, size, m, n);
    EndInside(m + n, size, align);
  }

  lemma EndInside(k: nat, size: nat, align: nat)
    requires align > 0
    ensures Blocks(Min(k, size / align), align) <= size
  {
    FloorOfQuotient(size, align);
    MulOrder(size / align, k, align);
  }

  /** When the times are out of order, so are the samples. */
  lemma EndNotBefore(rate: nat, align: nat, size: nat, m: nat, n: nat)
    requires rate > 0 && align > 0 && n > 0
    ensures At(m, rate) >= MinReal(At(m + n, rate), size as real / (rate * align) as real) ==>
      m >= Min(m + n, size / align)
  {
    AtExact(m, rate);
    AtExact(m + n, rate);
    TotalTime(size, rate, align);
    AtOrder(m, size as real / align as real, rate);
    AtOrder(m, (m + n) as real, rate);
    FloorOfQuotient(size, align);
  }

  /** Block m is the one that plays at the start, and block e the one that plays at the end or, if that comes first,
      the number of whole blocks. */
  ghost predicate BlocksAt(m: nat, e: nat, rate: nat, whole: nat, startTime: real, duration: real) {
    var start, end := Scaled(startTime, rate), Scaled(startTime + duration, rate);
    && m as real <= start < m as real + 1.0
    && e as real <= end && e <= whole && (end < e as real + 1.0 || e == whole)
  }

  lemma BoundsUnfold(rate: nat, align: nat, size: nat, startTime: real, duration: real)
    requires rate > 0 && align > 0 && startTime >= 0.0 && duration > 0.0
    ensures var total := size as real / (rate * align) as real;
      var endTime := if startTime + duration > total then total else startTime + duration;
      var lo, hi := BlockOffset(startTime, rate, align), Min(BlockOffset(endTime, rate, align), size);
      && lo >= 0
      && Bounds(rate, align, size, startTime, duration) ==
         if startTime >= endTime || hi - lo <= 0 then None else Some((lo, hi))
  {
    OffsetNonnegative(startTime, rate, align);
    hide BlockOffset, Min;
  }

  lemma OffsetIs(t: real, rate: nat, align: nat, block: nat)
    requires block as real <= Scaled(t, rate) < block as real + 1.0
    ensures BlockOffset(t, rate, align) == Blocks(block, align)
  {
    AlignedOffset(t, rate, align, block);
  }

  /** At any times the byte range is that of the blocks playing at them; there is none when no whole block is asked
      for. */
  lemma BoundsAre(rate: nat, align: nat, size: nat, startTime: real, duration: real, m: nat, e: nat)
    requires rate > 0 && align > 0 && startTime >= 0.0 && duration > 0.0
    requires BlocksAt(m, e, rate, size / align, startTime, duration)
    ensures Bounds(rate, align, size, startTime, duration) ==
      if m < e then Some((Blocks(m, align), Blocks(e, align))) else None
  {
    hide BlockOffset, Blocks, Scaled, Bounds;
    var total, whole := size as real / (rate * align) as real, size / align;
    var endTime := if startTime + duration > total then total else startTime + duration;
    BoundsUnfold(rate, align, size, startTime, duration);
    TotalRate(size, rate, align);
    FloorOfQuotient(size, align);
    ScaledOrder(startTime, total, rate);
    ScaledOrder(startTime + duration, total, rate);
    ScaledOrder(total, startTime + duration, rate);
    ScaledOrder(startTime, startTime + duration, rate);
    OffsetIs(startTime, rate, align, m);
    if startTime < endTime {
      OffsetIs(endTime, rate, align, e);
      BlocksOrder(m, e, align);
      EndInside(e, size, align);
    }
  }

  lemma TotalRate(size: nat, rate: nat, align: nat)
    requires rate > 0 && align > 0
    ensures Scaled(size as real / (rate * align) as real, rate) == size as real / align as real
  {
    TotalTime(size, rate, align);
  }

  /** The numbers of a fmt body, and any extension of it. */
  datatype PcmFields = PcmFields(channels: nat, rate: nat, byteRate: nat, align: nat, bits: nat, more: seq<byte>)

  /** A fmt body of the canonical layout: format tag 1, channels, sample rate, byte rate, block align, bits per
      sample, and the extension. */
  function PcmFmt(w: PcmFields): (fmt: seq<byte>)
    ensures |fmt| == 16 + |w.more|
  {
    [1, 0] + LEBytes(w.channels, 2) + LEBytes(w.rate, 4) + LEBytes(w.byteRate, 4) + LEBytes(w.align, 2)
    + LEBytes(w.bits, 2) + w.more
  }

  /** The sample rate and the block align are read from their places. */
  lemma FmtFields(w: PcmFields)
    requires w.rate < Pow256(4) && w.align < Pow256(2)
    ensures SampleRate(PcmFmt(w)) == w.rate && BlockAlign(PcmFmt(w)) == w.align
  {
    var fmt := PcmFmt(w);
    hide LE, LEBytes, Pow256;
    assert fmt[4..8] == LEBytes(w.rate, 4) && fmt[12..14] == LEBytes(w.align, 2);
    LERoundTrip(w.rate, 4);
    LERoundTrip(w.align, 2);
  }

  /** A PCM file: its fmt chunk before its data chunk, among any others. */
  ghost predicate IsPcm(f: seq<byte>, sizeField: seq<byte>, before: seq<Chunk>, w: PcmFields, between: seq<Chunk>,
                        pcm: seq<byte>) {
    && |sizeField| == 4 && OtherChunks(before) && OtherChunks(between) && 0 < |pcm| < Pow256(4)
    && w.rate < Pow256(4) && w.align < Pow256(2) && |w.more| <= 1008
    && f == File(sizeField, EncodedAll(before) + (Encoded(Chunk(FMT, PcmFmt(w))) +
                                                  (EncodedAll(between) + (DATA + LEBytes(|pcm|, 4) + pcm))))
  }

  /** The response that holds these bytes of the data; None when there are none. */
  function PcmSlice(fmt: seq<byte>, pcm: seq<byte>, lo: nat, hi: nat): Option<Response>
    requires hi <= |pcm|
  {
    if lo < hi then Some(Response(28 + |fmt| + (hi - lo), Header(fmt, hi - lo) + pcm[lo..hi])) else None
  }

  /** The slice of a PCM file holds exactly the sample blocks from the one that plays at the start up to the one that
      plays at the end. */
  lemma SliceInSeconds(f: seq<byte>, sizeField: seq<byte>, before: seq<Chunk>, w: PcmFields, between: seq<Chunk>,
                       pcm: seq<byte>, startTime: real, duration: real, m: nat, e: nat)
    requires w.rate > 0 && w.align > 0 && startTime >= 0.0 && duration > 0.0
    requires BlocksAt(m, e, w.rate, |pcm| / w.align, startTime, duration)
    requires IsPcm(f, sizeField, before, w, between, pcm)
    ensures Blocks(e, w.align) <= |pcm|
    ensures Sliced(f, startTime, duration) == PcmSlice(PcmFmt(w), pcm, Blocks(m, w.align), Blocks(e, w.align))
  {
    hide *;
    var fmt := Chunk(FMT, PcmFmt(w));
    var dataAt := 12 + |EncodedAll(before)| + |Encoded(fmt)| + |EncodedAll(between)| + 8;
    PcmIs(f, sizeField, before, w, between, pcm);
    FindsFmtThenData(sizeField, before, fmt, between, |pcm|, pcm, f);
    FmtFields(w);
    BoundsAre(w.rate, w.align, |pcm|, startTime, duration, m, e);
    BlocksOrder(m, e, w.align);
    WithinWhole(m, e, w.rate, |pcm|, w.align, startTime, duration);
    PcmSliced(f, Layout(fmt.body, dataAt, |pcm|), pcm, w.rate, w.align, startTime, duration, Blocks(m, w.align),
              Blocks(e, w.align));
  }

  lemma PcmIs(f: seq<byte>, sizeField: seq<byte>, before: seq<Chunk>, w: PcmFields, between: seq<Chunk>, pcm: seq<byte>)
    requires IsPcm(f, sizeField, before, w, between, pcm)
    ensures |sizeField| == 4 && OtherChunks(before) && OtherChunks(between) && 0 < |pcm| < Pow256(4)
    ensures ValidFmt(Chunk(FMT, PcmFmt(w))) && w.rate < Pow256(4) && w.align < Pow256(2)
    ensures f == File(sizeField, EncodedAll(before) + (Encoded(Chunk(FMT, PcmFmt(w))) +
                                                       (EncodedAll(between) + (DATA + LEBytes(|pcm|, 4) + pcm))))
  {
    Small();
    NoChunks();
    hide OtherChunks, EncodedAll, Encoded, File, Ascii, LEBytes, Pow256;
  }

  lemma PcmSliced(f: seq<byte>, l: Layout, pcm: seq<byte>, rate: nat, align: nat, startTime: real, duration: real,
                  lo: nat, hi: nat)
    requires Parsed(f) == Some(l) && SampleRate(l.fmt) == rate > 0 && BlockAlign(l.fmt) == align > 0
    requires l.dataOffset <= |f| && f[l.dataOffset..] == pcm && l.dataSize == |pcm| > 0
    requires startTime >= 0.0 && duration > 0.0 && hi <= |pcm|
    requires Bounds(rate, align, |pcm|, startTime, duration) == if lo < hi then Some((lo, hi)) else None
    ensures Sliced(f, startTime, duration) == PcmSlice(l.fmt, pcm, lo, hi)
  {
    hide Parsed, SampleRate, BlockAlign, Bounds, Header, Copied;
    if lo < hi {
      CopiedFrom(f, l.dataOffset, pcm, lo, hi);
    }
  }

  lemma WithinWhole(m: nat, e: nat, rate: nat, size: nat, align: nat, startTime: real, duration: real)
    requires align > 0 && BlocksAt(m, e, rate, size / align, startTime, duration)
    ensures Blocks(e, align) <= size
  {
    EndInside(e, size, align);
  }

  lemma CopiedFrom(f: seq<byte>, offset: nat, pcm: seq<byte>, lo: nat, hi: nat)
    requires offset <= |f| && f[offset..] == pcm && lo < hi <= |pcm|
    ensures Copied(f, offset + lo, hi - lo) == pcm[lo..hi]
  {
    assert |f| == offset + |pcm|;
    assert f[offset..|f|] == pcm;
    SubSlice(f, offset, |f|, lo, hi);
  }

  /** How many whole sample blocks the data chunk holds. */
  function Whole(l: Layout): nat
    requires BlockAlign(l.fmt) > 0
  {
    l.dataSize / BlockAlign(l.fmt)
  }

  /** The response holding samples m to e. */
  function Cut(f: seq<byte>, l: Layout, align: nat, m: nat, e: nat): Response
    requires l.dataOffset + Blocks(e, align) <= |f| && Blocks(m, align) <= Blocks(e, align)
  {
    var size := Blocks(e, align) - Blocks(m, align);
    Response(28 + |l.fmt| + size,
             Header(l.fmt, size) + f[l.dataOffset + Blocks(m, align)..l.dataOffset + Blocks(e, align)])
  }

  /** The slice of n samples from sample m on, requested in seconds. */
  function SlicedAt(f: seq<byte>, rate: nat, m: nat, n: nat): Option<Response>
    requires rate > 0 && n > 0
  {
    AtExact(m, rate);
    AtPositive(n, rate);
    Sliced(f, At(m, rate), At(n, rate))
  }

  lemma AlignedSlice(f: seq<byte>, l: Layout, m: nat, n: nat)
    requires Parsed(f) == Some(l) && SampleRate(l.fmt) > 0 && BlockAlign(l.fmt) > 0 && l.dataSize > 0 && n > 0
    requires l.dataOffset + Blocks(Min(m + n, Whole(l)), BlockAlign(l.fmt)) <= |f|
    ensures var e := Min(m + n, Whole(l));
      (m < e ==> Blocks(m, BlockAlign(l.fmt)) <= Blocks(e, BlockAlign(l.fmt)))
      && SlicedAt(f, SampleRate(l.fmt), m, n) == if m < e then Some(Cut(f, l, BlockAlign(l.fmt), m, e)) else None
  {
    hide Bounds, At, Parsed, Header, SampleRate, BlockAlign, Blocks, Min;
    var rate, align := SampleRate(l.fmt), BlockAlign(l.fmt);
    AlignedBounds(rate, align, l.dataSize, m, n);
    BlocksOrder(m, Min(m + n, Whole(l)), align);
  }

  lemma SubSlice(f: seq<byte>, from: nat, to: nat, i: nat, j: nat)
    requires from <= to <= |f| && i <= j <= to - from
    ensures f[from..to][i..j] == f[from + i..from + j]
  {
    var a, b := f[from..to][i..j], f[from + i..from + j];
    assert |a| == |b|;
    assert forall k | 0 <= k < |a| :: a[k] == f[from + i + k];
  }

  lemma CutOfCut(f: seq<byte>, l: Layout, align: nat, m1: nat, e1: nat, m2: nat, e2: nat)
    requires m1 < e1 && m2 < e2 <= e1 - m1 && align > 0 && l.dataOffset + Blocks(e1, align) <= |f|
    ensures Blocks(m1, align) <= Blocks(e1, align) && Blocks(m2, align) <= Blocks(e2, align)
    ensures Blocks(m1 + m2, align) <= Blocks(m1 + e2, align)
    ensures var out := Cut(f, l, align, m1, e1).body;
      var l' := Layout(l.fmt, 28 + |l.fmt|, Blocks(e1, align) - Blocks(m1, align));
      && l'.dataOffset + Blocks(e2, align) <= |out| && l.dataOffset + Blocks(m1 + e2, align) <= |f|
      && Cut(out, l', align, m2, e2) == Cut(f, l, align, m1 + m2, m1 + e2)
  {
    hide Header;
    MulOrder(m1, e1, align);
    MulOrder(m2, e2, align);
    assert (e1 - m1) * align == e1 * align - m1 * align;
    MulOrder(e1 - m1, e2, align);
    assert (m1 + m2) * align == m1 * align + m2 * align && (m1 + e2) * align == m1 * align + e2 * align;
    var from, to := l.dataOffset + m1 * align, l.dataOffset + e1 * align;
    var out := Cut(f, l, align, m1, e1).body;
    SubSlice(f, from, to, m2 * align, e2 * align);
    SliceOfConcat(Header(l.fmt, e1 * align - m1 * align), f[from..to],
                  28 + |l.fmt| + m2 * align, 28 + |l.fmt| + e2 * align);
  }

  lemma FirstCut(f: seq<byte>, l: Layout, m: nat, n: nat, first: Response)
    requires Parsed(f) == Some(l) && l.dataOffset + l.dataSize <= |f|
    requires SampleRate(l.fmt) > 0 && BlockAlign(l.fmt) > 0 && l.dataSize > 0
    requires n > 0 && SlicedAt(f, SampleRate(l.fmt), m, n) == Some(first)
    ensures var e := Min(m + n, Whole(l));
      && m < e && Blocks(e, BlockAlign(l.fmt)) <= l.dataSize &&
        Blocks(m, BlockAlign(l.fmt)) <= Blocks(e, BlockAlign(l.fmt))
      && first == Cut(f, l, BlockAlign(l.fmt), m, e)
  {
    hide *;
    BlocksInside(l, m + n);
    AlignedSlice(f, l, m, n);
  }

  /** Where the sum of the two requests ends. */
  lemma SumCut(f: seq<byte>, l: Layout, m: nat, n: nat, e: nat)
    requires Parsed(f) == Some(l) && l.dataOffset + l.dataSize <= |f|
    requires SampleRate(l.fmt) > 0 && BlockAlign(l.fmt) > 0 && l.dataSize > 0
    requires n > 0 && e == Min(m + n, Whole(l))
    ensures m < e ==>
      Blocks(m, BlockAlign(l.fmt)) <= Blocks(e, BlockAlign(l.fmt)) && l.dataOffset + Blocks(e, BlockAlign(l.fmt)) <= |f|
    ensures SlicedAt(f, SampleRate(l.fmt), m, n) == if m < e then Some(Cut(f, l, BlockAlign(l.fmt), m, e)) else None
  {
    hide *;
    BlocksInside(l, m + n);
    AlignedSlice(f, l, m, n);
  }

  /** Slicing a slice at sample-aligned times is one slice at the summed offset, no longer than either allows. */
  lemma SliceOfSlice(f: seq<byte>, l: Layout, m1: nat, n1: nat, m2: nat, n2: nat, first: Response)
    requires Parsed(f) == Some(l) && l.dataOffset + l.dataSize <= |f| && |l.fmt| % 2 == 0
    requires SampleRate(l.fmt) > 0 && BlockAlign(l.fmt) > 0 && l.dataSize > 0
    requires m2 < n1 && n2 > 0 && SlicedAt(f, SampleRate(l.fmt), m1, n1) == Some(first)
    ensures SlicedAt(first.body, SampleRate(l.fmt), m2, n2) == SlicedAt(f, SampleRate(l.fmt), m1 + m2, Min(n2, n1 - m2))
  {
    hide *;
    ParsedFmt(f, l);
    FirstCut(f, l, m1, n1, first);
    EndsAgree(m1, n1, m2, n2, Whole(l));
    SecondCut(f, l, m1, Min(m1 + n1, Whole(l)), m2, n2);
    SumCut(f, l, m1 + m2, Min(n2, n1 - m2), m1 + Min(m2 + n2, Min(m1 + n1, Whole(l)) - m1));
  }

  lemma BlocksInside(l: Layout, k: nat)
    requires BlockAlign(l.fmt) > 0
    ensures Blocks(Min(k, Whole(l)), BlockAlign(l.fmt)) <= l.dataSize
  {
    EndInside(k, l.dataSize, BlockAlign(l.fmt));
  }

  lemma EndsAgree(m1: int, n1: int, m2: int, n2: int, blocks: int)
    ensures Min(m1 + m2 + Min(n2, n1 - m2), blocks) == m1 + Min(m2 + n2, Min(m1 + n1, blocks) - m1)
  {
  }

  lemma SecondCut(f: seq<byte>, l: Layout, m1: nat, e1: nat, m2: nat, n2: nat)
    requires Parsed(f) == Some(l) && SampleRate(l.fmt) > 0 && BlockAlign(l.fmt) > 0 && 16 <= |l.fmt| <= 1024 &&
      |l.fmt| % 2 == 0
    requires m1 < e1 && Blocks(e1, BlockAlign(l.fmt)) <= l.dataSize < Pow256(4) &&
      l.dataOffset + l.dataSize <= |f| && n2 > 0
    ensures var align := BlockAlign(l.fmt);
      var e2 := Min(m2 + n2, e1 - m1);
      && Blocks(m1, align) <= Blocks(e1, align)
      && (m2 < e2 ==> Blocks(m1 + m2, align) <= Blocks(m1 + e2, align) && l.dataOffset + Blocks(m1 + e2, align) <= |f|)
      && SlicedAt(Cut(f, l, align, m1, e1).body, SampleRate(l.fmt), m2, n2)
         == if m2 < e2 then Some(Cut(f, l, align, m1 + m2, m1 + e2)) else None
  {
    hide Walk, Parsed, Sliced, SlicedAt, Header, At, SampleRate, BlockAlign;
    var rate, align := SampleRate(l.fmt), BlockAlign(l.fmt);
    var e2 := Min(m2 + n2, e1 - m1);
    MulOrder(m1, e1, align);
    var size1 := Blocks(e1, align) - Blocks(m1, align);
    assert size1 == align * (e1 - m1) + 0;
    var pcm := f[l.dataOffset + Blocks(m1, align)..l.dataOffset + Blocks(e1, align)];
    OutputParses(l.fmt, size1, pcm);
    ModIs(size1, align, e1 - m1, 0);
    EndInside(m2 + n2, size1, align);
    AlignedSlice(Header(l.fmt, size1) + pcm, Layout(l.fmt, 28 + |l.fmt|, size1), m2, n2);
    if m2 < e2 {
      CutOfCut(f, l, align, m1, e1, m2, e2);
    }
  }
}
