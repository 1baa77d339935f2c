/** Slicing FLAC files along their seek table. */
module Flac {
  import opened Bytes
  import opened Reals
  import opened Options

  const MARKER := Ascii("fLaC")
  const TWO63 := 0x8000_0000_0000_0000
  const TWO64 := 0x1_0000_0000_0000_0000
  const PLACEHOLDER := TWO64 - 1

  /** A seek point: a sample number and the byte offset of its frame from the first frame. */
  datatype Point = Point(sample: nat, offset: nat)

  datatype Meta = Meta(streamInfo: seq<byte>, points: seq<Point>, audioStart: nat)

  function Points(body: seq<byte>, n: nat): (ps: seq<Point>)
    requires 18 * n <= |body|
    ensures |ps| == n
  {
    seq(n, i requires 0 <= i < n => Point(BE(body[18 * i..18 * i + 8]), BE(body[18 * i + 8..18 * i + 16])))
  }

  /** What one block header and body leave behind, and where the file is read next. */
  datatype Turn = Turn(last: bool, next: nat, len: nat, streamInfo: seq<byte>, points: seq<Point>)

  function BlockAt(f: seq<byte>, cur: nat, streamInfo: seq<byte>, points: seq<Point>): (t: Option<Turn>)
    ensures t.Some? ==> cur + 4 <= |f| && cur + 4 <= t.value.next
    ensures t.Some? && |streamInfo| in {0, 34} ==> |t.value.streamInfo| in {0, 34}
  {
    if cur + 4 > |f| then None
    else
      var last, kind, len := f[cur] >= 128, f[cur] % 128, BE(f[cur + 1..cur + 4]);
      var body := cur + 4;
      if kind == 0 then
        if len != 34 || body + 34 > |f| then None else Some(Turn(last, body + 34, len, f[body..body + 34], points))
      else if kind == 3 then
        var end := body + 18 * (len / 18);
        if end > |f| then None else Some(Turn(last, end, len, streamInfo, Points(f[body..end], len / 18)))
      else Some(Turn(last, body + len, len, streamInfo, points))
  }

  /** The metadata walk.  `cur` is where the file is read and `pos` the running sum of block lengths: a seek table is
      read entry by entry, so a length that is no multiple of 18 makes the two differ. */
  function Walk(f: seq<byte>, cur: nat, pos: nat, streamInfo: seq<byte>, points: seq<Point>): Option<Meta>
    decreases |f| - cur
  {
    match BlockAt(f, cur, streamInfo, points)
    case None => None
    case Some(t) =>
      var end := pos + 4 + t.len;
      if t.last then Some(Meta(t.streamInfo, t.points, end)) else Walk(f, t.next, end, t.streamInfo, t.points)
  }

  function Parsed(f: seq<byte>): Option<Meta> {
    if |f| < 4 || f[..4] != MARKER then None else Walk(f, 4, 4, [], [])
  }

  /** The entries of a seek table, read one at a time. */
  method ReadTable(f: seq<byte>, start: nat, n: nat) returns (r: Option<seq<Point>>)
    requires start <= |f|
    ensures r == if start + 18 * n <= |f| then Some(Points(f[start..start + 18 * n], n)) else None
  {
    var table: seq<Point>, cur := [], start;
    for i := 0 to n
      invariant cur == start + 18 * i <= |f| && table == Points(f[start..cur], i)
    {
      if cur + 18 > |f| {
        return None;
      }
      var sp := f[cur..cur + 18];
      PointsSnoc(f[start..cur + 18], i);
      assert f[start..cur + 18][..18 * i] == f[start..cur];
      assert sp[0..8] == f[start..cur + 18][18 * i..18 * i + 8];
      assert sp[8..16] == f[start..cur + 18][18 * i + 8..18 * i + 16];
      table := table + [Point(BE(sp[0..8]), BE(sp[8..16]))];
      cur := cur + 18;
    }
    return Some(table);
  }

  /** One round of the metadata loop. */
  method ReadBlockAt(f: seq<byte>, start: nat, streamInfo: seq<byte>, points: seq<Point>) returns (r: Option<Turn>)
    ensures r == BlockAt(f, start, streamInfo, points)
  {
    var cur := start;
    if cur + 4 > |f| {
      return None;
    }
    var last, kind, len := f[cur] >= 128, f[cur] % 128, BE(f[cur + 1..cur + 4]);
    cur := cur + 4;
    if kind == 0 {
      if len != 34 || cur + 34 > |f| {
        return None;
      }
      return Some(Turn(last, cur + 34, len, f[cur..cur + 34], points));
    }
    if kind == 3 {
      var table := ReadTable(f, cur, len / 18);
      if table.None? {
        return None;
      }
      return Some(Turn(last, cur + 18 * (len / 18), len, streamInfo, table.value));
    }
    return Some(Turn(last, cur + len, len, streamInfo, points));
  }

  method Parse(f: seq<byte>) returns (r: Option<Meta>)
    ensures r == Parsed(f)
  {
    if |f| < 4 || f[..4] != MARKER {
      return None;
    }
    hide BlockAt;
    var streamInfo: seq<byte>, points: seq<Point> := [], [];
    var cur: nat, pos: nat, last := 4, 4, false;
    while !last
      invariant !last ==> Parsed(f) == Walk(f, cur, pos, streamInfo, points)
      invariant last ==> Parsed(f) == Some(Meta(streamInfo, points, pos))
      decreases !last, |f| - cur
    {
      var block := ReadBlockAt(f, cur, streamInfo, points);
      if block.None? {
        return None;
      }
      var Turn(isLast, next, len, si, table) := block.value;
      last, cur, pos, streamInfo, points := isLast, next, pos + 4 + len, si, table;
    }
    return Some(Meta(streamInfo, points, pos));
  }

  /** A seek table entry (section 8.5 of RFC 9639): sample number, offset, number of samples. */
  function EncodedPoint(p: Point, samples: nat): seq<byte> {
    BEBytes(p.sample, 8) + BEBytes(p.offset, 8) + BEBytes(samples, 2)
  }

  function EncodedPoints(ps: seq<Point>, samples: nat): (s: seq<byte>)
    ensures |s| == 18 * |ps|
  {
    if ps == [] then [] else EncodedPoints(ps[..|ps| - 1], samples) + EncodedPoint(ps[|ps| - 1], samples)
  }

  /** An encoded seek table reads as its entries. */
  lemma {:induction false} PointsRoundTrip(ps: seq<Point>, samples: nat)
    requires forall i | 0 <= i < |ps| :: ps[i].sample < TWO64 && ps[i].offset < TWO64
    ensures Points(EncodedPoints(ps, samples), |ps|) == ps
  {
    if ps != [] {
      var n := |ps| - 1;
      PointsRoundTrip(ps[..n], samples);
      var p, body := ps[n], EncodedPoints(ps, samples);
      PointsSnoc(body, n);
      assert Pow256(8) == TWO64;
      hide BE, BEBytes, Pow256, Points;
      assert body[18 * n..18 * n + 8] == BEBytes(p.sample, 8);
      assert body[18 * n + 8..18 * n + 16] == BEBytes(p.offset, 8);
      assert body[..18 * n] == EncodedPoints(ps[..n], samples);
      BERoundTrip(p.sample, 8);
      BERoundTrip(p.offset, 8);
    }
  }

  lemma PointsSnoc(body: seq<byte>, n: nat)
    requires 18 * (n + 1) <= |body|
    ensures Points(body, n + 1) ==
      Points(body[..18 * n], n) + [Point(BE(body[18 * n..18 * n + 8]), BE(body[18 * n + 8..18 * n + 16]))]
  {
    var prefix := body[..18 * n];
    forall i | 0 <= i < n
      ensures prefix[18 * i..18 * i + 8] == body[18 * i..18 * i + 8]
      ensures prefix[18 * i + 8..18 * i + 16] == body[18 * i + 8..18 * i + 16]
    {
    }
  }

  /* ---------------- choosing among the seek points ---------------- */

  /** seekPointFloor as a fold: the offset of the last point at or before the target, stopping at the first after it. */
  function FloorFrom(points: seq<Point>, target: nat, best: nat): nat {
    if points == [] then best
    else if points[0].sample == PLACEHOLDER then FloorFrom(points[1..], target, best)
    else if points[0].sample <= target then FloorFrom(points[1..], target, points[0].offset)
    else best
  }

  /** The offset of the first point after the target, if any. */
  function CeilFrom(points: seq<Point>, target: nat): Option<nat> {
    if points == [] then None
    else if points[0].sample != PLACEHOLDER && points[0].sample > target then Some(points[0].offset)
    else CeilFrom(points[1..], target)
  }

  method SeekPointFloor(points: seq<Point>, target: nat) returns (best: nat)
    ensures best == FloorFrom(points, target, 0)
  {
    best := 0;
    for i := 0 to |points|
      invariant FloorFrom(points, target, 0) == FloorFrom(points[i..], target, best)
    {
      assert points[i..][1..] == points[i + 1..];
      if points[i].sample == PLACEHOLDER {
        continue;
      }
      if points[i].sample <= target {
        best := points[i].offset;
      } else {
        break;
      }
    }
  }

  method SeekPointCeil(points: seq<Point>, target: nat, audioSize: int) returns (offset: int)
    ensures offset == match CeilFrom(points, target) case Some(o) => o case None => audioSize
  {
    for i := 0 to |points|
      invariant CeilFrom(points, target) == CeilFrom(points[i..], target)
    {
      assert points[i..][1..] == points[i + 1..];
      if points[i].sample == PLACEHOLDER {
        continue;
      }
      if points[i].sample > target {
        return points[i].offset;
      }
    }
    return audioSize;
  }

  /* ---------------- the slice ---------------- */

  /** A response; `Broken` is a failing seek after the headers went out, `Fallback` serves the whole file. */
  datatype Response = Fallback | Sent(contentLength: nat, body: seq<byte>) | Broken

  /** Conversion of an unsigned 64-bit value to a signed one, and signed wrap-around. */
  function Signed(x: int): int {
    (x + TWO63) % TWO64 - TWO63
  }

  function Rate(si: seq<byte>): nat
    requires |si| == 34
  {
    BE(si[10..12]) * 16 + si[12] / 16
  }

  function TotalSamples(si: seq<byte>): nat
    requires |si| == 34
  {
    (si[13] % 16) as int * 0x1_0000_0000 + BE(si[14..18])
  }

  /** STREAMINFO packs 20 bits of sample rate, 8 bits of format and 36 bits of sample count into eight bytes (section
      8.2 of RFC 9639). */
  lemma StreamInfoFields(si: seq<byte>, rate: nat, format: nat, total: nat)
    requires |si| == 34 && rate < 0x10_0000 && format < 0x100 && total < 0x10_0000_0000
    requires BE(si[10..18]) == (rate * 0x100 + format) * 0x10_0000_0000 + total
    ensures Rate(si) == rate && TotalSamples(si) == total
  {
    EightBytes(si);
    hide BE;
    PackedFields(BE(si[10..12]), si[12], si[13], BE(si[14..18]), rate, format, total);
  }

  lemma EightBytes(si: seq<byte>)
    requires |si| == 34
    ensures BE(si[10..18]) == (BE(si[10..12]) * 0x1_0000 + si[12] as int * 256 + si[13] as int) * 0x1_0000_0000 +
      BE(si[14..18])
    ensures BE(si[10..12]) < 0x1_0000 && BE(si[14..18]) < 0x1_0000_0000
  {
    assert Pow256(2) == 0x1_0000 && Pow256(4) == 0x1_0000_0000;
    hide BE, Pow256;
    BESplit(si[10..14], si[14..18]);
    BESplit(si[10..12], si[12..14]);
    BEBound(si[14..18]);
    BEBound(si[10..12]);
    TwoBytes(si, 12);
    assert si[10..14] + si[14..18] == si[10..18] && si[10..12] + si[12..14] == si[10..14];
  }

  lemma TwoBytes(s: seq<byte>, i: nat)
    requires i + 2 <= |s|
    ensures BE(s[i..i + 2]) == s[i] as int * 256 + s[i + 1] as int
  {
    var t := s[i..i + 2];
    assert t[..1][..0] == [] && t[..|t| - 1] == t[..1] && BE(t[..1]) == t[0] as int;
  }

  lemma PackedFields(a: nat, b: byte, c: byte, low: nat, rate: nat, format: nat, total: nat)
    requires rate < 0x10_0000 && format < 0x100 && total < 0x10_0000_0000 && low < 0x1_0000_0000 && a < 0x1_0000
    requires (a * 0x1_0000 + b as int * 256 + c as int) * 0x1_0000_0000 + low == (rate * 0x100 +
      format) * 0x10_0000_0000 + total
    ensures a * 16 + b as int / 16 == rate && c as int % 16 * 0x1_0000_0000 + low == total
  {
    var b1, b0, c1, c0 := b as int / 16, b as int % 16, c as int / 16, c as int % 16;
    assert b as int == 16 * b1 + b0 && c as int == 16 * c1 + c0;
  }

  lemma {:induction false} BESplit(a: seq<byte>, b: seq<byte>)
    ensures BE(a + b) == BE(a) * Pow256(|b|) + BE(b)
  {
    if b == [] {
      assert a + b == a;
    } else {
      var n := |b| - 1;
      BESplit(a, b[..n]);
      assert (a + b)[..|a + b| - 1] == a + b[..n];
      Shifted(BE(a), Pow256(n));
    }
  }

  lemma Shifted(x: nat, p: nat)
    ensures x * p * 256 == x * (256 * p)
  {
  }

  function MinReal(a: real, b: real): real {
    if a > b then b else a
  }

  /** First and last sample asked for; None when the range is empty. */
  function SampleRange(rate: nat, total: nat, startTime: real, duration: real): (r: Option<(nat, nat)>)
    requires rate > 0 && startTime >= 0.0 && duration > 0.0
    ensures r.Some? ==> r.value.0 <= r.value.1 <= total
  {
    var endTime := MinReal(startTime + duration, total as real / rate as real);
    if startTime >= endTime then None
    else
      SamplesInOrder(rate, total, startTime, endTime);
      Some(((startTime * rate as real).Floor, (endTime * rate as real).Floor))
  }

  lemma SamplesInOrder(rate: nat, total: nat, startTime: real, endTime: real)
    requires rate > 0 && 0.0 <= startTime <= endTime <= total as real / rate as real
    ensures 0 <= (startTime * rate as real).Floor <= (endTime * rate as real).Floor <= total
  {
    var r := rate as real;
    assert total as real / r * r == total as real;
    ScaleOrder(startTime, endTime, r);
    ScaleOrder(endTime, total as real / r, r);
  }

  /** The range is empty when the start is behind the last sample.  Otherwise it goes from the sample that plays at
      the start to the one that plays at the end, or to the number of samples if that is less. */
  lemma SampleRangeIs(rate: nat, total: nat, startTime: real, duration: real)
    requires rate > 0 && startTime >= 0.0 && duration > 0.0
    ensures var r, start := SampleRange(rate, total, startTime, duration), Scaled(startTime, rate);
      var end := Scaled(startTime + duration, rate);
      && (r.None? <==> start >= total as real)
      && (r.Some? ==>
           && r.value.0 as real <= start < r.value.0 as real + 1.0
           && r.value.1 <= total && r.value.1 as real <= end
           && (end < r.value.1 as real + 1.0 || r.value.1 == total))
  {
    var length := total as real / rate as real;
    RangeUnfolds(rate, total, startTime, duration);
    ScaledOrder(startTime, length, rate);
    ScaledOrder(startTime + duration, length, rate);
    LengthScaled(total, rate);
    hide SampleRange, Scaled;
  }

  lemma LengthScaled(total: nat, rate: nat)
    requires rate > 0
    ensures Scaled(total as real / rate as real, rate) == total as real
  {
  }

  lemma RangeUnfolds(rate: nat, total: nat, startTime: real, duration: real)
    requires rate > 0 && startTime >= 0.0 && duration > 0.0
    ensures var r, length := SampleRange(rate, total, startTime, duration), total as real / rate as real;
      var endTime := if startTime + duration > length then length else startTime + duration;
      && (r.None? <==> startTime >= endTime)
      && (r.Some? ==>
           r.value.0 == Scaled(startTime, rate).Floor && r.value.1 == Scaled(endTime, rate).Floor <= total)
  {
  }

  lemma ScaleOrder(x: real, y: real, r: real)
    requires r > 0.0
    ensures x <= y ==> x * r <= y * r
    ensures x < y ==> x * r < y * r
  {
    if x <= y {
      assert (y - x) * r >= 0.0;
      assert x < y ==> (y - x) * r > 0.0;
    }
  }

  function HeaderBytes(si: seq<byte>): seq<byte> {
    MARKER + [0x80, 0, 0, 34] + si
  }

  /** What is sent for a byte range relative to the first frame. */
  function Send(f: seq<byte>, m: Meta, startOffset: int, endOffset: int): Response {
    var absStart := Signed(m.audioStart + startOffset);
    var absEnd := if Signed(m.audioStart + endOffset) > |f| then |f| else Signed(m.audioStart + endOffset);
    if absStart >= absEnd then Fallback
    else if absStart < 0 then Broken
    else Sent(42 + (absEnd - absStart), HeaderBytes(m.streamInfo) + f[absStart..absEnd])
  }

  /** sliceFLAC */
  method Slice(f: seq<byte>, startTime: real, duration: real) returns (r: Response)
    requires startTime >= 0.0 && duration > 0.0
    ensures r == Sliced(f, startTime, duration)
  {
    var parsed := Parse(f);
    if parsed.None? || parsed.value.streamInfo == [] || |parsed.value.points| == 0 {
      return Fallback;
    }
    var m := parsed.value;
    StreamInfoLength(f);
    var sampleRate := Rate(m.streamInfo);
    if sampleRate == 0 {
      return Fallback;
    }
    var range := SampleRange(sampleRate, TotalSamples(m.streamInfo), startTime, duration);
    if range.None? {
      return Fallback;
    }
    var audioSize := |f| - m.audioStart;
    var startOffset := SeekPointFloor(m.points, range.value.0);
    var endOffset := SeekPointCeil(m.points, range.value.1, audioSize);
    return Send(f, m, Signed(startOffset), Signed(endOffset));
  }

  function EndOffset(points: seq<Point>, target: nat, audioSize: int): int {
    match CeilFrom(points, target)
    case Some(o) => o
    case None => audioSize
  }

  function Sliced(f: seq<byte>, startTime: real, duration: real): Response
    requires startTime >= 0.0 && duration > 0.0
  {
    match Parsed(f)
    case None => Fallback
    case Some(m) =>
      if m.streamInfo == [] || m.points == [] then Fallback
      else
        StreamInfoLength(f);
        var rate := Rate(m.streamInfo);
        if rate == 0 then Fallback
        else
          match SampleRange(rate, TotalSamples(m.streamInfo), startTime, duration)
          case None => Fallback
          case Some((first, last)) =>
            Send(f, m, Signed(FloorFrom(m.points, first, 0)), Signed(EndOffset(m.points, last, |f| - m.audioStart)))
  }

  lemma {:induction false} WalkStreamInfo(f: seq<byte>, cur: nat, pos: nat, streamInfo: seq<byte>, points: seq<Point>)
    requires |streamInfo| in {0, 34}
    ensures var r := Walk(f, cur, pos, streamInfo, points); r.Some? ==> |r.value.streamInfo| in {0, 34}
    decreases |f| - cur
  {
    hide BlockAt;
    var block := BlockAt(f, cur, streamInfo, points);
    if block.Some? && !block.value.last {
      var t := block.value;
      WalkStreamInfo(f, t.next, pos + 4 + t.len, t.streamInfo, t.points);
    }
  }

  lemma StreamInfoLength(f: seq<byte>)
    ensures Parsed(f).Some? && Parsed(f).value.streamInfo != [] ==> |Parsed(f).value.streamInfo| == 34
  {
    WalkStreamInfo(f, 4, 4, [], []);
  }

  /** Whatever the file, a response that is sent is as long as its Content-Length says. */
  lemma LengthAgrees(f: seq<byte>, startTime: real, duration: real)
    requires startTime >= 0.0 && duration > 0.0
    ensures var r := Sliced(f, startTime, duration); r.Sent? ==> |r.body| == r.contentLength
  {
    StreamInfoLength(f);
    hide Walk, SampleRange, FloorFrom, CeilFrom, Signed;
  }

  /* ---------------- well-formed files ---------------- */

  datatype Block = Block(kind: nat, body: seq<byte>)

  ghost predicate ValidBlock(b: Block) {
    b.kind < 128 && |b.body| < Pow256(3) && (b.kind == 0 ==> |b.body| == 34) && (b.kind == 3 ==> |b.body| % 18 == 0)
  }

  ghost predicate ValidBlocks(bs: seq<Block>) {
    forall b | b in bs :: ValidBlock(b)
  }

  function EncodedBlock(b: Block, last: bool): seq<byte> {
    [b.kind % 128 + if last then 128 else 0] + BEBytes(|b.body|, 3) + b.body
  }

  /** The blocks with the last one flagged. */
  function EncodedBlocks(bs: seq<Block>): seq<byte> {
    if bs == [] then []
    else EncodedBlock(bs[0], |bs| == 1) + EncodedBlocks(bs[1..])
  }

  /** The body of the last block of a kind, or a default. */
  function LastOf(bs: seq<Block>, kind: nat, default: seq<byte>): seq<byte> {
    if bs == [] then default
    else LastOf(bs[1..], kind, if bs[0].kind == kind then bs[0].body else default)
  }

  function Table(body: seq<byte>): seq<Point> {
    Points(body[..18 * (|body| / 18)], |body| / 18)
  }

  lemma ReadBlock(f: seq<byte>, cur: nat, b: Block, last: bool, rest: seq<byte>)
    requires ValidBlock(b) && cur <= |f| && f[cur..] == EncodedBlock(b, last) + rest
    ensures cur + 4 + |b.body| <= |f| && f[cur] % 128 == b.kind && (f[cur] >= 128 <==> last)
    ensures BE(f[cur + 1..cur + 4]) == |b.body| && f[cur + 4..cur + 4 + |b.body|] == b.body
    ensures f[cur + 4 + |b.body|..] == rest
  {
    BERoundTrip(|b.body|, 3);
    var e := EncodedBlock(b, last) + rest;
    assert e[0] == f[cur] && e[1..4] == BEBytes(|b.body|, 3) && e[4..4 + |b.body|] == b.body &&
      e[4 + |b.body|..] == rest;
    assert f[cur + 1..cur + 4] == e[1..4] && f[cur + 4..cur + 4 + |b.body|] == e[4..4 + |b.body|];
  }

  /** On encoded blocks the walk ends at the first frame with the last STREAMINFO and the last seek table. */
  lemma {:induction false} WalkBlocks(f: seq<byte>, cur: nat, bs: seq<Block>, audio: seq<byte>, si: seq<byte>,
                                      table: seq<byte>)
    requires bs != [] && ValidBlocks(bs) && cur <= |f| && f[cur..] == EncodedBlocks(bs) + audio && |table| % 18 == 0
    ensures cur + |EncodedBlocks(bs)| <= |f| && f[cur + |EncodedBlocks(bs)|..] == audio
    ensures Walk(f, cur, cur, si, Table(table)) ==
      Some(Meta(LastOf(bs, 0, si), Table(LastOf(bs, 3, table)), cur + |EncodedBlocks(bs)|))
    decreases bs
  {
    hide *;
    var b, last := bs[0], |bs| == 1;
    FrontBlock(bs);
    var rest, next := EncodedBlocks(bs[1..]) + audio, cur + 4 + |b.body|;
    assert f[cur..] == EncodedBlock(b, last) + rest;
    EncodedLength(b, last);
    ReadBlock(f, cur, b, last, rest);
    WalkOneBlock(f, cur, b, last, si, Table(table));
    var si', table' := if b.kind == 0 then b.body else si, if b.kind == 3 then b.body else table;
    LastUnfolds(bs, 0, si);
    LastUnfolds(bs, 3, table);
    if !last {
      WalkBlocks(f, next, bs[1..], audio, si', table');
    }
  }

  lemma FrontBlock(bs: seq<Block>)
    requires bs != [] && ValidBlocks(bs)
    ensures var b := bs[0]; ValidBlock(b) && (b.kind == 3 ==> |b.body| % 18 == 0) && ValidBlocks(bs[1..])
    ensures EncodedBlocks(bs) == EncodedBlock(bs[0], |bs| == 1) + EncodedBlocks(bs[1..])
    ensures |bs| == 1 ==> EncodedBlocks(bs[1..]) == []
  {
    assert bs[0] in bs;
    hide EncodedBlock;
  }

  lemma EncodedLength(b: Block, last: bool)
    ensures |EncodedBlock(b, last)| == 4 + |b.body|
  {
  }

  lemma LastUnfolds(bs: seq<Block>, kind: nat, default: seq<byte>)
    requires bs != []
    ensures var d := if bs[0].kind == kind then bs[0].body else default;
      LastOf(bs, kind, default) == if |bs| == 1 then d else LastOf(bs[1..], kind, d)
  {
  }

  lemma WholeTable(f: seq<byte>, start: nat, body: seq<byte>)
    requires start + |body| <= |f| && f[start..start + |body|] == body && |body| % 18 == 0
    ensures 18 * (|body| / 18) == |body| && body[..|body|] == body
  {
  }

  lemma WalkOneBlock(f: seq<byte>, cur: nat, b: Block, last: bool, si: seq<byte>, points: seq<Point>)
    requires ValidBlock(b) && cur + 4 + |b.body| <= |f| && f[cur] % 128 == b.kind && (f[cur] >= 128 <==> last)
    requires BE(f[cur + 1..cur + 4]) == |b.body| && f[cur + 4..cur + 4 + |b.body|] == b.body
    ensures var next := cur + 4 + |b.body|;
      var si' := if b.kind == 0 then b.body else si;
      var points' := if b.kind == 3 then Table(b.body) else points;
      Walk(f, cur, cur, si, points) ==
        if last then Some(Meta(si', points', next)) else Walk(f, next, next, si', points')
  {
    TakesBlock(f, cur, b, last, si, points);
    hide BlockAt, Table, BE;
  }

  lemma TakesBlock(f: seq<byte>, cur: nat, b: Block, last: bool, si: seq<byte>, points: seq<Point>)
    requires ValidBlock(b) && cur + 4 + |b.body| <= |f| && f[cur] % 128 == b.kind && (f[cur] >= 128 <==> last)
    requires BE(f[cur + 1..cur + 4]) == |b.body| && f[cur + 4..cur + 4 + |b.body|] == b.body
    ensures BlockAt(f, cur, si, points) == Some(Turn(last, cur + 4 + |b.body|, |b.body|,
      if b.kind == 0 then b.body else si, if b.kind == 3 then Table(b.body) else points))
  {
    if b.kind == 3 {
      WholeTable(f, cur + 4, b.body);
    }
    hide BE, Points;
  }

  /* ---------------- frames ---------------- */

  datatype Frame = Frame(bytes: seq<byte>, samples: nat)

  ghost predicate ValidFrames(frames: seq<Frame>) {
    forall k | 0 <= k < |frames| :: frames[k].bytes != [] && frames[k].samples > 0
  }

  function Audio(frames: seq<Frame>): seq<byte> {
    if frames == [] then [] else Audio(frames[..|frames| - 1]) + frames[|frames| - 1].bytes
  }

  /** Number of the first sample of frame k. */
  function SampleAt(frames: seq<Frame>, k: nat): nat
    requires k <= |frames|
  {
    if k == 0 then 0 else SampleAt(frames, k - 1) + frames[k - 1].samples
  }

  /** Byte offset of frame k from the first frame. */
  function ByteAt(frames: seq<Frame>, k: nat): nat
    requires k <= |frames|
  {
    if k == 0 then 0 else ByteAt(frames, k - 1) + |frames[k - 1].bytes|
  }

  lemma {:induction false} SamplesRise(frames: seq<Frame>, i: nat, j: nat)
    requires ValidFrames(frames) && i <= j <= |frames|
    ensures SampleAt(frames, i) <= SampleAt(frames, j) && ByteAt(frames, i) <= ByteAt(frames, j)
    ensures i < j ==> SampleAt(frames, i) < SampleAt(frames, j) && ByteAt(frames, i) < ByteAt(frames, j)
  {
    if i < j {
      SamplesRise(frames, i, j - 1);
    }
  }

  lemma {:induction false} AudioUpTo(frames: seq<Frame>, k: nat)
    requires k <= |frames|
    ensures |Audio(frames[..k])| == ByteAt(frames, k)
  {
    if k > 0 {
      AudioUpTo(frames, k - 1);
      assert frames[..k][..k - 1] == frames[..k - 1];
    }
  }

  lemma AudioSnoc(a: seq<Frame>, x: Frame)
    ensures Audio(a + [x]) == Audio(a) + x.bytes
  {
    assert (a + [x])[..|a|] == a;
  }

  lemma {:induction false} AudioAppend(a: seq<Frame>, b: seq<Frame>)
    ensures Audio(a + b) == Audio(a) + Audio(b)
  {
    if b == [] {
      assert a + b == a;
    } else {
      hide Audio;
      var init, x := b[..|b| - 1], b[|b| - 1];
      AudioAppend(a, init);
      AudioSnoc(a + init, x);
      AudioSnoc(init, x);
      assert a + b == a + init + [x] && b == init + [x];
    }
  }

  /** Cutting the audio at two frame offsets gives the frames in between. */
  lemma AudioBetween(frames: seq<Frame>, i: nat, j: nat)
    requires ValidFrames(frames) && i <= j <= |frames|
    ensures ByteAt(frames, i) <= ByteAt(frames, j) <= |Audio(frames)|
    ensures Audio(frames)[ByteAt(frames, i)..ByteAt(frames, j)] == Audio(frames[i..j])
  {
    SamplesRise(frames, i, j);
    AudioUpTo(frames, i);
    AudioUpTo(frames, j);
    assert frames == frames[..i] + frames[i..j] + frames[j..];
    AudioAppend(frames[..i] + frames[i..j], frames[j..]);
    AudioAppend(frames[..i], frames[i..j]);
    assert frames[..i] + frames[i..j] == frames[..j];
  }

  /* ---------------- seek tables of such files ---------------- */

  predicate Real(p: Point) {
    p.sample != 0xFFFF_FFFF_FFFF_FFFF
  }

  ghost predicate OnFrame(p: Point, frames: seq<Frame>, k: nat) {
    k < |frames| && p.sample == SampleAt(frames, k) && p.offset == ByteAt(frames, k)
  }

  /** Every seek point is a placeholder or names the first sample and the offset of a frame. */
  ghost predicate PointsAtFrames(points: seq<Point>, frames: seq<Frame>) {
    forall i | 0 <= i < |points| && Real(points[i]) :: exists k :: OnFrame(points[i], frames, k)
  }

  /** Sorted by sample number, placeholders anywhere. */
  ghost predicate SortedPoints(points: seq<Point>) {
    forall i, j | 0 <= i < j < |points| && Real(points[i]) && Real(points[j]) :: points[i].sample <= points[j].sample
  }

  lemma SortedTail(points: seq<Point>, frames: seq<Frame>)
    requires points != [] && SortedPoints(points) && PointsAtFrames(points, frames)
    ensures SortedPoints(points[1..]) && PointsAtFrames(points[1..], frames)
    ensures Real(points[0]) ==>
      forall j | 0 <= j < |points[1..]| && Real(points[1..][j]) :: points[0].sample <= points[1..][j].sample
  {
  }

  /** Offset o is that of frame k, the last one with a seek point at or before the target. */
  ghost predicate LastAtOrBefore(points: seq<Point>, frames: seq<Frame>, target: nat, k: nat) {
    && k < |frames| && SampleAt(frames, k) <= target
    && forall i | 0 <= i < |points| && Real(points[i]) && points[i].sample <= target ::
      points[i].sample <= SampleAt(frames, k)
  }

  lemma {:induction false} FloorFinds(points: seq<Point>, frames: seq<Frame>, target: nat, best: nat) returns (k: nat)
    requires ValidFrames(frames) && SortedPoints(points) && PointsAtFrames(points, frames)
    requires best < |frames| && SampleAt(frames, best) <= target
    requires forall i | 0 <= i < |points| && Real(points[i]) :: SampleAt(frames, best) <= points[i].sample
    ensures k < |frames| && FloorFrom(points, target, ByteAt(frames, best)) == ByteAt(frames, k)
    ensures LastAtOrBefore(points, frames, target, k) && SampleAt(frames, best) <= SampleAt(frames, k)
    decreases points
  {
    k := best;
    if points != [] {
      SortedTail(points, frames);
      var p, rest := points[0], points[1..];
      if !Real(p) {
        k := FloorFinds(rest, frames, target, best);
      } else if p.sample <= target {
        var b :| OnFrame(p, frames, b);
        k := FloorFinds(rest, frames, target, b);
      }
      assert forall i | 1 <= i < |points| :: points[i] == rest[i - 1];
    }
  }

  /** Frame k is where the slice may stop: the first one with a seek point after the target, or the end. */
  ghost predicate FirstAfter(points: seq<Point>, frames: seq<Frame>, target: nat, k: nat) {
    && k <= |frames| && (k < |frames| ==> SampleAt(frames, k) > target)
    && forall i | 0 <= i < |points| && Real(points[i]) && points[i].sample > target ::
      points[i].sample >= SampleAt(frames, k)
  }

  lemma {:induction false} CeilFinds(points: seq<Point>, frames: seq<Frame>, target: nat) returns (k: nat)
    requires ValidFrames(frames) && SortedPoints(points) && PointsAtFrames(points, frames)
    ensures k <= |frames| && (CeilFrom(points, target) == if k == |frames| then None else Some(ByteAt(frames, k)))
    ensures FirstAfter(points, frames, target, k)
    decreases points
  {
    k := |frames|;
    if points != [] {
      SortedTail(points, frames);
      var p, rest := points[0], points[1..];
      if Real(p) && p.sample > target {
        k :| OnFrame(p, frames, k);
      } else {
        k := CeilFinds(rest, frames, target);
      }
      assert forall i | 1 <= i < |points| :: points[i] == rest[i - 1];
    }
  }

  /** A FLAC file: marker, metadata blocks, whole frames, and a usable seek table. */
  ghost predicate IsFlac(f: seq<byte>, bs: seq<Block>, frames: seq<Frame>) {
    && bs != [] && ValidBlocks(bs) && frames != [] && ValidFrames(frames)
    && f == MARKER + EncodedBlocks(bs) + Audio(frames) && |f| < TWO63
    && LastOf(bs, 0, []) != [] && Table(LastOf(bs, 3, [])) != []
    && SortedPoints(Table(LastOf(bs, 3, []))) && PointsAtFrames(Table(LastOf(bs, 3, [])), frames)
  }

  /** The metadata walk finds STREAMINFO, the seek table and the offset of the first frame. */
  lemma FindsFrames(f: seq<byte>, bs: seq<Block>, frames: seq<Frame>)
    requires IsFlac(f, bs, frames)
    ensures var m := Meta(LastOf(bs, 0, []), Table(LastOf(bs, 3, [])), 4 + |EncodedBlocks(bs)|);
      Parsed(f) == Some(m) && m.audioStart <= |f| && f[m.audioStart..] == Audio(frames)
  {
    hide Walk, EncodedBlocks, Audio, SortedPoints, PointsAtFrames;
    assert f[..4] == MARKER && f[4..] == EncodedBlocks(bs) + Audio(frames);
    assert Table([]) == [];
    WalkBlocks(f, 4, bs, Audio(frames), [], []);
  }

  /** Frame k has a sample between first and last. */
  ghost predicate Overlaps(frames: seq<Frame>, k: nat, first: nat, last: nat) {
    k < |frames| && SampleAt(frames, k) <= last && first < SampleAt(frames, k + 1)
  }

  /** Frames i to j hold every frame that overlaps the range, and no seek point offers a later start or an earlier
      end. */
  ghost predicate CoversTightly(points: seq<Point>, frames: seq<Frame>, first: nat, last: nat, i: nat, j: nat) {
    && i < j <= |frames|
    && (forall k: nat | Overlaps(frames, k, first, last) :: i <= k < j)
    && (forall p | p in points && Real(p) && p.sample <= first :: p.offset <= ByteAt(frames, i))
    && (forall p | p in points && Real(p) && p.sample > last :: p.offset >= ByteAt(frames, j))
  }

  lemma RangeCovers(points: seq<Point>, frames: seq<Frame>, first: nat, last: nat, i: nat, j: nat)
    requires ValidFrames(frames) && frames != [] && first <= last && PointsAtFrames(points, frames)
    requires LastAtOrBefore(points, frames, first, i) && FirstAfter(points, frames, last, j)
    ensures CoversTightly(points, frames, first, last, i, j)
  {
    if j < |frames| && j <= i {
      SamplesRise(frames, j, i);
    }
    forall k: nat | Overlaps(frames, k, first, last) ensures i <= k < j {
      if k < i {
        SamplesRise(frames, k + 1, i);
      }
      if j <= k {
        SamplesRise(frames, j, k);
      }
    }
    forall p | p in points && Real(p)
      ensures p.sample <= first ==> p.offset <= ByteAt(frames, i)
      ensures p.sample > last ==> p.offset >= ByteAt(frames, j)
    {
      PointPlaces(points, frames, p, first, last, i, j);
    }
  }

  lemma PointPlaces(points: seq<Point>, frames: seq<Frame>, p: Point, first: nat, last: nat, i: nat, j: nat)
    requires ValidFrames(frames) && PointsAtFrames(points, frames) && p in points && Real(p)
    requires LastAtOrBefore(points, frames, first, i) && FirstAfter(points, frames, last, j)
    ensures p.sample <= first ==> p.offset <= ByteAt(frames, i)
    ensures p.sample > last ==> p.offset >= ByteAt(frames, j)
  {
    var n :| 0 <= n < |points| && points[n] == p;
    var k :| OnFrame(points[n], frames, k);
    SamplesOrder(frames, k, i);
    SamplesOrder(frames, j, k);
  }

  lemma SamplesOrder(frames: seq<Frame>, i: nat, j: nat)
    requires ValidFrames(frames) && i <= |frames| && j <= |frames|
    ensures SampleAt(frames, i) <= SampleAt(frames, j) ==> ByteAt(frames, i) <= ByteAt(frames, j)
  {
    if i <= j {
      SamplesRise(frames, i, j);
    } else {
      SamplesRise(frames, j, i);
    }
  }

  lemma Chosen(points: seq<Point>, frames: seq<Frame>, first: nat, last: nat) returns (i: nat, j: nat)
    requires ValidFrames(frames) && frames != [] && first <= last && SortedPoints(points) &&
      PointsAtFrames(points, frames)
    ensures i < j <= |frames| && CoversTightly(points, frames, first, last, i, j)
    ensures FloorFrom(points, first, 0) == ByteAt(frames, i) &&
      EndOffset(points, last, |Audio(frames)|) == ByteAt(frames, j)
    ensures ByteAt(frames, i) < ByteAt(frames, j) <= |Audio(frames)|
    ensures Audio(frames)[ByteAt(frames, i)..ByteAt(frames, j)] == Audio(frames[i..j])
  {
    StartsAtZero(points, frames);
    i := FloorFinds(points, frames, first, 0);
    j := CeilFinds(points, frames, last);
    RangeCovers(points, frames, first, last, i, j);
    hide SortedPoints, PointsAtFrames, FloorFrom, CeilFrom, LastAtOrBefore, FirstAfter;
    AudioBetween(frames, i, j);
    SamplesRise(frames, i, j);
    WholeAudio(frames);
  }

  lemma SlicedIs(f: seq<byte>, m: Meta, audio: seq<byte>, startTime: real, duration: real, first: nat, last: nat,
                 lo: nat, hi: nat)
    requires Parsed(f) == Some(m) && |m.streamInfo| == 34 && m.points != [] && startTime >= 0.0 && duration > 0.0
    requires |f| < TWO63 && m.audioStart <= |f| && f[m.audioStart..] == audio && lo < hi <= |audio|
    requires Rate(m.streamInfo) > 0
    requires SampleRange(Rate(m.streamInfo), TotalSamples(m.streamInfo), startTime, duration) == Some((first, last))
    requires FloorFrom(m.points, first, 0) == lo && EndOffset(m.points, last, |audio|) == hi
    ensures Sliced(f, startTime, duration) == Sent(42 + (hi - lo), HeaderBytes(m.streamInfo) + audio[lo..hi])
  {
    hide Parsed, SampleRange, FloorFrom, EndOffset, Rate, TotalSamples, Send, HeaderBytes;
    SendRange(f, m, audio, lo, hi);
  }

  lemma FlacParts(f: seq<byte>, bs: seq<Block>, frames: seq<Frame>)
    requires IsFlac(f, bs, frames)
    ensures |f| < TWO63 && ValidFrames(frames) && frames != [] && Table(LastOf(bs, 3, [])) != []
    ensures SortedPoints(Table(LastOf(bs, 3, []))) && PointsAtFrames(Table(LastOf(bs, 3, [])), frames)
  {
  }

  /** Part of sample s is played between the two times. */
  ghost predicate Plays(s: nat, rate: nat, startTime: real, endTime: real) {
    Scaled(startTime, rate) < s as real + 1.0 && s as real < Scaled(endTime, rate)
  }

  ghost predicate Contains(frames: seq<Frame>, k: nat, s: nat) {
    k < |frames| && SampleAt(frames, k) <= s < SampleAt(frames, k + 1)
  }

  /** Frames i to j hold every sample of the file played between the two times; no seek point at or before the start
      is behind their beginning, and none behind the end before theirs. */
  ghost predicate CoversTime(points: seq<Point>, frames: seq<Frame>, rate: nat, total: nat, startTime: real,
                             endTime: real, i: nat, j: nat) {
    && i < j <= |frames|
    && (forall k: nat, s: nat | Contains(frames, k, s) && s < total && Plays(s, rate, startTime, endTime) ::
          i <= k < j)
    && (forall p | p in points && Real(p) && p.sample as real <= Scaled(startTime, rate) ::
          p.offset <= ByteAt(frames, i))
    && (forall p | p in points && Real(p) && (p.sample as real > Scaled(endTime, rate) || p.sample > total) ::
          p.offset >= ByteAt(frames, j))
  }

  lemma CoversItsTime(points: seq<Point>, frames: seq<Frame>, rate: nat, total: nat, startTime: real, duration: real,
                      first: nat, last: nat, i: nat, j: nat)
    requires rate > 0 && startTime >= 0.0 && duration > 0.0
    requires SampleRange(rate, total, startTime, duration) == Some((first, last))
    requires CoversTightly(points, frames, first, last, i, j)
    ensures CoversTime(points, frames, rate, total, startTime, startTime + duration, i, j)
  {
    SampleRangeIs(rate, total, startTime, duration);
    hide SampleRange, Scaled, Real, SampleAt, ByteAt;
    forall k: nat, s: nat | Contains(frames, k, s) && s < total && Plays(s, rate, startTime, startTime + duration)
      ensures i <= k < j
    {
      assert Overlaps(frames, k, first, last);
    }
  }

  /** A slice of a well-formed file is STREAMINFO followed by a run of whole frames: all of which something plays in
      the time asked for, starting at the last and ending at the first seek point that allows it.  A time behind the
      last sample is answered with the whole file. */
  lemma SliceCovers(f: seq<byte>, bs: seq<Block>, frames: seq<Frame>, startTime: real, duration: real)
    returns (i: nat, j: nat)
    requires IsFlac(f, bs, frames) && startTime >= 0.0 && duration > 0.0
    requires |LastOf(bs, 0, [])| == 34 && Rate(LastOf(bs, 0, [])) > 0
    ensures var si, points := LastOf(bs, 0, []), Table(LastOf(bs, 3, []));
      if Scaled(startTime, Rate(si)) >= TotalSamples(si) as real then Sliced(f, startTime, duration) == Fallback
      else
        && CoversTime(points, frames, Rate(si), TotalSamples(si), startTime, startTime + duration, i, j)
        && var body := HeaderBytes(si) + Audio(frames[i..j]);
           Sliced(f, startTime, duration) == Sent(|body|, body)
  {
    hide *;
    var m := Meta(LastOf(bs, 0, []), Table(LastOf(bs, 3, [])), 4 + |EncodedBlocks(bs)|);
    var rate, total := Rate(m.streamInfo), TotalSamples(m.streamInfo);
    FindsFrames(f, bs, frames);
    FlacParts(f, bs, frames);
    SampleRangeIs(rate, total, startTime, duration);
    var range := SampleRange(rate, total, startTime, duration);
    i, j := 0, 0;
    if range.None? {
      BehindTheEnd(f, m, startTime, duration);
    } else {
      var (first, last) := range.value;
      i, j := Chosen(m.points, frames, first, last);
      HeaderLength(m.streamInfo);
      SlicedIs(f, m, Audio(frames), startTime, duration, first, last, ByteAt(frames, i), ByteAt(frames, j));
      CoversItsTime(m.points, frames, rate, total, startTime, duration, first, last, i, j);
    }
  }

  lemma BehindTheEnd(f: seq<byte>, m: Meta, startTime: real, duration: real)
    requires Parsed(f) == Some(m) && |m.streamInfo| == 34 && startTime >= 0.0 && duration > 0.0
    requires Rate(m.streamInfo) > 0
    requires SampleRange(Rate(m.streamInfo), TotalSamples(m.streamInfo), startTime, duration) == None
    ensures Sliced(f, startTime, duration) == Fallback
  {
    hide Parsed, SampleRange, Rate, TotalSamples;
  }

  lemma MarkerIs()
    ensures MARKER == [0x66, 0x4C, 0x61, 0x43]
  {
    AsciiIs("fLaC");
  }

  /** What does not start with the marker is answered with the whole file, and the scanner reads no length; nor does
      it when the first block is not STREAMINFO. */
  lemma RejectsOther(f: seq<byte>)
    ensures |f| < 4 || f[..4] != [0x66, 0x4C, 0x61, 0x43] ==> Parsed(f) == None && ScannedSeconds(f) == None
    ensures |f| > 4 && f[4] != 0 && f[4] != 128 ==> ScannedSeconds(f) == None
  {
    MarkerIs();
  }

  lemma HeaderLength(si: seq<byte>)
    ensures |HeaderBytes(si)| == 8 + |si|
  {
  }

  lemma StartsAtZero(points: seq<Point>, frames: seq<Frame>)
    ensures SampleAt(frames, 0) == 0 && ByteAt(frames, 0) == 0
  {
  }

  lemma WholeAudio(frames: seq<Frame>)
    ensures ByteAt(frames, |frames|) == |Audio(frames)|
  {
    AudioUpTo(frames, |frames|);
    assert frames[..|frames|] == frames;
  }

  lemma SendRange(f: seq<byte>, m: Meta, audio: seq<byte>, lo: nat, hi: nat)
    requires |f| < TWO63 && |m.streamInfo| == 34 && m.audioStart <= |f| && f[m.audioStart..] == audio &&
      lo < hi <= |audio|
    ensures Signed(lo) == lo && Signed(hi) == hi
    ensures Send(f, m, lo, hi) == Sent(42 + (hi - lo), HeaderBytes(m.streamInfo) + audio[lo..hi])
  {
    SignedSmall(lo);
    SignedSmall(hi);
    SignedSmall(m.audioStart + lo);
    SignedSmall(m.audioStart + hi);
    assert f[m.audioStart..][lo..hi] == f[m.audioStart + lo..m.audioStart + hi];
  }

  /** The signed value is the unsigned one up to a multiple of 2^64, and lies in the signed range. */
  lemma SignedIs(x: int) returns (k: int)
    ensures x == Signed(x) + k * TWO64 && -0x8000_0000_0000_0000 <= Signed(x) < 0x8000_0000_0000_0000
  {
    k := (x + TWO63) / TWO64;
  }

  lemma SignedSmall(x: int)
    requires 0 <= x < TWO63
    ensures Signed(x) == x
  {
  }

  /** The response is itself a FLAC stream whose only metadata is the original STREAMINFO. */
  lemma ResponseParses(si: seq<byte>, audio: seq<byte>)
    requires |si| == 34
    ensures Parsed(HeaderBytes(si) + audio) == Some(Meta(si, [], 42))
    ensures (HeaderBytes(si) + audio)[42..] == audio
  {
    var w := HeaderBytes(si) + audio;
    assert w[..4] == MARKER && w[4] == 128 && w[5..8] == [0, 0, 34] && w[8..42] == si;
    assert BE([0, 0, 34]) == 34 by {
      BERoundTrip(34, 3);
      assert BEBytes(34, 3) == [0, 0, 34];
    }
  }

  /* ---------------- the scanner's duration ---------------- */

  /** parseFLACDuration: whole seconds from the STREAMINFO that must come first. */
  function ScannedSeconds(f: seq<byte>): Option<nat> {
    if |f| < 42 || f[..4] != MARKER || f[4] % 128 != 0 then None
    else if Rate(f[8..42]) == 0 then None
    else Some(Div(TotalSamples(f[8..42]), Rate(f[8..42])))
  }

  lemma {:induction false} NoLater(bs: seq<Block>, default: seq<byte>)
    requires forall b | b in bs :: b.kind != 0
    ensures LastOf(bs, 0, default) == default
  {
    if bs != [] {
      NoLater(bs[1..], default);
    }
  }

  /** STREAMINFO comes first and only once, as section 8.1 of RFC 9639 requires. */
  ghost predicate StreamInfoFirst(bs: seq<Block>, si: seq<byte>, more: seq<Block>) {
    bs == [Block(0, si)] + more && forall b | b in more :: b.kind != 0
  }

  lemma {:induction false} Opening(f: seq<byte>, bs: seq<Block>, audio: seq<byte>, si: seq<byte>, more: seq<Block>)
    requires f == MARKER + EncodedBlocks(bs) + audio && StreamInfoFirst(bs, si, more)
    ensures |f| >= 4 && f[..4] == MARKER
    ensures f[4..] == EncodedBlock(Block(0, si), more == []) + (EncodedBlocks(more) + audio)
  {
    hide EncodedBlock;
    assert bs[1..] == more;
  }

  lemma {:induction false} OnlyStreamInfo(bs: seq<Block>, si: seq<byte>, more: seq<Block>)
    requires StreamInfoFirst(bs, si, more)
    ensures LastOf(bs, 0, []) == si && Block(0, si) in bs
  {
    assert bs[0] in bs && bs[1..] == more;
    NoLater(more, si);
    LastUnfolds(bs, 0, []);
  }

  /** A marker, metadata blocks of which STREAMINFO is the first and only one of its kind, and any bytes behind them. */
  ghost predicate Opens(f: seq<byte>, bs: seq<Block>, audio: seq<byte>, si: seq<byte>, more: seq<Block>) {
    f == MARKER + EncodedBlocks(bs) + audio && ValidBlocks(bs) && StreamInfoFirst(bs, si, more)
  }

  lemma {:induction false} FirstBlock(f: seq<byte>, bs: seq<Block>, audio: seq<byte>, si: seq<byte>, more: seq<Block>)
    requires Opens(f, bs, audio, si, more)
    ensures |f| >= 42 && f[..4] == MARKER && f[4] % 128 == 0 && f[8..42] == si && |si| == 34
  {
    Opening(f, bs, audio, si, more);
    OnlyStreamInfo(bs, si, more);
    assert ValidBlock(Block(0, si));
    hide EncodedBlocks, EncodedBlock, StreamInfoFirst, LastOf;
    ReadBlock(f, 4, Block(0, si), more == [], EncodedBlocks(more) + audio);
  }

  lemma {:induction false} FindsStreamInfo(f: seq<byte>, bs: seq<Block>, audio: seq<byte>, si: seq<byte>,
                                           more: seq<Block>)
    requires Opens(f, bs, audio, si, more)
    ensures Parsed(f).Some? && Parsed(f).value.streamInfo == si
  {
    Opening(f, bs, audio, si, more);
    OnlyStreamInfo(bs, si, more);
    hide Walk, EncodedBlock, LastOf;
    assert bs != [] && f[4..] == EncodedBlocks(bs) + audio;
    assert Table([]) == [];
    WalkBlocks(f, 4, bs, audio, [], []);
  }

  /** With STREAMINFO first, with a seek table or without, both readings take the same bytes for it, and the scanner's
      whole seconds are the floor of the slicer's duration. */
  lemma {:induction false} SecondsAgree(f: seq<byte>, bs: seq<Block>, audio: seq<byte>, si: seq<byte>, more: seq<Block>)
    requires Opens(f, bs, audio, si, more)
    ensures |si| == 34 && Parsed(f).Some? && Parsed(f).value.streamInfo == si
    ensures ScannedSeconds(f) ==
      if Rate(si) == 0 then None else Some((TotalSamples(si) as real / Rate(si) as real).Floor)
  {
    FirstBlock(f, bs, audio, si, more);
    FindsStreamInfo(f, bs, audio, si, more);
    hide Opens, Rate, TotalSamples, Parsed;
    if Rate(si) > 0 {
      FloorOfQuotient(TotalSamples(si), Rate(si));
    }
  }
}
