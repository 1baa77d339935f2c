/** Lyrics frames of ID3v2: USLT and SYLT. */
module Lyrics {
  import opened Bytes
  import opened Text
  import opened Unicode
  import opened Options

  datatype Line = Line(start: int, value: seq<byte>)

  datatype Lyric = Lyric(lang: seq<byte>, synced: bool, lines: seq<Line>)

  function Width(encoding: byte): nat {
    if encoding == 1 || encoding == 2 then 2 else 1
  }

  function Zeros(w: nat): (z: seq<byte>)
    ensures |z| == w
  {
    seq(w, i => 0)
  }

  /** Where the terminator of a text starts: the first w zeros at a multiple of w, from i on. */
  function Terminator(d: seq<byte>, w: nat, i: nat): (r: Option<nat>)
    requires w > 0
    ensures r.Some? ==> i <= r.value && r.value + w <= |d| && d[r.value..r.value + w] == Zeros(w)
    decreases |d| - i
  {
    if i + w > |d| then None
    else if d[i..i + w] == Zeros(w) then Some(i)
    else Terminator(d, w, i + w)
  }

  lemma IsZeros(d: seq<byte>, i: nat)
    ensures i + 1 <= |d| ==> (d[i..i + 1] == Zeros(1) <==> d[i] == 0)
    ensures i + 2 <= |d| ==> (d[i..i + 2] == Zeros(2) <==> d[i] == 0 && d[i + 1] == 0)
  {
    if i + 1 <= |d| && d[i] == 0 {
      assert d[i..i + 1] == Zeros(1);
      if i + 2 <= |d| && d[i + 1] == 0 {
        assert d[i..i + 2] == Zeros(2);
      }
    }
    if i + 1 <= |d| && d[i..i + 1] == Zeros(1) {
      assert d[i..i + 1][0] == 0;
    }
    if i + 2 <= |d| && d[i..i + 2] == Zeros(2) {
      assert d[i..i + 2][0] == 0 && d[i..i + 2][1] == 0;
    }
  }

  /** skipNullTerminated */
  method SkipNullTerminated(d: seq<byte>, encoding: byte) returns (rest: seq<byte>)
    ensures rest == AfterTerminator(d, Width(encoding))
  {
    hide Zeros;
    if encoding == 1 || encoding == 2 {
      var i := 0;
      while i + 1 < |d|
        invariant i >= 0 && Terminator(d, 2, 0) == Terminator(d, 2, i)
      {
        IsZeros(d, i);
        if d[i] == 0 && d[i + 1] == 0 {
          return d[i + 2..];
        }
        i := i + 2;
      }
      return [];
    }
    for i := 0 to |d|
      invariant Terminator(d, 1, 0) == Terminator(d, 1, i)
    {
      IsZeros(d, i);
      if d[i] == 0 {
        return d[i + 1..];
      }
    }
    return [];
  }

  function AfterTerminator(d: seq<byte>, w: nat): seq<byte>
    requires w > 0
  {
    match Terminator(d, w, 0)
    case Some(i) => d[i + w..]
    case None => []
  }

  /** readNullTerminated: the decoded text and what follows its terminator. */
  method ReadNullTerminated(d: seq<byte>, encoding: byte) returns (r: Option<(seq<byte>, seq<byte>)>)
    ensures r == match Terminator(d, Width(encoding), 0)
                 case Some(i) => Some((DecodeByEncoding(d[..i], encoding), d[i + Width(encoding)..]))
                 case None => None
  {
    hide DecodeByEncoding, Zeros;
    if encoding == 1 || encoding == 2 {
      var i := 0;
      while i + 1 < |d|
        invariant i >= 0 && Terminator(d, 2, 0) == Terminator(d, 2, i)
      {
        IsZeros(d, i);
        if d[i] == 0 && d[i + 1] == 0 {
          return Some((DecodeByEncoding(d[..i], encoding), d[i + 2..]));
        }
        i := i + 2;
      }
      return None;
    }
    for i := 0 to |d|
      invariant Terminator(d, 1, 0) == Terminator(d, 1, i)
    {
      IsZeros(d, i);
      if d[i] == 0 {
        RawText(d[..i], encoding);
        return Some((d[..i], d[i + 1..]));
      }
    }
    return None;
  }

  lemma RawText(d: seq<byte>, encoding: byte)
    requires Width(encoding) == 1
    ensures DecodeByEncoding(d, encoding) == d
  {
  }

  /* ---------------- synced lyrics ---------------- */

  /** A text as it is stored and its time stamp. */
  datatype Segment = Segment(text: seq<byte>, time: nat)

  /** The complete segments at the front of the bytes. */
  function Segments(d: seq<byte>, w: nat): seq<Segment>
    requires w > 0
    decreases |d|
  {
    match Terminator(d, w, 0)
    case None => []
    case Some(i) =>
      var after := d[i + w..];
      if |after| < 4 then [] else [Segment(d[..i], BE(after[..4]))] + Segments(after[4..], w)
  }

  function LineOf(s: Segment, encoding: byte, tsFormat: byte): Line {
    Line(if tsFormat == 1 then s.time * 26 else s.time, TrimNull(DecodeByEncoding(s.text, encoding)))
  }

  function LinesOf(segments: seq<Segment>, encoding: byte, tsFormat: byte): (lines: seq<Line>)
    ensures |lines| == |segments|
  {
    seq(|segments|, i requires 0 <= i < |segments| => LineOf(segments[i], encoding, tsFormat))
  }

  function SyltOf(data: seq<byte>): Option<Lyric> {
    if |data| < 7 then None
    else
      var segments := Segments(AfterTerminator(data[6..], Width(data[0])), Width(data[0]));
      if segments == [] then None else Some(Lyric(data[1..4], true, LinesOf(segments, data[0], data[4])))
  }

  lemma LinesSnoc(a: seq<Segment>, s: Segment, encoding: byte, tsFormat: byte)
    ensures LinesOf(a + [s], encoding, tsFormat) == LinesOf(a, encoding, tsFormat) + [LineOf(s, encoding, tsFormat)]
  {
    hide LineOf;
  }

  /** The loop of parseSYLT. */
  method ReadLines(d: seq<byte>, encoding: byte, tsFormat: byte) returns (lines: seq<Line>)
    ensures lines == LinesOf(Segments(d, Width(encoding)), encoding, tsFormat)
  {
    hide TrimNull, BE, DecodeByEncoding, Terminator, LinesOf, Segments, Tail, Zeros;
    var w, rest := Width(encoding), d;
    ghost var seen: seq<Segment> := [];
    lines := [];
    NoLines(encoding, tsFormat);
    while |rest| > 0
      invariant Segments(d, w) == seen + Segments(rest, w) && lines == LinesOf(seen, encoding, tsFormat)
      decreases |rest|
    {
      var next := ReadNullTerminated(rest, encoding);
      if next.None? {
        Incomplete(rest, w);
        break;
      }
      var (text, remainder) := next.value;
      ghost var i := Terminator(rest, w, 0).value;
      assert remainder == rest[i + w..];
      if |remainder| < 4 {
        Incomplete(rest, w);
        break;
      }
      var ts := BE(remainder[..4]);
      var ms := if tsFormat == 1 then ts * 26 else ts;
      lines := lines + [Line(ms, TrimNull(text))];
      assert remainder[..4] == rest[i + w..i + w + 4] && remainder[4..] == rest[i + w + 4..];
      Complete(rest, w, i);
      ghost var s := Segment(rest[..i], ts);
      LinesSnoc(seen, s, encoding, tsFormat);
      Moved(seen, s, Segments(remainder[4..], w));
      seen := seen + [s];
      rest := remainder[4..];
    }
    EmptyRest(w);
    assert Segments(rest, w) == [] && seen + [] == seen;
  }

  lemma NoLines(encoding: byte, tsFormat: byte)
    ensures LinesOf([], encoding, tsFormat) == []
  {
  }

  lemma Moved(a: seq<Segment>, s: Segment, b: seq<Segment>)
    ensures a + ([s] + b) == a + [s] + b
  {
  }

  lemma EmptyRest(w: nat)
    requires w > 0
    ensures Segments([], w) == []
  {
  }

  /** parseSYLT */
  method ParseSYLT(data: seq<byte>) returns (r: Option<Lyric>)
    ensures r == SyltOf(data)
  {
    if |data| < 7 {
      return None;
    }
    hide Segments, LinesOf, AfterTerminator;
    var rest := SkipNullTerminated(data[6..], data[0]);
    var lines := ReadLines(rest, data[0], data[4]);
    if |lines| == 0 {
      return None;
    }
    return Some(Lyric(data[1..4], true, lines));
  }

  /* ---------------- the encoder ---------------- */

  /** From i on, whole units of w bytes, none of them all zeros. */
  ghost predicate NulFree(text: seq<byte>, w: nat, i: nat)
    requires w > 0
    decreases |text| - i
  {
    i == |text| || (i + w <= |text| && text[i..i + w] != Zeros(w) && NulFree(text, w, i + w))
  }

  ghost predicate ValidSegments(segments: seq<Segment>, w: nat)
    requires w > 0
  {
    forall k | 0 <= k < |segments| :: NulFree(segments[k].text, w, 0) && segments[k].time < Pow256(4)
  }

  function EncodedSegments(segments: seq<Segment>, w: nat): seq<byte> {
    if segments == [] then []
    else segments[0].text + Zeros(w) + BEBytes(segments[0].time, 4) + EncodedSegments(segments[1..], w)
  }

  /** A terminated text is found whole, whatever follows it. */
  lemma {:induction false} FindsTerminator(text: seq<byte>, w: nat, rest: seq<byte>, i: nat)
    requires w > 0 && NulFree(text, w, i)
    ensures Terminator(text + Zeros(w) + rest, w, i) == Some(|text|)
    decreases |text| - i
  {
    var d := text + Zeros(w) + rest;
    if i == |text| {
      assert d[i..i + w] == Zeros(w);
    } else {
      assert d[i..i + w] == text[i..i + w];
      FindsTerminator(text, w, rest, i + w);
    }
  }

  lemma FrontSegment(s: Segment, w: nat, rest: seq<byte>)
    requires w > 0 && NulFree(s.text, w, 0) && s.time < Pow256(4)
    ensures Segments(s.text + Zeros(w) + BEBytes(s.time, 4) + rest, w) == [s] + Segments(rest, w)
  {
    var stamp, n := BEBytes(s.time, 4), |s.text| + w;
    var d := s.text + Zeros(w) + stamp + rest;
    assert d == s.text + Zeros(w) + (stamp + rest);
    FindsTerminator(s.text, w, stamp + rest, 0);
    BERoundTrip(s.time, 4);
    hide Terminator, BE, BEBytes, NulFree, Segments, Zeros, Pow256;
    assert d[..|s.text|] == s.text && d[n..n + 4] == stamp && d[n + 4..] == rest;
    Complete(d, w, |s.text|);
  }

  /** Parsing an encoded list gives the list back. */
  lemma {:induction false} SegmentsOfEncoded(segments: seq<Segment>, w: nat)
    requires w > 0 && ValidSegments(segments, w)
    ensures Segments(EncodedSegments(segments, w), w) == segments
  {
    hide Segments, Terminator, NulFree;
    if segments == [] {
      EmptyRest(w);
    } else {
      SegmentsOfEncoded(segments[1..], w);
      FrontSegment(segments[0], w, EncodedSegments(segments[1..], w));
    }
  }

  /** Bytes behind the last complete segment. */
  function Tail(d: seq<byte>, w: nat): seq<byte>
    requires w > 0
    decreases |d|
  {
    match Terminator(d, w, 0)
    case None => d
    case Some(i) => if |d| < i + w + 4 then d else Tail(d[i + w + 4..], w)
  }

  lemma {:induction false} TerminatorIsFirst(d: seq<byte>, w: nat, i: nat)
    requires w > 0 && Terminator(d, w, i).Some?
    ensures NulFree(d[..Terminator(d, w, i).value], w, i)
    decreases |d| - i
  {
    hide Zeros;
    if d[i..i + w] != Zeros(w) {
      TerminatorIsFirst(d, w, i + w);
      var t := Terminator(d, w, i + w).value;
      assert d[..t][i..i + w] == d[i..i + w];
    }
  }

  lemma Complete(d: seq<byte>, w: nat, i: nat)
    requires w > 0 && Terminator(d, w, 0) == Some(i) && i + w + 4 <= |d|
    ensures Segments(d, w) == [Segment(d[..i], BE(d[i + w..i + w + 4]))] + Segments(d[i + w + 4..], w)
    ensures Tail(d, w) == Tail(d[i + w + 4..], w)
  {
    hide Terminator, BE, Zeros;
    assert d[i + w..][..4] == d[i + w..i + w + 4] && d[i + w..][4..] == d[i + w + 4..];
  }

  lemma Incomplete(d: seq<byte>, w: nat)
    requires w > 0 && (Terminator(d, w, 0).Some? ==> Terminator(d, w, 0).value + w + 4 > |d|)
    ensures Segments(d, w) == [] && Tail(d, w) == d
  {
    hide Terminator, BE, Zeros;
  }

  lemma FrontBytes(d: seq<byte>, w: nat, i: nat)
    requires w > 0 && Terminator(d, w, 0) == Some(i) && i + w + 4 <= |d|
    ensures var time := BE(d[i + w..i + w + 4]);
      d == d[..i] + Zeros(w) + BEBytes(time, 4) + d[i + w + 4..] && time < Pow256(4) && NulFree(d[..i], w, 0)
  {
    hide *;
    var stamp := d[i + w..i + w + 4];
    TerminatorIsFirst(d, w, 0);
    assert d[i..i + w] == Zeros(w) && |stamp| == 4;
    BEInverse(stamp);
    BEBound(stamp);
    FourParts(d, i, i + w, i + w + 4);
  }

  lemma FourParts(d: seq<byte>, i: nat, j: nat, k: nat)
    requires i <= j <= k <= |d|
    ensures d == d[..i] + d[i..j] + d[j..k] + d[k..]
  {
  }

  lemma ValidCons(s: Segment, rest: seq<Segment>, w: nat)
    requires w > 0 && NulFree(s.text, w, 0) && s.time < Pow256(4) && ValidSegments(rest, w)
    ensures ValidSegments([s] + rest, w)
    ensures EncodedSegments([s] + rest, w) == s.text + Zeros(w) + BEBytes(s.time, 4) + EncodedSegments(rest, w)
  {
    hide NulFree, Pow256, BEBytes, Zeros;
    assert ([s] + rest)[1..] == rest;
  }

  /** Whatever is accepted is the encoding of its raw segments and a tail without a complete segment. */
  lemma {:induction false} EncodedOfSegments(d: seq<byte>, w: nat)
    requires w > 0
    ensures d == EncodedSegments(Segments(d, w), w) + Tail(d, w)
    ensures ValidSegments(Segments(d, w), w) && Segments(Tail(d, w), w) == []
    decreases |d|
  {
    var t := Terminator(d, w, 0);
    hide Terminator, BE, BEBytes, Zeros, NulFree, Pow256, Segments, Tail;
    if t.Some? && t.value + w + 4 <= |d| {
      hide ValidSegments, EncodedSegments;
      var i := t.value;
      var rest := d[i + w + 4..];
      EncodedOfSegments(rest, w);
      Complete(d, w, i);
      FrontBytes(d, w, i);
      var s := Segment(d[..i], BE(d[i + w..i + w + 4]));
      ValidCons(s, Segments(rest, w), w);
      Regroup(s.text + Zeros(w) + BEBytes(s.time, 4), EncodedSegments(Segments(rest, w), w), Tail(rest, w));
    } else {
      Incomplete(d, w);
      assert EncodedSegments([], w) + d == d;
    }
  }

  lemma Regroup(a: seq<byte>, b: seq<byte>, c: seq<byte>)
    ensures a + (b + c) == a + b + c
  {
  }

  lemma {:induction false} BEInverse(s: seq<byte>)
    ensures BEBytes(BE(s), |s|) == s
  {
    if s != [] {
      BEInverse(s[..|s| - 1]);
    }
  }

  function EncodedSylt(encoding: byte, lang: seq<byte>, tsFormat: byte, contentType: byte, descriptor: seq<byte>,
                       segments: seq<Segment>): seq<byte> {
    [encoding] + lang + [tsFormat, contentType] +
    (descriptor + Zeros(Width(encoding)) + EncodedSegments(segments, Width(encoding)))
  }

  /** parseSYLT undoes the encoder: the language, and a line for every segment. */
  lemma SyltRoundTrip(encoding: byte, lang: seq<byte>, tsFormat: byte, contentType: byte, descriptor: seq<byte>,
                      segments: seq<Segment>)
    requires |lang| == 3 && segments != []
    requires NulFree(descriptor, Width(encoding), 0) && ValidSegments(segments, Width(encoding))
    ensures SyltOf(EncodedSylt(encoding, lang, tsFormat, contentType, descriptor, segments)) ==
      Some(Lyric(lang, true, LinesOf(segments, encoding, tsFormat)))
  {
    var w := Width(encoding);
    var inner := descriptor + Zeros(w) + EncodedSegments(segments, w);
    FindsTerminator(descriptor, w, EncodedSegments(segments, w), 0);
    SegmentsOfEncoded(segments, w);
    hide Segments, LinesOf, Terminator, EncodedSegments, ValidSegments, NulFree, Zeros;
    SyltHeader(encoding, lang, tsFormat, contentType, descriptor, segments);
    assert inner[|descriptor| + w..] == EncodedSegments(segments, w);
  }

  lemma SyltHeader(encoding: byte, lang: seq<byte>, tsFormat: byte, contentType: byte, descriptor: seq<byte>,
                   segments: seq<Segment>)
    requires |lang| == 3
    ensures var data := EncodedSylt(encoding, lang, tsFormat, contentType, descriptor, segments);
      && |data| >= 7 && data[0] == encoding && data[1..4] == lang && data[4] == tsFormat
      && data[6..] == descriptor + Zeros(Width(encoding)) + EncodedSegments(segments, Width(encoding))
  {
    hide EncodedSegments;
  }

  /* ---------------- texts and times ---------------- */

  datatype Verse = Verse(runes: seq<nat>, time: nat)

  ghost predicate WithoutNul(runes: seq<nat>) {
    Scalars(runes) && forall k | 0 <= k < |runes| :: runes[k] != 0
  }

  ghost predicate Singable(verses: seq<Verse>) {
    forall k | 0 <= k < |verses| :: WithoutNul(verses[k].runes) && verses[k].time < Pow256(4)
  }

  /** The bytes are the text in this encoding: UTF-16 behind either byte order mark for 1, UTF-16BE for 2, UTF-8
      otherwise. */
  ghost predicate Writes(d: seq<byte>, encoding: byte, runes: seq<nat>) {
    && Scalars(runes)
    && if encoding == 2 then d == BytesBE(Units(runes))
       else if encoding == 1 then d == [0xFE, 0xFF] + BytesBE(Units(runes)) || d == [0xFF, 0xFE] + BytesLE(Units(runes))
       else FromUtf8(d) == Some(runes)
  }

  /** The segments hold these verses. */
  ghost predicate WritesAll(segments: seq<Segment>, encoding: byte, verses: seq<Verse>) {
    && |segments| == |verses|
    && forall k | 0 <= k < |verses| ::
      Writes(segments[k].text, encoding, verses[k].runes) && segments[k].time == verses[k].time
  }

  lemma {:induction false} BytesNulFree(text: seq<byte>, i: nat)
    requires i <= |text| && forall k | i <= k < |text| :: text[k] != 0
    ensures NulFree(text, 1, i)
    decreases |text| - i
  {
    if i < |text| {
      IsZeros(text, i);
      BytesNulFree(text, i + 1);
    }
  }

  lemma {:induction false} UnitsNulFree(units: seq<nat>, k: nat)
    requires k <= |units| && SixteenBit(units) && forall i | 0 <= i < |units| :: units[i] != 0
    ensures NulFree(BytesBE(units), 2, 2 * k) && NulFree(BytesLE(units), 2, 2 * k)
    decreases |units| - k
  {
    if k < |units| {
      UnitsNulFree(units, k + 1);
      IsZeros(BytesBE(units), 2 * k);
      IsZeros(BytesLE(units), 2 * k);
      UnitBytes(units[k]);
      PairOf(units, k);
    }
  }

  lemma PairOf(units: seq<nat>, k: nat)
    requires k < |units|
    ensures BytesBE(units)[2 * k] == units[k] / 256 % 256 && BytesBE(units)[2 * k + 1] == units[k] % 256
    ensures BytesLE(units)[2 * k] == units[k] % 256 && BytesLE(units)[2 * k + 1] == units[k] / 256 % 256
  {
    assert 2 * k / 2 == k && (2 * k + 1) / 2 == k;
  }

  lemma {:induction false} BehindMark(mark: seq<byte>, d: seq<byte>, i: nat)
    requires |mark| == 2 && NulFree(d, 2, i)
    ensures NulFree(mark + d, 2, i + 2)
    decreases |d| - i
  {
    if i != |d| {
      assert (mark + d)[i + 2..i + 4] == d[i..i + 2];
      BehindMark(mark, d, i + 2);
    }
  }

  lemma MarkedNulFree(mark: seq<byte>, d: seq<byte>)
    requires |mark| == 2 && mark[0] != 0 && NulFree(d, 2, 0)
    ensures NulFree(mark + d, 2, 0)
  {
    BehindMark(mark, d, 0);
    IsZeros(mark + d, 0);
  }

  lemma {:induction false} UnitsNotZero(runes: seq<nat>)
    requires WithoutNul(runes)
    ensures forall i | 0 <= i < |Units(runes)| :: Units(runes)[i] != 0
  {
    if runes != [] {
      assert runes[0] in runes;
      UnitsNotZero(runes[1..]);
    }
  }

  lemma {:induction false} Utf8NotZero(runes: seq<nat>)
    requires WithoutNul(runes)
    ensures forall i | 0 <= i < |Utf8(runes)| :: Utf8(runes)[i] != 0
  {
    if runes != [] {
      var n := |runes| - 1;
      assert runes[n] in runes;
      Utf8NotZero(runes[..n]);
    }
  }

  lemma WrittenDecodes(d: seq<byte>, encoding: byte, runes: seq<nat>)
    requires WithoutNul(runes) && Writes(d, encoding, runes)
    ensures NulFree(d, Width(encoding), 0)
    ensures FromUtf8(TrimNull(DecodeByEncoding(d, encoding))) == Some(runes)
  {
    Utf8RoundTrip(runes);
    if encoding != 1 && encoding != 2 {
      Utf8Unique(d, runes);
    }
    UnitsNotZero(runes);
    Utf8NotZero(runes);
    RunesFromUnits(runes);
    UnitsFromBytes(Units(runes));
    NothingToTrim(Utf8(runes));
    var be, le := BytesBE(Units(runes)), BytesLE(Units(runes));
    hide Units, Utf8, Runes, UnitsBE, UnitsLE, BytesBE, BytesLE, NulFree, TrimNull, Zeros, DecodeUTF16, FromUtf8;
    if encoding == 1 || encoding == 2 {
      UnitsNulFree(Units(runes), 0);
      MarkedNulFree([0xFE, 0xFF], be);
      MarkedNulFree([0xFF, 0xFE], le);
      Marked(be);
      Marked(le);
    } else {
      BytesNulFree(Utf8(runes), 0);
    }
  }

  /** Line k holds verse k in UTF-8, at its time in milliseconds: a frame time stamp counts 26. */
  ghost predicate Sings(lines: seq<Line>, verses: seq<Verse>, tsFormat: byte) {
    && |lines| == |verses|
    && forall k | 0 <= k < |verses| ::
         && FromUtf8(lines[k].value) == Some(verses[k].runes)
         && lines[k].start == if tsFormat == 1 then verses[k].time * 26 else verses[k].time
  }

  /** Synced lyrics come back as the verses written, in every encoding. */
  lemma SungRoundTrip(encoding: byte, lang: seq<byte>, tsFormat: byte, contentType: byte, descriptor: seq<byte>,
                      segments: seq<Segment>, about: seq<nat>, verses: seq<Verse>)
    requires |lang| == 3 && verses != [] && WithoutNul(about) && Writes(descriptor, encoding, about)
    requires Singable(verses) && WritesAll(segments, encoding, verses)
    ensures var r := SyltOf(EncodedSylt(encoding, lang, tsFormat, contentType, descriptor, segments));
      r.Some? && r.value == Lyric(lang, true, r.value.lines) && Sings(r.value.lines, verses, tsFormat)
  {
    hide SyltOf, EncodedSylt, Writes, NulFree, TrimNull, DecodeByEncoding, FromUtf8, WithoutNul, Pow256;
    WrittenDecodes(descriptor, encoding, about);
    forall k | 0 <= k < |segments|
      ensures NulFree(segments[k].text, Width(encoding), 0) && segments[k].time < Pow256(4)
      ensures FromUtf8(LineOf(segments[k], encoding, tsFormat).value) == Some(verses[k].runes)
    {
      WrittenDecodes(segments[k].text, encoding, verses[k].runes);
    }
    SyltRoundTrip(encoding, lang, tsFormat, contentType, descriptor, segments);
  }

  lemma {:induction false} NulFreeBytes(text: seq<byte>, i: nat)
    requires NulFree(text, 1, i)
    ensures forall k | i <= k < |text| :: text[k] != 0
    decreases |text| - i
  {
    if i != |text| {
      IsZeros(text, i);
      NulFreeBytes(text, i + 1);
    }
  }

  /** In a single-byte encoding any bytes without NUL are a text, and come back as they are. */
  lemma RawRoundTrip(encoding: byte, lang: seq<byte>, tsFormat: byte, contentType: byte, descriptor: seq<byte>,
                     segments: seq<Segment>)
    requires |lang| == 3 && segments != [] && Width(encoding) == 1 && NulFree(descriptor, 1, 0) &&
      ValidSegments(segments, 1)
    ensures var r := SyltOf(EncodedSylt(encoding, lang, tsFormat, contentType, descriptor, segments));
      && r.Some? && r.value.lang == lang && |r.value.lines| == |segments|
      && forall k | 0 <= k < |segments| ::
           r.value.lines[k] == Line(if tsFormat == 1 then segments[k].time * 26 else segments[k].time, segments[k].text)
  {
    hide SyltOf, EncodedSylt, NulFree, TrimNull, DecodeByEncoding, Pow256;
    SyltRoundTrip(encoding, lang, tsFormat, contentType, descriptor, segments);
    forall k | 0 <= k < |segments|
      ensures TrimNull(DecodeByEncoding(segments[k].text, encoding)) == segments[k].text
    {
      NulFreeBytes(segments[k].text, 0);
      NothingToTrim(segments[k].text);
      RawText(segments[k].text, encoding);
    }
  }

  /* ---------------- unsynced lyrics ---------------- */

  const NEWLINE: byte := 10
  const RETURN: byte := 13

  /** strings.Split at newlines. */
  function SplitLines(s: seq<byte>): (lines: seq<seq<byte>>)
    ensures lines != []
  {
    if s == [] then [[]]
    else
      var rest := SplitLines(s[1..]);
      if s[0] == NEWLINE then [[]] + rest else [[s[0]] + rest[0]] + rest[1..]
  }

  function TrimReturns(s: seq<byte>): seq<byte> {
    if s != [] && s[|s| - 1] == RETURN then TrimReturns(s[..|s| - 1]) else s
  }

  /** splitLyricLines */
  method SplitLyricLines(text: seq<byte>) returns (lines: seq<Line>)
    ensures lines == Unsynced(SplitLines(text))
  {
    var raw := SplitLines(text);
    lines := [];
    for i := 0 to |raw|
      invariant lines == Unsynced(raw[..i])
    {
      assert raw[..i + 1] == raw[..i] + [raw[i]];
      lines := lines + [Line(-1, TrimReturns(raw[i]))];
    }
    assert raw[..|raw|] == raw;
  }

  function Unsynced(raw: seq<seq<byte>>): (lines: seq<Line>)
    ensures |lines| == |raw|
  {
    seq(|raw|, i requires 0 <= i < |raw| => Line(-1, TrimReturns(raw[i])))
  }

  function UsltOf(data: seq<byte>): Option<Lyric> {
    if |data| < 5 then None
    else
      var text := TrimNull(DecodeByEncoding(AfterTerminator(data[4..], Width(data[0])), data[0]));
      if text == [] then None else Some(Lyric(data[1..4], false, Unsynced(SplitLines(text))))
  }

  /** parseUSLT */
  method ParseUSLT(data: seq<byte>) returns (r: Option<Lyric>)
    ensures r == UsltOf(data)
  {
    if |data| < 5 {
      return None;
    }
    hide AfterTerminator, DecodeByEncoding, TrimNull, SplitLines, Unsynced;
    var rest := SkipNullTerminated(data[4..], data[0]);
    var text := TrimNull(DecodeByEncoding(rest, data[0]));
    if text == [] {
      return None;
    }
    var lines := SplitLyricLines(text);
    return Some(Lyric(data[1..4], false, lines));
  }

  /** Lines joined by CR LF. */
  function Joined(lines: seq<seq<byte>>): seq<byte>
    requires lines != []
  {
    if |lines| == 1 then lines[0] else lines[0] + [13, 10] + Joined(lines[1..])
  }

  ghost predicate PlainLine(line: seq<byte>) {
    10 !in line && (line == [] || line[|line| - 1] != 13)
  }

  lemma {:induction false} SplitAfter(line: seq<byte>, rest: seq<byte>)
    requires NEWLINE !in line
    ensures SplitLines(line + [NEWLINE] + rest) == [line] + SplitLines(rest)
    ensures SplitLines(line) == [line]
  {
    if line == [] {
      assert [] + [NEWLINE] + rest == [NEWLINE] + rest;
      assert ([NEWLINE] + rest)[1..] == rest;
    } else {
      SplitAfter(line[1..], rest);
      assert line[0] in line && line == [line[0]] + line[1..];
      assert (line + [NEWLINE] + rest)[1..] == line[1..] + [NEWLINE] + rest;
    }
  }

  lemma TrimsReturn(line: seq<byte>)
    requires line == [] || line[|line| - 1] != RETURN
    ensures TrimReturns(line + [RETURN]) == line == TrimReturns(line)
  {
    assert (line + [RETURN])[..|line|] == line;
  }

  /** Text with DOS line ends splits into its lines. */
  lemma {:induction false} LinesRoundTrip(lines: seq<seq<byte>>)
    requires lines != [] && forall k | 0 <= k < |lines| :: PlainLine(lines[k])
    ensures Unsynced(SplitLines(Joined(lines))) == seq(|lines|, i requires 0 <= i < |lines| => Line(-1, lines[i]))
  {
    var line, rest := lines[0], lines[1..];
    assert PlainLine(line);
    TrimsReturn(line);
    if rest == [] {
      SplitAfter(line, []);
    } else {
      LinesRoundTrip(rest);
      SplitAfter(line + [RETURN], Joined(rest));
      hide SplitLines, TrimReturns;
      assert line + [RETURN, NEWLINE] == line + [RETURN] + [NEWLINE];
      UnsyncedCons(line + [RETURN], SplitLines(Joined(rest)));
    }
  }

  lemma UnsyncedCons(first: seq<byte>, rest: seq<seq<byte>>)
    ensures Unsynced([first] + rest) == [Line(-1, TrimReturns(first))] + Unsynced(rest)
  {
    hide TrimReturns;
  }

  ghost predicate ZeroUnit(d: seq<byte>, w: nat, j: nat) {
    j + w <= |d| && d[j..j + w] == Zeros(w)
  }

  /** No whole unit of w bytes is all zeros from i on, where a unit starts. */
  ghost predicate Unterminated(d: seq<byte>, w: nat, i: nat)
    requires w == 1 || w == 2
  {
    forall j: nat | i <= j && j % w == i % w :: !ZeroUnit(d, w, j)
  }

  lemma {:induction false} NoTerminator(d: seq<byte>, w: nat, i: nat)
    requires (w == 1 || w == 2) && i <= |d| && Unterminated(d, w, i)
    ensures Terminator(d, w, i) == None
    decreases |d| - i
  {
    if i + w <= |d| {
      assert !ZeroUnit(d, w, i);
      assert (i + w) % w == i % w;
      NoTerminator(d, w, i + w);
    }
  }

  /** A frame whose descriptor has no terminator on a unit boundary is rejected. */
  lemma UnterminatedRejected(data: seq<byte>)
    requires |data| >= 7
    ensures Unterminated(data[4..], Width(data[0]), 0) ==> UsltOf(data) == None
    ensures Unterminated(data[6..], Width(data[0]), 0) ==> SyltOf(data) == None
  {
    var w := Width(data[0]);
    assert DecodeByEncoding([], data[0]) == [];
    EmptyRest(w);
    hide DecodeByEncoding, Segments, Terminator, Unterminated;
    if Unterminated(data[4..], w, 0) {
      NoTerminator(data[4..], w, 0);
    }
    if Unterminated(data[6..], w, 0) {
      NoTerminator(data[6..], w, 0);
    }
  }

  /* ---------------- whole USLT frames ---------------- */

  function EncodedUslt(encoding: byte, lang: seq<byte>, descriptor: seq<byte>, text: seq<byte>): seq<byte> {
    [encoding] + lang + (descriptor + Zeros(Width(encoding)) + text)
  }

  /** The stored text is this one in this encoding: as it is in a single-byte encoding, else UTF-16 of its scalars. */
  ghost predicate Stores(d: seq<byte>, encoding: byte, text: seq<byte>) {
    if Width(encoding) == 1 then d == text
    else FromUtf8(text).Some? && Writes(d, encoding, FromUtf8(text).value)
  }

  lemma StoredDecodes(d: seq<byte>, encoding: byte, text: seq<byte>)
    requires Stores(d, encoding, text)
    ensures DecodeByEncoding(d, encoding) == text
  {
    if Width(encoding) == 1 {
      RawText(d, encoding);
    } else {
      var runes := FromUtf8(text).value;
      Utf8Unique(text, runes);
      RunesFromUnits(runes);
      UnitsFromBytes(Units(runes));
      hide Units, Utf8, Runes, UnitsBE, UnitsLE, BytesBE, BytesLE, FromUtf8, DecodeUTF16;
      Marked(BytesBE(Units(runes)));
      Marked(BytesLE(Units(runes)));
    }
  }

  lemma UsltHeader(encoding: byte, lang: seq<byte>, descriptor: seq<byte>, text: seq<byte>)
    requires |lang| == 3
    ensures var data := EncodedUslt(encoding, lang, descriptor, text);
      && |data| >= 5 && data[0] == encoding && data[1..4] == lang
      && data[4..] == descriptor + Zeros(Width(encoding)) + text
  {
  }

  /** parseUSLT undoes the encoder: the language, and the lines of the text behind the descriptor. */
  lemma UsltRoundTrip(encoding: byte, lang: seq<byte>, descriptor: seq<byte>, text: seq<byte>, lines: seq<seq<byte>>)
    requires |lang| == 3 && NulFree(descriptor, Width(encoding), 0)
    requires lines != [] && forall k | 0 <= k < |lines| :: PlainLine(lines[k])
    requires Stores(text, encoding, Joined(lines)) && Joined(lines) != [] && Joined(lines)[|Joined(lines)| - 1] != 0
    ensures UsltOf(EncodedUslt(encoding, lang, descriptor, text)) ==
      Some(Lyric(lang, false, seq(|lines|, i requires 0 <= i < |lines| => Line(-1, lines[i]))))
  {
    hide EncodedUslt, NulFree, Stores, DecodeByEncoding, TrimNull, SplitLines, Unsynced, Joined, Zeros, Terminator;
    UsltHeader(encoding, lang, descriptor, text);
    FindsTerminator(descriptor, Width(encoding), text, 0);
    assert (descriptor + Zeros(Width(encoding)) + text)[|descriptor| + Width(encoding)..] == text;
    StoredDecodes(text, encoding, Joined(lines));
    NothingToTrim(Joined(lines));
    LinesRoundTrip(lines);
  }
}
