/** ID3v2 tags: two walkers over the same frames, and the capped reads they work on. */
module Id3 {
  import opened Bytes
  import opened Text
  import opened Unicode
  import Lyrics
  import opened Options

  const READ_CAP := 10 + 4096
  const LYRICS_CAP: nat := 512 * 1024

  datatype Tags = Tags(title: seq<byte>, artist: seq<byte>, album: seq<byte>, genre: seq<byte>, year: int, track: int,
                       disc: int)

  const NO_TAGS := Tags([], [], [], [], 0, 0, 0)

  /* ---------------- values ---------------- */

  const TITLES := {Ascii("TIT2"), Ascii("TT2")}
  const ARTISTS := {Ascii("TPE1"), Ascii("TP1")}
  const ALBUMS := {Ascii("TALB"), Ascii("TAL")}
  const GENRES := {Ascii("TCON"), Ascii("TCO")}
  const TRACKS := {Ascii("TRCK"), Ascii("TRK")}
  const DISCS := {Ascii("TPOS"), Ascii("TPA")}
  const YEARS := {Ascii("TDRC"), Ascii("TYER"), Ascii("TYE")}

  /** wantTextFrame: the ids of three letters only in version 2.2. */
  predicate Wanted(id: seq<byte>, major: byte) {
    && id in TITLES + ARTISTS + ALBUMS + GENRES + TRACKS + DISCS + YEARS
    && (|id| == 4 || major == 2)
  }

  const MAX_INT := 0x7FFF_FFFF_FFFF_FFFF
  const MAX_UINT := 0xFFFF_FFFF_FFFF_FFFF

  /** The digits in front accumulated on n, the way strconv reads them: 0 at the first character that is no digit, the
      largest value as soon as it does not fit. */
  function Digits(s: seq<byte>, n: nat): Option<nat> {
    if s == [] then Some(n)
    else if !(48 <= s[0] <= 57) then None
    else if n * 10 + (s[0] - 48) as int > MAX_UINT then Some(MAX_UINT)
    else Digits(s[1..], n * 10 + (s[0] - 48) as int)
  }

  /** The value strconv.Atoi returns beside its error. */
  function Atoi(s: seq<byte>): int {
    var negative := s != [] && s[0] == 45;
    var digits := if s != [] && (s[0] == 45 || s[0] == 43) then s[1..] else s;
    if digits == [] then 0
    else
      match Digits(digits, 0)
      case None => 0
      case Some(n) =>
        if negative then -(if n > MAX_INT + 1 then MAX_INT + 1 else n) else if n > MAX_INT then MAX_INT else n
  }

  function IndexOf(s: seq<byte>, b: byte): (r: Option<nat>)
    ensures r.Some? ==> r.value < |s| && s[r.value] == b && b !in s[..r.value]
    ensures r.None? ==> b !in s
  {
    if s == [] then None
    else if s[0] == b then Some(0)
    else
      match IndexOf(s[1..], b)
      case None => None
      case Some(i) => Some(i + 1)
  }

  /** White space as Unicode has it, in UTF-8. */
  predicate Space(s: seq<byte>) {
    || s in {[9], [10], [11], [12], [13], [32]}
    || s in {[0xC2, 0x85], [0xC2, 0xA0], [0xE1, 0x9A, 0x80], [0xE2, 0x80, 0xA8], [0xE2, 0x80, 0xA9], [0xE2, 0x80, 0xAF],
             [0xE2, 0x81, 0x9F], [0xE3, 0x80, 0x80]}
    || (|s| == 3 && s[0] == 0xE2 && s[1] == 0x80 && 0x80 <= s[2] <= 0x8A)
  }

  function TrimLeft(s: seq<byte>): (r: seq<byte>)
    ensures |r| <= |s|
  {
    if |s| >= 1 && Space(s[..1]) then TrimLeft(s[1..])
    else if |s| >= 2 && Space(s[..2]) then TrimLeft(s[2..])
    else if |s| >= 3 && Space(s[..3]) then TrimLeft(s[3..])
    else s
  }

  function TrimRight(s: seq<byte>): (r: seq<byte>)
    ensures |r| <= |s|
  {
    if |s| >= 1 && Space(s[|s| - 1..]) then TrimRight(s[..|s| - 1])
    else if |s| >= 2 && Space(s[|s| - 2..]) then TrimRight(s[..|s| - 2])
    else if |s| >= 3 && Space(s[|s| - 3..]) then TrimRight(s[..|s| - 3])
    else s
  }

  /** parseTrackDisc: the number in front of a slash. */
  function TrackDisc(s: seq<byte>): int {
    var n := match IndexOf(s, 47) case Some(i) => s[..i] case None => s;
    Atoi(TrimRight(TrimLeft(n)))
  }

  /** cleanGenre: behind a numeric reference, or the number itself when nothing follows. */
  function CleanGenre(s: seq<byte>): seq<byte> {
    if s == [] || s[0] != 40 then s
    else
      match IndexOf(s, 41)
      case None => s
      case Some(i) => if s[i + 1..] != [] then s[i + 1..] else s[1..i]
  }

  /** applyTag */
  function ApplyTag(tags: Tags, id: seq<byte>, val: seq<byte>): Tags {
    if val == [] then tags
    else if id in TITLES then tags.(title := val)
    else if id in ARTISTS then tags.(artist := val)
    else if id in ALBUMS then tags.(album := val)
    else if id in GENRES then tags.(genre := CleanGenre(val))
    else if id in TRACKS then tags.(track := TrackDisc(val))
    else if id in DISCS then tags.(disc := TrackDisc(val))
    else if id in YEARS && |val| >= 4 then tags.(year := Atoi(val[..4]))
    else tags
  }

  /* ---------------- frames ---------------- */

  datatype Frame = Frame(id: seq<byte>, data: seq<byte>)

  function IdLen(major: byte): (n: nat)
    ensures 0 < n < HeaderLen(major)
  {
    if major == 2 then 3 else 4
  }

  function HeaderLen(major: byte): (n: nat)
    ensures n > 0
  {
    if major == 2 then 6 else 10
  }

  function FrameSize(h: seq<byte>, major: byte): nat
    requires |h| == HeaderLen(major)
  {
    if major == 2 then BE(h[3..6]) else if major == 4 then SyncSafe(h[4], h[5], h[6], h[7]) else BE(h[4..8])
  }

  /** Where the first frame starts: behind the extended header, whose size counts itself in version 2.4 only. */
  function FirstPos(buf: seq<byte>, major: byte, flags: byte): nat {
    if flags / 64 % 2 == 1 && major >= 3 && |buf| >= 4 then
      if major == 4 then SyncSafe(buf[0], buf[1], buf[2], buf[3]) else 4 + BE(buf[..4])
    else 0
  }

  /** The frame at pos; None at the end of the tag, in padding, or where the bytes read end inside the frame. */
  function FrameAt(buf: seq<byte>, major: byte, declared: nat, pos: nat): (r: Option<Frame>)
    ensures r.Some? ==> r.value.data != [] && pos + HeaderLen(major) + |r.value.data| <= |buf|
  {
    if pos >= declared || pos + HeaderLen(major) > |buf| || buf[pos] == 0 then None
    else
      var h, at := buf[pos..pos + HeaderLen(major)], pos + HeaderLen(major);
      var size := FrameSize(h, major);
      if size == 0 || at + size > |buf| then None else Some(Frame(h[..IdLen(major)], buf[at..at + size]))
  }

  function Next(pos: nat, major: byte, frame: Frame): nat {
    pos + HeaderLen(major) + |frame.data|
  }

  function Walk(buf: seq<byte>, major: byte, declared: nat, pos: nat): seq<Frame>
    decreases |buf| - pos
  {
    match FrameAt(buf, major, declared, pos)
    case None => []
    case Some(frame) => [frame] + Walk(buf, major, declared, Next(pos, major, frame))
  }

  /** All frames of a tag body as far as it was read. */
  function Frames(buf: seq<byte>, major: byte, declared: nat, flags: byte): seq<Frame> {
    Walk(buf, major, declared, FirstPos(buf, major, flags))
  }

  /* ---------------- what each walker makes of a frame ---------------- */

  function Apply(tags: Tags, frame: Frame, major: byte): Tags {
    if Wanted(frame.id, major) && |frame.data| < 4096 then ApplyTag(tags, frame.id, DecodeText(frame.data)) else tags
  }

  function Fold(frames: seq<Frame>, major: byte): Tags {
    if frames == [] then NO_TAGS else Apply(Fold(frames[..|frames| - 1], major), frames[|frames| - 1], major)
  }

  function LyricOf(frame: Frame): Option<Lyrics.Lyric> {
    if frame.id == Ascii("USLT") || frame.id == Ascii("ULT") then Lyrics.UsltOf(frame.data)
    else if frame.id == Ascii("SYLT") || frame.id == Ascii("SLT") then Lyrics.SyltOf(frame.data)
    else None
  }

  function LyricsIn(frames: seq<Frame>): seq<Lyrics.Lyric> {
    if frames == [] then []
    else
      LyricsIn(frames[..|frames| - 1]) + match LyricOf(frames[|frames| - 1]) case Some(l) => [l] case None => []
  }

  /* ---------------- the walkers ---------------- */

  lemma FoldSnoc(frames: seq<Frame>, frame: Frame, major: byte)
    ensures Fold(frames + [frame], major) == Apply(Fold(frames, major), frame, major)
    ensures LyricsIn(frames + [frame]) == LyricsIn(frames) + match LyricOf(frame) case Some(l) => [l] case None => []
  {
    hide Apply, LyricOf;
    assert (frames + [frame])[..|frames|] == frames;
  }

  lemma FrameHeader(buf: seq<byte>, major: byte, declared: nat, pos: nat)
    requires pos < declared && pos + HeaderLen(major) <= |buf| && buf[pos] != 0
    ensures var at := pos + HeaderLen(major);
      var h := buf[pos..at];
      var end := at + FrameSize(h, major);
      FrameAt(buf, major, declared, pos) ==
        if FrameSize(h, major) == 0 || end > |buf| then None else Some(Frame(h[..IdLen(major)], buf[at..end]))
  {
    hide FrameSize;
  }

  lemma NoFrame(buf: seq<byte>, major: byte, declared: nat, pos: nat)
    requires pos >= declared || pos + HeaderLen(major) > |buf| || buf[pos] == 0
    ensures FrameAt(buf, major, declared, pos) == None
  {
  }

  lemma WalkEnds(buf: seq<byte>, major: byte, declared: nat, pos: nat, seen: seq<Frame>)
    ensures FrameAt(buf, major, declared, pos) == None ==> seen + Walk(buf, major, declared, pos) == seen
  {
  }

  lemma WalkGoesOn(buf: seq<byte>, major: byte, declared: nat, pos: nat, seen: seq<Frame>, frame: Frame)
    requires FrameAt(buf, major, declared, pos) == Some(frame)
    ensures seen + Walk(buf, major, declared, pos) ==
      (seen + [frame]) + Walk(buf, major, declared, Next(pos, major, frame))
  {
    hide FrameAt;
  }

  /** parseID3v2Frames */
  method ParseFrames(buf: seq<byte>, major: byte, declared: nat, flags: byte) returns (tags: Tags)
    ensures tags == Fold(Frames(buf, major, declared, flags), major)
  {
    hide Walk, Fold, FrameAt, FrameSize, Wanted, DecodeText, ApplyTag, FirstPos, LyricsIn, HeaderLen, IdLen, LyricOf;
    var pos := FirstPos(buf, major, flags);
    ghost var all, seen := Walk(buf, major, declared, pos), [];
    tags := NO_TAGS;
    FoldNone(major);
    while true
      invariant all == seen + Walk(buf, major, declared, pos) && tags == Fold(seen, major)
      decreases |buf| - pos
    {
      WalkEnds(buf, major, declared, pos, seen);
      if pos >= declared || pos + HeaderLen(major) > |buf| || buf[pos] == 0 {
        NoFrame(buf, major, declared, pos);
        break;
      }
      FrameHeader(buf, major, declared, pos);
      var hdr := buf[pos..pos + HeaderLen(major)];
      var frameID, frameSize := hdr[..IdLen(major)], FrameSize(hdr, major);
      if frameSize == 0 {
        break;
      }
      pos := pos + HeaderLen(major);
      var end := pos + frameSize;
      if Wanted(frameID, major) && frameSize < 4096 {
        if end > |buf| {
          break;
        }
        tags := ApplyTag(tags, frameID, DecodeText(buf[pos..end]));
      }
      if end > |buf| {
        break;
      }
      ghost var frame := Frame(frameID, buf[pos..end]);
      FoldSnoc(seen, frame, major);
      WalkGoesOn(buf, major, declared, pos - HeaderLen(major), seen, frame);
      seen := seen + [frame];
      pos := end;
    }
    assert all == seen;
  }

  lemma FoldNone(major: byte)
    ensures Fold([], major) == NO_TAGS && LyricsIn([]) == []
  {
  }

  method ParseLyric(frame: Frame) returns (r: Option<Lyrics.Lyric>)
    ensures r == LyricOf(frame)
  {
    hide Lyrics.UsltOf, Lyrics.SyltOf;
    if frame.id == Ascii("USLT") || frame.id == Ascii("ULT") {
      r := Lyrics.ParseUSLT(frame.data);
    } else if frame.id == Ascii("SYLT") || frame.id == Ascii("SLT") {
      r := Lyrics.ParseSYLT(frame.data);
    } else {
      r := None;
    }
  }

  /** parseLyricsFrames */
  method ParseLyricsFrames(buf: seq<byte>, major: byte, declared: nat, flags: byte) returns (lyrics: seq<Lyrics.Lyric>)
    ensures lyrics == LyricsIn(Frames(buf, major, declared, flags))
  {
    hide Walk, Fold, FrameAt, FrameSize, FirstPos, HeaderLen, IdLen, LyricOf, Apply, LyricsIn;
    var pos := FirstPos(buf, major, flags);
    ghost var all, seen := Walk(buf, major, declared, pos), [];
    lyrics := [];
    FoldNone(major);
    while true
      invariant all == seen + Walk(buf, major, declared, pos) && lyrics == LyricsIn(seen)
      decreases |buf| - pos
    {
      WalkEnds(buf, major, declared, pos, seen);
      if pos >= declared || pos + HeaderLen(major) > |buf| || buf[pos] == 0 {
        NoFrame(buf, major, declared, pos);
        break;
      }
      FrameHeader(buf, major, declared, pos);
      var hdr := buf[pos..pos + HeaderLen(major)];
      var frameSize := FrameSize(hdr, major);
      if frameSize == 0 {
        break;
      }
      pos := pos + HeaderLen(major);
      var end := pos + frameSize;
      if end > |buf| {
        break;
      }
      var frame := Frame(hdr[..IdLen(major)], buf[pos..end]);
      var lyric := ParseLyric(frame);
      if lyric.Some? {
        lyrics := lyrics + [lyric.value];
      }
      FoldSnoc(seen, frame, major);
      WalkGoesOn(buf, major, declared, pos - HeaderLen(major), seen, frame);
      seen := seen + [frame];
      pos := end;
    }
    assert all == seen;
  }

  /* ---------------- the capped reads ---------------- */

  datatype Read = Read(tags: Tags, tagSize: nat)

  predicate IsTag(f: seq<byte>) {
    |f| >= 10 && f[..3] == Ascii("ID3") && 2 <= f[3] <= 4
  }

  function Declared(f: seq<byte>): nat
    requires |f| >= 10
  {
    SyncSafe(f[6], f[7], f[8], f[9])
  }

  /** The bytes of the tag body among the first cap bytes behind the header. */
  function BodyWithin(f: seq<byte>, cap: nat): (body: seq<byte>)
    requires |f| >= 10
    ensures |body| <= cap && |body| <= Declared(f)
  {
    var n := if Declared(f) < cap then Declared(f) else cap;
    if 10 + n < |f| then f[10..10 + n] else f[10..]
  }

  function FramesRead(f: seq<byte>, cap: nat): seq<Frame>
    requires |f| >= 10
  {
    Frames(BodyWithin(f, cap), f[3], Declared(f), f[5])
  }

  function TagsOf(f: seq<byte>): Option<Read> {
    if !IsTag(f) then None else Some(Read(Fold(FramesRead(f, 4096), f[3]), 10 + Declared(f)))
  }

  /** readID3v2 */
  method ReadTags(f: seq<byte>) returns (r: Option<Read>)
    ensures r == TagsOf(f)
  {
    hide Fold, Frames, SyncSafe, Ascii;
    var n := if |f| < READ_CAP then |f| else READ_CAP;
    if n < 10 {
      return None;
    }
    var buf := f[..n];
    assert buf[..3] == f[..3];
    if buf[..3] != Ascii("ID3") {
      return None;
    }
    var major := buf[3];
    if major < 2 || major > 4 {
      return None;
    }
    var rawTagSize := SyncSafe(buf[6], buf[7], buf[8], buf[9]);
    var body := buf[10..n];
    assert body == f[10..n];
    if |body| > rawTagSize {
      body := body[..rawTagSize];
      assert body == f[10..10 + rawTagSize];
    }
    assert body == BodyWithin(f, 4096);
    var tags := ParseFrames(body, major, rawTagSize, buf[5]);
    return Some(Read(tags, 10 + rawTagSize));
  }

  /** The lyrics of a file; None for a file too short for a header. */
  function LyricsOf(f: seq<byte>): Option<seq<Lyrics.Lyric>> {
    if |f| < 10 then None else if !IsTag(f) then Some([]) else Some(LyricsIn(FramesRead(f, LYRICS_CAP)))
  }

  /** ReadID3v2Lyrics */
  method ReadLyrics(f: seq<byte>) returns (r: Option<seq<Lyrics.Lyric>>)
    ensures r == LyricsOf(f)
  {
    hide LyricsIn, Frames, SyncSafe, Ascii;
    if |f| < 10 {
      return None;
    }
    var hdr := f[..10];
    assert hdr[..3] == f[..3];
    if hdr[..3] != Ascii("ID3") {
      return Some([]);
    }
    var major := hdr[3];
    if major < 2 || major > 4 {
      return Some([]);
    }
    var rawTagSize := SyncSafe(hdr[6], hdr[7], hdr[8], hdr[9]);
    var readSize := rawTagSize;
    if readSize > LYRICS_CAP {
      readSize := LYRICS_CAP;
    }
    var n := if readSize < |f| - 10 then readSize else |f| - 10;
    assert f[10..10 + n] == BodyWithin(f, LYRICS_CAP);
    var lyrics := ParseLyricsFrames(f[10..10 + n], major, rawTagSize, hdr[5]);
    return Some(lyrics);
  }

  /* ---------------- reading less sees a prefix of the frames ---------------- */

  lemma FrameInPrefix(buf: seq<byte>, k: nat, major: byte, declared: nat, pos: nat)
    requires k <= |buf|
    ensures var r := FrameAt(buf[..k], major, declared, pos); r.Some? ==> FrameAt(buf, major, declared, pos) == r
  {
    var prefix, at := buf[..k], pos + HeaderLen(major);
    if FrameAt(prefix, major, declared, pos).Some? {
      hide FrameSize;
      assert prefix[pos..at] == buf[pos..at];
      var size := FrameSize(buf[pos..at], major);
      assert prefix[at..at + size] == buf[at..at + size];
    }
  }

  lemma {:induction false} WalkInPrefix(buf: seq<byte>, k: nat, major: byte, declared: nat, pos: nat)
    requires k <= |buf|
    ensures Walk(buf[..k], major, declared, pos) <= Walk(buf, major, declared, pos)
    decreases |buf| - pos
  {
    hide FrameAt;
    FrameInPrefix(buf, k, major, declared, pos);
    var r := FrameAt(buf[..k], major, declared, pos);
    if r.Some? {
      WalkInPrefix(buf, k, major, declared, Next(pos, major, r.value));
    }
  }

  /** Cutting a tag body anywhere leaves a prefix of its frames, whatever the bytes. */
  lemma FramesInPrefix(buf: seq<byte>, k: nat, major: byte, declared: nat, flags: byte)
    requires k <= |buf|
    ensures Frames(buf[..k], major, declared, flags) <= Frames(buf, major, declared, flags)
  {
    hide FrameAt;
    var prefix := buf[..k];
    if k < 4 {
      NoFrame(prefix, major, declared, FirstPos(prefix, major, flags));
      WalkEnds(prefix, major, declared, FirstPos(prefix, major, flags), []);
    } else {
      assert prefix[..4] == buf[..4];
      WalkInPrefix(buf, k, major, declared, FirstPos(buf, major, flags));
    }
  }

  /** The scanner sees a prefix of the frames the lyrics reader sees. */
  lemma ScannerSeesPrefix(f: seq<byte>, small: nat, large: nat)
    requires |f| >= 10 && small <= large
    ensures FramesRead(f, small) <= FramesRead(f, large)
  {
    hide Frames, Declared;
    var body := BodyWithin(f, large);
    var k := |BodyWithin(f, small)|;
    assert k <= |body| && body[..k] == BodyWithin(f, small);
    FramesInPrefix(body, k, f[3], Declared(f), f[5]);
  }

  /* ---------------- the encoder ---------------- */

  /** A frame as it is written: with its flags, which versions 2.3 and 2.4 have. */
  datatype Written = Written(frame: Frame, flags: seq<byte>)

  function SizeLimit(major: byte): nat {
    if major == 2 then 0x100_0000 else if major == 4 then 0x1000_0000 else 0x1_0000_0000
  }

  ghost predicate ValidFrame(w: Written, major: byte) {
    && |w.frame.id| == (if major == 2 then 3 else 4) && w.frame.id[0] != 0
    && |w.flags| == (if major == 2 then 0 else 2)
    && 0 < |w.frame.data| < SizeLimit(major)
  }

  function SizeBytes(n: nat, major: byte): (s: seq<byte>)
    ensures |s| == IdLen(major)
  {
    if major == 2 then BEBytes(n, 3) else if major == 4 then SyncSafeBytes(n) else BEBytes(n, 4)
  }

  function FrameHeaderBytes(w: Written, major: byte): seq<byte> {
    w.frame.id + SizeBytes(|w.frame.data|, major) + w.flags
  }

  function EncodedFrames(ws: seq<Written>, major: byte): seq<byte> {
    if ws == [] then [] else FrameHeaderBytes(ws[0], major) + ws[0].frame.data + EncodedFrames(ws[1..], major)
  }

  /** The extended header: its size is synchsafe and counts itself in version 2.4 (section 3.2 of
      ID3v2.4.0-structure), plain and without itself in version 2.3. */
  function ExtHeader(ext: Option<seq<byte>>, major: byte): seq<byte> {
    match ext
    case None => []
    case Some(e) => if major == 4 then SyncSafeBytes(4 + |e|) + e else BEBytes(|e|, 4) + e
  }

  function Body(ext: Option<seq<byte>>, ws: seq<Written>, padding: nat, major: byte): seq<byte> {
    ExtHeader(ext, major) + (EncodedFrames(ws, major) + Lyrics.Zeros(padding))
  }

  ghost predicate ValidTag(ext: Option<seq<byte>>, ws: seq<Written>, major: byte, flags: byte) {
    && 2 <= major <= 4
    && (forall k | 0 <= k < |ws| :: ValidFrame(ws[k], major))
    && match ext
       case None => major == 2 || flags / 64 % 2 == 0
       case Some(e) => major >= 3 && flags / 64 % 2 == 1 && 4 + |e| < 0x1000_0000
  }

  /** The frames that lie wholly in the first `room` bytes. */
  function Within(ws: seq<Written>, room: int, major: byte): seq<Frame> {
    if ws == [] || Length(ws[0], major) > room then []
    else [ws[0].frame] + Within(ws[1..], room - Length(ws[0], major), major)
  }

  /** A frame with its header of 6 bytes, or from version 2.3 on 10. */
  function Length(w: Written, major: byte): nat {
    (if major == 2 then 6 else 10) + |w.frame.data|
  }

  lemma LengthIs(w: Written, major: byte)
    ensures Length(w, major) == HeaderLen(major) + |w.frame.data|
  {
  }

  lemma HeaderReads(w: Written, major: byte)
    requires 2 <= major <= 4 && ValidFrame(w, major)
    ensures var h := FrameHeaderBytes(w, major);
      |h| == HeaderLen(major) && h[0] != 0 && h[..IdLen(major)] == w.frame.id &&
        FrameSize(h, major) == |w.frame.data| > 0
  {
    var n, h := |w.frame.data|, FrameHeaderBytes(w, major);
    SizeReads(n, major);
    hide SyncSafe, BE, BEBytes, SyncSafeBytes, SizeBytes;
    assert h[IdLen(major)..2 * IdLen(major)] == SizeBytes(n, major);
  }

  lemma SizeReads(n: nat, major: byte)
    requires 2 <= major <= 4 && n < SizeLimit(major)
    ensures var s := SizeBytes(n, major);
      n == if major == 4 then SyncSafe(s[0], s[1], s[2], s[3]) else BE(s)
  {
    if major == 2 {
      assert Pow256(3) == 0x100_0000;
      BERoundTrip(n, 3);
    } else if major == 4 {
      SyncSafeRoundTrip(n);
    } else {
      assert Pow256(4) == 0x1_0000_0000;
      BERoundTrip(n, 4);
    }
  }

  lemma FrameIn(b: seq<byte>, k: nat, pos: nat, w: Written, major: byte, rest: seq<byte>)
    requires 2 <= major <= 4 && ValidFrame(w, major) && pos <= |b| && k <= |b|
    requires b[pos..] == FrameHeaderBytes(w, major) + w.frame.data + rest
    ensures var next := pos + HeaderLen(major) + |w.frame.data|;
      && next <= |b| && b[next..] == rest
      && FrameAt(b[..k], major, |b|, pos) == if next <= k then Some(w.frame) else None
  {
    hide FrameHeaderBytes, HeaderLen, IdLen, FrameSize, ValidFrame, FrameAt;
    HeaderReads(w, major);
    var h, data, at := FrameHeaderBytes(w, major), w.frame.data, pos + HeaderLen(major);
    var next, buf := at + |data|, b[..k];
    Parts(b, pos, h, data, rest);
    if at <= k {
      Inside(b, k, pos, at);
      assert buf[pos..at][0] == buf[pos];
      FrameHeader(buf, major, |b|, pos);
      if next <= k {
        Inside(b, k, at, next);
      }
    } else {
      NoFrame(buf, major, |b|, pos);
    }
  }

  lemma Parts(b: seq<byte>, pos: nat, h: seq<byte>, data: seq<byte>, rest: seq<byte>)
    requires pos <= |b| && b[pos..] == h + data + rest
    ensures var at, next := pos + |h|, pos + |h| + |data|;
      next <= |b| && b[pos..at] == h && b[at..next] == data && b[next..] == rest
  {
    var t := b[pos..];
    assert |t| == |h| + |data| + |rest|;
    assert t[..|h|] == h && t[|h|..|h| + |data|] == data && t[|h| + |data|..] == rest;
  }

  lemma Inside(b: seq<byte>, k: nat, i: nat, j: nat)
    requires i <= j <= k <= |b|
    ensures b[..k][i..j] == b[i..j]
  {
  }

  lemma {:induction false} WalkEncoded(b: seq<byte>, k: nat, pos: nat, ws: seq<Written>, padding: nat, major: byte)
    requires 2 <= major <= 4 && pos <= |b| && k <= |b| && forall i | 0 <= i < |ws| :: ValidFrame(ws[i], major)
    requires b[pos..] == EncodedFrames(ws, major) + Lyrics.Zeros(padding)
    ensures Walk(b[..k], major, |b|, pos) == Within(ws, k - pos, major)
    decreases ws
  {
    hide FrameAt, FrameHeaderBytes, HeaderLen, ValidFrame;
    if ws == [] {
      if pos < |b| {
        assert b[pos..][0] == 0;
      }
      NoFrame(b[..k], major, |b|, pos);
    } else {
      LengthIs(ws[0], major);
      var rest := EncodedFrames(ws[1..], major) + Lyrics.Zeros(padding);
      assert b[pos..] == FrameHeaderBytes(ws[0], major) + ws[0].frame.data + rest;
      FrameIn(b, k, pos, ws[0], major, rest);
      var next := Next(pos, major, ws[0].frame);
      if next <= k {
        WalkEncoded(b, k, next, ws[1..], padding, major);
      }
    }
  }

  lemma ExtSkipped(ext: Option<seq<byte>>, ws: seq<Written>, padding: nat, major: byte, flags: byte, k: nat)
    requires ValidTag(ext, ws, major, flags) && 4 <= k <= |Body(ext, ws, padding, major)|
    ensures FirstPos(Body(ext, ws, padding, major)[..k], major, flags) == |ExtHeader(ext, major)|
  {
    if ext.Some? {
      var e, b := ext.value, Body(ext, ws, padding, major);
      assert b[..k][..4] == b[..4];
      if major == 4 {
        SyncSafeRoundTrip(4 + |e|);
        assert b[..4] == SyncSafeBytes(4 + |e|);
      } else {
        assert Pow256(4) == 0x1_0000_0000;
        BERoundTrip(|e|, 4);
        assert b[..4] == BEBytes(|e|, 4);
      }
    }
  }

  /** Any part of an encoded tag body from its start gives exactly the frames lying wholly in it. */
  lemma PrefixGivesFrames(ext: Option<seq<byte>>, ws: seq<Written>, padding: nat, major: byte, flags: byte, k: nat)
    requires ValidTag(ext, ws, major, flags) && k <= |Body(ext, ws, padding, major)|
    ensures var b := Body(ext, ws, padding, major);
      Frames(b[..k], major, |b|, flags) == Within(ws, k - |ExtHeader(ext, major)|, major)
  {
    var b := Body(ext, ws, padding, major);
    var pos := |ExtHeader(ext, major)|;
    assert b[pos..] == EncodedFrames(ws, major) + Lyrics.Zeros(padding);
    if k < 4 {
      NoFrame(b[..k], major, |b|, FirstPos(b[..k], major, flags));
      WalkEnds(b[..k], major, |b|, FirstPos(b[..k], major, flags), []);
    } else {
      ExtSkipped(ext, ws, padding, major, flags, k);
      WalkEncoded(b, k, pos, ws, padding, major);
    }
  }

  function TagHeader(major: byte, revision: byte, flags: byte, size: nat): (h: seq<byte>)
    ensures |h| == 10
  {
    Ascii("ID3") + [major, revision, flags] + SyncSafeBytes(size)
  }

  lemma HeaderIs(f: seq<byte>, major: byte, revision: byte, flags: byte, body: seq<byte>, audio: seq<byte>, cap: nat)
    requires |body| < 0x1000_0000 && f == TagHeader(major, revision, flags, |body|) + body + audio
    ensures |f| >= 10 && f[..3] == Ascii("ID3") && f[3] == major && f[5] == flags && Declared(f) == |body|
    ensures BodyWithin(f, cap) == body[..if |body| < cap then |body| else cap]
  {
    var h := TagHeader(major, revision, flags, |body|);
    SyncSafeRoundTrip(|body|);
    assert f[..3] == Ascii("ID3") && f[6..10] == SyncSafeBytes(|body|);
    assert f[6] == f[6..10][0] && f[7] == f[6..10][1] && f[8] == f[6..10][2] && f[9] == f[6..10][3];
    var n := if |body| < cap then |body| else cap;
    hide SyncSafe, SyncSafeBytes, TagHeader, Ascii;
    assert f[10..10 + n] == body[..n];
  }

  lemma MajorOf(ext: Option<seq<byte>>, ws: seq<Written>, major: byte, flags: byte)
    requires ValidTag(ext, ws, major, flags)
    ensures 2 <= major <= 4
  {
  }

  lemma CappedRead(f: seq<byte>, ext: Option<seq<byte>>, ws: seq<Written>, padding: nat, major: byte, revision: byte,
                   flags: byte, audio: seq<byte>, cap: nat)
    requires ValidTag(ext, ws, major, flags) && |Body(ext, ws, padding, major)| < 0x1000_0000
    requires var body := Body(ext, ws, padding, major); f == TagHeader(major, revision, flags, |body|) + body + audio
    ensures IsTag(f) && f[3] == major && Declared(f) == |Body(ext, ws, padding, major)|
    ensures var n := |Body(ext, ws, padding, major)|;
      FramesRead(f, cap) == Within(ws, (if n < cap then n else cap) - |ExtHeader(ext, major)|, major)
  {
    hide *;
    var body := Body(ext, ws, padding, major);
    MajorOf(ext, ws, major, flags);
    ReadBody(f, major, revision, flags, body, audio, cap);
    PrefixGivesFrames(ext, ws, padding, major, flags, if |body| < cap then |body| else cap);
  }

  lemma ReadBody(f: seq<byte>, major: byte, revision: byte, flags: byte, body: seq<byte>, audio: seq<byte>, cap: nat)
    requires |body| < 0x1000_0000 && f == TagHeader(major, revision, flags, |body|) + body + audio && 2 <= major <= 4
    ensures IsTag(f) && |f| >= 10 && f[3] == major && Declared(f) == |body|
    ensures FramesRead(f, cap) == Frames(body[..if |body| < cap then |body| else cap], major, |body|, flags)
  {
    hide *;
    HeaderIs(f, major, revision, flags, body, audio, cap);
    TagIs(f, cap);
  }

  lemma TagIs(f: seq<byte>, cap: nat)
    requires |f| >= 10 && f[..3] == Ascii("ID3") && 2 <= f[3] <= 4
    ensures IsTag(f) && FramesRead(f, cap) == Frames(BodyWithin(f, cap), f[3], Declared(f), f[5])
  {
    hide Frames, BodyWithin, Declared;
  }

  /** Reading a file undoes the encoder: the scanner's tags are the fold over the frames lying wholly in the first
      4096 bytes of the tag, the lyrics those of the first 512 KB, and the audio starts behind the tag. */
  lemma ReadUndoesEncoder(f: seq<byte>, ext: Option<seq<byte>>, ws: seq<Written>, padding: nat, major: byte,
                          revision: byte, flags: byte, audio: seq<byte>)
    requires ValidTag(ext, ws, major, flags) && |Body(ext, ws, padding, major)| < 0x1000_0000
    requires var body := Body(ext, ws, padding, major); f == TagHeader(major, revision, flags, |body|) + body + audio
    ensures var n, skip := |Body(ext, ws, padding, major)|, |ExtHeader(ext, major)|;
      && TagsOf(f) == Some(Read(Fold(Within(ws, (if n < 4096 then n else 4096) - skip, major), major), 10 + n))
      && LyricsOf(f) == Some(LyricsIn(Within(ws, (if n < 0x8_0000 then n else 0x8_0000) - skip, major)))
  {
    hide *;
    CapIs();
    CappedRead(f, ext, ws, padding, major, revision, flags, audio, 4096);
    CappedRead(f, ext, ws, padding, major, revision, flags, audio, LYRICS_CAP);
    IsTagLength(f);
    ReadParts(f);
  }

  /** A file too short for a header has neither tags nor lyrics; one without a tag of version 2.2, 2.3 or 2.4 has no
      tags and an empty list of lyrics. */
  lemma Untagged(f: seq<byte>)
    ensures |f| < 10 ==> TagsOf(f) == None && LyricsOf(f) == None
    ensures |f| >= 10 && (f[..3] != [73, 68, 51] || f[3] < 2 || f[3] > 4) ==>
      TagsOf(f) == None && LyricsOf(f) == Some([])
  {
    AsciiIs("ID3");
    assert Ascii("ID3") == [73, 68, 51];
    hide FramesRead, LyricsIn, Fold, Ascii;
  }

  lemma CapIs()
    ensures LYRICS_CAP == 0x8_0000
  {
  }

  lemma IsTagLength(f: seq<byte>)
    requires IsTag(f)
    ensures |f| >= 10
  {
  }

  lemma ReadParts(f: seq<byte>)
    requires IsTag(f) && |f| >= 10
    ensures TagsOf(f) == Some(Read(Fold(FramesRead(f, 4096), f[3]), 10 + Declared(f)))
    ensures LyricsOf(f) == Some(LyricsIn(FramesRead(f, LYRICS_CAP)))
  {
  }

  /* ---------------- the last frame wins ---------------- */

  /** The frame has a text of at least `min` bytes for the field with these ids, and the walker takes it. */
  ghost predicate Sets(frame: Frame, major: byte, ids: set<seq<byte>>, min: nat) {
    frame.id in ids && Wanted(frame.id, major) && |frame.data| < 4096 && |DecodeText(frame.data)| >= min
  }

  /** The text of the last frame that sets the field. */
  ghost function Value(frames: seq<Frame>, major: byte, ids: set<seq<byte>>, min: nat): Option<seq<byte>> {
    if frames == [] then None
    else if Sets(frames[|frames| - 1], major, ids, min) then Some(DecodeText(frames[|frames| - 1].data))
    else Value(frames[..|frames| - 1], major, ids, min)
  }

  /** Frame k sets the field, and no later frame does. */
  ghost predicate LastSetting(frames: seq<Frame>, major: byte, ids: set<seq<byte>>, min: nat, k: nat) {
    && k < |frames| && Sets(frames[k], major, ids, min)
    && forall j | k < j < |frames| :: !Sets(frames[j], major, ids, min)
  }

  lemma {:induction false} ValueIs(frames: seq<Frame>, major: byte, ids: set<seq<byte>>, min: nat)
    ensures Value(frames, major, ids, min).None? ==> forall j | 0 <= j < |frames| :: !Sets(frames[j], major, ids, min)
    ensures Value(frames, major, ids, min).Some? ==>
      exists k: nat ::
        LastSetting(frames, major, ids, min, k) && Value(frames, major, ids, min).value == DecodeText(frames[k].data)
  {
    hide Sets, DecodeText;
    if frames != [] {
      var n := |frames| - 1;
      ValueIs(frames[..n], major, ids, min);
      if Sets(frames[n], major, ids, min) {
        assert LastSetting(frames, major, ids, min, n);
      } else if Value(frames[..n], major, ids, min).Some? {
        var k: nat :| LastSetting(frames[..n], major, ids, min, k) &&
          Value(frames[..n], major, ids, min).value == DecodeText(frames[..n][k].data);
        assert frames[..n][k] == frames[k] && LastSetting(frames, major, ids, min, k);
      }
    }
  }

  lemma Letters(id: seq<byte>)
    ensures id in TITLES ==> |id| >= 3 && (id[1] == 73 || id[1] == 84)
    ensures id in ARTISTS ==> |id| >= 3 && id[1] == 80 && (id[2] == 69 || id[2] == 49)
    ensures id in ALBUMS ==> |id| >= 3 && id[1] == 65
    ensures id in GENRES ==> |id| >= 3 && id[1] == 67
    ensures id in TRACKS ==> |id| >= 3 && id[1] == 82
    ensures id in DISCS ==> |id| >= 3 && id[1] == 80 && (id[2] == 79 || id[2] == 65)
    ensures id in YEARS ==> |id| >= 3 && (id[1] == 68 || id[1] == 89)
  {
  }

  lemma ApplySets(tags: Tags, frame: Frame, major: byte)
    ensures var r, val := Apply(tags, frame, major), DecodeText(frame.data);
      && r.title == (if Sets(frame, major, TITLES, 1) then val else tags.title)
      && r.artist == (if Sets(frame, major, ARTISTS, 1) then val else tags.artist)
      && r.album == (if Sets(frame, major, ALBUMS, 1) then val else tags.album)
      && r.genre == (if Sets(frame, major, GENRES, 1) then CleanGenre(val) else tags.genre)
      && r.track == (if Sets(frame, major, TRACKS, 1) then TrackDisc(val) else tags.track)
      && r.disc == (if Sets(frame, major, DISCS, 1) then TrackDisc(val) else tags.disc)
      && r.year == (if Sets(frame, major, YEARS, 4) then Atoi(val[..4]) else tags.year)
  {
    hide Wanted, DecodeText, Ascii, TrackDisc, Atoi, CleanGenre;
    Letters(frame.id);
    hide TITLES, ARTISTS, ALBUMS, GENRES, TRACKS, DISCS, YEARS;
  }

  ghost function TextOr(v: Option<seq<byte>>): seq<byte> {
    if v.Some? then v.value else []
  }

  ghost function NumberOr(v: Option<seq<byte>>): int {
    if v.Some? then TrackDisc(v.value) else 0
  }

  ghost function YearOr(v: Option<seq<byte>>): int {
    if v.Some? && |v.value| >= 4 then Atoi(v.value[..4]) else 0
  }

  /** For every field the last frame wins that is wanted, short enough and not empty; a year needs four bytes. */
  lemma {:induction false} LastWins(frames: seq<Frame>, major: byte)
    ensures var r := Fold(frames, major);
      && r.title == TextOr(Value(frames, major, TITLES, 1))
      && r.artist == TextOr(Value(frames, major, ARTISTS, 1))
      && r.album == TextOr(Value(frames, major, ALBUMS, 1))
      && r.genre == CleanGenre(TextOr(Value(frames, major, GENRES, 1)))
      && r.track == NumberOr(Value(frames, major, TRACKS, 1))
      && r.disc == NumberOr(Value(frames, major, DISCS, 1))
      && r.year == YearOr(Value(frames, major, YEARS, 4))
    decreases frames
  {
    assert CleanGenre([]) == [];
    hide Sets, DecodeText, Apply, CleanGenre, TrackDisc, Atoi;
    if frames != [] {
      var n := |frames| - 1;
      LastWins(frames[..n], major);
      ApplySets(Fold(frames[..n], major), frames[n], major);
      SetLength(frames[n], major);
    }
  }

  lemma SetLength(frame: Frame, major: byte)
    ensures Sets(frame, major, YEARS, 4) ==> |DecodeText(frame.data)| >= 4
  {
    hide DecodeText, Wanted;
  }

  /* ---------------- numbers ---------------- */

  /** "(17)Rock" gives "Rock" and "(17)" gives "17"; a text with no whole reference in front stays. */
  lemma GenreForms(reference: seq<byte>, rest: seq<byte>)
    requires 41 !in reference
    ensures CleanGenre([40] + reference + [41] + rest) == if rest == [] then reference else rest
    ensures rest == [] || rest[0] != 40 ==> CleanGenre(rest) == rest
    ensures CleanGenre([40] + reference) == [40] + reference
  {
    var s := [40] + reference + [41] + rest;
    IndexOfFirst([40] + reference, 41, rest);
    assert s[1..1 + |reference|] == reference && s[2 + |reference|..] == rest;
  }

  lemma {:induction false} IndexOfFirst(before: seq<byte>, b: byte, rest: seq<byte>)
    requires b !in before
    ensures IndexOf(before + [b] + rest, b) == Some(|before|)
  {
    if before != [] {
      assert before[0] in before && (before + [b] + rest)[1..] == before[1..] + [b] + rest;
      IndexOfFirst(before[1..], b, rest);
    }
  }

  /** Decimal digits. */
  function Decimal(n: nat): (s: seq<byte>)
    ensures s != [] && forall i | 0 <= i < |s| :: 48 <= s[i] <= 57
  {
    if n < 10 then [48 + n] else Decimal(n / 10) + [48 + n % 10]
  }

  lemma {:induction false} DigitsAppend(s: seq<byte>, d: byte, m: nat, n: nat)
    requires 48 <= d <= 57 && Digits(s, m) == Some(n) && n * 10 + (d - 48) as int <= MAX_UINT
    requires forall i | 0 <= i < |s| :: 48 <= s[i] <= 57
    ensures Digits(s + [d], m) == Some(n * 10 + (d - 48) as int)
  {
    if s != [] {
      assert (s + [d])[1..] == s[1..] + [d];
      DigitsAppend(s[1..], d, m * 10 + (s[0] - 48) as int, n);
    }
  }

  lemma BeforeSlash(s: seq<byte>, rest: seq<byte>)
    requires IndexOf(s, 47) == None && IndexOf(s + [47] + rest, 47) == Some(|s|)
    ensures TrackDisc(s) == TrackDisc(s + [47] + rest) == Atoi(TrimRight(TrimLeft(s)))
  {
    hide Atoi, TrimLeft, TrimRight, IndexOf;
    assert (s + [47] + rest)[..|s|] == s;
  }

  lemma {:induction false} DigitsOverflow(s: seq<byte>, d: byte, m: nat, n: nat)
    requires 48 <= d <= 57 && Digits(s, m) == Some(n) && n * 10 + (d - 48) as int > MAX_UINT
    requires forall i | 0 <= i < |s| :: 48 <= s[i] <= 57
    ensures Digits(s + [d], m) == Some(MAX_UINT)
  {
    if s != [] {
      assert (s + [d])[1..] == s[1..] + [d];
      if m * 10 + (s[0] - 48) as int <= MAX_UINT {
        DigitsOverflow(s[1..], d, m * 10 + (s[0] - 48) as int, n);
      }
    }
  }

  function Least(a: nat, b: nat): nat {
    if a < b then a else b
  }

  lemma {:induction false} DigitsOfDecimal(n: nat)
    ensures Digits(Decimal(n), 0) == Some(Least(n, MAX_UINT))
  {
    if n >= 10 {
      DigitsOfDecimal(n / 10);
      if n <= MAX_UINT {
        DigitsAppend(Decimal(n / 10), 48 + n % 10, 0, n / 10);
      } else {
        DigitsOverflow(Decimal(n / 10), 48 + n % 10, 0, Least(n / 10, MAX_UINT));
      }
    }
  }

  /** Decimal digits are read as their number, behind a sign or not, up to the largest that fits. */
  lemma AtoiOfDecimal(n: nat)
    ensures Atoi(Decimal(n)) == Atoi([43] + Decimal(n)) == Least(n, 0x7FFF_FFFF_FFFF_FFFF)
    ensures Atoi([45] + Decimal(n)) == 0 - Least(n, 0x8000_0000_0000_0000)
  {
    DigitsOfDecimal(n);
    assert ([43] + Decimal(n))[1..] == ([45] + Decimal(n))[1..] == Decimal(n);
    hide Decimal, Digits;
  }

  lemma {:induction false} DigitsEnd(s: seq<byte>, m: nat, x: byte, rest: seq<byte>)
    requires (forall i | 0 <= i < |s| :: 48 <= s[i] <= 57) && !(48 <= x <= 57)
    requires Digits(s, m).Some? && Digits(s, m).value < MAX_UINT
    ensures Digits(s + [x] + rest, m) == None
  {
    if s != [] {
      assert (s + [x] + rest)[1..] == s[1..] + [x] + rest;
      DigitsEnd(s[1..], m * 10 + (s[0] - 48) as int, x, rest);
    }
  }

  /** Any other text is read as 0. */
  lemma AtoiOfOther(n: nat, x: byte, rest: seq<byte>)
    requires n < MAX_UINT && !(48 <= x <= 57)
    ensures Atoi([]) == Atoi([43]) == Atoi([45]) == 0 && Atoi(Decimal(n) + [x] + rest) == 0
    ensures x != 43 && x != 45 ==> Atoi([x] + rest) == 0
  {
    DigitsOfDecimal(n);
    DigitsEnd(Decimal(n), 0, x, rest);
    assert (Decimal(n) + [x] + rest)[0] == Decimal(n)[0];
    hide Decimal;
  }

  /* ---------------- white space ---------------- */

  /** The scalar values Unicode calls white space. */
  predicate White(r: nat) {
    || 9 <= r <= 13 || r == 32 || r == 0x85 || r == 0xA0 || r == 0x1680 || 0x2000 <= r <= 0x200A
    || r == 0x2028 || r == 0x2029 || r == 0x202F || r == 0x205F || r == 0x3000
  }

  ghost predicate Blank(runes: seq<nat>) {
    forall r | r in runes :: White(r)
  }

  lemma SpaceIff(r: nat)
    requires Scalar(r)
    ensures Space(Utf8Of(r)) <==> White(r)
  {
  }

  /** What is trimmed is the UTF-8 of white space and nothing else. */
  lemma SpaceIsWhite(s: seq<byte>)
    requires Space(s)
    ensures exists r :: White(r) && s == Utf8Of(r)
  {
    if |s| == 1 {
      assert White(s[0] as int) && s == Utf8Of(s[0] as int);
    } else if |s| == 2 {
      assert White(s[1] as int) && s == Utf8Of(s[1] as int);
    } else if s == [0xE1, 0x9A, 0x80] {
      assert White(0x1680) && s == Utf8Of(0x1680);
    } else if s == [0xE2, 0x81, 0x9F] {
      assert White(0x205F) && s == Utf8Of(0x205F);
    } else if s == [0xE3, 0x80, 0x80] {
      assert White(0x3000) && s == Utf8Of(0x3000);
    } else {
      GeneralPunctuation(s);
    }
  }

  lemma GeneralPunctuation(s: seq<byte>)
    requires |s| == 3 && s[0] == 0xE2 && s[1] == 0x80 && (0x80 <= s[2] <= 0x8A || s[2] in {0xA8, 0xA9, 0xAF})
    ensures exists r :: White(r) && s == Utf8Of(r)
  {
    var r := 0x2000 + (s[2] as int - 0x80);
    assert r / 0x1000 == 2 && r / 0x40 % 0x40 == 0 && r % 0x40 == s[2] as int - 0x80;
    assert White(r) && s == Utf8Of(r);
  }

  lemma TrimsOne(w: nat, s: seq<byte>)
    requires White(w)
    ensures TrimLeft(Utf8Of(w) + s) == TrimLeft(s) && TrimRight(s + Utf8Of(w)) == TrimRight(s)
  {
    var x := Utf8Of(w);
    SpaceIff(w);
    WhiteBytes(w);
    FrontSpace(x, s);
    BackSpace(s, x);
  }

  /** No white space is the front or the back of another. */
  lemma WhiteBytes(w: nat)
    requires White(w)
    ensures var x := Utf8Of(w);
      && 1 <= |x| <= 3
      && (|x| > 1 ==> !Space(x[..1]) && !Space(x[|x| - 1..]))
      && (|x| > 2 ==> !Space(x[..2]) && !Space(x[1..]))
  {
    var x := Utf8Of(w);
    if |x| > 1 {
      SpaceStarts(x[..1]);
      SpaceStarts(x[|x| - 1..]);
    }
    if |x| > 2 {
      SpaceStarts(x[..2]);
      SpaceStarts(x[1..]);
    }
    hide Space;
  }

  lemma SpaceStarts(s: seq<byte>)
    ensures Space(s) && |s| == 1 ==> s[0] < 0x80
    ensures Space(s) && |s| == 2 ==> s[0] == 0xC2
  {
  }

  lemma {:induction false} TrimLeftBy(t: seq<byte>, k: nat)
    requires 1 <= k <= 3 && k <= |t| && Space(t[..k])
    requires (k >= 2 ==> !Space(t[..1])) && (k >= 3 ==> !Space(t[..2]))
    ensures TrimLeft(t) == TrimLeft(t[k..])
  {
    hide Space;
  }

  lemma {:induction false} TrimRightBy(t: seq<byte>, k: nat)
    requires 1 <= k <= 3 && k <= |t| && Space(t[|t| - k..])
    requires (k >= 2 ==> !Space(t[|t| - 1..])) && (k >= 3 ==> !Space(t[|t| - 2..]))
    ensures TrimRight(t) == TrimRight(t[..|t| - k])
  {
    hide Space;
  }

  lemma FrontSpace(x: seq<byte>, s: seq<byte>)
    requires 1 <= |x| <= 3 && Space(x) && (|x| > 1 ==> !Space(x[..1])) && (|x| > 2 ==> !Space(x[..2]))
    ensures TrimLeft(x + s) == TrimLeft(s)
  {
    hide Space, TrimLeft, TrimRight;
    var t := x + s;
    assert t[..|x|] == x && t[|x|..] == s && t[..1] == x[..1] && (|x| > 1 ==> t[..2] == x[..2]);
    TrimLeftBy(t, |x|);
  }

  lemma BackSpace(s: seq<byte>, x: seq<byte>)
    requires 1 <= |x| <= 3 && Space(x) && (|x| > 1 ==> !Space(x[|x| - 1..])) && (|x| > 2 ==> !Space(x[1..]))
    ensures TrimRight(s + x) == TrimRight(s)
  {
    hide Space, TrimLeft, TrimRight;
    var t := s + x;
    assert t[|s|..] == x && t[..|s|] == s && t[|t| - 1..] == x[|x| - 1..] && (|x| > 1 ==> t[|t| - 2..] == x[|x| - 2..]);
    TrimRightBy(t, |x|);
  }

  lemma {:induction false} TrimsFront(runes: seq<nat>, s: seq<byte>)
    requires Blank(runes)
    ensures TrimLeft(Utf8(runes) + s) == TrimLeft(s)
  {
    hide TrimLeft, Utf8Of, White;
    if runes == [] {
      assert Utf8(runes) + s == s;
    } else {
      var n := |runes| - 1;
      assert runes[n] in runes;
      TrimsOne(runes[n], s);
      TrimsFront(runes[..n], Utf8Of(runes[n]) + s);
      assert Utf8(runes) + s == Utf8(runes[..n]) + (Utf8Of(runes[n]) + s);
    }
  }

  lemma {:induction false} TrimsBack(s: seq<byte>, runes: seq<nat>)
    requires Blank(runes)
    ensures TrimRight(s + Utf8(runes)) == TrimRight(s)
  {
    hide TrimRight, Utf8Of, White;
    if runes == [] {
      assert s + Utf8(runes) == s;
    } else {
      var n := |runes| - 1;
      assert runes[n] in runes;
      TrimsOne(runes[n], s + Utf8(runes[..n]));
      TrimsBack(s, runes[..n]);
      assert s + Utf8(runes) == s + Utf8(runes[..n]) + Utf8Of(runes[n]);
    }
  }

  lemma {:induction false} BlankHasNoSlash(runes: seq<nat>)
    requires Blank(runes)
    ensures 47 !in Utf8(runes)
  {
    if runes != [] {
      var n := |runes| - 1;
      assert runes[n] in runes;
      BlankHasNoSlash(runes[..n]);
    }
  }

  lemma Absent(s: seq<byte>, b: byte)
    requires b !in s
    ensures IndexOf(s, b) == None
  {
  }

  /** "N" and "N/M" give N, whatever white space stands around it, up to the largest number that fits. */
  lemma TrackRoundTrip(before: seq<nat>, n: nat, behind: seq<nat>, rest: seq<byte>)
    requires Blank(before) && Blank(behind)
    ensures var s := Utf8(before) + Decimal(n) + Utf8(behind);
      TrackDisc(s) == TrackDisc(s + [47] + rest) == Least(n, 0x7FFF_FFFF_FFFF_FFFF)
  {
    hide Atoi, TrimLeft, TrimRight, IndexOf, TrackDisc, Utf8, White;
    var d := Decimal(n);
    var s := Utf8(before) + d + Utf8(behind);
    NoSlash(d);
    BlankHasNoSlash(before);
    BlankHasNoSlash(behind);
    Absent(s, 47);
    IndexOfFirst(s, 47, rest);
    NoSpace(d);
    NoSpaceLeft(d + Utf8(behind));
    TrimsFront(before, d + Utf8(behind));
    TrimsBack(d, behind);
    assert s == Utf8(before) + (d + Utf8(behind));
    hide Decimal;
    AtoiOfDecimal(n);
    BeforeSlash(s, rest);
  }

  lemma NoSlash(s: seq<byte>)
    requires forall i | 0 <= i < |s| :: 48 <= s[i] <= 57
    ensures 47 !in s && IndexOf(s, 47) == None
  {
  }

  predicate Digit(b: byte) {
    48 <= b <= 57
  }

  lemma DigitNoSpace(x: seq<byte>)
    requires x != [] && (Digit(x[0]) || Digit(x[|x| - 1]))
    ensures !Space(x)
  {
  }

  lemma NoSpace(s: seq<byte>)
    requires s != [] && Digit(s[0]) && Digit(s[|s| - 1])
    ensures TrimLeft(s) == s && TrimRight(s) == s
  {
    hide *;
    NoSpaceLeft(s);
    NoSpaceRight(s);
  }

  lemma NoSpaceLeft(s: seq<byte>)
    requires s != [] && Digit(s[0])
    ensures TrimLeft(s) == s
  {
    hide Space, Digit, TrimRight;
    forall k | 1 <= k <= |s| ensures !Space(s[..k]) {
      DigitNoSpace(s[..k]);
    }
  }

  lemma NoSpaceRight(s: seq<byte>)
    requires s != [] && Digit(s[|s| - 1])
    ensures TrimRight(s) == s
  {
    hide Space, Digit, TrimLeft, TrimRight;
    DigitNoSpace(s[|s| - 1..]);
    if |s| >= 2 {
      DigitNoSpace(s[|s| - 2..]);
    }
    if |s| >= 3 {
      DigitNoSpace(s[|s| - 3..]);
    }
    TrimRightStays(s);
  }

  lemma TrimRightStays(s: seq<byte>)
    requires |s| >= 1 ==> !Space(s[|s| - 1..])
    requires |s| >= 2 ==> !Space(s[|s| - 2..])
    requires |s| >= 3 ==> !Space(s[|s| - 3..])
    ensures TrimRight(s) == s
  {
    hide Space;
  }

  /* ---------------- which frame holds lyrics ---------------- */

  /** USLT and ULT frames give unsynced lyrics, SYLT and SLT frames synced ones. */
  lemma LyricFrames(encoding: byte, lang: seq<byte>, descriptor: seq<byte>, about: seq<nat>, text: seq<byte>,
                    lines: seq<seq<byte>>, tsFormat: byte, contentType: byte, segments: seq<Lyrics.Segment>,
                    verses: seq<Lyrics.Verse>)
    requires |lang| == 3 && Lyrics.WithoutNul(about) && Lyrics.Writes(descriptor, encoding, about)
    requires lines != [] && forall k | 0 <= k < |lines| :: Lyrics.PlainLine(lines[k])
    requires var t := Lyrics.Joined(lines); Lyrics.Stores(text, encoding, t) && t != [] && t[|t| - 1] != 0
    requires verses != [] && Lyrics.Singable(verses) && Lyrics.WritesAll(segments, encoding, verses)
    ensures var unsynced := Some(Lyrics.Lyric(lang, false, seq(|lines|, i requires 0 <= i < |lines| =>
                                                               Lyrics.Line(-1, lines[i]))));
      var data := Lyrics.EncodedUslt(encoding, lang, descriptor, text);
      LyricOf(Frame(Ascii("USLT"), data)) == LyricOf(Frame(Ascii("ULT"), data)) == unsynced
    ensures var data := Lyrics.EncodedSylt(encoding, lang, tsFormat, contentType, descriptor, segments);
      var r := LyricOf(Frame(Ascii("SYLT"), data));
      && LyricOf(Frame(Ascii("SLT"), data)) == r && r.Some? && r.value == Lyrics.Lyric(lang, true, r.value.lines)
      && Lyrics.Sings(r.value.lines, verses, tsFormat)
  {
    LyricIds();
    hide Lyrics.UsltOf, Lyrics.SyltOf, Lyrics.EncodedUslt, Lyrics.EncodedSylt, Lyrics.Writes, Lyrics.Stores,
         Lyrics.Joined, Lyrics.NulFree, Lyrics.WithoutNul, Lyrics.Singable, Lyrics.WritesAll, Lyrics.Sings, Ascii;
    Lyrics.WrittenDecodes(descriptor, encoding, about);
    Lyrics.UsltRoundTrip(encoding, lang, descriptor, text, lines);
    Lyrics.SungRoundTrip(encoding, lang, tsFormat, contentType, descriptor, segments, about, verses);
  }

  /** No other frame gives lyrics. */
  lemma OtherFrames(frame: Frame)
    requires frame.id !in {[0x55, 0x53, 0x4C, 0x54], [0x55, 0x4C, 0x54], [0x53, 0x59, 0x4C, 0x54], [0x53, 0x4C, 0x54]}
    ensures LyricOf(frame) == None
  {
    AsciiIs("USLT");
    AsciiIs("ULT");
    AsciiIs("SYLT");
    AsciiIs("SLT");
    assert Ascii("USLT") == [0x55, 0x53, 0x4C, 0x54] && Ascii("ULT") == [0x55, 0x4C, 0x54];
    assert Ascii("SYLT") == [0x53, 0x59, 0x4C, 0x54] && Ascii("SLT") == [0x53, 0x4C, 0x54];
    hide Ascii, Lyrics.UsltOf, Lyrics.SyltOf;
  }

  lemma LyricIds()
    ensures {Ascii("USLT"), Ascii("ULT")} !! {Ascii("SYLT"), Ascii("SLT")}
  {
    assert Ascii("USLT")[0] == Ascii("ULT")[0] == 85 && Ascii("SYLT")[0] == Ascii("SLT")[0] == 83;
  }

  /* ---------------- which frame sets what ---------------- */

  /** A text frame in UTF-8. */
  function TextFrame(id: string, text: seq<byte>): Frame {
    Frame(Ascii(id), [3] + text)
  }

  /** A text of a frame that the scanner takes. */
  ghost predicate Taken(text: seq<byte>) {
    0 < |text| < 4095 && text[|text| - 1] != 0
  }

  lemma TakenText(text: seq<byte>)
    requires Taken(text)
    ensures DecodeText([3] + text) == text
  {
    Payload(3, text);
    NothingToTrim(text);
  }

  /** The field an id belongs to. */
  datatype Field = Title | Artist | Album | Genre | Track | Disc | Year

  ghost predicate Belongs(id: seq<byte>, field: Field) {
    match field
    case Title => id in TITLES
    case Artist => id in ARTISTS
    case Album => id in ALBUMS
    case Genre => id in GENRES
    case Track => id in TRACKS
    case Disc => id in DISCS
    case Year => id in YEARS
  }

  ghost predicate Only(id: seq<byte>, field: Field) {
    Belongs(id, field) && forall other | Belongs(id, other) :: other == field
  }

  lemma Belonging(id: seq<byte>, field: Field)
    requires Belongs(id, field)
    ensures Only(id, field)
  {
    Letters(id);
    hide TITLES, ARTISTS, ALBUMS, GENRES, TRACKS, DISCS, YEARS;
  }

  /** What a taken frame does, for an id of one field. */
  lemma FrameSets(tags: Tags, id: string, field: Field, text: seq<byte>, major: byte)
    requires Taken(text) && Belongs(Ascii(id), field)
    ensures var r := Apply(tags, TextFrame(id, text), major);
      if |id| != 4 && major != 2 then r == tags
      else
        && (field.Title? ==> r == tags.(title := text)) && (field.Artist? ==> r == tags.(artist := text))
        && (field.Album? ==> r == tags.(album := text)) && (field.Genre? ==> r == tags.(genre := CleanGenre(text)))
        && (field.Track? ==> r == tags.(track := TrackDisc(text)))
        && (field.Disc? ==> r == tags.(disc := TrackDisc(text)))
        && (field.Year? && |text| >= 4 ==> r == tags.(year := Atoi(text[..4])))
  {
    TakenText(text);
    Belonging(Ascii(id), field);
    ApplySets(tags, TextFrame(id, text), major);
    WantedIs(Ascii(id), field, major);
    hide DecodeText, Atoi, TrackDisc, CleanGenre, Ascii, TITLES, ARTISTS, ALBUMS, GENRES, TRACKS, DISCS, YEARS,
         Wanted, Apply;
    assert forall f: Field | Belongs(Ascii(id), f) :: f == field;
    assert Belongs(Ascii(id), Title) <==> Ascii(id) in TITLES;
    assert Belongs(Ascii(id), Artist) <==> Ascii(id) in ARTISTS;
    assert Belongs(Ascii(id), Album) <==> Ascii(id) in ALBUMS;
    assert Belongs(Ascii(id), Genre) <==> Ascii(id) in GENRES;
    assert Belongs(Ascii(id), Track) <==> Ascii(id) in TRACKS;
    assert Belongs(Ascii(id), Disc) <==> Ascii(id) in DISCS;
    assert Belongs(Ascii(id), Year) <==> Ascii(id) in YEARS;
  }

  lemma WantedIs(id: seq<byte>, field: Field, major: byte)
    requires Belongs(id, field)
    ensures Wanted(id, major) <==> |id| == 4 || major == 2
  {
    hide TITLES, ARTISTS, ALBUMS, GENRES, TRACKS, DISCS, YEARS;
  }

  /** Every id of four letters sets its own field and no other, in every version. */
  lemma TextFrameSets(tags: Tags, text: seq<byte>, major: byte)
    requires Taken(text) && 2 <= major <= 4
    ensures Apply(tags, TextFrame("TIT2", text), major) == tags.(title := text)
    ensures Apply(tags, TextFrame("TPE1", text), major) == tags.(artist := text)
    ensures Apply(tags, TextFrame("TALB", text), major) == tags.(album := text)
    ensures Apply(tags, TextFrame("TCON", text), major) == tags.(genre := CleanGenre(text))
    ensures Apply(tags, TextFrame("TRCK", text), major) == tags.(track := TrackDisc(text))
    ensures Apply(tags, TextFrame("TPOS", text), major) == tags.(disc := TrackDisc(text))
    ensures |text| >= 4 ==>
      Apply(tags, TextFrame("TDRC", text), major) == tags.(year := Atoi(text[..4])) ==
      Apply(tags, TextFrame("TYER", text), major)
  {
    hide Apply, TextFrame, Atoi, TrackDisc, CleanGenre, Ascii;
    FrameSets(tags, "TIT2", Title, text, major);
    FrameSets(tags, "TPE1", Artist, text, major);
    FrameSets(tags, "TALB", Album, text, major);
    FrameSets(tags, "TCON", Genre, text, major);
    FrameSets(tags, "TRCK", Track, text, major);
    FrameSets(tags, "TPOS", Disc, text, major);
    FrameSets(tags, "TDRC", Year, text, major);
    FrameSets(tags, "TYER", Year, text, major);
  }

  /** Every id of three letters does so in version 2.2, and is passed over in the others. */
  lemma OldTextFrameSets(tags: Tags, text: seq<byte>, major: byte)
    requires Taken(text) && 2 <= major <= 4
    ensures var m := major == 2;
      && Apply(tags, TextFrame("TT2", text), major) == (if m then tags.(title := text) else tags)
      && Apply(tags, TextFrame("TP1", text), major) == (if m then tags.(artist := text) else tags)
      && Apply(tags, TextFrame("TAL", text), major) == (if m then tags.(album := text) else tags)
      && Apply(tags, TextFrame("TCO", text), major) == (if m then tags.(genre := CleanGenre(text)) else tags)
      && Apply(tags, TextFrame("TRK", text), major) == (if m then tags.(track := TrackDisc(text)) else tags)
      && Apply(tags, TextFrame("TPA", text), major) == (if m then tags.(disc := TrackDisc(text)) else tags)
      && (|text| >= 4 ==>
            Apply(tags, TextFrame("TYE", text), major) == if m then tags.(year := Atoi(text[..4])) else tags)
  {
    hide Apply, TextFrame, Atoi, TrackDisc, CleanGenre, Ascii;
    FrameSets(tags, "TT2", Title, text, major);
    FrameSets(tags, "TP1", Artist, text, major);
    FrameSets(tags, "TAL", Album, text, major);
    FrameSets(tags, "TCO", Genre, text, major);
    FrameSets(tags, "TRK", Track, text, major);
    FrameSets(tags, "TPA", Disc, text, major);
    FrameSets(tags, "TYE", Year, text, major);
  }
}
