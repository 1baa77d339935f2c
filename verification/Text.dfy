/** The text encodings of ID3v2, decoded to UTF-8 bytes the way Go strings hold them. */
module Text {
  import opened Bytes
  import opened Options
  import opened Unicode

  const REPLACEMENT := 0xFFFD

  /** Without the NUL bytes at its end. */
  function TrimNull(s: seq<byte>): (r: seq<byte>)
    ensures r == [] || r[|r| - 1] != 0
    ensures r <= s && forall i | |r| <= i < |s| :: s[i] == 0
  {
    if s != [] && s[|s| - 1] == 0 then TrimNull(s[..|s| - 1]) else s
  }

  function UnitsBE(d: seq<byte>): (u: seq<nat>)
    ensures |u| == |d| / 2
  {
    seq(|d| / 2, i requires 0 <= i < |d| / 2 => d[2 * i] as int * 256 + d[2 * i + 1] as int)
  }

  function UnitsLE(d: seq<byte>): (u: seq<nat>)
    ensures |u| == |d| / 2
  {
    seq(|d| / 2, i requires 0 <= i < |d| / 2 => d[2 * i + 1] as int * 256 + d[2 * i] as int)
  }

  predicate High(u: nat) {
    0xD800 <= u < 0xDC00
  }

  predicate Low(u: nat) {
    0xDC00 <= u < 0xE000
  }

  /** utf16.Decode: surrogate pairs joined, stray surrogates replaced. */
  function Runes(units: seq<nat>): seq<nat> {
    if units == [] then []
    else if High(units[0]) && |units| >= 2 && Low(units[1]) then
      [(units[0] - 0xD800) * 0x400 + (units[1] - 0xDC00) + 0x1_0000] + Runes(units[2..])
    else if High(units[0]) || Low(units[0]) then [REPLACEMENT] + Runes(units[1..])
    else [units[0]] + Runes(units[1..])
  }

  function DecodeUTF16BE(d: seq<byte>): seq<byte> {
    Utf8(Runes(UnitsBE(d)))
  }

  function DecodeUTF16LE(d: seq<byte>): seq<byte> {
    Utf8(Runes(UnitsLE(d)))
  }

  /** decodeUTF16: by byte order mark, big-endian without one. */
  function DecodeUTF16(d: seq<byte>): seq<byte> {
    if |d| < 2 then []
    else if d[..2] == [0xFF, 0xFE] then DecodeUTF16LE(d[2..])
    else if d[..2] == [0xFE, 0xFF] then DecodeUTF16BE(d[2..])
    else DecodeUTF16BE(d)
  }

  function DecodeByEncoding(d: seq<byte>, encoding: byte): seq<byte> {
    if encoding == 1 then DecodeUTF16(d) else if encoding == 2 then DecodeUTF16BE(d) else d
  }

  /** decodeTextFrame */
  function DecodeText(d: seq<byte>): seq<byte> {
    if |d| < 2 then [] else TrimNull(DecodeByEncoding(d[1..], d[0]))
  }

  /* ---------------- the same text in every encoding ---------------- */

  function UnitsOf(r: nat): seq<nat>
    requires Scalar(r)
  {
    if r < 0x1_0000 then [r] else [0xD800 + (r - 0x1_0000) / 0x400, 0xDC00 + (r - 0x1_0000) % 0x400]
  }

  /** UTF-16 code units. */
  function Units(runes: seq<nat>): seq<nat>
    requires Scalars(runes)
  {
    if runes == [] then []
    else
      assert runes[0] in runes;
      UnitsOf(runes[0]) + Units(runes[1..])
  }

  ghost predicate SixteenBit(units: seq<nat>) {
    forall i | 0 <= i < |units| :: units[i] < 0x1_0000
  }

  function BytesBE(units: seq<nat>): seq<byte> {
    seq(2 * |units|, i requires 0 <= i < 2 * |units| =>
      if i % 2 == 0 then units[i / 2] / 256 % 256 else units[i / 2] % 256)
  }

  function BytesLE(units: seq<nat>): seq<byte> {
    seq(2 * |units|, i requires 0 <= i < 2 * |units| =>
      if i % 2 == 1 then units[i / 2] / 256 % 256 else units[i / 2] % 256)
  }

  lemma UnitBytes(u: nat)
    requires u < 0x1_0000
    ensures u / 256 % 256 * 256 + u % 256 == u
  {
  }

  lemma UnitsFromBytes(units: seq<nat>)
    requires SixteenBit(units)
    ensures UnitsBE(BytesBE(units)) == units && UnitsLE(BytesLE(units)) == units
  {
    forall i | 0 <= i < |units|
      ensures UnitsBE(BytesBE(units))[i] == units[i] && UnitsLE(BytesLE(units))[i] == units[i]
    {
      UnitBytes(units[i]);
      assert 2 * i / 2 == i && (2 * i + 1) / 2 == i;
    }
  }

  /** A piece of UTF-16 text: a scalar value, or a surrogate that is half of no pair. */
  datatype Piece = Whole(r: nat) | Stray(u: nat)

  ghost predicate ValidPiece(p: Piece) {
    match p
    case Whole(r) => Scalar(r)
    case Stray(u) => High(u) || Low(u)
  }

  /** No stray high surrogate stands before a stray low one: the two would be a pair. */
  ghost predicate ValidPieces(ps: seq<Piece>) {
    && (forall p | p in ps :: ValidPiece(p))
    && forall i | 0 <= i < |ps| - 1 && ps[i].Stray? && ps[i + 1].Stray? :: !(High(ps[i].u) && Low(ps[i + 1].u))
  }

  function UnitsOfPiece(p: Piece): (units: seq<nat>)
    requires ValidPiece(p)
    ensures units != []
  {
    match p
    case Whole(r) => UnitsOf(r)
    case Stray(u) => [u]
  }

  function PieceUnits(ps: seq<Piece>): seq<nat>
    requires ValidPieces(ps)
  {
    if ps == [] then []
    else
      assert ps[0] in ps;
      UnitsOfPiece(ps[0]) + PieceUnits(ps[1..])
  }

  function Shown(p: Piece): nat {
    match p
    case Whole(r) => r
    case Stray(_) => 0xFFFD
  }

  lemma TailOfPieces(ps: seq<Piece>)
    requires ValidPieces(ps) && ps != []
    ensures ValidPieces(ps[1..]) && ValidPiece(ps[0])
    ensures PieceUnits(ps) == UnitsOfPiece(ps[0]) + PieceUnits(ps[1..])
    ensures ps[0].Stray? && High(ps[0].u) && |ps| > 1 ==> !Low(UnitsOfPiece(ps[1])[0])
  {
    assert ps[0] in ps;
    if |ps| > 1 {
      assert ps[1] in ps;
    }
  }

  /** The front piece is decoded on its own. */
  lemma FrontPiece(p: Piece, units: seq<nat>)
    requires ValidPiece(p) && (p.Stray? && High(p.u) && units != [] ==> !Low(units[0]))
    ensures Runes(UnitsOfPiece(p) + units) == [Shown(p)] + Runes(units)
  {
    if p.Whole? && p.r >= 0x1_0000 {
      FrontPair(p.r, units);
    } else {
      FrontUnit(UnitsOfPiece(p)[0], units);
    }
  }

  lemma FrontPair(r: nat, units: seq<nat>)
    requires 0x1_0000 <= r < 0x11_0000
    ensures Runes(UnitsOf(r) + units) == [r] + Runes(units)
  {
    var a, b := 0xD800 + (r - 0x1_0000) / 0x400, 0xDC00 + (r - 0x1_0000) % 0x400;
    var all := UnitsOf(r) + units;
    assert all[0] == a && all[1] == b && all[2..] == units;
    assert (a - 0xD800) * 0x400 + (b - 0xDC00) + 0x1_0000 == r;
  }

  lemma FrontUnit(u: nat, units: seq<nat>)
    requires High(u) && units != [] ==> !Low(units[0])
    ensures Runes([u] + units) == [if High(u) || Low(u) then REPLACEMENT else u] + Runes(units)
  {
    var all := [u] + units;
    assert all[0] == u && all[1..] == units;
  }

  /** Any UTF-16 text decodes piece by piece, and a stray surrogate becomes the replacement character. */
  lemma {:induction false} RunesFromPieces(ps: seq<Piece>)
    requires ValidPieces(ps)
    ensures Runes(PieceUnits(ps)) == seq(|ps|, i requires 0 <= i < |ps| => Shown(ps[i]))
  {
    if ps != [] {
      var rest := ps[1..];
      TailOfPieces(ps);
      FirstOfPieces(rest);
      hide ValidPieces, PieceUnits, UnitsOfPiece, Runes, ValidPiece, Shown;
      RunesFromPieces(rest);
      FrontPiece(ps[0], PieceUnits(rest));
      assert ps == [ps[0]] + rest;
    } else {
      NoUnits();
    }
  }

  lemma NoUnits()
    ensures PieceUnits([]) == [] && Runes([]) == []
  {
  }

  lemma FirstOfPieces(ps: seq<Piece>)
    requires ValidPieces(ps)
    ensures ps != [] ==> ValidPiece(ps[0]) && PieceUnits(ps) != [] && PieceUnits(ps)[0] == UnitsOfPiece(ps[0])[0]
    ensures ps == [] ==> PieceUnits(ps) == []
  {
    if ps != [] {
      TailOfPieces(ps);
    }
  }

  lemma {:induction false} RunesFromUnits(runes: seq<nat>)
    requires Scalars(runes)
    ensures Runes(Units(runes)) == runes && SixteenBit(Units(runes))
  {
    if runes != [] {
      var r, rest := runes[0], runes[1..];
      assert r in runes;
      RunesFromUnits(rest);
      if r < 0x1_0000 {
        assert Units(runes)[1..] == Units(rest);
      } else {
        assert Units(runes)[2..] == Units(rest);
      }
    }
  }

  lemma LastByte(r: nat)
    requires r != 0
    ensures Utf8Of(r)[|Utf8Of(r)| - 1] != 0
  {
  }

  lemma NothingToTrim(s: seq<byte>)
    requires s == [] || s[|s| - 1] != 0
    ensures TrimNull(s) == s
  {
  }

  lemma Utf8Ends(runes: seq<nat>)
    requires runes != [] && runes[|runes| - 1] != 0
    ensures TrimNull(Utf8(runes)) == Utf8(runes) != []
  {
    LastByte(runes[|runes| - 1]);
    NothingToTrim(Utf8(runes));
  }

  lemma Marked(d: seq<byte>)
    ensures DecodeUTF16([0xFE, 0xFF] + d) == DecodeUTF16BE(d)
    ensures DecodeUTF16([0xFF, 0xFE] + d) == DecodeUTF16LE(d)
  {
    hide DecodeUTF16BE, DecodeUTF16LE;
    var big, little := [0xFE, 0xFF] + d, [0xFF, 0xFE] + d;
    assert big[..2] == [0xFE, 0xFF] && big[2..] == d && little[..2] == [0xFF, 0xFE] && little[2..] == d;
    assert big[0] != little[0];
  }

  lemma Payload(encoding: byte, d: seq<byte>)
    requires d != []
    ensures DecodeText([encoding] + d) == TrimNull(DecodeByEncoding(d, encoding))
  {
    hide DecodeByEncoding, TrimNull;
    assert ([encoding] + d)[1..] == d;
  }

  lemma MarkOrText(units: seq<nat>)
    requires SixteenBit(units) && units != [] && units[0] != 0xFEFF && units[0] != 0xFFFE
    ensures DecodeUTF16(BytesBE(units)) == DecodeUTF16BE(BytesBE(units))
  {
    hide DecodeUTF16BE, DecodeUTF16LE;
    var d := BytesBE(units);
    UnitBytes(units[0]);
    assert d[0] as int == units[0] / 256 % 256 && d[1] as int == units[0] % 256;
    assert d[..2] == [d[0], d[1]];
  }

  lemma OddByte(units: seq<nat>, x: byte)
    requires SixteenBit(units)
    ensures UnitsBE(BytesBE(units) + [x]) == UnitsBE(BytesBE(units))
    ensures UnitsLE(BytesLE(units) + [x]) == UnitsLE(BytesLE(units))
  {
  }

  lemma {:induction false} FirstUnit(runes: seq<nat>)
    requires Scalars(runes) && runes != []
    ensures Units(runes) != [] && (Units(runes)[0] in {0xFEFF, 0xFFFE} ==> Units(runes)[0] == runes[0])
  {
    assert runes[0] in runes;
  }

  /** A UTF-8 text without a NUL at its end comes out the same from UTF-8, from UTF-16BE, from UTF-16 in either byte
      order behind its mark, and from UTF-16 without a mark, which is taken as big-endian; a byte behind the last
      whole unit is dropped. */
  lemma EncodingsAgree(d: seq<byte>, runes: seq<nat>, x: byte)
    requires FromUtf8(d) == Some(runes) && runes != [] && runes[|runes| - 1] != 0
    ensures Scalars(runes) && DecodeText([3] + d) == d
    ensures DecodeText([2] + BytesBE(Units(runes))) == d == DecodeText([2] + (BytesBE(Units(runes)) + [x]))
    ensures DecodeText([1] + ([0xFE, 0xFF] + BytesBE(Units(runes)))) == d
    ensures DecodeText([1] + ([0xFF, 0xFE] + BytesLE(Units(runes)))) == d
    ensures runes[0] !in {0xFEFF, 0xFFFE} ==> DecodeText([1] + BytesBE(Units(runes))) == d
  {
    hide Utf8, UnitsBE, UnitsLE, Units, Runes, TrimNull, BytesBE, BytesLE, DecodeText, DecodeUTF16, FromUtf8,
         SixteenBit, Scalars;
    Utf8Unique(d, runes);
    Utf8Ends(runes);
    RunesFromUnits(runes);
    UnitsFromBytes(Units(runes));
    OddByte(Units(runes), x);
    FirstUnit(runes);
    var be, le := BytesBE(Units(runes)), BytesLE(Units(runes));
    LongEnough(Units(runes));
    Marked(be);
    Marked(le);
    if runes[0] !in {0xFEFF, 0xFFFE} {
      MarkOrText(Units(runes));
    }
    Payload(3, d);
    Payload(2, be);
    Payload(2, be + [x]);
    Payload(1, be);
    Payload(1, [0xFE, 0xFF] + be);
    Payload(1, [0xFF, 0xFE] + le);
  }

  lemma LongEnough(units: seq<nat>)
    ensures |BytesBE(units)| == |BytesLE(units)| == 2 * |units|
  {
  }
}
