/** UTF-8: the writer Go's string conversion uses, and a reader written from the byte side (section 3 of RFC 3629). */
module Unicode {
  import opened Bytes
  import opened Options

  predicate Scalar(r: nat) {
    r < 0xD800 || 0xE000 <= r < 0x11_0000
  }

  ghost predicate Scalars(runes: seq<nat>) {
    forall r | r in runes :: Scalar(r)
  }

  function Cont(n: nat): byte {
    0x80 + n % 0x40
  }

  function Utf8Of(r: nat): (s: seq<byte>)
    ensures s != []
  {
    if r < 0x80 then [r]
    else if r < 0x800 then [0xC0 + r / 0x40, Cont(r)]
    else if r < 0x1_0000 then [0xE0 + r / 0x1000, Cont(r / 0x40), Cont(r)]
    else [0xF0 + r / 0x4_0000 % 8, Cont(r / 0x1000), Cont(r / 0x40), Cont(r)]
  }

  function Utf8(runes: seq<nat>): seq<byte> {
    if runes == [] then [] else Utf8(runes[..|runes| - 1]) + Utf8Of(runes[|runes| - 1])
  }

  /* ---------------- the reader ---------------- */

  /** How many bytes a first byte announces; 0 for a byte that cannot come first. */
  function Announced(b: byte): nat {
    if b < 0x80 then 1
    else if b < 0xC0 then 0
    else if b < 0xE0 then 2
    else if b < 0xF0 then 3
    else if b < 0xF8 then 4
    else 0
  }

  /** The bits a first byte holds. */
  function Weight(b: byte): nat {
    if b < 0x80 then b else if b < 0xE0 then b % 0x20 else if b < 0xF0 then b % 0x10 else b % 8
  }

  /** Six more bits from every further byte. */
  function Gathered(w: nat, more: seq<byte>): nat
    decreases more
  {
    if more == [] then w else Gathered(w * 0x40 + more[0] as int % 0x40, more[1..])
  }

  /** The least value that needs n bytes. */
  function Least(n: nat): nat {
    if n <= 1 then 0 else if n == 2 then 0x80 else if n == 3 then 0x800 else 0x1_0000
  }

  predicate Further(s: seq<byte>) {
    forall i | 0 <= i < |s| :: 0x80 <= s[i] < 0xC0
  }

  /** A character at the front: its value and its length. */
  function FrontOf(s: seq<byte>): (front: Option<(nat, nat)>)
    requires s != []
    ensures front.Some? ==> 0 < front.value.1 <= |s|
  {
    var n := Announced(s[0]);
    if n == 0 || n > |s| || !Further(s[1..n]) then None
    else
      var r := Gathered(Weight(s[0]), s[1..n]);
      if Scalar(r) && r >= Least(n) then Some((r, n)) else None
  }

  /** The scalar values of UTF-8 text; None when it is not UTF-8. */
  function FromUtf8(s: seq<byte>): Option<seq<nat>> {
    if s == [] then Some([])
    else
      match FrontOf(s)
      case None => None
      case Some((r, n)) =>
        match FromUtf8(s[n..])
        case None => None
        case Some(rest) => Some([r] + rest)
  }

  /* ---------------- the writer is its inverse ---------------- */

  lemma {:induction false} GatheredOf(w: nat, more: seq<byte>)
    requires |more| <= 3
    ensures |more| == 0 ==> Gathered(w, more) == w
    ensures |more| == 1 ==> Gathered(w, more) == w * 0x40 + more[0] as int % 0x40
    ensures |more| == 2 ==> Gathered(w, more) == (w * 0x40 + more[0] as int % 0x40) * 0x40 + more[1] as int % 0x40
    ensures |more| == 3 ==>
      Gathered(w, more) ==
      ((w * 0x40 + more[0] as int % 0x40) * 0x40 + more[1] as int % 0x40) * 0x40 + more[2] as int % 0x40
    decreases more
  {
    if more != [] {
      GatheredOf(w * 0x40 + more[0] as int % 0x40, more[1..]);
    }
  }

  lemma ContBits(n: nat)
    ensures 0x80 <= Cont(n) < 0xC0 && Cont(n) as int % 0x40 == n % 0x40
  {
  }

  /** A number from its six-bit groups. */
  lemma Sixes(r: nat)
    ensures r == r / 0x40 * 0x40 + r % 0x40
    ensures r / 0x40 == r / 0x1000 * 0x40 + r / 0x40 % 0x40
    ensures r / 0x1000 == r / 0x4_0000 * 0x40 + r / 0x1000 % 0x40
  {
    var q := r / 0x40;
    var p := q / 0x40;
    assert r / 0x1000 == p && r / 0x4_0000 == p / 0x40;
  }

  /** The first byte and the further bytes of one character: their number, and the value they make up. */
  ghost predicate Reads(u: seq<byte>, r: nat) {
    u != [] && Announced(u[0]) == |u| && Further(u[1..]) && Least(|u|) <= r && Gathered(Weight(u[0]), u[1..]) == r
  }

  lemma ReadsOne(r: nat)
    requires r < 0x80
    ensures Reads([r], r)
  {
  }

  lemma ReadsTwo(r: nat)
    requires 0x80 <= r < 0x800
    ensures Reads([0xC0 + r / 0x40, Cont(r)], r)
  {
    var more := [Cont(r)];
    Sixes(r);
    ContBits(r);
    hide Cont;
    GatheredOf(r / 0x40, more);
    hide Gathered;
    assert [0xC0 + r / 0x40, Cont(r)][1..] == more;
  }

  lemma ReadsThree(r: nat)
    requires 0x800 <= r < 0x1_0000
    ensures Reads([0xE0 + r / 0x1000, Cont(r / 0x40), Cont(r)], r)
  {
    var more := [Cont(r / 0x40), Cont(r)];
    Sixes(r);
    ContBits(r);
    ContBits(r / 0x40);
    hide Cont;
    GatheredOf(r / 0x1000, more);
    hide Gathered;
    assert [0xE0 + r / 0x1000, Cont(r / 0x40), Cont(r)][1..] == more;
  }

  lemma ReadsFour(r: nat)
    requires 0x1_0000 <= r < 0x11_0000
    ensures Reads([0xF0 + r / 0x4_0000 % 8, Cont(r / 0x1000), Cont(r / 0x40), Cont(r)], r)
  {
    var more := [Cont(r / 0x1000), Cont(r / 0x40), Cont(r)];
    Sixes(r);
    ContBits(r);
    ContBits(r / 0x40);
    ContBits(r / 0x1000);
    hide Cont;
    GatheredOf(r / 0x4_0000, more);
    hide Gathered;
    assert [0xF0 + r / 0x4_0000 % 8, Cont(r / 0x1000), Cont(r / 0x40), Cont(r)][1..] == more;
  }

  /** What the reader makes of one written character. */
  lemma ReadsWritten(r: nat)
    requires Scalar(r)
    ensures Reads(Utf8Of(r), r)
  {
    hide Reads, Cont;
    if r < 0x80 {
      ReadsOne(r);
    } else if r < 0x800 {
      ReadsTwo(r);
    } else if r < 0x1_0000 {
      ReadsThree(r);
    } else {
      ReadsFour(r);
    }
  }

  /** One character comes back from in front of any bytes. */
  lemma FrontRoundTrip(r: nat, rest: seq<byte>)
    requires Scalar(r)
    ensures FrontOf(Utf8Of(r) + rest) == Some((r, |Utf8Of(r)|))
  {
    ReadsWritten(r);
    hide Utf8Of, Announced, Weight, Gathered, Further, Least;
    assert Utf8Of(r)[0] == (Utf8Of(r) + rest)[0];
    assert (Utf8Of(r) + rest)[1..|Utf8Of(r)|] == Utf8Of(r)[1..];
  }

  lemma Recombined(w: nat, a: byte, b: byte, c: byte)
    requires 0x80 <= a < 0xC0 && 0x80 <= b < 0xC0 && 0x80 <= c < 0xC0
    ensures var r := w * 0x40 + a as int % 0x40; r / 0x40 == w && Cont(r) == a
    ensures var r := (w * 0x40 + a as int % 0x40) * 0x40 + b as int % 0x40;
      r / 0x1000 == w && Cont(r / 0x40) == a && Cont(r) == b
    ensures var r := ((w * 0x40 + a as int % 0x40) * 0x40 + b as int % 0x40) * 0x40 + c as int % 0x40;
      r / 0x4_0000 == w && Cont(r / 0x1000) == a && Cont(r / 0x40) == b && Cont(r) == c
  {
    var p := w * 0x40 + a as int % 0x40;
    var q := p * 0x40 + b as int % 0x40;
    var r := q * 0x40 + c as int % 0x40;
    assert r / 0x40 == q && q / 0x40 == p && p / 0x40 == w;
    assert r / 0x1000 == p && r / 0x4_0000 == w && q / 0x1000 == w;
  }

  lemma WritesTwo(a: byte, b: byte)
    requires Announced(a) == 2 && 0x80 <= b < 0xC0
    ensures var r := Gathered(Weight(a), [b]); 0x80 <= r ==> Utf8Of(r) == [a, b]
  {
    GatheredOf(Weight(a), [b]);
    Recombined(Weight(a), b, 0x80, 0x80);
    hide Gathered, Cont;
  }

  lemma WritesThree(a: byte, b: byte, c: byte)
    requires Announced(a) == 3 && 0x80 <= b < 0xC0 && 0x80 <= c < 0xC0
    ensures var r := Gathered(Weight(a), [b, c]); 0x800 <= r ==> Utf8Of(r) == [a, b, c]
  {
    GatheredOf(Weight(a), [b, c]);
    Recombined(Weight(a), b, c, 0x80);
    hide Gathered, Cont;
  }

  lemma WritesFour(a: byte, b: byte, c: byte, d: byte)
    requires Announced(a) == 4 && 0x80 <= b < 0xC0 && 0x80 <= c < 0xC0 && 0x80 <= d < 0xC0
    ensures var r := Gathered(Weight(a), [b, c, d]); 0x1_0000 <= r ==> Utf8Of(r) == [a, b, c, d]
  {
    GatheredOf(Weight(a), [b, c, d]);
    Recombined(Weight(a), b, c, d);
    hide Gathered, Cont;
  }

  /** Only the written form is read as a character. */
  lemma FrontUnique(s: seq<byte>)
    requires s != [] && FrontOf(s).Some?
    ensures var (r, n) := FrontOf(s).value; Scalar(r) && s[..n] == Utf8Of(r)
  {
    var n := Announced(s[0]);
    var more := s[1..n];
    assert s[..n] == [s[0]] + more;
    if n == 2 {
      WritesTwo(s[0], more[0]);
      assert more == [more[0]];
    } else if n == 3 {
      WritesThree(s[0], more[0], more[1]);
      assert more == [more[0], more[1]];
    } else if n == 4 {
      WritesFour(s[0], more[0], more[1], more[2]);
      assert more == [more[0], more[1], more[2]];
    } else {
      GatheredOf(Weight(s[0]), more);
    }
    hide Utf8Of, Gathered;
  }

  lemma {:induction false} Utf8Cons(r: nat, rest: seq<nat>)
    ensures Utf8([r] + rest) == Utf8Of(r) + Utf8(rest)
  {
    hide Utf8Of;
    var all := [r] + rest;
    if rest == [] {
      assert all[..0] == [] && all[|all| - 1] == r;
    } else {
      var n := |rest| - 1;
      Utf8Cons(r, rest[..n]);
      assert all[..|rest|] == [r] + rest[..n] && all[|rest|] == rest[n];
    }
  }

  /** The bytes written for scalar values are read back as them. */
  lemma {:induction false} Utf8RoundTrip(runes: seq<nat>)
    requires Scalars(runes)
    ensures FromUtf8(Utf8(runes)) == Some(runes)
  {
    hide Utf8Of, FrontOf, Scalar;
    if runes != [] {
      var r, rest := runes[0], runes[1..];
      assert r in runes && runes == [r] + rest;
      Utf8Cons(r, rest);
      hide Utf8;
      Utf8RoundTrip(rest);
      FrontRoundTrip(r, Utf8(rest));
      assert (Utf8Of(r) + Utf8(rest))[|Utf8Of(r)|..] == Utf8(rest);
    }
  }

  /** No other bytes are read as them. */
  lemma {:induction false} Utf8Unique(s: seq<byte>, runes: seq<nat>)
    requires FromUtf8(s) == Some(runes)
    ensures Scalars(runes) && s == Utf8(runes)
    decreases |s|
  {
    hide Utf8Of, FrontOf, Scalar, Utf8;
    if s == [] {
      NothingWritten();
    } else {
      var (r, n) := FrontOf(s).value;
      FrontUnique(s);
      var rest := FromUtf8(s[n..]).value;
      hide FromUtf8;
      Utf8Unique(s[n..], rest);
      Utf8Cons(r, rest);
      assert s == s[..n] + s[n..];
    }
  }

  lemma NothingWritten()
    ensures Utf8([]) == []
  {
  }
}
