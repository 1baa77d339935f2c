/** Byte sequences and the fixed-width integers the file formats store in them. */
module Bytes {
  type byte = x: int | 0 <= x < 256

  function Pow256(k: nat): (r: nat)
    ensures r > 0
  {
    if k == 0 then 1 else 256 * Pow256(k - 1)
  }

  /** Big-endian value. */
  function BE(s: seq<byte>): nat {
    if s == [] then 0 else BE(s[..|s| - 1]) * 256 + s[|s| - 1]
  }

  function BEBytes(n: nat, k: nat): (s: seq<byte>)
    ensures |s| == k
  {
    if k == 0 then [] else BEBytes(n / 256, k - 1) + [n % 256]
  }

  /** Little-endian value. */
  function LE(s: seq<byte>): nat {
    if s == [] then 0 else s[0] + 256 * LE(s[1..])
  }

  function LEBytes(n: nat, k: nat): (s: seq<byte>)
    ensures |s| == k
  {
    if k == 0 then [] else [n % 256] + LEBytes(n / 256, k - 1)
  }

  lemma {:induction false} BERoundTrip(n: nat, k: nat)
    requires n < Pow256(k)
    ensures BE(BEBytes(n, k)) == n
  {
    if k > 0 {
      BERoundTrip(n / 256, k - 1);
      var s := BEBytes(n, k);
      assert s[..k - 1] == BEBytes(n / 256, k - 1);
    }
  }

  lemma {:induction false} LERoundTrip(n: nat, k: nat)
    requires n < Pow256(k)
    ensures LE(LEBytes(n, k)) == n
  {
    if k > 0 {
      LERoundTrip(n / 256, k - 1);
      assert LEBytes(n, k)[1..] == LEBytes(n / 256, k - 1);
    }
  }

  lemma {:induction false} LEBound(s: seq<byte>)
    ensures LE(s) < Pow256(|s|)
  {
    if s != [] {
      LEBound(s[1..]);
    }
  }

  lemma {:induction false} BEBound(s: seq<byte>)
    ensures BE(s) < Pow256(|s|)
  {
    if s != [] {
      BEBound(s[..|s| - 1]);
    }
  }

  lemma LEFront(x: byte, rest: seq<byte>)
    ensures LE([x] + rest) == x as int + 256 * LE(rest)
  {
    assert ([x] + rest)[1..] == rest;
  }

  lemma BEBack(s: seq<byte>, x: byte)
    ensures BE(s + [x]) == BE(s) * 256 + x as int
  {
    assert (s + [x])[..|s|] == s;
  }

  /** Four bytes, least first and greatest first. */
  lemma FourBytes(a: byte, b: byte, c: byte, d: byte)
    ensures LE([a, b, c, d]) == a as int + 256 * (b as int + 256 * (c as int + 256 * d as int))
    ensures BE([a, b, c, d]) == ((a as int * 256 + b as int) * 256 + c as int) * 256 + d as int
  {
    LEFront(d, []);
    LEFront(c, [d]);
    LEFront(b, [c, d]);
    LEFront(a, [b, c, d]);
    BEBack([], a);
    BEBack([a], b);
    BEBack([a, b], c);
    BEBack([a, b, c], d);
    assert LE([]) == BE([]) == 0;
    hide LE, BE;
    assert [d] + [] == [d] && [c] + [d] == [c, d] && [b] + [c, d] == [b, c, d] && [a] + [b, c, d] == [a, b, c, d];
    assert [] + [a] == [a] && [a] + [b] == [a, b] && [a, b] + [c] == [a, b, c] && [a, b, c] + [d] == [a, b, c, d];
  }

  /** ASCII text as bytes. */
  function Ascii(s: string): (r: seq<byte>)
    ensures |r| == |s|
  {
    seq(|s|, i requires 0 <= i < |s| => if s[i] < 128 as char then s[i] as int else 0)
  }

  lemma AsciiIs(s: string)
    requires forall i | 0 <= i < |s| :: s[i] < 128 as char
    ensures forall i | 0 <= i < |s| :: Ascii(s)[i] == s[i] as int
  {
  }

  /** A slice inside the right part of a concatenation. */
  lemma SliceOfConcat(a: seq<byte>, b: seq<byte>, i: nat, j: nat)
    requires |a| <= i <= j <= |a| + |b|
    ensures (a + b)[i..j] == b[i - |a|..j - |a|]
  {
  }

  /** x | bit, for a bit in the lowest place. */
  function OrBit(x: nat, bit: nat): nat {
    if bit == 1 && x % 2 == 0 then x + 1 else x
  }

  /** a << 21 | b << 14 | c << 7 | d on whole bytes: the top bit of each byte falls on the lowest bit of the one
      before. */
  function SyncSafe(a: byte, b: byte, c: byte, d: byte): nat {
    OrBit(a, b / 128) * 0x20_0000 + OrBit(b % 128, c / 128) * 0x4000 + OrBit(c % 128, d / 128) * 128 + d % 128
  }

  /** Of two neighbouring bytes only the lowest bit of the one and the highest of the other fall together, so the
      value is the sum without the bits counted twice. */
  lemma SyncSafeIs(a: byte, b: byte, c: byte, d: byte)
    ensures SyncSafe(a, b, c, d) ==
      a as int * 0x20_0000 + b as int * 0x4000 + c as int * 128 + d as int
      - (if a % 2 == 1 && b >= 128 then 0x20_0000 else 0)
      - (if b % 2 == 1 && c >= 128 then 0x4000 else 0)
      - (if c % 2 == 1 && d >= 128 then 128 else 0)
  {
    assert b as int == b as int / 128 * 128 + b as int % 128;
    assert c as int == c as int / 128 * 128 + c as int % 128;
    assert d as int == d as int / 128 * 128 + d as int % 128;
    assert b as int % 128 % 2 == b as int % 2 && c as int % 128 % 2 == c as int % 2;
  }

  /** The 28-bit integer of an ID3v2 header, seven bits to a byte. */
  function SyncSafeBytes(n: nat): (s: seq<byte>)
    ensures |s| == 4 && forall i | 0 <= i < 4 :: s[i] < 128
  {
    [n / 128 / 128 / 128 % 128, n / 128 / 128 % 128, n / 128 % 128, n % 128]
  }

  lemma SyncSafeSmall(a: byte, b: byte, c: byte, d: byte)
    requires a < 128 && b < 128 && c < 128 && d < 128
    ensures SyncSafe(a, b, c, d) == ((a as int * 128 + b) * 128 + c) * 128 + d
  {
  }

  lemma SyncSafeRoundTrip(n: nat)
    requires n < 0x1000_0000
    ensures var s := SyncSafeBytes(n); SyncSafe(s[0], s[1], s[2], s[3]) == n
  {
    var s := SyncSafeBytes(n);
    SyncSafeSmall(s[0], s[1], s[2], s[3]);
    hide SyncSafe;
    var p := n / 128;
    var q := p / 128;
    assert n == p * 128 + n % 128 && p == q * 128 + p % 128 && q == q / 128 * 128 + q % 128;
    assert q / 128 % 128 == q / 128;
  }
}
