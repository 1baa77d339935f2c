/** Small facts of integer and real arithmetic the audio arithmetic rests on. */
module Reals {
  /** Go's integer division on non-negative numbers. */
  function Div(n: nat, d: nat): nat
    requires d > 0
  {
    n / d
  }

  lemma DivIs(n: nat, d: nat)
    requires d > 0
    ensures n == d * Div(n, d) + n % d && 0 <= n % d < d
  {
  }

  lemma Multiple(m: int, d: int)
    requires m > 0
    ensures d >= 1 ==> m * d >= m
    ensures d <= -1 ==> m * d <= -m
  {
  }

  lemma MulOrder(i: nat, j: nat, k: nat)
    requires k > 0
    ensures i * k < j * k <==> i < j
  {
    Multiple(k, j - i);
    assert k * (j - i) == j * k - i * k;
  }

  /** The remainder is the one number below the divisor that completes a multiple. */
  lemma ModIs(n: nat, m: nat, q: nat, r: nat)
    requires m > 0 && n == m * q + r && r < m
    ensures n % m == r && n / m == q
  {
    var d := n / m - q;
    assert m * d == m * (n / m) - m * q;
    Multiple(m, d);
    assert m * d == r - n % m;
    assert d == 0;
  }

  lemma RealMultiple(y: real, a: real)
    requires a > 0.0
    ensures y >= 1.0 ==> y * a >= a
    ensures y < 0.0 ==> y * a < 0.0
  {
  }

  lemma Distribute(x: real, q: real, a: real)
    ensures (x - q) * a == x * a - q * a
  {
  }

  lemma Product(q: nat, a: nat)
    ensures (q * a) as real == q as real * a as real
  {
  }

  lemma Quotient(x: real, a: real)
    requires a > 0.0
    ensures x / a * a == x
  {
  }

  lemma DivParts(size: nat, align: nat)
    requires align > 0
    ensures size / align * align + size % align == size && 0 <= size % align < align
  {
  }

  lemma Fraction(y: real, a: real, r: real)
    requires a > 0.0 && y * a == r && 0.0 <= r < a
    ensures 0.0 <= y < 1.0
  {
    RealMultiple(y, a);
  }

  lemma FloorIs(x: real, q: int)
    requires 0.0 <= x - q as real < 1.0
    ensures x.Floor == q
  {
  }

  lemma Remains(x: real, size: nat, align: nat)
    requires align > 0 && x * align as real == size as real
    ensures (x - (size / align) as real) * align as real == (size % align) as real
  {
    DivParts(size, align);
    Product(size / align, align);
    Distribute(x, (size / align) as real, align as real);
  }

  /** Flooring an exact quotient is integer division. */
  lemma FloorOfQuotient(size: nat, align: nat)
    requires align > 0
    ensures (size as real / align as real).Floor == size / align
    ensures size / align * align <= size
  {
    var x := size as real / align as real;
    DivParts(size, align);
    Quotient(size as real, align as real);
    Remains(x, size, align);
    Fraction(x - (size / align) as real, align as real, (size % align) as real);
    FloorIs(x, size / align);
  }

  /** The sample or block a time falls in, with its fraction. */
  function Scaled(time: real, rate: nat): real {
    time * rate as real
  }

  lemma ScaledOrder(x: real, y: real, rate: nat)
    requires rate > 0
    ensures x < y <==> Scaled(x, rate) < Scaled(y, rate)
  {
    var r := rate as real;
    if x < y {
      assert (y - x) * r > 0.0;
    } else {
      assert (x - y) * r >= 0.0;
    }
  }
}
