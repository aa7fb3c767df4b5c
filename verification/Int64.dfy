/** Go's 64-bit signed arithmetic: a sum or product keeps its low 64 bits, and a
  float is cut to an integer where it fits one. */
module Int64 {

  const TWO_63 := 0x8000_0000_0000_0000
  const TWO_64 := 0x1_0000_0000_0000_0000

  function Pow2(n: nat): (r: nat)
    ensures r > 0
  {
    if n == 0 then 1 else 2 * Pow2(n - 1)
  }

  function Wrap(x: int): (r: int)
    ensures -TWO_63 <= r < TWO_63
  {
    var low := x % TWO_64;
    if low < TWO_63 then low else low - TWO_64
  }

  type Word = x: int | -TWO_63 <= x < TWO_63

  /** A float64, rounding aside. */
  datatype Float = Finite(r: real) | NaN | PosInf | NegInf

  /** f > 0 */
  predicate Positive(f: Float) { f.PosInf? || (f.Finite? && f.r > 0.0) }

  /** f <= 0; neither holds of a NaN. */
  predicate AtMostZero(f: Float) { f.NegInf? || (f.Finite? && f.r <= 0.0) }

  /** A product with a positive real. */
  function Times(f: Float, k: real): Float
    requires k > 0.0
  {
    match f
    case Finite(r) => Finite(r * k)
    case _ => f
  }

  /** Towards zero. */
  function Truncated(r: real): int {
    if r >= 0.0 then r.Floor else -((-r).Floor)
  }

  /** int64(f); `beyond` is what the platform makes of a float that no int64 holds. */
  function ToInt64(f: Float, beyond: Float -> Word): Word {
    if f.Finite? && -TWO_63 <= Truncated(f.r) < TWO_63 then Truncated(f.r) else beyond(f)
  }

  lemma {:induction false} PowAdd(a: nat, b: nat)
    ensures Pow2(a + b) == Pow2(a) * Pow2(b)
  {
    if a > 0 {
      PowAdd(a - 1, b);
      assert a + b - 1 == (a - 1) + b;
      Scale(Pow2(a - 1), Pow2(b));
    }
  }

  lemma Scale(x: int, y: int)
    ensures 2 * (x * y) == (2 * x) * y
  {}

  lemma {:induction false} PowMonotone(a: nat, b: nat)
    requires a <= b
    ensures Pow2(a) <= Pow2(b)
    ensures a < b ==> 2 * Pow2(a) <= Pow2(b)
    decreases b - a
  {
    if a < b {
      PowMonotone(a + 1, b);
    }
  }

  lemma Pow2Of16()
    ensures Pow2(16) == 0x1_0000
  {
    assert Pow2(2) == 4;
    PowAdd(2, 2);
    PowAdd(4, 4);
    PowAdd(8, 8);
  }

  lemma Pow2Of64()
    ensures Pow2(64) == TWO_64
  {
    Pow2Of16();
    PowAdd(16, 16);
    PowAdd(32, 32);
  }

  lemma MulMonotone(a: int, b: int, k: int)
    requires a <= b && k >= 0
    ensures a * k <= b * k
  {}

  lemma MulLess(a: int, b: int, k: int)
    requires a < b && k > 0
    ensures a * k + k <= b * k
  {
    MulMonotone(a + 1, b, k);
    assert (a + 1) * k == a * k + k;
  }

  lemma ModAdd(k: int, low: int, m: int)
    requires m > 0 && 0 <= low < m
    ensures (k * m + low) % m == low
  {
    var q, r := (k * m + low) / m, (k * m + low) % m;
    assert k * m + low == q * m + r by {
      assert m * q == q * m;
    }
    if q < k {
      MulLess(q, k, m);
    }
    if q > k {
      MulLess(k, q, m);
    }
  }

  lemma Distribute(k: int, w: int, low: int, p: int)
    ensures (k * w + low) * p == k * (w * p) + low * p
  {}

  lemma ScaledMod(x: nat, w: nat, p: nat)
    requires w > 0 && p > 0
    ensures w * p > 0 && (x * p) % (w * p) == (x % w) * p < w * p
  {
    var k, low := x / w, x % w;
    assert x == k * w + low by {
      assert w * k == k * w;
    }
    Distribute(k, w, low, p);
    MulLess(low, w, p);
    MulMonotone(0, low, p);
    ModAdd(k, low * p, w * p);
  }

  /** A value shifted left by e keeps its low 64 - e bits. */
  lemma {:induction false} ShiftKeepsLowBits(x: nat, e: nat)
    requires e <= 64
    ensures (x * Pow2(e)) % TWO_64 == (x % Pow2(64 - e)) * Pow2(e) < TWO_64
  {
    PowAdd(64 - e, e);
    Pow2Of64();
    ScaledMod(x, Pow2(64 - e), Pow2(e));
  }
}
