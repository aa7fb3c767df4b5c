/** Exponential backoff computed in 64-bit arithmetic
  (internal/clauderun/backoff.go). Durations are nanoseconds. */
module Backoff {
  import opened Int64

  const SECOND := 1_000_000_000

  /** A product as an int64, with anything out of (0, cap] taken for the cap. */
  function Clamped(product: int, cap: int): int {
    var scaled := Wrap(product);
    if scaled <= 0 || scaled > cap then cap else scaled
  }

  function Scaled(base: int, cap: int, e: nat): int {
    Clamped(base * Pow2(e), cap)
  }

  function Exponent(attempt: int): (e: nat)
    ensures e == if attempt < 1 then 0 else attempt - 1
  {
    (if attempt < 1 then 1 else attempt) - 1
  }

  function BaseOrDefault(base: int): int {
    if base <= 0 then 5 * SECOND else base
  }

  function CapOrDefault(cap: int): int {
    if cap <= 0 then 120 * SECOND else cap
  }

  /** The delay before jitter. */
  function Delay(attempt: int, base: int, cap: int): int {
    var e := Exponent(attempt);
    if e >= 62 then CapOrDefault(cap) else Scaled(BaseOrDefault(base), CapOrDefault(cap), e)
  }

  /** Float64() * ratio * delay; u is the random number, in [0, 1). */
  function JitterTerm(delay: int, ratio: Float, u: real): Float {
    if ratio.Finite? then Finite((u * ratio.r) * (delay as real))
    else if ratio.NaN? || u == 0.0 || delay == 0 then NaN
    else if (delay > 0) == ratio.PosInf? then PosInf
    else NegInf
  }

  /** A NaN ratio adds nothing; an infinite one adds what the platform makes of it. */
  function Jittered(delay: int, ratio: Float, u: real, beyond: Float -> Word): int {
    if Positive(ratio) then Wrap(delay + ToInt64(JitterTerm(delay, ratio, u), beyond)) else delay
  }

  function JitteredBackoff(attempt: int, base: int, cap: int, ratio: Float, u: real, beyond: Float -> Word): int {
    Jittered(Delay(attempt, base, cap), ratio, u, beyond)
  }

  /** What the documentation says: min(base * 2^e, cap). */
  function Ideal(base: int, cap: int, e: nat): int {
    if base * Pow2(e) < cap then base * Pow2(e) else cap
  }

  /** Whatever the product wraps to, the delay is positive and within the cap; no
    positive base is one of 5 s, and no positive cap one of 120 s. */
  lemma {:induction false} DelayInRange(attempt: int, base: int, cap: int)
    ensures 0 < Delay(attempt, base, cap) <= CapOrDefault(cap)
    ensures CapOrDefault(cap) == if cap > 0 then cap else 120_000_000_000
    ensures Delay(attempt, base, cap)
            == Delay(attempt, if base > 0 then base else 5_000_000_000, if cap > 0 then cap else 120_000_000_000)
  {
  }

  // ----- when the sum with the jitter stays a positive duration -----

  /** What the documentation says of the jitter: it adds less than its ratio. */
  predicate WithinRatio(wait: int, delay: int, ratio: real) {
    delay <= wait && wait as real < (delay as real) * (1.0 + ratio)
  }

  /** The largest wait there could be is an int64. */
  predicate RoomFor(delay: int, ratio: real) {
    (delay as real) * (1.0 + ratio) <= TWO_63 as real
  }

  lemma Product(a: real, b: real, d: real)
    requires 0.0 <= a < b && d > 0.0
    ensures 0.0 <= a * d < b * d
  {}

  lemma FloorBelow(x: real, n: int)
    requires 0.0 <= x <= n as real
    ensures 0 <= x.Floor <= n && (x < n as real ==> x.Floor < n)
  {}

  /** A term that is not negative and leaves the sum in range is added as it is. */
  lemma {:induction false} TermFits(delay: int, ratio: real, u: real, beyond: Float -> Word, x: real)
    requires 0 < delay < TWO_63 && ratio > 0.0 && x == (u * ratio) * (delay as real)
    requires 0.0 <= x <= (TWO_63 - delay) as real
    ensures Jittered(delay, Finite(ratio), u, beyond) == Wrap(delay + x.Floor)
    ensures x < (TWO_63 - delay) as real ==> Jittered(delay, Finite(ratio), u, beyond) == delay + x.Floor
  {
    var room := TWO_63 - delay;
    FloorBelow(x, room);
    assert JitterTerm(delay, Finite(ratio), u) == Finite(x);
    assert ToInt64(Finite(x), beyond) == x.Floor;
  }

  lemma Spread(d: real, ratio: real)
    ensures d * (1.0 + ratio) == d + ratio * d
  {}

  lemma {:induction false} TermBelow(u: real, ratio: real, d: real)
    requires 0.0 <= u < 1.0 && ratio > 0.0 && d > 0.0
    ensures 0.0 <= (u * ratio) * d < ratio * d
  {
    Product(u, 1.0, ratio);
    Product(u * ratio, ratio, d);
  }

  lemma {:induction false} TermIsAdded(delay: int, ratio: real, u: real, beyond: Float -> Word, x: real, top: real)
    requires 0 < delay < TWO_63 && ratio > 0.0 && x == (u * ratio) * (delay as real)
    requires 0.0 <= x < top && delay as real + top <= TWO_63 as real
    ensures delay <= Jittered(delay, Finite(ratio), u, beyond)
    ensures Jittered(delay, Finite(ratio), u, beyond) as real < delay as real + top
  {
    var room := TWO_63 - delay;
    assert room as real == TWO_63 as real - delay as real;
    TermFits(delay, ratio, u, beyond, x);
    assert (delay + x.Floor) as real == delay as real + x.Floor as real;
  }

  lemma {:induction false} JitterInRange(delay: int, ratio: real, u: real, beyond: Float -> Word)
    requires 0 < delay < TWO_63 && ratio > 0.0 && 0.0 <= u < 1.0 && RoomFor(delay, ratio)
    ensures WithinRatio(Jittered(delay, Finite(ratio), u, beyond), delay, ratio)
  {
    var d := delay as real;
    TermBelow(u, ratio, d);
    Spread(d, ratio);
    TermIsAdded(delay, ratio, u, beyond, (u * ratio) * d, ratio * d);
  }

  lemma {:induction false} DrawFor(gap: real, ratio: real, d: real) returns (u: real)
    requires 0.0 <= gap < ratio * d && ratio > 0.0 && d > 0.0
    ensures 0.0 <= u < 1.0 && (u * ratio) * d == gap
  {
    u := gap / (ratio * d);
    Quotient(gap, ratio * d);
    assert (u * ratio) * d == u * (ratio * d);
  }

  lemma Quotient(a: real, b: real)
    requires 0.0 <= a < b
    ensures 0.0 <= a / b < 1.0 && (a / b) * b == a
  {}

  /** Where there is no room, some draw brings the sum to exactly 2^63. */
  lemma {:induction false} JitterCanWrap(delay: int, ratio: real, beyond: Float -> Word) returns (u: real)
    requires 0 < delay < TWO_63 && ratio > 0.0 && !RoomFor(delay, ratio)
    ensures 0.0 <= u < 1.0 && Jittered(delay, Finite(ratio), u, beyond) == -TWO_63
  {
    var d, gap := delay as real, (TWO_63 - delay) as real;
    Spread(d, ratio);
    u := DrawFor(gap, ratio, d);
    TermFits(delay, ratio, u, beyond, gap);
    assert gap.Floor == TWO_63 - delay;
    assert Wrap(TWO_63) == -TWO_63;
  }

  /** The jittered wait lies between the delay and its ratio above it, whatever is
    drawn, exactly when delay * (1 + ratio) is at most 2^63. Otherwise some draw
    makes it negative. */
  lemma {:induction false} JitterExactly(delay: int, ratio: real, beyond: Float -> Word)
    requires 0 < delay < TWO_63 && ratio > 0.0
    ensures (forall u: real :: 0.0 <= u < 1.0 ==> WithinRatio(Jittered(delay, Finite(ratio), u, beyond), delay, ratio))
            <==> RoomFor(delay, ratio)
    ensures (forall u: real :: 0.0 <= u < 1.0 ==> Jittered(delay, Finite(ratio), u, beyond) > 0)
            <==> RoomFor(delay, ratio)
  {
    if RoomFor(delay, ratio) {
      forall u: real | 0.0 <= u < 1.0
        ensures WithinRatio(Jittered(delay, Finite(ratio), u, beyond), delay, ratio)
      {
        JitterInRange(delay, ratio, u, beyond);
      }
    } else {
      var u := JitterCanWrap(delay, ratio, beyond);
      assert !WithinRatio(Jittered(delay, Finite(ratio), u, beyond), delay, ratio);
    }
  }

  lemma {:induction false} RoomShrinks(d1: int, d2: int, ratio: real)
    requires 0 < d1 <= d2 && ratio > 0.0 && RoomFor(d2, ratio)
    ensures RoomFor(d1, ratio)
  {
    if d1 < d2 {
      Product(d1 as real, d2 as real, 1.0 + ratio);
    }
  }

  predicate WaitOk(attempt: int, base: int, cap: int, ratio: real, u: real, beyond: Float -> Word) {
    WithinRatio(JitteredBackoff(attempt, base, cap, Finite(ratio), u, beyond), Delay(attempt, base, cap), ratio)
  }

  /** Over all attempts and draws: the wait is as documented exactly when
    cap * (1 + ratio) is at most 2^63, whatever the base. */
  lemma {:induction false} EveryJitterExactly(base: int, cap: int, ratio: real, beyond: Float -> Word)
    requires base < TWO_63 && cap < TWO_63 && ratio > 0.0
    ensures (forall attempt: int, u: real :: 0.0 <= u < 1.0 ==> WaitOk(attempt, base, cap, ratio, u, beyond))
            <==> RoomFor(CapOrDefault(cap), ratio)
  {
    var c := CapOrDefault(cap);
    if RoomFor(c, ratio) {
      forall attempt: int, u: real | 0.0 <= u < 1.0 ensures WaitOk(attempt, base, cap, ratio, u, beyond) {
        DelayInRange(attempt, base, cap);
        RoomShrinks(Delay(attempt, base, cap), c, ratio);
        JitterInRange(Delay(attempt, base, cap), ratio, u, beyond);
      }
    } else {
      var u := JitterCanWrap(c, ratio, beyond);
      assert Delay(63, base, cap) == c;
      assert !WaitOk(63, base, cap, ratio, u, beyond);
    }
  }

  /** Nine billion seconds for base and cap, the default ratio and a draw of 0.9:
    the second attempt's wait is negative, so it does not wait at all. */
  lemma {:induction false} LargeCapWraps(beyond: Float -> Word)
    ensures Delay(2, 9_000_000_000 * SECOND, 9_000_000_000 * SECOND) == 9_000_000_000 * SECOND
    ensures JitteredBackoff(2, 9_000_000_000 * SECOND, 9_000_000_000 * SECOND, Finite(0.5), 0.9, beyond)
            == -5_396_744_073_709_551_616
  {
    var c := 9_000_000_000 * SECOND;
    assert Pow2(1) == 2 * Pow2(0);
    assert Exponent(2) == 1;
    assert Wrap(c * 2) == -446_744_073_709_551_616;
    assert (0.9 * 0.5) * (c as real) == 4_050_000_000_000_000_000.0;
  }

  // ----- when the delay is exactly what it should be -----

  /** Of base, the 64 - e low bits are what is left after a shift by e. Either
    none of base is lost, or none is left, or what is left is no less than the cap. */
  predicate SafeAt(base: nat, cap: int, e: nat)
    requires e <= 64
  {
    base < Pow2(64 - e) || base % Pow2(64 - e) == 0 || (base % Pow2(64 - e)) * Pow2(e) >= cap
  }

  predicate SafeBelow(base: nat, cap: int, limit: nat)
    requires limit <= 65
  {
    forall e :: 0 <= e < limit ==> SafeAt(base, cap, e)
  }

  lemma ClampedExactly(product: nat, cap: int)
    requires product > 0 && 0 < cap < TWO_63
    ensures Clamped(product, cap) == (if product < cap then product else cap)
            <==> product < TWO_64 || product % TWO_64 == 0 || product % TWO_64 >= cap
  {}

  lemma {:induction false} ScaledExactly(base: nat, cap: int, e: nat)
    requires 0 < base < TWO_63 && 0 < cap < TWO_63 && e <= 64
    ensures Scaled(base, cap, e) == Ideal(base, cap, e) <==> SafeAt(base, cap, e)
  {
    var w, low := Pow2(64 - e), base % Pow2(64 - e);
    assert w * Pow2(e) == TWO_64 by {
      PowAdd(64 - e, e);
      Pow2Of64();
    }
    ShiftKeepsLowBits(base, e);
    MulLess(0, base, Pow2(e));
    ClampedExactly(base * Pow2(e), cap);
    if base < w {
      MulLess(base, w, Pow2(e));
    } else {
      MulMonotone(w, base, Pow2(e));
      if low > 0 {
        MulLess(0, low, Pow2(e));
      }
    }
  }

  /** From the 63rd attempt on the code answers the cap without multiplying. */
  lemma {:induction false} LateAttempts(base: nat, cap: int, e: nat)
    requires 0 < base < TWO_63 && 0 < cap < TWO_63 && e >= 62
    ensures base > 1 || cap <= Pow2(62) ==> Ideal(base, cap, e) == cap
    ensures e == 62 && !(base > 1 || cap <= Pow2(62)) ==> Ideal(base, cap, e) != cap
  {
    PowMonotone(62, e);
    Pow2Of64();
    assert Pow2(64) == 2 * Pow2(63) && Pow2(63) == 2 * Pow2(62);
    MulMonotone(Pow2(62), Pow2(e), base);
    if base > 1 {
      MulMonotone(2, base, Pow2(62));
    }
  }

  /** Every attempt's delay is min(base * 2^(attempt - 1), cap) exactly when the
    low bits of base are safe; nothing else about the inputs matters, but for
    the one base of a single nanosecond under a cap above 2^62. */
  lemma {:induction false} EveryAttemptExactly(base: nat, cap: int)
    requires 0 < base < TWO_63 && 0 < cap < TWO_63
    ensures (forall attempt: int :: Delay(attempt, base, cap) == Ideal(base, cap, Exponent(attempt)))
            <==> SafeBelow(base, cap, 62) && (base > 1 || cap <= Pow2(62))
  {
    if SafeBelow(base, cap, 62) && (base > 1 || cap <= Pow2(62)) {
      forall attempt: int ensures Delay(attempt, base, cap) == Ideal(base, cap, Exponent(attempt)) {
        var e := Exponent(attempt);
        if e >= 62 {
          LateAttempts(base, cap, e);
        } else {
          assert SafeAt(base, cap, e);
          ScaledExactly(base, cap, e);
        }
      }
    }
    if forall attempt: int :: Delay(attempt, base, cap) == Ideal(base, cap, Exponent(attempt)) {
      forall e | 0 <= e < 62 ensures SafeAt(base, cap, e) {
        assert Exponent(e + 1) == e;
        assert Delay(e + 1, base, cap) == Ideal(base, cap, Exponent(e + 1));
        ScaledExactly(base, cap, e);
      }
      assert Exponent(63) == 62;
      assert Delay(63, base, cap) == Ideal(base, cap, Exponent(63));
      LateAttempts(base, cap, 62);
    }
  }

  /** A base with many low zero bits, not too large, under a small cap: the
    product never wraps to anything in (0, cap). */
  lemma {:induction false} RoundBasesAreSafe(m: nat, p: nat, q: nat, cap: int, limit: nat)
    requires m > 0 && q <= 64 && m * Pow2(p) < Pow2(64 - q) && cap <= Pow2(p + q + 1) && limit <= 65
    ensures SafeBelow(m * Pow2(p), cap, limit)
  {
    forall e | 0 <= e < limit ensures SafeAt(m * Pow2(p), cap, e) {
      if e <= q {
        PowMonotone(64 - q, 64 - e);
      } else {
        WrappedIsLarge(m, p, e);
        PowMonotone(p + q + 1, p + e);
      }
    }
  }

  /** What is left of m * 2^p after a shift by e is a multiple of 2^(p + e). */
  lemma {:induction false} WrappedIsLarge(m: nat, p: nat, e: nat)
    requires e <= 64
    ensures var low := (m * Pow2(p)) % Pow2(64 - e);
            low == 0 || low * Pow2(e) >= Pow2(p + e)
  {
    if p <= 64 - e {
      PowAdd(64 - e - p, p);
      PowAdd(p, e);
      LowMultiple(m, Pow2(64 - e - p), Pow2(p), Pow2(e));
    } else {
      PowAdd(p - (64 - e), 64 - e);
      NothingLeft(m, Pow2(p - (64 - e)), Pow2(64 - e));
    }
  }

  lemma LowMultiple(m: nat, v: nat, p: nat, k: nat)
    requires v > 0 && p > 0 && k > 0
    ensures v * p > 0 && ((m * p) % (v * p) == 0 || ((m * p) % (v * p)) * k >= p * k)
  {
    ScaledMod(m, v, p);
    if m % v > 0 {
      MulMonotone(1, m % v, p);
      MulMonotone(p, (m % v) * p, k);
    }
  }

  lemma NothingLeft(m: nat, h: nat, w: nat)
    requires w > 0
    ensures (m * (h * w)) % w == 0
  {
    assert m * (h * w) == (m * h) * w + 0;
    ModAdd(m * h, 0, w);
  }

  lemma SecondIsRound(s: nat)
    ensures s * SECOND == (s * 1_953_125) * Pow2(9)
  {
    assert Pow2(3) == 8;
    PowAdd(3, 3);
    PowAdd(6, 3);
    assert SECOND == 1_953_125 * 512;
  }

  lemma PowersForSeconds()
    ensures Pow2(37) == 137_438_953_472
  {
    Pow2Of16();
    PowAdd(16, 16);
    assert Pow2(3) == 8;
    PowAdd(3, 2);
    PowAdd(32, 5);
  }

  /** With the 120 s cap every whole-second base up to 137 s, the default 5 s
    among them, gives exactly the documented delay at every attempt. */
  lemma {:induction false} WholeSecondsAreExact(s: nat, attempt: int)
    requires 1 <= s <= 137
    ensures Delay(attempt, s * SECOND, 120 * SECOND) == Ideal(s * SECOND, 120 * SECOND, Exponent(attempt))
  {
    SecondIsRound(s);
    PowersForSeconds();
    RoundBasesAreSafe(s * 1_953_125, 9, 27, 120 * SECOND, 62);
    EveryAttemptExactly(s * SECOND, 120 * SECOND);
  }

  /** ... but not every whole-second base: at 47279 s the 25th attempt waits
    94.489280512 s, less than the cap. */
  lemma {:induction false} LargeBaseFails()
    ensures Delay(25, 47_279 * SECOND, 120 * SECOND) == 94_489_280_512
    ensures Ideal(47_279 * SECOND, 120 * SECOND, Exponent(25)) == 120 * SECOND
  {
    assert Pow2(3) == 8;
    PowAdd(3, 3);
    PowAdd(6, 6);
    PowAdd(12, 12);
    assert Pow2(24) == 16_777_216;
  }

  /** Where the delay is exact it never shrinks from one attempt to the next. */
  lemma {:induction false} ExactDelaysGrow(base: nat, cap: int, attempt: int)
    requires 0 < base < TWO_63 && 0 < cap < TWO_63
    requires SafeBelow(base, cap, 62) && (base > 1 || cap <= Pow2(62))
    ensures Delay(attempt, base, cap) <= Delay(attempt + 1, base, cap)
  {
    EveryAttemptExactly(base, cap);
    var e := Exponent(attempt);
    assert Delay(attempt, base, cap) == Ideal(base, cap, e);
    assert Delay(attempt + 1, base, cap) == Ideal(base, cap, Exponent(attempt + 1));
    IdealGrows(base, cap, e, Exponent(attempt + 1));
  }

  lemma {:induction false} IdealGrows(base: nat, cap: int, e: nat, f: nat)
    requires e <= f
    ensures Ideal(base, cap, e) <= Ideal(base, cap, f)
  {
    PowMonotone(e, f);
    MulMonotone(Pow2(e), Pow2(f), base);
  }
}
