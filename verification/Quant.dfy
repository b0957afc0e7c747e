/** firmware/core/src/nn/quant.c: the fixed-point requantization arithmetic on 32-bit integers.
    The subset type makes the verifier prove that nothing overflows. */
module Quant {
  import opened Bits

  const INT32_MIN: int := -0x8000_0000
  const INT32_MAX: int := 0x7fff_ffff
  const HALF: int := 0x4000_0000       // 2^30
  const FULL: int := 0x8000_0000       // 2^31

  type int32 = x: int | INT32_MIN <= x <= INT32_MAX
  type int8 = x: int | -128 <= x <= 127

  predicate InInt32(x: int) { INT32_MIN <= x <= INT32_MAX }

  function Abs(x: int): (r: nat) { if x < 0 then -x else x }
  function Max(a: int, b: int): int { if a < b then b else a }

  /** C division: the quotient rounded towards zero. */
  function TruncDiv(a: int, b: int): int
    requires b > 0
  {
    if a >= 0 then a / b else -(-a / b)
  }

  const SQUARE: int := FULL * FULL     // 2^62

  lemma ProductBound(a: int32, b: int32)
    ensures -SQUARE <= a * b <= SQUARE
    ensures !(a == b == INT32_MIN) ==> a * b <= SQUARE - FULL
  {
    var x, y := Abs(a), Abs(b);
    MulMonotone(x, FULL, y);
    MulMonotone(y, FULL, FULL);
    AbsProduct(a, b);
    if x < FULL {
      MulMonotone(x, FULL - 1, y);
      MulMonotone(y, FULL, FULL - 1);
    } else if y < FULL {
      MulMonotone(y, FULL - 1, FULL);
    }
  }

  lemma AbsProduct(a: int, b: int)
    ensures -(Abs(a) * Abs(b)) <= a * b <= Abs(a) * Abs(b)
    ensures a * b > 0 ==> (a > 0 <==> b > 0)
  {}

  /** Rounding to the nearest multiple of 2^31 by truncation, with a nudge that depends on the
      sign, is rounding half up. */
  lemma NudgeIsHalfUp(ab: int)
    ensures TruncDiv(ab + (if ab >= 0 then HALF else 1 - HALF), FULL) == (ab + HALF) / FULL
  {}

  lemma HighRange(ab: int)
    requires -SQUARE <= ab <= SQUARE - FULL
    ensures InInt32((ab + HALF) / FULL)
  {}

  /** `nn_sat_round_doubling_high_mul`. */
  function SatRoundDoublingHighMul(a: int32, b: int32): int32
  {
    ProductBound(a, b);
    var ab := a * b;
    if a == b && a == INT32_MIN then INT32_MAX
    else
      NudgeIsHalfUp(ab);
      HighRange(ab);
      TruncDiv(ab + (if ab >= 0 then HALF else 1 - HALF), FULL)
  }

  /** The product scaled by 2^-31 and rounded half up, except at the one saturating corner. */
  lemma HighMulExact(a: int32, b: int32)
    ensures SatRoundDoublingHighMul(a, b)
         == if a == INT32_MIN && b == INT32_MIN then INT32_MAX else (a * b + HALF) / FULL
  {
    NudgeIsHalfUp(a * b);
  }

  /** `nn_rounding_divide_by_pot`; an exponent of 32 or more is undefined in C. */
  function RoundingDivideByPot(x: int32, exponent: int): int32
    requires exponent <= 31
  {
    if exponent <= 0 then x
    else
      var mask := Pow2(exponent) - 1;
      var remainder := BitAnd(x, mask);
      var threshold := mask / 2 + if x < 0 then 1 else 0;
      PotRange(x, exponent);
      x / Pow2(exponent) + if remainder > threshold then 1 else 0
  }

  /** x / 2^e rounded to the nearest integer, halves away from zero. */
  function RoundHalfAway(x: int, e: nat): int
  {
    var p := Pow2(e);
    if x >= 0 then (x + p / 2) / p else -((-x + p / 2) / p)
  }

  lemma PotExact(x: int, e: nat)
    requires e >= 1
    ensures BitAnd(x, Pow2(e) - 1) == x % Pow2(e)
    ensures x / Pow2(e) + (if x % Pow2(e) > (Pow2(e) - 1) / 2 + (if x < 0 then 1 else 0) then 1 else 0)
         == RoundHalfAway(x, e)
  {
    AndMask(x, e);
    RoundBySign(x, Pow2(e - 1));
  }

  lemma RoundBySign(x: int, h: nat)
    requires h >= 1
    ensures x / (2 * h) + (if x % (2 * h) > (2 * h - 1) / 2 + (if x < 0 then 1 else 0) then 1 else 0)
         == if x >= 0 then (x + (2 * h) / 2) / (2 * h) else -((-x + (2 * h) / 2) / (2 * h))
  {
    var p := 2 * h;
    var q, r := x / p, x % p;
    assert x == p * q + r;
    assert (p - 1) / 2 == h - 1 && p / 2 == h;
    assert p * (q + 1) == p * q + p && p * (-q) == -(p * q) && p * (-q - 1) == -(p * q) - p;
    if x >= 0 {
      if r >= h {
        DivModUnique(x + h, p, q + 1, r - h);
      } else {
        DivModUnique(x + h, p, q, r + h);
      }
    } else {
      if r > h {
        DivModUnique(-x + h, p, -q - 1, p - r + h);
      } else {
        DivModUnique(-x + h, p, -q, h - r);
      }
    }
  }

  lemma PotRange(x: int32, e: nat)
    requires e >= 1
    ensures InInt32(x / Pow2(e) + 1) && InInt32(x / Pow2(e))
  {
    FloorBetween(x, Pow2(e));
    FloorHalves(x, Pow2(e - 1));
  }

  /** Dividing by a positive number does not move an integer away from zero. */
  lemma FloorBetween(x: int, p: int)
    requires p >= 1
    ensures if x >= 0 then 0 <= x / p <= x else x <= x / p < 0
  {
    var q, r := x / p, x % p;
    assert x == p * q + r;
    NonZeroMultiple(p, q);
    if x >= 0 {
      MulMonotone(1, p, if q >= 0 then q else 0);
    } else {
      MulMonotone(1, -x, p - 1);
      assert (-x) * (p - 1) == x - p * x;
      assert p * (q - x) == p * q - p * x;
      NonZeroMultiple(p, q - x);
    }
  }

  lemma FloorHalves(x: int, h: nat)
    requires h >= 1
    ensures x >= 0 ==> x / (2 * h) <= x / 2
  {
    if x >= 0 {
      DivDiv(x, h);
      FloorBetween(x / 2, h);
    }
  }

  /** The left shift the multiplier asks for stays inside 32 bits (beyond that C is undefined). */
  predicate ShiftFits(x: int, shift: int)
  {
    -31 <= shift <= 30 && InInt32(x * Pow2(if shift > 0 then shift else 0))
  }

  /** `nn_multiply_by_quantized_multiplier`. */
  function MultiplyByQuantizedMultiplier(x: int32, qm: int32, shift: int): int32
    requires ShiftFits(x, shift)
  {
    var left := if shift > 0 then shift else 0;
    var right := if shift > 0 then 0 else -shift;
    RoundingDivideByPot(SatRoundDoublingHighMul(x * Pow2(left), qm), right)
  }

  function Clamp(v: int, lo: int, hi: int): int
  {
    var v1 := if v < lo then lo else v;
    if v1 > hi then hi else v1
  }

  /** `nn_requantize_i8`. */
  function Requantize(acc: int32, qm: int32, shift: int, zp: int8, lo: int8, hi: int8): int8
    requires ShiftFits(acc, shift) && InInt32(MultiplyByQuantizedMultiplier(acc, qm, shift) + zp)
  {
    Clamp(MultiplyByQuantizedMultiplier(acc, qm, shift) + zp, lo, hi)
  }

  // ----- properties -----

  lemma HalfAwayError(x: int, e: nat)
    requires e >= 1
    ensures Abs(RoundHalfAway(x, e) * Pow2(e) - x) <= Pow2(e - 1)
  {
    var h := Pow2(e - 1);
    var n := Abs(x) + h;
    var q: int := Quot(n, 2 * h);
    assert (2 * h) / 2 == h;
    assert (-q) * (2 * h) == -(q * (2 * h));
  }

  /** The result is within half a unit of each of the two roundings: for a right shift r,
      y * 2^(31+r) differs from x * qm by at most 2^(30+r) + 2^30. */
  lemma RequantizationError(x: int32, qm: int32, r: nat)
    requires r <= 31 && !(x == INT32_MIN && qm == INT32_MIN)
    ensures Abs(MultiplyByQuantizedMultiplier(x, qm, 0 - r) * (FULL * Pow2(r)) - x * qm) <= HALF * Pow2(r) + HALF
  {
    hide SatRoundDoublingHighMul, RoundingDivideByPot, MultiplyByQuantizedMultiplier, RoundHalfAway, Pow2;
    var h := SatRoundDoublingHighMul(x, qm);
    RightShiftOnly(x, qm, r);
    HighMulExact(x, qm);
    HighError(x * qm);
    if r == 0 {
      CombineErrors(h, h, 1, x * qm, 0);
      PowZero();
    } else {
      PotIsHalfAway(h, r);
      HalfAwayError(h, r);
      HalvePow2(r);
      CombineErrors(RoundHalfAway(h, r), h, Pow2(r), x * qm, Pow2(r - 1));
    }
  }

  lemma RightShiftOnly(x: int32, qm: int32, r: nat)
    requires r <= 31
    ensures ShiftFits(x, 0 - r)
    ensures MultiplyByQuantizedMultiplier(x, qm, 0 - r) == RoundingDivideByPot(SatRoundDoublingHighMul(x, qm), r)
    ensures r == 0 ==> RoundingDivideByPot(SatRoundDoublingHighMul(x, qm), r) == SatRoundDoublingHighMul(x, qm)
  {
    hide SatRoundDoublingHighMul;
    PowZero();
    assert x * Pow2(0) == x;
  }

  lemma PowZero()
    ensures Pow2(0) == 1
  {}

  lemma HalvePow2(r: nat)
    requires r >= 1
    ensures Pow2(r) == 2 * Pow2(r - 1)
  {}

  lemma HighError(ab: int)
    ensures Abs((ab + HALF) / FULL * FULL - ab) <= HALF
  {}

  lemma CombineErrors(y: int, h: int, p: int, ab: int, e: int)
    requires Abs(y * p - h) <= e && Abs(h * FULL - ab) <= HALF && 2 * e <= p
    ensures Abs(y * (FULL * p) - ab) <= HALF * p + HALF
  {
    assert y * (FULL * p) == (y * p) * FULL;
    assert (y * p) * FULL - h * FULL == (y * p - h) * FULL;
  }

  /** For a left shift only the first rounding remains. */
  lemma LeftShiftError(x: int32, qm: int32, shift: nat)
    requires ShiftFits(x, shift) && !(x * Pow2(shift) == INT32_MIN && qm == INT32_MIN)
    ensures Abs(MultiplyByQuantizedMultiplier(x, qm, shift) * FULL - x * Pow2(shift) * qm) <= HALF
  {
    hide Pow2, SatRoundDoublingHighMul;
    LeftShiftOnly(x, qm, shift);
    HighMulExact(x * Pow2(shift), qm);
    HighError(x * Pow2(shift) * qm);
  }

  lemma LeftShiftOnly(x: int32, qm: int32, shift: nat)
    requires ShiftFits(x, shift)
    ensures MultiplyByQuantizedMultiplier(x, qm, shift) == SatRoundDoublingHighMul(x * Pow2(shift), qm)
  {
    hide SatRoundDoublingHighMul;
    PowZero();
  }

  /** The requantized value is the point of [lo, hi] nearest to the rescaled accumulator plus the
      zero point: no u in the interval is nearer. */
  lemma RequantizeNearest(acc: int32, qm: int32, shift: int, zp: int8, lo: int8, hi: int8, u: int)
    requires lo <= u <= hi && ShiftFits(acc, shift) && InInt32(MultiplyByQuantizedMultiplier(acc, qm, shift) + zp)
    ensures var v, r := MultiplyByQuantizedMultiplier(acc, qm, shift) + zp, Requantize(acc, qm, shift, zp, lo, hi);
            && lo <= r <= hi && (lo <= v <= hi ==> r == v) && (lo < r < hi ==> r == v)
            && Abs(r - v) <= Abs(u - v)
  {
    hide MultiplyByQuantizedMultiplier, ShiftFits;
  }

  /** An unclamped output is acc * qm / 2^(31+r) + zp up to the error of the two roundings. */
  lemma OutputError(acc: int32, qm: int32, r: nat, zp: int8, lo: int8, hi: int8)
    requires r <= 31 && !(acc == INT32_MIN && qm == INT32_MIN)
    requires ShiftFits(acc, 0 - r) && InInt32(MultiplyByQuantizedMultiplier(acc, qm, 0 - r) + zp)
    requires lo < Requantize(acc, qm, 0 - r, zp, lo, hi) < hi
    ensures Abs((Requantize(acc, qm, 0 - r, zp, lo, hi) - zp) * (FULL * Pow2(r)) - acc * qm) <= HALF * Pow2(r) + HALF
  {
    hide MultiplyByQuantizedMultiplier;
    RequantizationError(acc, qm, r);
    RequantizeNearest(acc, qm, 0 - r, zp, lo, hi, lo);
  }

  lemma FloorMonotone(a: int, b: int, p: int)
    requires a <= b && p >= 1
    ensures a / p <= b / p
  {
    var qa, qb := a / p, b / p;
    assert a == p * qa + a % p && b == p * qb + b % p;
    assert p * (qb - qa) == p * qb - p * qa;
    NonZeroMultiple(p, qb - qa);
  }

  lemma ScaleMonotone(a: int, b: int, c: int)
    requires a <= b && c >= 0
    ensures a * c <= b * c
  {
    assert b * c - a * c == (b - a) * c;
    MulMonotone(0, b - a, c);
  }

  lemma PotMonotone(a: int32, b: int32, e: int)
    requires a <= b && e <= 31
    ensures RoundingDivideByPot(a, e) <= RoundingDivideByPot(b, e)
  {
    if e >= 1 {
      PotIsHalfAway(a, e);
      PotIsHalfAway(b, e);
      HalfAwayMonotone(a, b, e);
    }
  }

  lemma PotIsHalfAway(x: int32, e: nat)
    requires 1 <= e <= 31
    ensures RoundingDivideByPot(x, e) == RoundHalfAway(x, e)
  {
    hide BitAnd, Pow2, RoundHalfAway;
    PotExact(x, e);
  }

  lemma HalfAwayMonotone(a: int, b: int, e: nat)
    requires a <= b
    ensures RoundHalfAway(a, e) <= RoundHalfAway(b, e)
  {
    hide Pow2;
    var p := Pow2(e);
    if a >= 0 {
      FloorMonotone(a + p / 2, b + p / 2, p);
    } else if b < 0 {
      FloorMonotone(-b + p / 2, -a + p / 2, p);
    } else {
      FloorBetween(b + p / 2, p);
      FloorBetween(-a + p / 2, p);
    }
  }

  /** With a non-negative multiplier the rescaling is monotone, and it fixes zero. */
  lemma MultiplyMonotone(x: int32, y: int32, qm: int32, shift: int)
    requires x <= y && qm >= 0 && ShiftFits(x, shift) && ShiftFits(y, shift)
    ensures MultiplyByQuantizedMultiplier(x, qm, shift) <= MultiplyByQuantizedMultiplier(y, qm, shift)
  {
    hide RoundingDivideByPot;
    var p := Pow2(if shift > 0 then shift else 0);
    ScaleMonotone(x, y, p);
    HighMulExact(x * p, qm);
    HighMulExact(y * p, qm);
    ScaleMonotone(x * p, y * p, qm);
    FloorMonotone(x * p * qm + HALF, y * p * qm + HALF, FULL);
    PotMonotone(SatRoundDoublingHighMul(x * p, qm), SatRoundDoublingHighMul(y * p, qm),
                if shift > 0 then 0 else -shift);
  }

  lemma MultiplyZero(qm: int32, shift: int)
    requires -31 <= shift <= 30
    ensures ShiftFits(0, shift) && MultiplyByQuantizedMultiplier(0, qm, shift) == 0
  {
    hide SatRoundDoublingHighMul, RoundingDivideByPot;
    var left := if shift > 0 then shift else 0;
    assert 0 * Pow2(left) == 0;
    HighMulExact(0, qm);
    assert SatRoundDoublingHighMul(0, qm) == 0;
    PotZero(if shift > 0 then 0 else -shift);
  }

  lemma PotZero(e: int)
    requires e <= 31
    ensures RoundingDivideByPot(0, e) == 0
  {
    hide RoundingDivideByPot;
    if e >= 1 {
      PotIsHalfAway(0, e);
      DivModUnique(Pow2(e) / 2, Pow2(e), 0, Pow2(e) / 2);
    } else {
      NoShift(0, e);
    }
  }

  lemma NoShift(x: int32, e: int)
    requires e <= 0
    ensures RoundingDivideByPot(x, e) == x
  {}

  /** Folding ReLU into the lower clamp (act_min = output zero point) equals applying max(acc, 0)
      before requantizing. */
  lemma ReluFolds(acc: int32, qm: int32, shift: int, zp: int8, lo: int8)
    requires qm >= 0 && lo <= zp && ShiftFits(acc, shift)
    requires InInt32(MultiplyByQuantizedMultiplier(acc, qm, shift) + zp)
    ensures ShiftFits(Max(acc, 0), shift)
    ensures InInt32(MultiplyByQuantizedMultiplier(Max(acc, 0), qm, shift) + zp)
    ensures Requantize(acc, qm, shift, zp, zp, 127) == Requantize(Max(acc, 0), qm, shift, zp, lo, 127)
  {
    hide MultiplyByQuantizedMultiplier;
    MultiplyZero(qm, shift);
    if acc < 0 {
      MultiplyMonotone(acc, 0, qm, shift);
    } else {
      MultiplyMonotone(0, acc, qm, shift);
    }
  }

  /** The rescaled value is no larger in magnitude than the shifted accumulator. */
  lemma MultiplyShrinks(x: int32, qm: int32, shift: int)
    requires ShiftFits(x, shift)
    ensures Abs(MultiplyByQuantizedMultiplier(x, qm, shift)) <= Abs(x * Pow2(if shift > 0 then shift else 0))
  {
    hide RoundingDivideByPot;
    var a := x * Pow2(if shift > 0 then shift else 0);
    HighMulExact(a, qm);
    HighShrinks(a, qm);
    PotShrinks(SatRoundDoublingHighMul(a, qm), if shift > 0 then 0 else -shift);
  }

  lemma HighShrinks(a: int32, qm: int32)
    ensures 0 - Abs(a) <= (a * qm + HALF) / FULL <= Abs(a)
  {
    AbsProduct(a, qm);
    MulMonotone(Abs(qm), FULL, Abs(a));
  }

  lemma PotShrinks(x: int32, e: int)
    requires e <= 31
    ensures Abs(RoundingDivideByPot(x, e)) <= Abs(x)
  {
    if e >= 1 {
      PotIsHalfAway(x, e);
      ShrinkHalf(Abs(x), Pow2(e - 1));
    }
  }

  lemma ShrinkHalf(n: nat, h: nat)
    requires h >= 1
    ensures 0 <= (n + (2 * h) / 2) / (2 * h) <= n
  {
    assert (2 * h) / 2 == h;
    var q := Quot(n + h, 2 * h);
    if q > n {
      MulMonotone(n + 1, q, 2 * h);
      assert (n + 1) * (2 * h) == 2 * h * n + 2 * h;
      MulMonotone(1, 2 * h, n);
    }
  }
}
