/** kws-framework/kwslib/quant.py: the off-device reference arithmetic on unbounded integers, and
    its agreement with the 32-bit C arithmetic. */
module PyQuant {
  import opened Bits
  import Q = Quant

  /** Wraps into the signed 32-bit range. */
  function ToInt32(x: int): int
  {
    var y := BitAnd(x, 0xFFFF_FFFF);
    if BitAnd(y, 0x8000_0000) != 0 then y - 0x1_0000_0000 else y
  }

  function IdivTrunc(a: int, b: int): int
    requires b != 0
  {
    var q := Q.Abs(a) / Q.Abs(b);
    if (a >= 0) == (b >= 0) then q else -q
  }

  function SatRoundDoublingHighMul(a: int, b: int): int
  {
    if a == b == Q.INT32_MIN then Q.INT32_MAX
    else
      var ab := a * b;
      var nudge := if ab >= 0 then Q.HALF else 1 - Q.HALF;
      IdivTrunc(ab + nudge, Q.FULL)
  }

  function RoundingDivideByPot(x: int, exponent: int): int
  {
    if exponent <= 0 then x
    else
      var mask := Pow2(exponent) - 1;
      var remainder := BitAnd(x, mask);
      var threshold := mask / 2 + if x < 0 then 1 else 0;
      x / Pow2(exponent) + if remainder > threshold then 1 else 0
  }

  function MultiplyByQuantizedMultiplier(x: int, qm: int, shift: int): int
  {
    var left := if shift > 0 then shift else 0;
    var right := if shift > 0 then 0 else -shift;
    RoundingDivideByPot(SatRoundDoublingHighMul(ToInt32(x * Pow2(left)), qm), right)
  }

  function Requantize(acc: int, qm: int, shift: int, zp: int, lo: int, hi: int): int
  {
    var v := MultiplyByQuantizedMultiplier(acc, qm, shift) + zp;
    var w := if v < lo then lo else v;
    if w > hi then hi else w
  }

  /** Wrapping is the identity exactly on the 32-bit range. */
  lemma ToInt32Exact(x: int)
    ensures Q.InInt32(ToInt32(x))
    ensures ToInt32(x) == x <==> Q.InInt32(x)
  {
    hide BitAnd;
    assert Pow2(32) == 0x1_0000_0000 by { ThirtyTwo(); }
    assert Pow2(31) == 0x8000_0000 by { ThirtyTwo(); }
    AndMask(x, 32);
    var y := x % 0x1_0000_0000;
    AndPow2(y, 31);
  }

  lemma ThirtyTwo()
    ensures Pow2(31) == 0x8000_0000 && Pow2(32) == 0x1_0000_0000
  {
    assert Pow2(8) == 0x100;
    Pow2Add(8, 8);
    Pow2Add(16, 8);
    assert Pow2(7) == 0x80;
    Pow2Add(24, 7);
  }

  /** Wherever the C arithmetic is defined, the reference computes the same number. */
  lemma MultiplyAgrees(x: Q.int32, qm: Q.int32, shift: int)
    requires Q.ShiftFits(x, shift)
    ensures MultiplyByQuantizedMultiplier(x, qm, shift) == Q.MultiplyByQuantizedMultiplier(x, qm, shift)
  {
    hide BitAnd, Pow2, ToInt32;
    var left := if shift > 0 then shift else 0;
    ToInt32Exact(x * Pow2(left));
    HighAgrees(x * Pow2(left), qm);
  }

  lemma HighAgrees(a: Q.int32, b: Q.int32)
    ensures SatRoundDoublingHighMul(a, b) == Q.SatRoundDoublingHighMul(a, b)
  {
    var ab := a * b;
  }

  lemma RequantizeAgrees(acc: Q.int32, qm: Q.int32, shift: int, zp: Q.int8, lo: Q.int8, hi: Q.int8)
    requires Q.ShiftFits(acc, shift) && Q.InInt32(Q.MultiplyByQuantizedMultiplier(acc, qm, shift) + zp)
    ensures Requantize(acc, qm, shift, zp, lo, hi) == Q.Requantize(acc, qm, shift, zp, lo, hi)
  {
    hide MultiplyByQuantizedMultiplier, Q.MultiplyByQuantizedMultiplier;
    MultiplyAgrees(acc, qm, shift);
  }

  lemma MultiplyZero(qm: int, shift: int)
    ensures MultiplyByQuantizedMultiplier(0, qm, shift) == 0
  {
    hide ToInt32, RoundingDivideByPot;
    var left := if shift > 0 then shift else 0;
    assert 0 * Pow2(left) == 0;
    ToInt32Exact(0);
    assert 0 * qm == 0;
    assert SatRoundDoublingHighMul(0, qm) == 0;
    PotZero(if shift > 0 then 0 else -shift);
  }

  lemma PotZero(e: int)
    ensures RoundingDivideByPot(0, e) == 0
  {
    if e > 0 {
      AndMask(0, e);
      DivModUnique(0, Pow2(e), 0, 0);
    }
  }
}
