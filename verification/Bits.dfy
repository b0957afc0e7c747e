/** Powers of two and the C bit operators the firmware uses, on mathematical integers.
    Every use in the sources has a non-negative right operand, and a negative left operand
    (two's complement) is covered because `/` and `%` floor for a positive divisor. */
module Bits {
  function Pow2(n: nat): (p: nat)
    ensures p >= 1
  {
    if n == 0 then 1 else 2 * Pow2(n - 1)
  }

  /** The operator `x & y`, bit by bit. */
  function BitAnd(x: int, y: nat): (r: nat)
    decreases y
  {
    if y == 0 then 0 else (x % 2) * (y % 2) + 2 * BitAnd(x / 2, y / 2)
  }

  /** The operator `x ^ y`, bit by bit. */
  function BitXor(x: nat, y: nat): (r: nat)
    decreases x + y
  {
    if x == 0 then y
    else if y == 0 then x
    else (x + y) % 2 + 2 * BitXor(x / 2, y / 2)
  }

  lemma {:induction false} Pow2Add(a: nat, b: nat)
    ensures Pow2(a + b) == Pow2(a) * Pow2(b)
  {
    if a == 0 {
    } else {
      Pow2Add(a - 1, b);
      assert Pow2(a) * Pow2(b) == 2 * (Pow2(a - 1) * Pow2(b));
    }
  }

  lemma {:induction false} Pow2Monotone(a: nat, b: nat)
    requires a <= b
    ensures Pow2(a) <= Pow2(b)
  {
    if a < b {
      Pow2Monotone(a, b - 1);
    }
  }

  lemma Pow2Reflect(a: nat, b: nat)
    ensures Pow2(a) <= Pow2(b) <==> a <= b
  {
    if b < a {
      Pow2Monotone(b + 1, a);
    } else {
      Pow2Monotone(a, b);
    }
  }

  /** `x & (2^t - 1)` keeps the low t bits. */
  lemma {:induction false} AndMask(x: int, t: nat)
    ensures BitAnd(x, Pow2(t) - 1) == x % Pow2(t)
    decreases t
  {
    hide BitAnd;
    if t == 0 {
      AndNothing(x);
    } else {
      var p := Pow2(t - 1);
      AndMask(x / 2, t - 1);
      AndOdd(x, p);
      ModDouble(x, p);
    }
  }

  lemma AndNothing(x: int)
    ensures BitAnd(x, 0) == 0 == x % 1
  {}

  lemma AndOdd(x: int, p: nat)
    requires p >= 1
    ensures BitAnd(x, 2 * p - 1) == x % 2 + 2 * BitAnd(x / 2, p - 1)
  {
    OddHalf(p);
  }

  lemma OddHalf(p: nat)
    requires p >= 1
    ensures (2 * p - 1) / 2 == p - 1 && (2 * p - 1) % 2 == 1
  {}

  lemma ModDouble(x: int, p: nat)
    requires p >= 1
    ensures x % (2 * p) == x % 2 + 2 * (x / 2 % p)
  {
    var h := x / 2;
    var q, r := h / p, h % p;
    assert h == q * p + r;
    assert x == (2 * p) * q + (x % 2 + 2 * r);
    DivModUnique(x, 2 * p, q, x % 2 + 2 * r);
  }

  /** Division of naturals. */
  function Quot(a: nat, b: nat): (q: nat)
    requires b >= 1
    ensures b * q <= a < b * q + b
  {
    NonZeroMultiple(b, a / b);
    a / b
  }

  lemma MulMonotone(a: nat, b: nat, c: nat)
    requires a <= b
    ensures a * c <= b * c
  {}

  lemma DivModUnique(x: int, d: int, q: int, r: int)
    requires d > 0 && 0 <= r < d && x == d * q + r
    ensures x / d == q && x % d == r
  {
    var k := x / d - q;
    assert d * (x / d) + x % d == x;
    assert d * k == r - x % d by {
      assert d * k == d * (x / d) - d * q;
    }
    NonZeroMultiple(d, k);
  }

  /** Steps of length s that fit into a room: those up to the floored quotient. */
  lemma StepsFit(i: nat, s: nat, room: int)
    requires s >= 1
    ensures 0 <= i * s
    ensures i <= room / s <==> i * s <= room
  {
    var q := room / s;
    assert room == s * q + room % s;
    var k := i - q;
    assert i * s == s * q + s * k;
    NonZeroMultiple(s, k);
  }

  lemma ModAddMultiple(x: int, d: int, k: int)
    requires d > 0
    ensures (x + d * k) % d == x % d
  {
    var q := x / d;
    assert d * (q + k) == d * q + d * k;
    DivModUnique(x + d * k, d, q + k, x % d);
  }

  lemma NonZeroMultiple(d: int, k: int)
    requires d > 0
    ensures k >= 1 ==> d * k >= d
    ensures k <= -1 ==> d * k <= -d
  {}

  /** `j & 2^t` is non-zero exactly when bit t of j is set. */
  lemma {:induction false} AndPow2(j: nat, t: nat)
    ensures BitAnd(j, Pow2(t)) == Pow2(t) * (j / Pow2(t) % 2)
  {
    if t == 0 {
      assert BitAnd(j, 1) == (j % 2) * 1 + 2 * BitAnd(j / 2, 0);
    } else {
      var p := Pow2(t - 1);
      AndPow2(j / 2, t - 1);
      DivDiv(j, p);
      assert (2 * p) / 2 == p && (2 * p) % 2 == 0;
    }
  }

  /** `j ^ 2^t` flips bit t of j. */
  lemma {:induction false} XorPow2(j: nat, t: nat)
    ensures BitXor(j, Pow2(t)) == if j / Pow2(t) % 2 == 1 then j - Pow2(t) else j + Pow2(t)
  {
    if j == 0 {
    } else if t == 0 {
      assert BitXor(j, 1) == (j + 1) % 2 + 2 * BitXor(j / 2, 0);
    } else {
      var p := Pow2(t - 1);
      XorPow2(j / 2, t - 1);
      DivDiv(j, p);
      XorEven(j, p);
    }
  }

  lemma XorEven(j: nat, p: nat)
    requires j > 0 && p > 0
    ensures BitXor(j, 2 * p) == j % 2 + 2 * BitXor(j / 2, p)
  {
    hide BitXor;
    EvenHalf(p);
    SameParity(j, p);
    XorUnfold(j, 2 * p);
  }

  lemma XorUnfold(x: nat, y: nat)
    requires x > 0 && y > 0
    ensures BitXor(x, y) == (x + y) % 2 + 2 * BitXor(x / 2, y / 2)
  {}

  lemma EvenHalf(p: nat)
    ensures (2 * p) / 2 == p
  {}

  lemma SameParity(j: nat, p: nat)
    ensures (j + 2 * p) % 2 == j % 2
  {}

  lemma DivDiv(j: nat, p: nat)
    requires p >= 1
    ensures j / 2 / p == j / (2 * p)
  {
    var h := j / 2;
    var q, r := h / p, h % p;
    assert h == p * q + r;
    assert j == (2 * p) * q + (j % 2 + 2 * r);
    DivModUnique(j, 2 * p, q, j % 2 + 2 * r);
  }
}
