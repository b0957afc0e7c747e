/** The discrete Fourier transform as a sum, the radix-2 decomposition the firmware computes,
    and the orthogonality of the roots that makes the inverse transform undo the forward one. */
module Dft {
  import opened Bits
  import opened Complex
  import opened BitReversal

  /** Entry j of a vector, zero outside it. */
  function At(x: seq<C>, j: int): C
  {
    if 0 <= j < |x| then x[j] else ZERO
  }

  /** The k-th coefficient of the transform of x with root r: the sum of x[j] * r^(jk). */
  function Coefficient(x: seq<C>, r: C, k: int): C
  {
    Sum(|x|, j => Mul(At(x, j), Pow(r, j * k)))
  }

  function Transform(x: seq<C>, r: C): seq<C>
  {
    seq(|x|, k => Coefficient(x, r, k))
  }

  function DivideAll(x: seq<C>, n: real): seq<C>
    requires n != 0.0
  {
    seq(|x|, k requires 0 <= k < |x| => C(x[k].re / n, x[k].im / n))
  }

  /** r(2^s) is a principal 2^s-th root of unity for s up to m: the only facts about
      cos(2 pi / len) and sin(2 pi / len) the transform relies on. */
  ghost predicate Roots(r: int -> C, m: nat)
  {
    && (m >= 1 ==> r(2) == Neg(ONE))
    && (forall s: nat {:trigger Pow2(s)} | 1 <= s < m :: Mul(r(2 * Pow2(s)), r(2 * Pow2(s))) == r(Pow2(s)))
  }

  ghost predicate UnitModulus(r: int -> C, m: nat)
  {
    forall s: nat | 1 <= s <= m :: Mul(r(Pow2(s)), Conj(r(Pow2(s)))) == ONE
  }

  /** The roots at the opposite angles. */
  function ConjFamily(r: int -> C): int -> C
  {
    len => Conj(r(len))
  }

  lemma ConjRoots(r: int -> C, m: nat)
    requires Roots(r, m)
    ensures Roots(ConjFamily(r), m)
  {
    hide Mul, Conj, Pow2;
    ConjNegOne();
    var c := ConjFamily(r);
    forall s: nat | 1 <= s < m
      ensures Mul(c(2 * Pow2(s)), c(2 * Pow2(s))) == c(Pow2(s))
    {
      ConjMul(r(2 * Pow2(s)), r(2 * Pow2(s)));
    }
  }

  lemma ConjNegOne()
    ensures Conj(Neg(ONE)) == Neg(ONE)
  {}

  lemma {:induction false} HalfTurn(r: int -> C, m: nat, s: nat)
    requires Roots(r, m) && 1 <= s <= m
    ensures Pow(r(Pow2(s)), Pow2(s - 1)) == Neg(ONE)
  {
    hide Mul;
    var z := r(Pow2(s));
    if s == 1 {
      assert Pow2(1) == 2 && Pow2(0) == 1;
      MulUnits(z);
    } else {
      HalfTurn(r, m, s - 1);
      PowMul(z, 2, Pow2(s - 2));
      PowTwo(z);
      assert Pow2(s - 1) == 2 * Pow2(s - 2);
    }
  }

  lemma PowTwo(z: C)
    ensures Pow(z, 2) == Mul(z, z)
  {
    hide Mul;
    MulUnits(z);
    assert Pow(z, 2) == Mul(Pow(z, 1), z);
    assert Pow(z, 1) == Mul(Pow(z, 0), z);
  }

  lemma FullTurn(r: int -> C, m: nat, s: nat)
    requires Roots(r, m) && 1 <= s <= m
    ensures Pow(r(Pow2(s)), Pow2(s)) == ONE
  {
    hide *;
    var h := Pow2(s - 1);
    HalfTurn(r, m, s);
    assert Pow2(s) == h + h by { DoublePow2(s - 1); }
    PowAdd(r(Pow2(s)), h, h);
    SquareNegOne();
  }

  lemma DoublePow2(s: nat)
    ensures Pow2(s + 1) == 2 * Pow2(s)
  {}

  lemma SquareNegOne()
    ensures Mul(Neg(ONE), Neg(ONE)) == ONE
  {}

  /** The j-th term of the transform at frequency k of the entries off, off + st, off + 2*st, ... */
  function Term(x: seq<C>, z: C, st: int, off: int, k: int): int -> C
  {
    j => Mul(At(x, off + j * st), Pow(z, j * k))
  }

  /** The transform of length 2^s of the entries off, off + 2^(m-s), off + 2*2^(m-s), ... of x,
      at frequency k. */
  function Strided(x: seq<C>, r: int -> C, m: nat, s: nat, off: int, k: int): C
    requires s <= m
  {
    Sum(Pow2(s), Term(x, r(Pow2(s)), Pow2(m - s), off, k))
  }

  /** The radix-2 step: a strided transform splits into those of its even and odd entries. */
  lemma StridedSplit(x: seq<C>, r: int -> C, m: nat, s: nat, off: int, k: nat)
    requires Roots(r, m) && s < m
    ensures Strided(x, r, m, s + 1, off, k)
         == Add(Strided(x, r, m, s, off, k),
                Mul(Pow(r(Pow2(s + 1)), k), Strided(x, r, m, s, off + Pow2(m - s - 1), k)))
  {
    hide Mul, Add, Pow, Pow2, Sum, Roots, At;
    var R, z, st := r(Pow2(s + 1)), r(Pow2(s)), Pow2(m - s - 1);
    DoublePow2(s);
    DoublePow2(m - s - 1);
    var f := Term(x, R, st, off, k);
    var even := Term(x, z, 2 * st, off, k);
    var odd := Term(x, z, 2 * st, off + st, k);
    var odd' := j => Mul(Pow(R, k), odd(j));
    forall j | 0 <= j < Pow2(s)
      ensures even(j) == f(2 * j) && odd'(j) == f(2 * j + 1)
    {
      Pow2Zero();
      SplitTerm(r, m, s, j, k);
      StrideIndex(off, j, st);
      MulSwap(At(x, off + st + j * (2 * st)), Pow(R, k), Pow(z, j * k));
    }
    SumEvenOdd(Pow2(s), f, even, odd');
    SumScale(Pow2(s), Pow(R, k), odd, odd');
  }

  lemma StrideIndex(off: int, j: int, st: int)
    ensures off + (2 * j) * st == off + j * (2 * st)
    ensures off + (2 * j + 1) * st == off + st + j * (2 * st)
  {}

  lemma SplitTerm(r: int -> C, m: nat, s: nat, j: nat, k: nat)
    requires Roots(r, m) && s < m
    ensures 0 <= j * k
    ensures var R := r(Pow2(s + 1));
            && (s >= 1 || j == 0 ==> Pow(R, (2 * j) * k) == Pow(r(Pow2(s)), j * k))
            && (s >= 1 || j == 0 ==> Pow(R, (2 * j + 1) * k) == Mul(Pow(R, k), Pow(r(Pow2(s)), j * k)))
  {
    hide Mul;
    var R := r(Pow2(s + 1));
    assert (2 * j) * k == 2 * (j * k);
    assert (2 * j + 1) * k == k + 2 * (j * k);
    if s >= 1 {
      PowMul(R, 2, j * k);
      PowTwo(R);
      assert Pow(R, 2) == r(Pow2(s));
    }
    PowAdd(R, k, 2 * (j * k));
  }

  lemma MulSwap(a: C, b: C, c: C)
    ensures Mul(a, Mul(b, c)) == Mul(b, Mul(a, c))
  {
    hide Mul;
    MulAssoc(a, b, c);
    MulAssoc(b, a, c);
    MulComm(a, b);
  }

  /** A strided transform of length 2^s has period 2^s in the frequency. */
  lemma StridedPeriod(x: seq<C>, r: int -> C, m: nat, s: nat, off: int, k: nat)
    requires Roots(r, m) && s <= m
    ensures Strided(x, r, m, s, off, k + Pow2(s)) == Strided(x, r, m, s, off, k)
  {
    hide Mul, Pow, Pow2, Sum, Roots, At;
    var z := r(Pow2(s));
    var f := Term(x, z, Pow2(m - s), off, k + Pow2(s));
    var g := Term(x, z, Pow2(m - s), off, k);
    forall j | 0 <= j < Pow2(s)
      ensures f(j) == g(j)
    {
      if s >= 1 {
        PeriodTerm(r, m, s, j, k);
      } else {
        Pow2Zero();
        assert j == 0;
      }
    }
    SumCong(Pow2(s), f, g);
  }

  lemma Pow2Zero()
    ensures Pow2(0) == 1
  {}

  lemma PeriodTerm(r: int -> C, m: nat, s: nat, j: nat, k: nat)
    requires Roots(r, m) && 1 <= s <= m
    ensures Pow(r(Pow2(s)), j * (k + Pow2(s))) == Pow(r(Pow2(s)), j * k)
  {
    hide Mul;
    hide *;
    var z, n := r(Pow2(s)), Pow2(s);
    PeriodExponent(j, k, n);
    PowMul(z, n, j);
    FullTurn(r, m, s);
    PowOne(j);
    PowAdd(z, j * k, n * j);
    MulUnits(Pow(z, j * k));
  }

  lemma PeriodExponent(j: nat, k: nat, n: nat)
    ensures 0 <= j * k && 0 <= n * j && j * (k + n) == j * k + n * j
  {}

  /** What position idx of the firmware's buffer holds after the stages of length up to 2^s. */
  function AfterStage(x: seq<C>, r: int -> C, m: nat, s: nat, idx: nat): C
    requires s <= m
  {
    Strided(x, r, m, s, Rev(m - s, Block(idx, s)), idx % Pow2(s))
  }

  /** The number of the block of length 2^s that holds position idx. */
  function Block(idx: nat, s: nat): nat
  {
    hide Pow2; Quot(idx, Pow2(s))
  }

  lemma StageZero(x: seq<C>, r: int -> C, m: nat, idx: nat)
    requires idx < Pow2(m) == |x|
    ensures AfterStage(x, r, m, 0, idx) == x[Rev(m, idx)]
  {
    var off := Rev(m, idx);
    var f := Term(x, r(Pow2(0)), Pow2(m), off, 0);
    assert idx / 1 == idx && idx % 1 == 0;
    assert Pow2(0) == 1;
    assert Strided(x, r, m, 0, off, 0) == Sum(1, f);
    assert Sum(1, f) == Add(Sum(0, f), f(0));
    MulUnits(x[off]);
  }

  lemma StageLast(x: seq<C>, r: int -> C, m: nat, idx: nat)
    requires idx < Pow2(m) == |x|
    ensures AfterStage(x, r, m, m, idx) == Coefficient(x, r(|x|), idx)
  {
    hide Mul, Pow;
    DivModUnique(idx, Pow2(m), 0, idx);
    SumCong(|x|, Term(x, r(|x|), 1, 0, idx), j => Mul(At(x, j), Pow(r(|x|), j * idx)));
  }

  /** One butterfly takes two positions from one stage to the next. */
  lemma StageStep(x: seq<C>, r: int -> C, m: nat, s: nat, b: nat, k: nat)
    requires Roots(r, m) && s < m && k < Pow2(s)
    ensures var h := Pow2(s);
            var i := b * (2 * h) + k;
            var u, v := AfterStage(x, r, m, s, i), Mul(AfterStage(x, r, m, s, i + h), Pow(r(2 * h), k));
            && AfterStage(x, r, m, s + 1, i) == Add(u, v)
            && AfterStage(x, r, m, s + 1, i + h) == Sub(u, v)
  {
    hide Mul, Pow, Add, Sub, Strided, Roots, Pow2, Rev, Block;
    var h := Pow2(s);
    var i := b * (2 * h) + k;
    var off := Rev(m - s - 1, b);
    DoublePow2(s);
    BlockIndices(b, h, k);
    BlockIndex(i, s + 1, b, k);
    BlockIndex(i + h, s + 1, b, k + h);
    BlockIndex(i, s, 2 * b, k);
    BlockIndex(i + h, s, 2 * b + 1, k);
    RevStep(m - s, b, 0);
    RevStep(m - s, b, 1);
    StridedSplit(x, r, m, s, off, k);
    StridedSplit(x, r, m, s, off, k + h);
    StridedPeriod(x, r, m, s, off, k);
    StridedPeriod(x, r, m, s, off + Pow2(m - s - 1), k);
    HalfTurn(r, m, s + 1);
    PowAdd(r(2 * h), k, h);
    var v := Strided(x, r, m, s, off + Pow2(m - s - 1), k);
    MulComm(Pow(r(2 * h), k), v);
    NegatedTwiddle(Pow(r(2 * h), k), v, Strided(x, r, m, s, off, k));
  }

  lemma BlockIndices(b: nat, h: nat, k: nat)
    ensures b * (2 * h) == (2 * b) * h >= 0 && (2 * b + 1) * h == b * (2 * h) + h
  {}

  lemma BlockIndex(i: nat, s: nat, q: nat, rem: nat)
    requires rem < Pow2(s) && i == q * Pow2(s) + rem
    ensures Block(i, s) == q && i % Pow2(s) == rem
  {
    hide Pow2;
    DivModUnique(i, Pow2(s), q, rem);
  }

  lemma NegatedTwiddle(p: C, v: C, u: C)
    ensures Add(u, Mul(Mul(p, Neg(ONE)), v)) == Sub(u, Mul(v, p))
  {
    MulUnits(p);
    MulNeg(p, ONE);
    MulNeg(p, v);
    MulComm(p, v);
  }
}
