/** Orthogonality of the roots of unity, and the inverse transform as the inverse function. */
module DftInverse {
  import opened Bits
  import opened Complex
  import opened Dft

  function RootSum(r: int -> C, s: nat, d: int): C
  {
    Sum(Pow2(s), RootPower(r(Pow2(s)), d))
  }

  function RootPower(z: C, d: int): int -> C
  {
    k => Pow(z, k * d)
  }

  lemma {:induction false} PowNegOne(d: nat)
    ensures Pow(Neg(ONE), d) == if d % 2 == 1 then Neg(ONE) else ONE
  {
    hide Mul, Neg;
    if d > 0 {
      PowNegOne(d - 1);
      SquareNegOne();
      MulUnits(Neg(ONE));
    }
  }

  /** The powers of a principal 2^s-th root at step d cancel unless 2^s divides d. */
  lemma {:induction false} Orthogonality(r: int -> C, m: nat, s: nat, d: nat)
    requires Roots(r, m) && s <= m
    ensures d % Pow2(s) != 0 ==> RootSum(r, s, d) == ZERO
    ensures d % Pow2(s) == 0 ==> RootSum(r, s, d) == Real(Pow2(s) as real)
    decreases s
  {
    if s == 0 {
      assert RootSum(r, 0, d) == Add(Sum(0, RootPower(r(1), d)), RootPower(r(1), d)(0));
    } else {
      var h, e := Pow2(s - 1), d / 2;
      Orthogonality(r, m, s - 1, e);
      ModDouble(d, h);
      if d % 2 == 1 {
        OddRootSum(r, m, s, d);
      } else {
        EvenRootSum(r, m, s, e);
        assert d == 2 * e;
      }
    }
  }

  /** The second half of a root sum is the first half times (-1)^d. */
  lemma RootSumHalves(r: int -> C, m: nat, s: nat, d: nat)
    requires Roots(r, m) && 1 <= s <= m
    ensures var first := Sum(Pow2(s - 1), RootPower(r(Pow2(s)), d));
            RootSum(r, s, d) == Add(first, Mul(Pow(Neg(ONE), d), first))
  {
    hide Mul, Add, Pow, Pow2, Sum, Roots;
    DoublePow2(s - 1);
    var z, h := r(Pow2(s)), Pow2(s - 1);
    var f := RootPower(z, d);
    var second := k => Mul(Pow(Neg(ONE), d), f(k));
    forall k | 0 <= k < h
      ensures second(k) == f(h + k)
    {
      HalfTurn(r, m, s);
      HalfTerm(z, h, k, d);
    }
    SumSplit(h, h, f, second);
    SumScale(h, Pow(Neg(ONE), d), f, second);
  }

  lemma HalfTerm(z: C, h: nat, k: nat, d: nat)
    requires Pow(z, h) == Neg(ONE)
    ensures Pow(z, (h + k) * d) == Mul(Pow(Neg(ONE), d), Pow(z, k * d))
  {
    hide *;
    Distribute(h, k, d);
    PowAdd(z, h * d, k * d);
    PowMul(z, h, d);
  }

  lemma Distribute(a: nat, b: nat, d: nat)
    ensures 0 <= a * d && 0 <= b * d && (a + b) * d == a * d + b * d
  {}

  lemma OddRootSum(r: int -> C, m: nat, s: nat, d: nat)
    requires Roots(r, m) && 1 <= s <= m && d % 2 == 1
    ensures RootSum(r, s, d) == ZERO
  {
    hide *;
    RootSumHalves(r, m, s, d);
    PowNegOne(d);
    Cancel(Sum(Pow2(s - 1), RootPower(r(Pow2(s)), d)));
  }

  lemma Cancel(a: C)
    ensures Add(a, Mul(Neg(ONE), a)) == ZERO
  {}

  lemma EvenRootSum(r: int -> C, m: nat, s: nat, e: nat)
    requires Roots(r, m) && 1 <= s <= m
    ensures RootSum(r, s, 2 * e) == Add(RootSum(r, s - 1, e), RootSum(r, s - 1, e))
  {
    hide Mul, Pow, Pow2, Sum, Roots;
    RootSumHalves(r, m, s, 2 * e);
    PowNegOne(2 * e);
    var f, g := RootPower(r(Pow2(s)), 2 * e), RootPower(r(Pow2(s - 1)), e);
    forall k | 0 <= k < Pow2(s - 1)
      ensures f(k) == g(k)
    {
      Pow2Zero();
      DoubleTerm(r, m, s, k, e);
    }
    SumCong(Pow2(s - 1), f, g);
    MulUnits(RootSum(r, s - 1, e));
  }

  lemma DoubleTerm(r: int -> C, m: nat, s: nat, k: nat, e: nat)
    requires Roots(r, m) && 1 <= s <= m && (s >= 2 || k == 0)
    ensures Pow(r(Pow2(s)), k * (2 * e)) == Pow(r(Pow2(s - 1)), k * e)
  {
    hide Mul;
    var z, ke := r(Pow2(s)), k * e;
    assert ke >= 0 && k * (2 * e) == 2 * ke;
    if s >= 2 {
      PowMul(z, 2, ke);
      PowTwo(z);
    } else {
      assert ke == 0;
    }
  }

  lemma {:induction false} PowInverse(r: C, c: C, k: nat)
    requires Mul(r, c) == ONE
    ensures Mul(Pow(r, k), Pow(c, k)) == ONE
  {
    hide Mul;
    PowMulBase(r, c, k);
    PowOne(k);
  }

  /** Analysing with c and synthesising with its inverse r turns the pair (j, l) into a single
      power of r. */
  lemma CrossTerm(r: C, c: C, n: nat, j: nat, k: nat, l: nat)
    requires Mul(r, c) == ONE && Pow(r, n) == ONE && j < n && l < n
    ensures Mul(Pow(c, j * k), Pow(r, k * l)) == Pow(r, k * (l + n - j))
  {
    hide *;
    var jk, kl, rest := j * k, k * l, k * (n - j);
    CrossExponents(n, j, k, l);
    PowInverse(r, c, jk);
    PowMul(r, n, k);
    PowOne(k);
    PowAdd(r, jk, rest);
    PowAdd(r, kl, rest);
    var p, q, t := Pow(r, jk), Pow(c, jk), Pow(r, rest);
    MulAssoc(q, p, t);
    MulComm(q, p);
    MulUnits(q);
    MulUnits(t);
    MulComm(t, Pow(r, kl));
  }

  lemma CrossExponents(n: nat, j: nat, k: nat, l: nat)
    requires j < n
    ensures 0 <= j * k && 0 <= k * l && 0 <= k * (n - j)
    ensures j * k + k * (n - j) == n * k && k * (l + n - j) == k * l + k * (n - j)
  {}

  /** Entry j contributes n times itself to position j of the double transform and nothing
      anywhere else. */
  lemma Contribution(r: int -> C, c: C, m: nat, j: nat, l: nat, a: C, f: int -> C)
    requires Roots(r, m) && Mul(r(Pow2(m)), c) == ONE
    requires j < Pow2(m) && l < Pow2(m)
    requires forall k: nat | k < Pow2(m) :: f(k) == Mul(Mul(a, Pow(c, j * k)), Pow(r(Pow2(m)), k * l))
    ensures Sum(Pow2(m), f) == if j == l then Mul(a, Real(Pow2(m) as real)) else ZERO
  {
    hide Mul, Pow, Pow2, Sum, Roots;
    var n, z := Pow2(m), r(Pow2(m));
    var d := l + n - j;
    var g := RootPower(z, d);
    forall k | 0 <= k < n
      ensures f(k) == Mul(a, g(k))
    {
      if m >= 1 {
        FullTurn(r, m, m);
        CrossTerm(z, c, n, j, k, l);
      } else {
        OnlyTerm(z, c, j, k, l);
      }
      MulAssoc(a, Pow(c, j * k), Pow(z, k * l));
    }
    SumScale(n, a, g, f);
    Orthogonality(r, m, m, d);
    if j == l {
      DivModUnique(d, n, 1, 0);
    } else if l > j {
      DivModUnique(d, n, 1, l - j);
    } else {
      DivModUnique(d, n, 0, d);
    }
    MulUnits(a);
  }

  lemma OnlyTerm(z: C, c: C, j: nat, k: nat, l: nat)
    requires j < Pow2(0) && k < Pow2(0) && l < Pow2(0)
    ensures Mul(Pow(c, j * k), Pow(z, k * l)) == Pow(z, k * (l + Pow2(0) - j))
  {
    assert j * k == 0 && k * l == 0 && k * (l + Pow2(0) - j) == 0;
    MulUnits(ONE);
  }

  /** Transforming with c and then with its inverse root multiplies every entry by the length. */
  lemma DoubleTransform(x: seq<C>, r: int -> C, c: C, m: nat, l: nat)
    requires Roots(r, m) && |x| == Pow2(m) && Mul(r(|x|), c) == ONE && l < |x|
    ensures Coefficient(Transform(x, c), r(|x|), l) == Mul(x[l], Real(|x| as real))
  {
    hide Mul, Pow, Pow2, Roots;
    var n, z, X := |x|, r(|x|), Transform(x, c);
    var cell := (k: int, j: int) => Mul(Mul(At(x, j), Pow(c, j * k)), Pow(z, k * l));
    var rows := k => Sum(n, j => cell(k, j));
    var cols := j => Sum(n, k => cell(k, j));
    forall k | 0 <= k < n
      ensures Mul(At(X, k), Pow(z, k * l)) == rows(k)
    {
      var f := j => Mul(At(x, j), Pow(c, j * k));
      var row := j => cell(k, j);
      forall j | 0 <= j < n
        ensures row(j) == Mul(Pow(z, k * l), f(j))
      {
        MulComm(f(j), Pow(z, k * l));
      }
      SumScale(n, Pow(z, k * l), f, row);
      MulComm(Sum(n, f), Pow(z, k * l));
      SumCong(n, row, j => cell(k, j));
      SumCong(n, f, j => Mul(At(x, j), Pow(c, j * k)));
    }
    SumCong(n, k => Mul(At(X, k), Pow(z, k * l)), rows);
    SumSwap(n, n, cell);
    SumCong(n, rows, k => Sum(n, j => cell(k, j)));
    SumCong(n, cols, j => Sum(n, k => cell(k, j)));
    forall j | 0 <= j < n
      ensures cols(j) == if j == l then Mul(x[l], Real(n as real)) else ZERO
    {
      var col := k => cell(k, j);
      Contribution(r, c, m, j, l, At(x, j), col);
      SumCong(n, col, k => cell(k, j));
    }
    SumSingle(n, l, cols);
  }

  /** The scaled transform with root r undoes the transform with the inverse root c. */
  lemma InverseUndoes(x: seq<C>, r: int -> C, c: C, m: nat)
    requires Roots(r, m) && |x| == Pow2(m) && Mul(r(|x|), c) == ONE
    ensures DivideAll(Transform(Transform(x, c), r(|x|)), |x| as real) == x
  {
    hide Mul, Pow, Pow2, Roots, Coefficient;
    var y := Transform(Transform(x, c), r(|x|));
    forall l | 0 <= l < |x|
      ensures DivideAll(y, |x| as real)[l] == x[l]
    {
      DoubleTransform(x, r, c, m, l);
      Unscale(x[l], |x| as real);
    }
  }

  lemma Unscale(a: C, n: real)
    requires n > 0.0
    ensures C(Mul(a, Real(n)).re / n, Mul(a, Real(n)).im / n) == a
  {}

  /** Scaling commutes with the transform. */
  lemma TransformDivide(x: seq<C>, n: real, r: C)
    requires n > 0.0
    ensures Transform(DivideAll(x, n), r) == DivideAll(Transform(x, r), n)
  {
    hide Mul, Pow;
    var y, inv := DivideAll(x, n), Real(1.0 / n);
    forall k | 0 <= k < |x|
      ensures Transform(y, r)[k] == DivideAll(Transform(x, r), n)[k]
    {
      var f, g := j => Mul(At(x, j), Pow(r, j * k)), j => Mul(At(y, j), Pow(r, j * k));
      forall j | 0 <= j < |x|
        ensures g(j) == Mul(inv, f(j))
      {
        DivideIsMul(x[j], n);
        MulAssoc(inv, x[j], Pow(r, j * k));
      }
      SumScale(|x|, inv, f, g);
      SumCong(|x|, f, j => Mul(At(x, j), Pow(r, j * k)));
      SumCong(|x|, g, j => Mul(At(y, j), Pow(r, j * k)));
      DivideIsMul(Coefficient(x, r, k), n);
    }
  }

  lemma DivideIsMul(a: C, n: real)
    requires n > 0.0
    ensures C(a.re / n, a.im / n) == Mul(Real(1.0 / n), a)
  {}
}
