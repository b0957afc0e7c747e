/** Exact complex arithmetic and finite sums, the setting in which the transform is stated. */
module Complex {
  datatype C = C(re: real, im: real)

  const ZERO := C(0.0, 0.0)
  const ONE := C(1.0, 0.0)

  function Add(a: C, b: C): C { C(a.re + b.re, a.im + b.im) }
  function Sub(a: C, b: C): C { C(a.re - b.re, a.im - b.im) }
  function Neg(a: C): C { C(-a.re, -a.im) }
  function Conj(a: C): C { C(a.re, -a.im) }
  function Mul(a: C, b: C): C { C(a.re * b.re - a.im * b.im, a.re * b.im + a.im * b.re) }
  function Real(x: real): C { C(x, 0.0) }

  /** z^k; exponents below zero are not used and read as 0. */
  function Pow(z: C, k: int): C
    decreases k
  {
    if k <= 0 then ONE else Mul(Pow(z, k - 1), z)
  }

  function Sum(n: nat, f: int -> C): C
  {
    if n == 0 then ZERO else Add(Sum(n - 1, f), f(n - 1))
  }

  lemma MulComm(a: C, b: C)
    ensures Mul(a, b) == Mul(b, a)
  {}

  lemma MulAssoc(a: C, b: C, c: C)
    ensures Mul(Mul(a, b), c) == Mul(a, Mul(b, c))
  {
    assert (a.re * b.re - a.im * b.im) * c.re - (a.re * b.im + a.im * b.re) * c.im
        == a.re * (b.re * c.re - b.im * c.im) - a.im * (b.re * c.im + b.im * c.re);
    assert (a.re * b.re - a.im * b.im) * c.im + (a.re * b.im + a.im * b.re) * c.re
        == a.re * (b.re * c.im + b.im * c.re) + a.im * (b.re * c.re - b.im * c.im);
  }

  lemma MulAdd(a: C, b: C, c: C)
    ensures Mul(a, Add(b, c)) == Add(Mul(a, b), Mul(a, c))
  {}

  lemma MulUnits(a: C)
    ensures Mul(a, ONE) == a == Mul(ONE, a)
    ensures Mul(a, ZERO) == ZERO == Mul(ZERO, a)
    ensures Add(a, ZERO) == a == Add(ZERO, a)
  {}

  lemma MulNeg(a: C, b: C)
    ensures Mul(a, Neg(b)) == Neg(Mul(a, b)) == Mul(Neg(a), b)
    ensures Add(a, Neg(b)) == Sub(a, b)
    ensures Neg(Neg(a)) == a
  {}

  lemma ConjMul(a: C, b: C)
    ensures Conj(Mul(a, b)) == Mul(Conj(a), Conj(b))
  {}

  lemma AddAssocComm(a: C, b: C, c: C, d: C)
    ensures Add(Add(a, b), Add(c, d)) == Add(Add(a, c), Add(b, d))
  {}

  lemma PowNext(z: C, k: nat)
    ensures Pow(z, k + 1) == Mul(Pow(z, k), z)
  {}

  lemma {:induction false} PowAdd(z: C, a: nat, b: nat)
    ensures Pow(z, a + b) == Mul(Pow(z, a), Pow(z, b))
  {
    hide Mul;
    if b == 0 {
      MulUnits(Pow(z, a));
    } else {
      PowAdd(z, a, b - 1);
      MulAssoc(Pow(z, a), Pow(z, b - 1), z);
    }
  }

  lemma {:induction false} PowMul(z: C, a: nat, b: nat)
    ensures a * b >= 0
    ensures Pow(z, a * b) == Pow(Pow(z, a), b)
  {
    hide Mul;
    if b == 0 {
    } else {
      PowMul(z, a, b - 1);
      assert a * b == a * (b - 1) + a;
      PowAdd(z, a * (b - 1), a);
    }
  }

  lemma {:induction false} PowOne(k: nat)
    ensures Pow(ONE, k) == ONE
  {
    hide Mul;
    if k > 0 {
      PowOne(k - 1);
      MulUnits(ONE);
    }
  }

  lemma {:induction false} PowMulBase(y: C, z: C, k: nat)
    ensures Pow(Mul(y, z), k) == Mul(Pow(y, k), Pow(z, k))
  {
    hide Mul;
    if k == 0 {
      MulUnits(ONE);
    } else {
      PowMulBase(y, z, k - 1);
      MulFour(Pow(y, k - 1), Pow(z, k - 1), y, z);
    }
  }

  lemma MulFour(a: C, b: C, c: C, d: C)
    ensures Mul(Mul(a, b), Mul(c, d)) == Mul(Mul(a, c), Mul(b, d))
  {
    hide Mul;
    MulAssoc(a, b, Mul(c, d));
    MulAssoc(b, c, d);
    MulComm(b, c);
    MulAssoc(c, b, d);
    MulAssoc(a, c, Mul(b, d));
  }

  lemma {:induction false} SumCong(n: nat, f: int -> C, g: int -> C)
    requires forall i | 0 <= i < n :: f(i) == g(i)
    ensures Sum(n, f) == Sum(n, g)
  {
    if n > 0 {
      SumCong(n - 1, f, g);
    }
  }

  lemma {:induction false} SumAdd(n: nat, f: int -> C, g: int -> C, h: int -> C)
    requires forall i | 0 <= i < n :: h(i) == Add(f(i), g(i))
    ensures Sum(n, h) == Add(Sum(n, f), Sum(n, g))
  {
    if n > 0 {
      SumAdd(n - 1, f, g, h);
      AddAssocComm(Sum(n - 1, f), Sum(n - 1, g), f(n - 1), g(n - 1));
    }
  }

  lemma {:induction false} SumScale(n: nat, c: C, f: int -> C, h: int -> C)
    requires forall i | 0 <= i < n :: h(i) == Mul(c, f(i))
    ensures Sum(n, h) == Mul(c, Sum(n, f))
  {
    hide Mul, Add;
    if n == 0 {
      MulUnits(c);
    } else {
      SumScale(n - 1, c, f, h);
      MulAdd(c, Sum(n - 1, f), f(n - 1));
    }
  }

  /** Splits a sum of even length by parity of the index. */
  lemma {:induction false} SumEvenOdd(h: nat, f: int -> C, even: int -> C, odd: int -> C)
    requires forall j | 0 <= j < h :: even(j) == f(2 * j) && odd(j) == f(2 * j + 1)
    ensures Sum(2 * h, f) == Add(Sum(h, even), Sum(h, odd))
  {
    hide Add;
    if h == 0 {
      MulUnits(ZERO);
    } else {
      SumEvenOdd(h - 1, f, even, odd);
      assert Sum(2 * h, f) == Add(Add(Sum(2 * h - 2, f), f(2 * h - 2)), f(2 * h - 1));
      AddPairs(Sum(h - 1, even), Sum(h - 1, odd), f(2 * h - 2), f(2 * h - 1));
    }
  }

  lemma AddPairs(a: C, b: C, c: C, d: C)
    ensures Add(Add(Add(a, b), c), d) == Add(Add(a, c), Add(b, d))
  {}

  /** Splits a sum into its first a terms and the rest. */
  lemma {:induction false} SumSplit(a: nat, b: nat, f: int -> C, rest: int -> C)
    requires forall j | 0 <= j < b :: rest(j) == f(a + j)
    ensures Sum(a + b, f) == Add(Sum(a, f), Sum(b, rest))
  {
    if b > 0 {
      SumSplit(a, b - 1, f, rest);
    }
  }

  lemma {:induction false} SumSwap(a: nat, b: nat, f: (int, int) -> C)
    ensures Sum(a, i => Sum(b, j => f(i, j))) == Sum(b, j => Sum(a, i => f(i, j)))
  {
    var row := i => Sum(b, j => f(i, j));
    if a == 0 {
      SumZero(b, j => Sum(a, i => f(i, j)));
    } else {
      SumSwap(a - 1, b, f);
      var cols := j => Sum(a, i => f(i, j));
      var cols' := j => Sum(a - 1, i => f(i, j));
      var last := j => f(a - 1, j);
      forall j | 0 <= j < b
        ensures cols(j) == Add(cols'(j), last(j))
      {
        SumCong(a - 1, i => f(i, j), i => f(i, j));
      }
      SumAdd(b, cols', last, cols);
      SumCong(a - 1, row, i => Sum(b, j => f(i, j)));
    }
  }

  lemma {:induction false} SumZero(n: nat, f: int -> C)
    requires forall i | 0 <= i < n :: f(i) == ZERO
    ensures Sum(n, f) == ZERO
  {
    if n > 0 {
      SumZero(n - 1, f);
    }
  }

  /** A sum with one non-zero term. */
  lemma {:induction false} SumSingle(n: nat, l: nat, f: int -> C)
    requires l < n
    requires forall i | 0 <= i < n && i != l :: f(i) == ZERO
    ensures Sum(n, f) == f(l)
  {
    if l == n - 1 {
      SumZero(n - 1, f);
    } else {
      SumSingle(n - 1, l, f);
    }
  }
}
