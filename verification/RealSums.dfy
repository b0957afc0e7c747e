/** Finite sums of reals, singly and over three indices. */
module RealSums {
  function Sum(n: nat, f: int -> real): real
  {
    if n == 0 then 0.0 else Sum(n - 1, f) + f(n - 1)
  }

  lemma {:induction false} SumCong(n: nat, f: int -> real, g: int -> real)
    requires forall i | 0 <= i < n :: f(i) == g(i)
    ensures Sum(n, f) == Sum(n, g)
  {
    if n > 0 {
      SumCong(n - 1, f, g);
    }
  }

  lemma {:induction false} SumZero(n: nat, f: int -> real)
    requires forall i | 0 <= i < n :: f(i) == 0.0
    ensures Sum(n, f) == 0.0
  {
    if n > 0 {
      SumZero(n - 1, f);
    }
  }

  lemma {:induction false} SumAdd(n: nat, f: int -> real, g: int -> real, h: int -> real)
    requires forall i | 0 <= i < n :: h(i) == f(i) + g(i)
    ensures Sum(n, h) == Sum(n, f) + Sum(n, g)
  {
    if n > 0 {
      SumAdd(n - 1, f, g, h);
    }
  }

  lemma {:induction false} SumScale(n: nat, c: real, f: int -> real, h: int -> real)
    requires forall i | 0 <= i < n :: h(i) == c * f(i)
    ensures Sum(n, h) == c * Sum(n, f)
  {
    if n > 0 {
      SumScale(n - 1, c, f, h);
      assert c * (Sum(n - 1, f) + f(n - 1)) == c * Sum(n - 1, f) + c * f(n - 1);
    }
  }

  lemma SumStep(n: nat, f: int -> real)
    ensures Sum(0, f) == 0.0
    ensures Sum(n + 1, f) == Sum(n, f) + f(n)
  {}

  /** Exchanging the order of a double sum. */
  lemma {:induction false} SumSwap(a: nat, b: nat, f: (int, int) -> real, rows: int -> real, cols: int -> real)
    requires forall i | 0 <= i < a :: rows(i) == Sum(b, j => f(i, j))
    requires forall j | 0 <= j < b :: cols(j) == Sum(a, i => f(i, j))
    ensures Sum(a, rows) == Sum(b, cols)
  {
    if a == 0 {
      SumZero(b, cols);
    } else {
      var cols' := j => Sum(a - 1, i => f(i, j));
      var last := j => f(a - 1, j);
      SumSwap(a - 1, b, f, rows, cols');
      forall j | 0 <= j < b
        ensures cols(j) == cols'(j) + last(j)
      {
        SumCong(a - 1, i => f(i, j), i => f(i, j));
      }
      SumAdd(b, cols', last, cols);
      SumCong(b, last, j => f(a - 1, j));
    }
  }

  /** A sum whose terms vanish outside [a, a + k). */
  lemma {:induction false} SumWindow(n: nat, a: nat, k: nat, f: int -> real, g: int -> real)
    requires a + k <= n
    requires forall i | 0 <= i < n && !(a <= i < a + k) :: f(i) == 0.0
    requires forall j | 0 <= j < k :: f(a + j) == g(j)
    ensures Sum(n, f) == Sum(k, g)
  {
    if n > a + k {
      SumWindow(n - 1, a, k, f, g);
    } else if k > 0 {
      assert f(a + (k - 1)) == g(k - 1);
      SumWindow(n - 1, a, k - 1, f, g);
    } else {
      SumZero(n, f);
    }
  }

  // ----- triple sums -----

  type Term = (int, int, int) -> real

  function Third(f: Term, i: int, j: int): int -> real { k => f(i, j, k) }
  function Second(c: nat, f: Term, i: int): int -> real { j => Sum(c, Third(f, i, j)) }
  function First(b: nat, c: nat, f: Term): int -> real { i => Sum(b, Second(c, f, i)) }

  /** The sum of f(i, j, k) over i < a, j < b, k < c. */
  function Sum3(a: nat, b: nat, c: nat, f: Term): real
  {
    Sum(a, First(b, c, f))
  }

  function Row2(b: nat, f: (int, int) -> real): int -> real { i => Sum(b, j => f(i, j)) }

  /** The sum of f(i, j) over i < a, j < b. */
  function Sum2(a: nat, b: nat, f: (int, int) -> real): real
  {
    Sum(a, Row2(b, f))
  }

  lemma Sum2AsSum3(a: nat, b: nat, f: (int, int) -> real, t: Term)
    requires forall i, j :: t(i, j, 0) == f(i, j)
    ensures Sum2(a, b, f) == Sum3(a, b, 1, t)
  {
    forall i | 0 <= i < a
      ensures Row2(b, f)(i) == First(b, 1, t)(i)
    {
      forall j | 0 <= j < b
        ensures f(i, j) == Second(1, t, i)(j)
      {
        SumStep(0, Third(t, i, j));
      }
      SumCong(b, j => f(i, j), Second(1, t, i));
    }
    SumCong(a, Row2(b, f), First(b, 1, t));
  }

  lemma Cong3(a: nat, b: nat, c: nat, f: Term, g: Term)
    requires forall i, j, k | 0 <= i < a && 0 <= j < b && 0 <= k < c :: f(i, j, k) == g(i, j, k)
    ensures Sum3(a, b, c, f) == Sum3(a, b, c, g)
  {
    forall i | 0 <= i < a
      ensures First(b, c, f)(i) == First(b, c, g)(i)
    {
      forall j | 0 <= j < b
        ensures Second(c, f, i)(j) == Second(c, g, i)(j)
      {
        SumCong(c, Third(f, i, j), Third(g, i, j));
      }
      SumCong(b, Second(c, f, i), Second(c, g, i));
    }
    SumCong(a, First(b, c, f), First(b, c, g));
  }

  lemma Scale3(a: nat, b: nat, c: nat, x: real, f: Term, g: Term)
    requires forall i, j, k | 0 <= i < a && 0 <= j < b && 0 <= k < c :: g(i, j, k) == x * f(i, j, k)
    ensures Sum3(a, b, c, g) == x * Sum3(a, b, c, f)
  {
    hide Sum;
    forall i | 0 <= i < a
      ensures First(b, c, g)(i) == x * First(b, c, f)(i)
    {
      ScaleRow(b, c, x, f, g, i);
    }
    SumScale(a, x, First(b, c, f), First(b, c, g));
  }

  lemma ScaleRow(b: nat, c: nat, x: real, f: Term, g: Term, i: int)
    requires forall j, k | 0 <= j < b && 0 <= k < c :: g(i, j, k) == x * f(i, j, k)
    ensures Sum(b, Second(c, g, i)) == x * Sum(b, Second(c, f, i))
  {
    hide Sum;
    forall j | 0 <= j < b
      ensures Second(c, g, i)(j) == x * Second(c, f, i)(j)
    {
      SumScale(c, x, Third(f, i, j), Third(g, i, j));
    }
    SumScale(b, x, Second(c, f, i), Second(c, g, i));
  }

  lemma Add3(a: nat, b: nat, c: nat, f: Term, g: Term, h: Term)
    requires forall i, j, k | 0 <= i < a && 0 <= j < b && 0 <= k < c :: h(i, j, k) == f(i, j, k) + g(i, j, k)
    ensures Sum3(a, b, c, h) == Sum3(a, b, c, f) + Sum3(a, b, c, g)
  {
    forall i | 0 <= i < a
      ensures First(b, c, h)(i) == First(b, c, f)(i) + First(b, c, g)(i)
    {
      forall j | 0 <= j < b
        ensures Second(c, h, i)(j) == Second(c, f, i)(j) + Second(c, g, i)(j)
      {
        SumAdd(c, Third(f, i, j), Third(g, i, j), Third(h, i, j));
      }
      SumAdd(b, Second(c, f, i), Second(c, g, i), Second(c, h, i));
    }
    SumAdd(a, First(b, c, f), First(b, c, g), First(b, c, h));
  }

  /** A single sum moves through a triple sum; `col` is f with its arguments exchanged. */
  lemma Swap1(n: nat, a: nat, b: nat, c: nat, f: int -> Term, col: (int, int, int) -> (int -> real),
              outer: int -> real, inner: Term)
    requires forall m, i, j, k :: col(i, j, k)(m) == f(m)(i, j, k)
    requires forall m | 0 <= m < n :: outer(m) == Sum3(a, b, c, f(m))
    requires forall i, j, k | 0 <= i < a && 0 <= j < b && 0 <= k < c :: inner(i, j, k) == Sum(n, col(i, j, k))
    ensures Sum(n, outer) == Sum3(a, b, c, inner)
  {
    var g1 := (m: int, i: int) => First(b, c, f(m))(i);
    forall m | 0 <= m < n
      ensures outer(m) == Sum(a, i => g1(m, i))
    {
      SumCong(a, First(b, c, f(m)), i => g1(m, i));
    }
    forall i | 0 <= i < a
      ensures First(b, c, inner)(i) == Sum(n, m => g1(m, i))
    {
      Swap1Row(n, b, c, i, f, col, m => g1(m, i), inner);
    }
    SumSwap(n, a, g1, outer, First(b, c, inner));
  }

  lemma Swap1Row(n: nat, b: nat, c: nat, i: int, f: int -> Term, col: (int, int, int) -> (int -> real),
                 outer: int -> real, inner: Term)
    requires forall m, i, j, k :: col(i, j, k)(m) == f(m)(i, j, k)
    requires forall m | 0 <= m < n :: outer(m) == Sum(b, Second(c, f(m), i))
    requires forall j, k | 0 <= j < b && 0 <= k < c :: inner(i, j, k) == Sum(n, col(i, j, k))
    ensures Sum(n, outer) == Sum(b, Second(c, inner, i))
  {
    var g2 := (m: int, j: int) => Second(c, f(m), i)(j);
    forall m | 0 <= m < n
      ensures outer(m) == Sum(b, j => g2(m, j))
    {
      SumCong(b, Second(c, f(m), i), j => g2(m, j));
    }
    forall j | 0 <= j < b
      ensures Second(c, inner, i)(j) == Sum(n, m => g2(m, j))
    {
      Swap1Line(n, c, i, j, f, col, m => g2(m, j), inner);
    }
    SumSwap(n, b, g2, outer, Second(c, inner, i));
  }

  lemma Swap1Line(n: nat, c: nat, i: int, j: int, f: int -> Term, col: (int, int, int) -> (int -> real),
                  outer: int -> real, inner: Term)
    requires forall m, i, j, k :: col(i, j, k)(m) == f(m)(i, j, k)
    requires forall m | 0 <= m < n :: outer(m) == Sum(c, Third(f(m), i, j))
    requires forall k | 0 <= k < c :: inner(i, j, k) == Sum(n, col(i, j, k))
    ensures Sum(n, outer) == Sum(c, Third(inner, i, j))
  {
    var g3 := (m: int, k: int) => f(m)(i, j, k);
    forall m | 0 <= m < n
      ensures outer(m) == Sum(c, k => g3(m, k))
    {
      SumCong(c, Third(f(m), i, j), k => g3(m, k));
    }
    forall k | 0 <= k < c
      ensures Third(inner, i, j)(k) == Sum(n, m => g3(m, k))
    {
      SumCong(n, col(i, j, k), m => g3(m, k));
    }
    SumSwap(n, c, g3, outer, Third(inner, i, j));
  }

  /** Exchanging two triple sums; `at` is f with its two argument triples exchanged. */
  lemma Swap3(a: nat, b: nat, c: nat, p: nat, q: nat, r: nat, f: (int, int, int) -> Term, at: (int, int, int) -> Term,
              outer: Term, inner: Term)
    requires forall i, j, k, x, y, z :: at(x, y, z)(i, j, k) == f(i, j, k)(x, y, z)
    requires forall i, j, k | 0 <= i < a && 0 <= j < b && 0 <= k < c :: outer(i, j, k) == Sum3(p, q, r, f(i, j, k))
    requires forall x, y, z | 0 <= x < p && 0 <= y < q && 0 <= z < r :: inner(x, y, z) == Sum3(a, b, c, at(x, y, z))
    ensures Sum3(a, b, c, outer) == Sum3(p, q, r, inner)
  {
    var g2 := (i: int) => ((x: int, y: int, z: int) => First(b, c, at(x, y, z))(i));
    forall i | 0 <= i < a
      ensures First(b, c, outer)(i) == Sum3(p, q, r, g2(i))
    {
      var g3 := (j: int) => ((x: int, y: int, z: int) => Second(c, at(x, y, z), i)(j));
      forall j | 0 <= j < b
        ensures Second(c, outer, i)(j) == Sum3(p, q, r, g3(j))
      {
        Swap1(c, p, q, r, k => f(i, j, k), (x, y, z) => Third(at(x, y, z), i, j), Third(outer, i, j), g3(j));
      }
      Swap1(b, p, q, r, g3, (x, y, z) => Second(c, at(x, y, z), i), Second(c, outer, i), g2(i));
    }
    Swap1(a, p, q, r, g2, (x, y, z) => First(b, c, at(x, y, z)), First(b, c, outer), inner);
  }

  /** A triple sum whose terms vanish outside a kh x kw window at (a, b). */
  lemma Window3(h: nat, w: nat, c: nat, a: nat, b: nat, kh: nat, kw: nat, f: Term, g: Term)
    requires a + kh <= h && b + kw <= w
    requires forall i, j, k | 0 <= i < h && 0 <= j < w && 0 <= k < c && !(a <= i < a + kh && b <= j < b + kw) ::
      f(i, j, k) == 0.0
    requires forall i, j, k | 0 <= i < kh && 0 <= j < kw && 0 <= k < c :: f(a + i, b + j, k) == g(i, j, k)
    ensures Sum3(h, w, c, f) == Sum3(kh, kw, c, g)
  {
    forall i | 0 <= i < h && !(a <= i < a + kh)
      ensures First(w, c, f)(i) == 0.0
    {
      forall j | 0 <= j < w
        ensures Second(c, f, i)(j) == 0.0
      {
        SumZero(c, Third(f, i, j));
      }
      SumZero(w, Second(c, f, i));
    }
    forall i | 0 <= i < kh
      ensures First(w, c, f)(a + i) == First(kw, c, g)(i)
    {
      WindowRow(w, c, a + i, i, b, kw, f, g);
    }
    SumWindow(h, a, kh, First(w, c, f), First(kw, c, g));
  }

  lemma WindowRow(w: nat, c: nat, i: int, i': int, b: nat, kw: nat, f: Term, g: Term)
    requires b + kw <= w
    requires forall j, k | 0 <= j < w && 0 <= k < c && !(b <= j < b + kw) :: f(i, j, k) == 0.0
    requires forall j, k | 0 <= j < kw && 0 <= k < c :: f(i, b + j, k) == g(i', j, k)
    ensures Sum(w, Second(c, f, i)) == Sum(kw, Second(c, g, i'))
  {
    forall j | 0 <= j < w
      ensures !(b <= j < b + kw) ==> Second(c, f, i)(j) == 0.0
    {
      if !(b <= j < b + kw) {
        SumZero(c, Third(f, i, j));
      }
    }
    forall j | 0 <= j < kw
      ensures Second(c, f, i)(b + j) == Second(c, g, i')(j)
    {
      SumCong(c, Third(f, i, b + j), Third(g, i', j));
    }
    SumWindow(w, b, kw, Second(c, f, i), Second(c, g, i'));
  }

  lemma {:induction false} SumSingle(n: nat, f: int -> real, i: nat)
    requires i < n && forall j | 0 <= j < n && j != i :: f(j) == 0.0
    ensures Sum(n, f) == f(i)
  {
    if i == n - 1 {
      SumZero(n - 1, f);
    } else {
      SumSingle(n - 1, f, i);
    }
  }

  /** A triple sum with a single non-zero term. */
  lemma Single3(a: nat, b: nat, c: nat, f: Term, i: nat, j: nat, k: nat)
    requires i < a && j < b && k < c
    requires forall i', j', k' | 0 <= i' < a && 0 <= j' < b && 0 <= k' < c && !(i' == i && j' == j && k' == k) ::
      f(i', j', k') == 0.0
    ensures Sum3(a, b, c, f) == f(i, j, k)
  {
    SumSingle(c, Third(f, i, j), k);
    forall i', j' | 0 <= i' < a && 0 <= j' < b && !(i' == i && j' == j)
      ensures Second(c, f, i')(j') == 0.0
    {
      SumZero(c, Third(f, i', j'));
    }
    SumSingle(b, Second(c, f, i), j);
    forall i' | 0 <= i' < a && i' != i
      ensures First(b, c, f)(i') == 0.0
    {
      SumZero(b, Second(c, f, i'));
    }
    SumSingle(a, First(b, c, f), i);
  }
}
