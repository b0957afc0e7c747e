/** firmware/core/src/dsp/fft.c: the in-place iterative radix-2 transform over two real arrays.
    Real arithmetic is exact here; the cosine and sine of 2 pi / len are supplied as the
    function `w`, constrained only by the identities in `Dft.Roots` and `Dft.UnitModulus`. */
module Fft {
  import opened Bits
  import opened Complex
  import opened BitReversal
  import opened Dft
  import DftInverse

  /** The least m with n <= 2^m, for a power of two its exponent. */
  function Log2(n: int): nat
    decreases n
  {
    if n <= 1 then 0 else 1 + Log2(n / 2)
  }

  ghost predicate PowerOfTwo(n: int)
  {
    exists m: nat :: n == Pow2(m)
  }

  lemma {:induction false} Log2Pow2(m: nat)
    ensures Log2(Pow2(m)) == m
  {
    if m > 0 {
      Log2Pow2(m - 1);
    }
  }

  /** The test `n > 0 && (n & (n - 1)) == 0` accepts exactly the powers of two. */
  method IsPow2(n: int) returns (b: bool)
    ensures b <==> PowerOfTwo(n)
    ensures b ==> n == Pow2(Log2(n))
  {
    b := n > 0 && BitAnd(n, n - 1) == 0;
    if n > 0 {
      ClearLowestBit(n);
    } else {
      assert forall m: nat :: Pow2(m) >= 1;
    }
  }

  lemma {:induction false} ClearLowestBit(n: int)
    requires n > 0
    ensures BitAnd(n, n - 1) == 0 <==> PowerOfTwo(n)
    ensures BitAnd(n, n - 1) == 0 ==> n == Pow2(Log2(n))
    decreases n
  {
    if n == 1 {
      assert Pow2(0) == 1;
    } else if n % 2 == 0 {
      ClearLowestBit(n / 2);
      assert (n - 1) / 2 == n / 2 - 1 && (n - 1) % 2 == 1;
      assert BitAnd(n, n - 1) == 2 * BitAnd(n / 2, n / 2 - 1);
      if m: nat :| n == Pow2(m) {
        assert n / 2 == Pow2(m - 1);
      }
      if m: nat :| n / 2 == Pow2(m) {
        assert n == Pow2(m + 1);
      }
    } else {
      assert (n - 1) / 2 == n / 2 && (n - 1) % 2 == 0;
      AndSelf(n / 2);
      forall m: nat
        ensures n != Pow2(m)
      {
        assert m > 0 ==> Pow2(m) == 2 * Pow2(m - 1);
      }
    }
  }

  lemma {:induction false} AndSelf(x: nat)
    ensures BitAnd(x, x) == x
  {
    hide BitAnd;
    AndItself(x);
    if x > 0 {
      AndSelf(x / 2);
    }
  }

  lemma AndItself(x: nat)
    ensures BitAnd(x, x) == if x == 0 then 0 else x % 2 + 2 * BitAnd(x / 2, x / 2)
  {
    BitSquared(x % 2);
  }

  lemma BitSquared(b: nat)
    requires b < 2
    ensures b * b == b
  {}

  /** The complex vector held in the first n entries of the two arrays. */
  function Zip(re: seq<real>, im: seq<real>): (x: seq<C>)
    requires |re| == |im|
  {
    seq(|re|, i requires 0 <= i < |re| => C(re[i], im[i]))
  }

  ghost predicate Buffers(re: array<real>, im: array<real>, n: int)
  {
    n > 0 ==> re != im && n <= re.Length && n <= im.Length
  }

  /** Swaps entries i and rev(i): afterwards position i holds the old entry rev(i). */
  method BitReverse(re: array<real>, im: array<real>, n: int, ghost m: nat)
    requires Buffers(re, im, n) && n == Pow2(m)
    modifies re, im
    ensures forall k: nat | k < n :: C(re[k], im[k]) == old(C(re[Rev(m, k)], im[Rev(m, k)]))
    ensures forall p | n <= p < re.Length :: re[p] == old(re[p])
    ensures forall p | n <= p < im.Length :: im[p] == old(im[p])
  {
    hide Rev;
    var i, j := 1, 0;
    RevPermutes(m);
    RevZero(m);
    while i < n
      invariant 1 <= i <= n && j == Rev(m, i - 1)
      invariant forall k: nat | k < n ::
        if k < i || Rev(m, k) < i
        then re[k] == old(re[Rev(m, k)]) && im[k] == old(im[Rev(m, k)])
        else re[k] == old(re[k]) && im[k] == old(im[k])
      invariant forall p | n <= p < re.Length :: re[p] == old(re[p])
      invariant forall p | n <= p < im.Length :: im[p] == old(im[p])
    {
      j := NextReversed(n, j, m, i);
      if i < j {
        re[i], re[j] := re[j], re[i];
        im[i], im[j] := im[j], im[i];
      }
      i := i + 1;
    }
  }

  /** One butterfly on positions a and b with twiddle cur. */
  method Butterfly(re: array<real>, im: array<real>, a: nat, b: nat, cur_r: real, cur_i: real)
    requires re != im && a < b < re.Length && b < im.Length
    modifies re, im
    ensures forall p | 0 <= p < re.Length && p != a && p != b :: re[p] == old(re[p])
    ensures forall p | 0 <= p < im.Length && p != a && p != b :: im[p] == old(im[p])
    ensures var u, v := old(C(re[a], im[a])), Mul(old(C(re[b], im[b])), C(cur_r, cur_i));
            C(re[a], im[a]) == Add(u, v) && C(re[b], im[b]) == Sub(u, v)
  {
    var ur, ui := re[a], im[a];
    var vr := re[b] * cur_r - im[b] * cur_i;
    var vi := re[b] * cur_i + im[b] * cur_r;
    re[a] := ur + vr;
    im[a] := ui + vi;
    re[b] := ur - vr;
    im[b] := ui - vi;
  }

  /** One run of butterflies: `h` butterflies from position i with twiddle w^k at offset k. */
  method ButterflyGroup(re: array<real>, im: array<real>, i: nat, h: nat, w: C)
    requires re != im && i + 2 * h <= re.Length && i + 2 * h <= im.Length
    modifies re, im
    ensures forall p | 0 <= p < re.Length && !(i <= p < i + 2 * h) :: re[p] == old(re[p])
    ensures forall p | 0 <= p < im.Length && !(i <= p < i + 2 * h) :: im[p] == old(im[p])
    ensures forall k | 0 <= k < h ::
      var u, v := old(C(re[i + k], im[i + k])), Mul(old(C(re[i + k + h], im[i + k + h])), Pow(w, k));
      C(re[i + k], im[i + k]) == Add(u, v) && C(re[i + k + h], im[i + k + h]) == Sub(u, v)
  {
    hide Pow, Mul, Add, Sub;
    var cur_r, cur_i := 1.0, 0.0;
    var k := 0;
    PowBase(w);
    while k < h
      invariant 0 <= k <= h
      invariant C(cur_r, cur_i) == Pow(w, k)
      invariant forall p | 0 <= p < re.Length && !(i <= p < i + k) && !(i + h <= p < i + h + k) :: re[p] == old(re[p])
      invariant forall p | 0 <= p < im.Length && !(i <= p < i + k) && !(i + h <= p < i + h + k) :: im[p] == old(im[p])
      invariant forall d | 0 <= d < k ::
        var u, v := old(C(re[i + d], im[i + d])), Mul(old(C(re[i + d + h], im[i + d + h])), Pow(w, d));
        C(re[i + d], im[i + d]) == Add(u, v) && C(re[i + d + h], im[i + d + h]) == Sub(u, v)
    {
      Butterfly(re, im, i + k, i + k + h, cur_r, cur_i);
      PowStep(w, k, cur_r, cur_i);
      var nr := cur_r * w.re - cur_i * w.im;
      cur_i := cur_r * w.im + cur_i * w.re;
      cur_r := nr;
      k := k + 1;
    }
  }

  lemma PowBase(w: C)
    ensures Pow(w, 0) == C(1.0, 0.0)
  {}

  lemma PowStep(w: C, k: nat, cur_r: real, cur_i: real)
    requires C(cur_r, cur_i) == Pow(w, k)
    ensures Pow(w, k + 1) == C(cur_r * w.re - cur_i * w.im, cur_r * w.im + cur_i * w.re)
  {
    PowNext(w, k);
  }

  /** The butterflies of block b take it from stage s to stage s + 1. */
  method StageBlock(re: array<real>, im: array<real>, i: nat, len: nat, wr: real, wi: real,
                    ghost x: seq<C>, ghost r: int -> C, ghost m: nat, ghost s: nat, ghost b: nat)
    requires re != im && i + len <= re.Length && i + len <= im.Length
    requires Roots(r, m) && s < m && len == 2 * Pow2(s) && r(len) == C(wr, wi) && i == b * len
    requires forall p | i <= p < i + len :: C(re[p], im[p]) == AfterStage(x, r, m, s, p)
    modifies re, im
    ensures forall p | i <= p < i + len :: C(re[p], im[p]) == AfterStage(x, r, m, s + 1, p)
    ensures forall p | 0 <= p < re.Length && !(i <= p < i + len) :: re[p] == old(re[p])
    ensures forall p | 0 <= p < im.Length && !(i <= p < i + len) :: im[p] == old(im[p])
  {
    hide Pow, Mul, Add, Sub, AfterStage, Roots, Pow2;
    ButterflyGroup(re, im, i, len / 2, C(wr, wi));
    forall p | i <= p < i + len
      ensures C(re[p], im[p]) == AfterStage(x, r, m, s + 1, p)
    {
      var h := Pow2(s);
      var k := if p < i + h then p - i else p - i - h;
      StageStep(x, r, m, s, b, k);
      assert old(C(re[i + k], im[i + k])) == AfterStage(x, r, m, s, i + k);
      assert old(C(re[i + k + h], im[i + k + h])) == AfterStage(x, r, m, s, i + k + h);
    }
  }

  /** One stage takes every block of length `len` from stage s to stage s + 1. */
  method Stage(re: array<real>, im: array<real>, n: int, len: nat, wr: real, wi: real,
               ghost x: seq<C>, ghost r: int -> C, ghost m: nat, ghost s: nat)
    requires Buffers(re, im, n) && n == Pow2(m)
    requires Roots(r, m) && s < m && len == 2 * Pow2(s) && r(len) == C(wr, wi)
    requires forall p | 0 <= p < n :: C(re[p], im[p]) == AfterStage(x, r, m, s, p)
    modifies re, im
    ensures forall p | 0 <= p < n :: C(re[p], im[p]) == AfterStage(x, r, m, s + 1, p)
    ensures forall p | n <= p < re.Length :: re[p] == old(re[p])
    ensures forall p | n <= p < im.Length :: im[p] == old(im[p])
  {
    hide AfterStage, Roots, Pow2;
    var i := 0;
    ghost var b, blocks := 0, Pow2(m - s - 1);
    StageBlocks(m, s);
    while i < n
      invariant 0 <= b && 0 <= i && i == b * len && n == blocks * len
      invariant forall p | 0 <= p < i && p < n :: C(re[p], im[p]) == AfterStage(x, r, m, s + 1, p)
      invariant forall p | i <= p < n :: C(re[p], im[p]) == AfterStage(x, r, m, s, p)
      invariant forall p | n <= p < re.Length :: re[p] == old(re[p])
      invariant forall p | n <= p < im.Length :: im[p] == old(im[p])
      decreases n - i
    {
      BlockFits(b, blocks, len);
      StageBlock(re, im, i, len, wr, wi, x, r, m, s, b);
      i := i + len;
      b := b + 1;
    }
  }

  lemma StageBlocks(m: nat, s: nat)
    requires s < m
    ensures Pow2(m) == Pow2(m - s - 1) * (2 * Pow2(s))
  {
    Pow2Add(m - s - 1, s + 1);
  }

  lemma BlockFits(b: nat, blocks: nat, len: nat)
    requires b * len < blocks * len
    ensures (b + 1) * len == b * len + len <= blocks * len
  {
    if b >= blocks {
      MulMonotone(blocks, b, len);
    } else {
      MulMonotone(b + 1, blocks, len);
    }
  }

  /** All stages, from length 2 to length n. */
  method Stages(re: array<real>, im: array<real>, n: int, inverse: bool, w: int -> C,
                ghost x: seq<C>, ghost m: nat)
    requires Buffers(re, im, n) && n == Pow2(m) == |x| && Roots(w, m)
    requires forall k: nat | k < n :: C(re[k], im[k]) == x[Rev(m, k)]
    modifies re, im
    ensures forall k: nat | k < n :: C(re[k], im[k]) == Coefficient(x, Direction(w, inverse)(n), k)
    ensures forall p | n <= p < re.Length :: re[p] == old(re[p])
    ensures forall p | n <= p < im.Length :: im[p] == old(im[p])
  {
    hide Rev, AfterStage, Coefficient, Roots, Direction;
    ghost var r, s: nat := Direction(w, inverse), 0;
    DirectionRoots(w, inverse, m);
    forall p | 0 <= p < n
      ensures C(re[p], im[p]) == AfterStage(x, r, m, 0, p)
    {
      StageZero(x, r, m, p);
    }
    var len := 2;
    while len <= n
      invariant 0 <= s <= m && len == 2 * Pow2(s)
      invariant forall p | 0 <= p < n :: C(re[p], im[p]) == AfterStage(x, r, m, s, p)
      invariant forall p | n <= p < re.Length :: re[p] == old(re[p])
      invariant forall p | n <= p < im.Length :: im[p] == old(im[p])
      decreases m - s
    {
      Pow2Reflect(s + 1, m);
      var wr := w(len).re;
      var wi := if inverse then w(len).im else -w(len).im;
      DirectionValue(w, inverse, len);
      Stage(re, im, n, len, wr, wi, x, r, m, s);
      len := len * 2;
      s := s + 1;
    }
    Pow2Reflect(s + 1, m);
    forall k: nat | k < n
      ensures C(re[k], im[k]) == Coefficient(x, r(n), k)
    {
      StageLast(x, r, m, k);
    }
  }

  /** The root family of one direction: angle 2 pi / len for the inverse transform and the
      opposite angle for the forward one. */
  function Direction(w: int -> C, inverse: bool): int -> C
  {
    if inverse then w else ConjFamily(w)
  }

  lemma DirectionRoots(w: int -> C, inverse: bool, m: nat)
    requires Roots(w, m)
    ensures Roots(Direction(w, inverse), m)
  {
    hide Roots;
    ConjRoots(w, m);
  }

  lemma DirectionValue(w: int -> C, inverse: bool, len: int)
    ensures Direction(w, inverse)(len) == C(w(len).re, if inverse then w(len).im else -w(len).im)
  {}

  method Normalise(re: array<real>, im: array<real>, n: int)
    requires Buffers(re, im, n) && n > 0
    modifies re, im
    ensures Zip(re[..n], im[..n]) == DivideAll(old(Zip(re[..n], im[..n])), n as real)
    ensures forall p | n <= p < re.Length :: re[p] == old(re[p])
    ensures forall p | n <= p < im.Length :: im[p] == old(im[p])
  {
    for i := 0 to n
      invariant forall p | 0 <= p < i ::
        re[p] == old(re[p]) / (n as real) && im[p] == old(im[p]) / (n as real)
      invariant forall p | i <= p < n :: re[p] == old(re[p]) && im[p] == old(im[p])
      invariant forall p | n <= p < re.Length :: re[p] == old(re[p])
      invariant forall p | n <= p < im.Length :: im[p] == old(im[p])
    {
      re[i] := re[i] / (n as real);
      im[i] := im[i] / (n as real);
    }
  }

  /** What the transform leaves in the buffers for a vector x of length n. */
  function Result(x: seq<C>, w: int -> C, inverse: bool): seq<C>
  {
    var y := Transform(x, Direction(w, inverse)(|x|));
    if inverse && |x| > 0 then DivideAll(y, |x| as real) else y
  }

  /** The forward sums: X[k] adds x[j] times the jk-th power of the conjugate root. */
  function Analysis(x: seq<C>, w: int -> C): seq<C>
  {
    seq(|x|, k => Sum(|x|, j => Mul(At(x, j), Pow(Conj(w(|x|)), j * k))))
  }

  /** The inverse sums: with the root itself. */
  function Synthesis(x: seq<C>, w: int -> C): seq<C>
  {
    seq(|x|, k => Sum(|x|, j => Mul(At(x, j), Pow(w(|x|), j * k))))
  }

  /** The whole call: for every power of two and every input the buffers end up holding exactly
      the transform of what they held; any other length is refused and nothing is touched. */
  method FftRadix2(re: array<real>, im: array<real>, n: int, inverse: bool, w: int -> C)
    returns (ok: bool)
    requires Buffers(re, im, n)
    requires PowerOfTwo(n) ==> Roots(w, Log2(n))
    modifies re, im
    ensures ok <==> PowerOfTwo(n)
    ensures !ok ==> re[..] == old(re[..]) && im[..] == old(im[..])
    ensures ok ==> Zip(re[..n], im[..n]) == Result(old(Zip(re[..n], im[..n])), w, inverse)
    ensures ok ==> n > 0
    ensures ok && !inverse ==> Zip(re[..n], im[..n]) == Analysis(old(Zip(re[..n], im[..n])), w)
    ensures ok && inverse ==> Zip(re[..n], im[..n]) == DivideAll(Synthesis(old(Zip(re[..n], im[..n])), w), n as real)
    ensures ok ==> forall p | n <= p < re.Length :: re[p] == old(re[p])
    ensures ok ==> forall p | n <= p < im.Length :: im[p] == old(im[p])
  {
    hide Result, Coefficient, Analysis, Synthesis, Roots, Direction;
    ok := IsPow2(n);
    if !ok {
      return;
    }
    ghost var x := Zip(re[..n], im[..n]);
    ResultEntries(x, w, inverse);
    assert |x| == n;
    if n == 1 {
      SingleResult(x, w, inverse);
      return;
    }
    ghost var m := Log2(n);
    BitReverse(re, im, n, m);
    Stages(re, im, n, inverse, w, x, m);
    assert Zip(re[..n], im[..n]) == Transform(x, Direction(w, inverse)(n));
    ResultIs(x, w, inverse);
    if inverse {
      Normalise(re, im, n);
    }
  }

  lemma ResultIs(x: seq<C>, w: int -> C, inverse: bool)
    requires x != []
    ensures var y := Transform(x, Direction(w, inverse)(|x|));
            Result(x, w, inverse) == if inverse then DivideAll(y, |x| as real) else y
  {}

  /** The forward direction is the plain sum with the conjugate root; the inverse direction is the
      sum with the root, divided by the length. */
  lemma ResultEntries(x: seq<C>, w: int -> C, inverse: bool)
    requires x != []
    ensures Result(x, w, inverse) == if inverse then DivideAll(Synthesis(x, w), |x| as real) else Analysis(x, w)
  {
    hide DivideAll;
    var z := Direction(w, inverse)(|x|);
    forall k | 0 <= k < |x|
      ensures Transform(x, z)[k] == (if inverse then Synthesis(x, w) else Analysis(x, w))[k]
    {
      SumCong(|x|, j => Mul(At(x, j), Pow(z, j * k)),
              j => Mul(At(x, j), Pow(if inverse then w(|x|) else Conj(w(|x|)), j * k)));
    }
    assert Transform(x, z) == if inverse then Synthesis(x, w) else Analysis(x, w);
    ResultIs(x, w, inverse);
  }

  function Constant(n: nat, c: C): seq<C> { seq(n, _ => c) }

  /** A constant signal has its whole spectrum in bin 0, n times the constant. */
  lemma ConstantInput(c: C, w: int -> C, m: nat)
    requires Roots(w, m)
    ensures var n := Pow2(m);
            Result(Constant(n, c), w, false) == [Mul(c, Real(n as real))] + Constant(n - 1, ZERO)
  {
    hide Roots, Mul, Analysis, Result;
    var n := Pow2(m);
    var x := Constant(n, c);
    ConjRoots(w, m);
    ResultEntries(x, w, false);
    ConstantBin(c, w, m, 0);
    var y, expected := Analysis(x, w), [Mul(c, Real(n as real))] + Constant(n - 1, ZERO);
    forall k: nat | k < n
      ensures y[k] == expected[k]
    {
      ConstantBin(c, w, m, k);
    }
    assert y == expected;
  }

  lemma ConstantBin(c: C, w: int -> C, m: nat, k: nat)
    requires Roots(ConjFamily(w), m) && k < Pow2(m)
    ensures var x := Constant(Pow2(m), c);
            |Analysis(x, w)| == |x| && Analysis(x, w)[k] == if k == 0 then Mul(c, Real(Pow2(m) as real)) else ZERO
  {
    hide Roots, Mul, Pow, Pow2;
    var n := Pow2(m);
    var x, z := Constant(n, c), Conj(w(n));
    var f := j => Mul(At(x, j), Pow(Conj(w(|x|)), j * k));
    SumScale(n, c, DftInverse.RootPower(z, k), f);
    assert Analysis(x, w)[k] == Sum(n, f) by {
      SumCong(n, f, j => Mul(At(x, j), Pow(Conj(w(|x|)), j * k)));
    }
    DftInverse.Orthogonality(ConjFamily(w), m, m, k);
    assert DftInverse.RootSum(ConjFamily(w), m, k) == Sum(n, DftInverse.RootPower(z, k));
    SmallMod(k, n);
    MulUnits(c);
  }

  lemma SmallMod(k: nat, n: nat)
    requires k < n
    ensures k % n == k
  {
    DivModUnique(k, n, 0, k);
  }

  lemma SingleResult(x: seq<C>, w: int -> C, inverse: bool)
    requires |x| == 1
    ensures Result(x, w, inverse) == x
  {
    var r := Direction(w, inverse)(1);
    var f := (j: int) => Mul(At(x, j), Pow(r, j * 0));
    assert Coefficient(x, r, 0) == Sum(1, f);
    assert Sum(1, f) == Add(Sum(0, f), f(0));
    MulUnits(x[0]);
  }

  /** The two directions undo each other, in either order. */
  lemma DirectionsCancel(x: seq<C>, w: int -> C, inverse: bool, m: nat)
    requires |x| == Pow2(m) && Roots(w, m) && UnitModulus(w, m)
    ensures Result(Result(x, w, inverse), w, !inverse) == x
  {
    hide Roots, Mul, Coefficient;
    var n := |x|;
    if m == 0 {
      SingleResult(x, w, inverse);
      SingleResult(x, w, !inverse);
    } else {
      var r, c := w(n), Conj(w(n));
      MulComm(r, c);
      if inverse {
        ConjRoots(w, m);
        DftInverse.TransformDivide(Transform(x, r), n as real, c);
        DftInverse.InverseUndoes(x, ConjFamily(w), r, m);
      } else {
        DftInverse.InverseUndoes(x, w, c, m);
      }
    }
  }

  /** Calling the transform and then its opposite direction restores both buffers. */
  method ThereAndBack(re: array<real>, im: array<real>, n: int, inverse: bool, w: int -> C)
    requires Buffers(re, im, n) && PowerOfTwo(n)
    requires Roots(w, Log2(n)) && UnitModulus(w, Log2(n))
    modifies re, im
    ensures Zip(re[..n], im[..n]) == old(Zip(re[..n], im[..n]))
  {
    hide Roots, UnitModulus, Result;
    var m: nat :| n == Pow2(m);
    Log2Pow2(m);
    ghost var x := Zip(re[..n], im[..n]);
    var ok := FftRadix2(re, im, n, inverse, w);
    ok := FftRadix2(re, im, n, !inverse, w);
    DirectionsCancel(x, w, inverse, m);
  }
}
