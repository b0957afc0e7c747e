/** The convolution layer as a bilinear map: its forward sums, the sums its backward pass must
    produce, and the adjoint identities between them. A tensor is a total function of its indices;
    only the entries inside its shape matter. */
module ConvAdjoint {
  import opened Bits
  import opened RealSums

  type Tensor = (int, int, int, int) -> real

  /** Shapes of a convolution: n images of h x w x ic, oc filters of kh x kw x ic. */
  datatype Dims = Dims(n: nat, h: nat, w: nat, ic: nat, oc: nat, kh: nat, kw: nat, stride: nat, pad: nat)
  {
    function PadH(): nat { h + 2 * pad }
    function PadW(): nat { w + 2 * pad }
    function OutH(): int requires stride >= 1 { (h + 2 * pad - kh) / stride + 1 }
    function OutW(): int requires stride >= 1 { (w + 2 * pad - kw) / stride + 1 }

    /** What allocating the output demands: no negative extent. */
    predicate Ok()
    {
      stride >= 1 && OutH() >= 0 && OutW() >= 0
    }
  }

  /** `np.pad` with zeros. */
  function Pad(x: Tensor, d: Dims): Tensor
  {
    (n, i, j, c) =>
      if d.pad <= i < d.pad + d.h && d.pad <= j < d.pad + d.w then x(n, i - d.pad, j - d.pad, c) else 0.0
  }

  /** One product of an output: filter tap (k, l, c) at position (oy, ox). */
  function Tap(xp: Tensor, w: Tensor, d: Dims, n: int, oy: int, ox: int, o: int): Term
  {
    (k, l, c) => xp(n, oy * d.stride + k, ox * d.stride + l, c) * w(o, k, l, c)
  }

  /** One output without the bias. */
  function ConvAt(xp: Tensor, w: Tensor, d: Dims, n: int, oy: int, ox: int, o: int): real
  {
    Sum3(d.kh, d.kw, d.ic, Tap(xp, w, d, n, oy, ox, o))
  }

  /** The contributions to a weight gradient, over positions and images. */
  function WeightTerm(dout: Tensor, xp: Tensor, d: Dims, o: int, k: int, l: int, c: int): Term
  {
    (oy, ox, n) => dout(n, oy, ox, o) * xp(n, oy * d.stride + k, ox * d.stride + l, c)
  }

  function WeightGrad(dout: Tensor, xp: Tensor, d: Dims, o: int, k: int, l: int, c: int): real
    requires d.Ok()
  {
    Sum3(d.OutH(), d.OutW(), d.n, WeightTerm(dout, xp, d, o, k, l, c))
  }

  predicate InWindow(d: Dims, oy: int, ox: int, i: int, j: int)
  {
    oy * d.stride <= i < oy * d.stride + d.kh && ox * d.stride <= j < ox * d.stride + d.kw
  }

  /** The contributions to the gradient of padded input (n, i, j, c), over positions and filters. */
  function InputTerm(dout: Tensor, w: Tensor, d: Dims, n: int, i: int, j: int, c: int): Term
  {
    (oy, ox, o) =>
      if InWindow(d, oy, ox, i, j) then dout(n, oy, ox, o) * w(o, i - oy * d.stride, j - ox * d.stride, c) else 0.0
  }

  function InputGrad(dout: Tensor, w: Tensor, d: Dims, n: int, i: int, j: int, c: int): real
    requires d.Ok()
  {
    Sum3(d.OutH(), d.OutW(), d.oc, InputTerm(dout, w, d, n, i, j, c))
  }

  // ----- inner products -----

  /** The plane products <a, b> for one leading index. */
  function Plane(a: Tensor, b: Tensor, n: int): Term
  {
    (i, j, c) => a(n, i, j, c) * b(n, i, j, c)
  }

  function PlaneDots(a: Tensor, b: Tensor, p: nat, q: nat, r: nat): int -> real
  {
    n => Sum3(p, q, r, Plane(a, b, n))
  }

  /** The inner product of two m x p x q x r tensors. */
  function Dot(a: Tensor, b: Tensor, m: nat, p: nat, q: nat, r: nat): real
  {
    Sum(m, PlaneDots(a, b, p, q, r))
  }

  function Conv(xp: Tensor, w: Tensor, d: Dims): Tensor
  {
    (n, oy, ox, o) => ConvAt(xp, w, d, n, oy, ox, o)
  }

  function WeightGrads(dout: Tensor, xp: Tensor, d: Dims): Tensor
    requires d.Ok()
  {
    (o, k, l, c) => WeightGrad(dout, xp, d, o, k, l, c)
  }

  function InputGrads(dout: Tensor, w: Tensor, d: Dims): Tensor
    requires d.Ok()
  {
    (n, i, j, c) => InputGrad(dout, w, d, n, i, j, c)
  }

  /** The gradient of the unpadded input: the padded one with the border cut off. */
  function Crop(dxp: Tensor, d: Dims): Tensor
  {
    (n, y, x, c) => dxp(n, y + d.pad, x + d.pad, c)
  }

  /** The output has exactly the positions at which the filter fits the padded input. */
  lemma PositionsExact(d: Dims, i: nat)
    requires d.Ok()
    ensures i < d.OutH() <==> i * d.stride + d.kh <= d.PadH()
    ensures i < d.OutW() <==> i * d.stride + d.kw <= d.PadW()
  {
    StepsFit(i, d.stride, d.h + 2 * d.pad - d.kh);
    StepsFit(i, d.stride, d.w + 2 * d.pad - d.kw);
  }

  lemma PositionFits(d: Dims, oy: nat, ox: nat)
    requires d.Ok() && oy < d.OutH() && ox < d.OutW()
    ensures 0 <= oy * d.stride && oy * d.stride + d.kh <= d.PadH()
    ensures 0 <= ox * d.stride && ox * d.stride + d.kw <= d.PadW()
  {
    PositionsExact(d, oy);
    PositionsExact(d, ox);
    StepsFit(oy, d.stride, d.h + 2 * d.pad - d.kh);
    StepsFit(ox, d.stride, d.w + 2 * d.pad - d.kw);
  }

  /** A filter with a single 1. */
  function Delta(o: int, k: int, l: int, c: int): Tensor
  {
    (o', k', l', c') => if o' == o && k' == k && l' == l && c' == c then 1.0 else 0.0
  }

  /** What a convolution reads, without mention of padding: a filter that is 1 at tap (k, l, c)
      copies the image at row oy * stride + k - pad and column ox * stride + l - pad, and gives zero
      outside the image. */
  lemma DeltaResponse(x: Tensor, d: Dims, n: int, oy: int, ox: int, o: int, k: nat, l: nat, c: nat)
    requires k < d.kh && l < d.kw && c < d.ic
    ensures var i, j := oy * d.stride + k - d.pad, ox * d.stride + l - d.pad;
            Conv(Pad(x, d), Delta(o, k, l, c), d)(n, oy, ox, o)
              == (if 0 <= i < d.h && 0 <= j < d.w then x(n, i, j, c) else 0.0)
  {
    hide Sum3, Pad;
    var xp := Pad(x, d);
    var t := Tap(xp, Delta(o, k, l, c), d, n, oy, ox, o);
    Single3(d.kh, d.kw, d.ic, t, k, l, c);
    PadAt(x, d, n, oy * d.stride + k, ox * d.stride + l, c);
  }

  lemma PadAt(x: Tensor, d: Dims, n: int, i: int, j: int, c: int)
    ensures Pad(x, d)(n, i, j, c)
         == if 0 <= i - d.pad < d.h && 0 <= j - d.pad < d.w then x(n, i - d.pad, j - d.pad, c) else 0.0
  {}

  // ----- the adjoint identity for the input -----

  /** What the output positions scatter to one input element, against that element. */
  function Scattered(dout: Tensor, xp: Tensor, w: Tensor, d: Dims, n: int, i: int, j: int, c: int): Term
  {
    (oy, ox, o) => InputTerm(dout, w, d, n, i, j, c)(oy, ox, o) * xp(n, i, j, c)
  }

  /** What one output position scatters, against the input elements. */
  function Gathered(dout: Tensor, xp: Tensor, w: Tensor, d: Dims, n: int, oy: int, ox: int, o: int): Term
  {
    (i, j, c) => InputTerm(dout, w, d, n, i, j, c)(oy, ox, o) * xp(n, i, j, c)
  }

  /** For one image: scattering and gathering are transposes of each other. */
  lemma InputAdjointImage(dout: Tensor, xp: Tensor, w: Tensor, d: Dims, n: int)
    requires d.Ok()
    ensures Sum3(d.PadH(), d.PadW(), d.ic, Plane(InputGrads(dout, w, d), xp, n))
         == Sum3(d.OutH(), d.OutW(), d.oc, Plane(dout, Conv(xp, w, d), n))
  {
    hide Sum3, InputTerm, Plane;
    var f := (i: int, j: int, c: int) => Scattered(dout, xp, w, d, n, i, j, c);
    var at := (oy: int, ox: int, o: int) => Gathered(dout, xp, w, d, n, oy, ox, o);
    var outer, inner := Plane(InputGrads(dout, w, d), xp, n), Plane(dout, Conv(xp, w, d), n);
    forall i, j, c
      ensures outer(i, j, c) == Sum3(d.OutH(), d.OutW(), d.oc, f(i, j, c))
    {
      ScatteredSum(dout, xp, w, d, n, i, j, c);
    }
    forall oy, ox, o | 0 <= oy < d.OutH() && 0 <= ox < d.OutW()
      ensures inner(oy, ox, o) == Sum3(d.PadH(), d.PadW(), d.ic, at(oy, ox, o))
    {
      GatheredSum(dout, xp, w, d, n, oy, ox, o);
    }
    Swap3(d.PadH(), d.PadW(), d.ic, d.OutH(), d.OutW(), d.oc, f, at, outer, inner);
  }

  lemma ScatteredSum(dout: Tensor, xp: Tensor, w: Tensor, d: Dims, n: int, i: int, j: int, c: int)
    requires d.Ok()
    ensures Plane(InputGrads(dout, w, d), xp, n)(i, j, c)
         == Sum3(d.OutH(), d.OutW(), d.oc, Scattered(dout, xp, w, d, n, i, j, c))
  {
    hide Sum3;
    Scale3(d.OutH(), d.OutW(), d.oc, xp(n, i, j, c), InputTerm(dout, w, d, n, i, j, c),
           Scattered(dout, xp, w, d, n, i, j, c));
  }

  lemma GatheredSum(dout: Tensor, xp: Tensor, w: Tensor, d: Dims, n: int, oy: nat, ox: nat, o: int)
    requires d.Ok() && oy < d.OutH() && ox < d.OutW()
    ensures Plane(dout, Conv(xp, w, d), n)(oy, ox, o)
         == Sum3(d.PadH(), d.PadW(), d.ic, Gathered(dout, xp, w, d, n, oy, ox, o))
  {
    hide Sum3, ConvAt, Gathered;
    GatherIsWindow(dout, xp, w, d, n, oy, ox, o);
  }

  /** Summing one position's scatter against the input is the gather at that position. */
  lemma GatherIsWindow(dout: Tensor, xp: Tensor, w: Tensor, d: Dims, n: int, oy: nat, ox: nat, o: int)
    requires d.Ok() && oy < d.OutH() && ox < d.OutW()
    ensures Sum3(d.PadH(), d.PadW(), d.ic, Gathered(dout, xp, w, d, n, oy, ox, o))
         == dout(n, oy, ox, o) * ConvAt(xp, w, d, n, oy, ox, o)
  {
    hide Sum3, InWindow, InputTerm, Tap, Gathered;
    PositionFits(d, oy, ox);
    var a, b := oy * d.stride, ox * d.stride;
    var g, t := Gathered(dout, xp, w, d, n, oy, ox, o), Tap(xp, w, d, n, oy, ox, o);
    var scaled := (k: int, l: int, c: int) => dout(n, oy, ox, o) * t(k, l, c);
    forall k, l, c | 0 <= k < d.kh && 0 <= l < d.kw
      ensures g(a + k, b + l, c) == scaled(k, l, c)
    {
      InsideTerm(dout, xp, w, d, n, oy, ox, o, a, b, k, l, c);
    }
    forall i, j, c | !(a <= i < a + d.kh && b <= j < b + d.kw)
      ensures g(i, j, c) == 0.0
    {
      OutsideTerm(dout, xp, w, d, n, oy, ox, o, i, j, c);
    }
    Window3(d.PadH(), d.PadW(), d.ic, a, b, d.kh, d.kw, g, scaled);
    Scale3(d.kh, d.kw, d.ic, dout(n, oy, ox, o), t, scaled);
  }

  lemma InsideTerm(dout: Tensor, xp: Tensor, w: Tensor, d: Dims, n: int, oy: int, ox: int, o: int,
                   a: int, b: int, k: int, l: int, c: int)
    requires a == oy * d.stride && b == ox * d.stride && 0 <= k < d.kh && 0 <= l < d.kw
    ensures Gathered(dout, xp, w, d, n, oy, ox, o)(a + k, b + l, c)
         == dout(n, oy, ox, o) * Tap(xp, w, d, n, oy, ox, o)(k, l, c)
  {
    hide InputTerm, Tap;
    ScatterInside(dout, w, d, n, oy, ox, o, a, b, k, l, c);
    TapAt(xp, w, d, n, oy, ox, o, a, b, k, l, c);
    ProductOfThree(dout(n, oy, ox, o), w(o, k, l, c), xp(n, a + k, b + l, c));
  }

  lemma ScatterInside(dout: Tensor, w: Tensor, d: Dims, n: int, oy: int, ox: int, o: int,
                      a: int, b: int, k: int, l: int, c: int)
    requires a == oy * d.stride && b == ox * d.stride && 0 <= k < d.kh && 0 <= l < d.kw
    ensures InputTerm(dout, w, d, n, a + k, b + l, c)(oy, ox, o) == dout(n, oy, ox, o) * w(o, k, l, c)
  {
    assert InWindow(d, oy, ox, a + k, b + l);
    assert a + k - oy * d.stride == k && b + l - ox * d.stride == l;
  }

  lemma TapAt(xp: Tensor, w: Tensor, d: Dims, n: int, oy: int, ox: int, o: int,
              a: int, b: int, k: int, l: int, c: int)
    requires a == oy * d.stride && b == ox * d.stride
    ensures Tap(xp, w, d, n, oy, ox, o)(k, l, c) == xp(n, a + k, b + l, c) * w(o, k, l, c)
  {}

  lemma OutsideTerm(dout: Tensor, xp: Tensor, w: Tensor, d: Dims, n: int, oy: int, ox: int, o: int,
                    i: int, j: int, c: int)
    requires !(oy * d.stride <= i < oy * d.stride + d.kh && ox * d.stride <= j < ox * d.stride + d.kw)
    ensures Gathered(dout, xp, w, d, n, oy, ox, o)(i, j, c) == 0.0
  {
    assert !InWindow(d, oy, ox, i, j);
    var term, x := InputTerm(dout, w, d, n, i, j, c)(oy, ox, o), xp(n, i, j, c);
    assert term == 0.0 && term * x == 0.0;
  }

  /** <dx, x> over the unpadded shape equals <dxp, xp> over the padded one. */
  lemma CropDot(dxp: Tensor, x: Tensor, d: Dims, n: int)
    ensures Sum3(d.PadH(), d.PadW(), d.ic, Plane(dxp, Pad(x, d), n))
         == Sum3(d.h, d.w, d.ic, Plane(Crop(dxp, d), x, n))
  {
    hide Sum3;
    Window3(d.PadH(), d.PadW(), d.ic, d.pad, d.pad, d.h, d.w, Plane(dxp, Pad(x, d), n), Plane(Crop(dxp, d), x, n));
  }

  /** <dx, x> == <dout, conv(x, w)>. */
  lemma InputAdjoint(dout: Tensor, x: Tensor, w: Tensor, d: Dims)
    requires d.Ok()
    ensures Dot(Crop(InputGrads(dout, w, d), d), x, d.n, d.h, d.w, d.ic)
         == Dot(dout, Conv(Pad(x, d), w, d), d.n, d.OutH(), d.OutW(), d.oc)
  {
    hide Sum3;
    forall n | 0 <= n < d.n
      ensures PlaneDots(Crop(InputGrads(dout, w, d), d), x, d.h, d.w, d.ic)(n)
           == PlaneDots(dout, Conv(Pad(x, d), w, d), d.OutH(), d.OutW(), d.oc)(n)
    {
      InputAdjointImage(dout, Pad(x, d), w, d, n);
      CropDot(InputGrads(dout, w, d), x, d, n);
    }
    SumCong(d.n, PlaneDots(Crop(InputGrads(dout, w, d), d), x, d.h, d.w, d.ic),
                 PlaneDots(dout, Conv(Pad(x, d), w, d), d.OutH(), d.OutW(), d.oc));
  }

  // ----- the adjoint identity for the weights -----

  /** dout against the output of one filter, over positions and images. */
  function FilterPlane(dout: Tensor, out: Tensor, o: int): Term
  {
    (oy, ox, n) => dout(n, oy, ox, o) * out(n, oy, ox, o)
  }

  function FilterDots(dout: Tensor, out: Tensor, p: nat, q: nat, n: nat): int -> real
  {
    o => Sum3(p, q, n, FilterPlane(dout, out, o))
  }

  /** The positions' contributions to one weight, against that weight. */
  function ByWeight(dout: Tensor, xp: Tensor, w: Tensor, d: Dims, o: int, k: int, l: int, c: int): Term
  {
    (oy, ox, n) => WeightTerm(dout, xp, d, o, k, l, c)(oy, ox, n) * w(o, k, l, c)
  }

  /** One position's contributions to the weights of a filter, against them. */
  function ByPosition(dout: Tensor, xp: Tensor, w: Tensor, d: Dims, o: int, oy: int, ox: int, n: int): Term
  {
    (k, l, c) => WeightTerm(dout, xp, d, o, k, l, c)(oy, ox, n) * w(o, k, l, c)
  }

  lemma WeightAdjointFilter(dout: Tensor, xp: Tensor, w: Tensor, d: Dims, o: int)
    requires d.Ok()
    ensures Sum3(d.kh, d.kw, d.ic, Plane(WeightGrads(dout, xp, d), w, o))
         == Sum3(d.OutH(), d.OutW(), d.n, FilterPlane(dout, Conv(xp, w, d), o))
  {
    hide Sum3, WeightTerm, Plane, FilterPlane;
    var f := (k: int, l: int, c: int) => ByWeight(dout, xp, w, d, o, k, l, c);
    var at := (oy: int, ox: int, n: int) => ByPosition(dout, xp, w, d, o, oy, ox, n);
    var outer, inner := Plane(WeightGrads(dout, xp, d), w, o), FilterPlane(dout, Conv(xp, w, d), o);
    forall k, l, c
      ensures outer(k, l, c) == Sum3(d.OutH(), d.OutW(), d.n, f(k, l, c))
    {
      ByWeightSum(dout, xp, w, d, o, k, l, c);
    }
    forall oy, ox, n
      ensures inner(oy, ox, n) == Sum3(d.kh, d.kw, d.ic, at(oy, ox, n))
    {
      ByPositionSum(dout, xp, w, d, o, oy, ox, n);
    }
    Swap3(d.kh, d.kw, d.ic, d.OutH(), d.OutW(), d.n, f, at, outer, inner);
  }

  lemma ByWeightSum(dout: Tensor, xp: Tensor, w: Tensor, d: Dims, o: int, k: int, l: int, c: int)
    requires d.Ok()
    ensures Plane(WeightGrads(dout, xp, d), w, o)(k, l, c)
         == Sum3(d.OutH(), d.OutW(), d.n, ByWeight(dout, xp, w, d, o, k, l, c))
  {
    hide Sum3;
    Scale3(d.OutH(), d.OutW(), d.n, w(o, k, l, c), WeightTerm(dout, xp, d, o, k, l, c),
           ByWeight(dout, xp, w, d, o, k, l, c));
  }

  lemma ByPositionSum(dout: Tensor, xp: Tensor, w: Tensor, d: Dims, o: int, oy: int, ox: int, n: int)
    ensures FilterPlane(dout, Conv(xp, w, d), o)(oy, ox, n)
         == Sum3(d.kh, d.kw, d.ic, ByPosition(dout, xp, w, d, o, oy, ox, n))
  {
    hide Sum3;
    var t, at := Tap(xp, w, d, n, oy, ox, o), ByPosition(dout, xp, w, d, o, oy, ox, n);
    forall k, l, c
      ensures at(k, l, c) == dout(n, oy, ox, o) * t(k, l, c)
    {
      ProductOfThree(dout(n, oy, ox, o), xp(n, oy * d.stride + k, ox * d.stride + l, c), w(o, k, l, c));
    }
    Scale3(d.kh, d.kw, d.ic, dout(n, oy, ox, o), t, at);
  }

  lemma ProductOfThree(a: real, b: real, c: real)
    ensures a * b * c == a * (b * c) == a * (c * b)
  {}

  /** The output inner product does not depend on whether images or filters are summed first. */
  lemma ImagesOrFilters(dout: Tensor, out: Tensor, n: nat, p: nat, q: nat, o: nat)
    ensures Sum(o, FilterDots(dout, out, p, q, n)) == Dot(dout, out, n, p, q, o)
  {
    hide Sum3;
    var byFilter := (f: int) => FilterPlane(dout, out, f);
    var col := (oy: int, ox: int, m: int) => ((f: int) => dout(m, oy, ox, f) * out(m, oy, ox, f));
    var sumF: Term := (oy, ox, m) => Sum(o, col(oy, ox, m));
    Swap1(o, p, q, n, byFilter, col, FilterDots(dout, out, p, q, n), sumF);
    var byImage := (m: int) => Plane(dout, out, m);
    var col' := (oy: int, ox: int, f: int) => ((m: int) => dout(m, oy, ox, f) * out(m, oy, ox, f));
    var sumN: Term := (oy, ox, f) => Sum(n, col'(oy, ox, f));
    Swap1(n, p, q, o, byImage, col', PlaneDots(dout, out, p, q, o), sumN);
    SwapInner(p, q, n, o, sumF, sumN, dout, out);
  }

  lemma SwapInner(p: nat, q: nat, n: nat, o: nat, sumF: Term, sumN: Term, dout: Tensor, out: Tensor)
    requires forall y, x, m :: sumF(y, x, m) == Sum(o, f => dout(m, y, x, f) * out(m, y, x, f))
    requires forall y, x, f :: sumN(y, x, f) == Sum(n, m => dout(m, y, x, f) * out(m, y, x, f))
    ensures Sum3(p, q, n, sumF) == Sum3(p, q, o, sumN)
  {
    forall y | 0 <= y < p
      ensures First(q, n, sumF)(y) == First(q, o, sumN)(y)
    {
      forall x | 0 <= x < q
        ensures Second(n, sumF, y)(x) == Second(o, sumN, y)(x)
      {
        var cell := (m: int, f: int) => dout(m, y, x, f) * out(m, y, x, f);
        forall m | 0 <= m < n
          ensures Third(sumF, y, x)(m) == Sum(o, f => cell(m, f))
        {
          SumCong(o, f => dout(m, y, x, f) * out(m, y, x, f), f => cell(m, f));
        }
        forall f | 0 <= f < o
          ensures Third(sumN, y, x)(f) == Sum(n, m => cell(m, f))
        {
          SumCong(n, m => dout(m, y, x, f) * out(m, y, x, f), m => cell(m, f));
        }
        SumSwap(n, o, cell, Third(sumF, y, x), Third(sumN, y, x));
      }
      SumCong(q, Second(n, sumF, y), Second(o, sumN, y));
    }
    SumCong(p, First(q, n, sumF), First(q, o, sumN));
  }

  /** <dw, w> == <dout, conv(x, w)>. */
  lemma WeightAdjoint(dout: Tensor, x: Tensor, w: Tensor, d: Dims)
    requires d.Ok()
    ensures Dot(WeightGrads(dout, Pad(x, d), d), w, d.oc, d.kh, d.kw, d.ic)
         == Dot(dout, Conv(Pad(x, d), w, d), d.n, d.OutH(), d.OutW(), d.oc)
  {
    hide Sum3;
    var xp := Pad(x, d);
    forall o | 0 <= o < d.oc
      ensures PlaneDots(WeightGrads(dout, xp, d), w, d.kh, d.kw, d.ic)(o)
           == FilterDots(dout, Conv(xp, w, d), d.OutH(), d.OutW(), d.n)(o)
    {
      WeightAdjointFilter(dout, xp, w, d, o);
    }
    SumCong(d.oc, PlaneDots(WeightGrads(dout, xp, d), w, d.kh, d.kw, d.ic),
                  FilterDots(dout, Conv(xp, w, d), d.OutH(), d.OutW(), d.n));
    ImagesOrFilters(dout, Conv(xp, w, d), d.n, d.OutH(), d.OutW(), d.oc);
  }
}
