/** kws-framework/kwslib/layers.py: forward and backward passes over exact reals. Each whole-array
    numpy statement is one assignment of a tensor value; the loops over output positions are the
    source's own. */
module Layers {
  import opened RealSums
  import opened ConvAdjoint

  type Vector = int -> real
  type Matrix = (int, int) -> real

  const ZEROS: Tensor := (i, j, k, l) => 0.0

  // ----- convolution -----

  /** `out[:, oy, ox, :] = einsum('nklc,oklc->no', region, w)`. */
  function SetPosition(out: Tensor, xp: Tensor, w: Tensor, d: Dims, oy: int, ox: int): Tensor
  {
    (n, y, x, o) => if y == oy && x == ox then ConvAt(xp, w, d, n, oy, ox, o) else out(n, y, x, o)
  }

  function AddBias(out: Tensor, b: Vector): Tensor
  {
    (n, y, x, o) => out(n, y, x, o) + b(o)
  }

  method Conv2dForward(x: Tensor, w: Tensor, b: Vector, d: Dims) returns (out: Tensor)
    requires d.Ok()
    ensures forall n, oy, ox, o | 0 <= oy < d.OutH() && 0 <= ox < d.OutW() ::
      out(n, oy, ox, o) == Conv(Pad(x, d), w, d)(n, oy, ox, o) + b(o)
  {
    hide ConvAt, Pad;
    var xp := Pad(x, d);
    out := ZEROS;
    for oy := 0 to d.OutH()
      invariant forall n, y, x, o | 0 <= y < oy && 0 <= x < d.OutW() :: out(n, y, x, o) == ConvAt(xp, w, d, n, y, x, o)
    {
      for ox := 0 to d.OutW()
        invariant forall n, y, x, o | 0 <= y <= oy && 0 <= x < d.OutW() && (y < oy || x < ox) ::
          out(n, y, x, o) == ConvAt(xp, w, d, n, y, x, o)
      {
        out := SetPosition(out, xp, w, d, oy, ox);
      }
    }
    out := AddBias(out, b);
  }

  /** `dw += einsum('no,nklc->oklc', d, region)`. */
  function AddWeightGrad(dw: Tensor, dout: Tensor, xp: Tensor, d: Dims, oy: int, ox: int): Tensor
  {
    (o, k, l, c) => dw(o, k, l, c) + Sum(d.n, n => dout(n, oy, ox, o) * xp(n, oy * d.stride + k, ox * d.stride + l, c))
  }

  /** `dxp[:, window, :] += einsum('no,oklc->nklc', d, w)`. */
  function AddInputGrad(dxp: Tensor, dout: Tensor, w: Tensor, d: Dims, oy: int, ox: int): Tensor
  {
    (n, i, j, c) => dxp(n, i, j, c) +
      if InWindow(d, oy, ox, i, j)
      then Sum(d.oc, o => dout(n, oy, ox, o) * w(o, i - oy * d.stride, j - ox * d.stride, c)) else 0.0
  }

  function BiasTerm(dout: Tensor, o: int): Term
  {
    (oy, ox, n) => dout(n, oy, ox, o)
  }

  /** `dout.sum(axis=(0, 1, 2))`. */
  function BiasGrad(dout: Tensor, d: Dims): Vector
    requires d.Ok()
  {
    o => Sum3(d.OutH(), d.OutW(), d.n, BiasTerm(dout, o))
  }

  method Conv2dBackward(dout: Tensor, x: Tensor, w: Tensor, d: Dims) returns (dx: Tensor, dw: Tensor, db: Vector)
    requires d.Ok()
    ensures forall n, y, x, c :: dx(n, y, x, c) == Crop(InputGrads(dout, w, d), d)(n, y, x, c)
    ensures forall o, k, l, c :: dw(o, k, l, c) == WeightGrads(dout, Pad(x, d), d)(o, k, l, c)
    ensures db == BiasGrad(dout, d)
  {
    hide InWindow, Pad, WeightTerm, InputTerm, Third, Second, First, Sum, AddWeightGrad, AddInputGrad;
    var xp := Pad(x, d);
    var dxp := ZEROS;
    dw := ZEROS;
    db := BiasGrad(dout, d);
    ghost var oh, ow := d.OutH(), d.OutW();
    NothingSummed();
    for oy := 0 to d.OutH()
      invariant forall o, k, l, c :: dw(o, k, l, c) == Sum(oy, First(ow, d.n, WeightTerm(dout, xp, d, o, k, l, c)))
      invariant forall n, i, j, c :: dxp(n, i, j, c) == Sum(oy, First(ow, d.oc, InputTerm(dout, w, d, n, i, j, c)))
    {
      for ox := 0 to d.OutW()
        invariant forall o, k, l, c ::
          dw(o, k, l, c) == Sum(oy, First(ow, d.n, WeightTerm(dout, xp, d, o, k, l, c)))
                            + Sum(ox, Second(d.n, WeightTerm(dout, xp, d, o, k, l, c), oy))
        invariant forall n, i, j, c ::
          dxp(n, i, j, c) == Sum(oy, First(ow, d.oc, InputTerm(dout, w, d, n, i, j, c)))
                             + Sum(ox, Second(d.oc, InputTerm(dout, w, d, n, i, j, c), oy))
      {
        WeightStep(dw, dout, xp, d, oy, ox);
        InputStep(dxp, dout, w, d, oy, ox);
        dw := AddWeightGrad(dw, dout, xp, d, oy, ox);
        dxp := AddInputGrad(dxp, dout, w, d, oy, ox);
      }
      RowSummed(ow, oy);
    }
    dx := Crop(dxp, d);
  }

  lemma NothingSummed()
    ensures forall f: int -> real :: Sum(0, f) == 0.0
  {}

  lemma RowSummed(ow: nat, oy: nat)
    ensures forall m: nat, f: Term ::
      Sum(oy + 1, First(ow, m, f)) == Sum(oy, First(ow, m, f)) + Sum(ow, Second(m, f, oy))
  {}

  lemma WeightStep(dw: Tensor, dout: Tensor, xp: Tensor, d: Dims, oy: nat, ox: nat)
    ensures forall o, k, l, c ::
      AddWeightGrad(dw, dout, xp, d, oy, ox)(o, k, l, c)
      == dw(o, k, l, c) + (Sum(ox + 1, Second(d.n, WeightTerm(dout, xp, d, o, k, l, c), oy))
                           - Sum(ox, Second(d.n, WeightTerm(dout, xp, d, o, k, l, c), oy)))
  {
    forall o, k, l, c
      ensures AddWeightGrad(dw, dout, xp, d, oy, ox)(o, k, l, c)
           == dw(o, k, l, c) + Second(d.n, WeightTerm(dout, xp, d, o, k, l, c), oy)(ox)
    {
      SumCong(d.n, n => dout(n, oy, ox, o) * xp(n, oy * d.stride + k, ox * d.stride + l, c),
                   Third(WeightTerm(dout, xp, d, o, k, l, c), oy, ox));
    }
  }

  lemma InputStep(dxp: Tensor, dout: Tensor, w: Tensor, d: Dims, oy: nat, ox: nat)
    ensures forall n, i, j, c ::
      AddInputGrad(dxp, dout, w, d, oy, ox)(n, i, j, c)
      == dxp(n, i, j, c) + (Sum(ox + 1, Second(d.oc, InputTerm(dout, w, d, n, i, j, c), oy))
                            - Sum(ox, Second(d.oc, InputTerm(dout, w, d, n, i, j, c), oy)))
  {
    forall n, i, j, c
      ensures AddInputGrad(dxp, dout, w, d, oy, ox)(n, i, j, c)
           == dxp(n, i, j, c) + Second(d.oc, InputTerm(dout, w, d, n, i, j, c), oy)(ox)
    {
      var t := Third(InputTerm(dout, w, d, n, i, j, c), oy, ox);
      if InWindow(d, oy, ox, i, j) {
        SumCong(d.oc, o => dout(n, oy, ox, o) * w(o, i - oy * d.stride, j - ox * d.stride, c), t);
      } else {
        SumZero(d.oc, t);
      }
    }
  }

  /** The bias gradient is the adjoint of adding the bias: <db, b> == <dout, b everywhere>. */
  lemma BiasAdjoint(dout: Tensor, b: Vector, d: Dims)
    requires d.Ok()
    ensures Sum(d.oc, o => BiasGrad(dout, d)(o) * b(o))
         == Dot(dout, (n, y, x, o) => b(o), d.n, d.OutH(), d.OutW(), d.oc)
  {
    hide Sum3;
    var bs: Tensor := (n, y, x, o) => b(o);
    var dots := FilterDots(dout, bs, d.OutH(), d.OutW(), d.n);
    forall o | 0 <= o < d.oc
      ensures BiasGrad(dout, d)(o) * b(o) == dots(o)
    {
      Scale3(d.OutH(), d.OutW(), d.n, b(o), BiasTerm(dout, o), FilterPlane(dout, bs, o));
    }
    SumCong(d.oc, o => BiasGrad(dout, d)(o) * b(o), dots);
    ImagesOrFilters(dout, bs, d.n, d.OutH(), d.OutW(), d.oc);
  }

  lemma DotAdd(a: Tensor, b: Tensor, b': Tensor, s: Tensor, m: nat, p: nat, q: nat, r: nat)
    requires forall n, i, j, c :: s(n, i, j, c) == b(n, i, j, c) + b'(n, i, j, c)
    ensures Dot(a, s, m, p, q, r) == Dot(a, b, m, p, q, r) + Dot(a, b', m, p, q, r)
  {
    hide Sum3;
    forall n
      ensures PlaneDots(a, s, p, q, r)(n) == PlaneDots(a, b, p, q, r)(n) + PlaneDots(a, b', p, q, r)(n)
    {
      forall i, j, c
        ensures Plane(a, s, n)(i, j, c) == Plane(a, b, n)(i, j, c) + Plane(a, b', n)(i, j, c)
      {
        Distribute(a(n, i, j, c), b(n, i, j, c), b'(n, i, j, c));
      }
      Add3(p, q, r, Plane(a, b, n), Plane(a, b', n), Plane(a, s, n));
    }
    SumAdd(m, PlaneDots(a, b, p, q, r), PlaneDots(a, b', p, q, r), PlaneDots(a, s, p, q, r));
  }

  lemma Distribute(a: real, b: real, c: real)
    ensures a * (b + c) == a * b + a * c
  {}

  function Plus(a: Tensor, b: Tensor): Tensor
  {
    (i, j, k, l) => a(i, j, k, l) + b(i, j, k, l)
  }

  /** The backward pass is the gradient: moving the input by any delta moves <dout, output> by
      exactly <dx, delta>, and moving the weights by any delta moves it by exactly <dw, delta>. */
  lemma ExactGradient(dout: Tensor, x: Tensor, dx: Tensor, w: Tensor, dw: Tensor, d: Dims)
    requires d.Ok()
    ensures Dot(dout, Conv(Pad(Plus(x, dx), d), w, d), d.n, d.OutH(), d.OutW(), d.oc)
         == Dot(dout, Conv(Pad(x, d), w, d), d.n, d.OutH(), d.OutW(), d.oc)
            + Dot(Crop(InputGrads(dout, w, d), d), dx, d.n, d.h, d.w, d.ic)
    ensures Dot(dout, Conv(Pad(x, d), Plus(w, dw), d), d.n, d.OutH(), d.OutW(), d.oc)
         == Dot(dout, Conv(Pad(x, d), w, d), d.n, d.OutH(), d.OutW(), d.oc)
            + Dot(WeightGrads(dout, Pad(x, d), d), dw, d.oc, d.kh, d.kw, d.ic)
  {
    hide Dot, Conv, Pad, Crop, InputGrads, WeightGrads;
    InputAdjoint(dout, x, w, d);
    InputAdjoint(dout, Plus(x, dx), w, d);
    DotAdd(Crop(InputGrads(dout, w, d), d), x, dx, Plus(x, dx), d.n, d.h, d.w, d.ic);
    WeightAdjoint(dout, x, w, d);
    WeightAdjoint(dout, x, Plus(w, dw), d);
    DotAdd(WeightGrads(dout, Pad(x, d), d), w, dw, Plus(w, dw), d.oc, d.kh, d.kw, d.ic);
  }

  // ----- depthwise convolution: one single-channel convolution per channel -----

  type Filter = (int, int, int) -> real

  function Channel(x: Tensor, c: int): Tensor { (n, i, j, k) => x(n, i, j, c) }
  function ChannelFilter(w: Filter, c: int): Tensor { (o, k, l, i) => w(k, l, c) }
  function One(d: Dims): Dims { d.(ic := 1, oc := 1) }

  /** The depthwise output of channel c, without bias. */
  function DwConv(x: Tensor, w: Filter, d: Dims, c: int): Tensor
  {
    Conv(Pad(Channel(x, c), One(d)), ChannelFilter(w, c), One(d))
  }

  /** The whole depthwise output without bias, and the gradients of its input and its filter. */
  function DwOutput(x: Tensor, w: Filter, d: Dims): Tensor
  {
    (n, oy, ox, c) => DwConv(x, w, d, c)(n, oy, ox, 0)
  }

  function DwInputGrads(dout: Tensor, w: Filter, d: Dims): Tensor
    requires d.Ok()
  {
    (n, y, z, c) => Crop(InputGrads(Channel(dout, c), ChannelFilter(w, c), One(d)), One(d))(n, y, z, 0)
  }

  function DwWeightGrads(dout: Tensor, x: Tensor, d: Dims): Filter
    requires d.Ok()
  {
    (k, l, c) => WeightGrads(Channel(dout, c), Pad(Channel(x, c), One(d)), One(d))(0, k, l, 0)
  }

  /** A filter as a tensor, the same for every leading index. */
  function Repeated(w: Filter): Tensor { (o, k, l, c) => w(k, l, c) }

  /** `einsum('nklc,klc->nc', region, w)` at one position. */
  function DwSum(xp: Tensor, w: Filter, d: Dims, n: int, oy: int, ox: int, c: int): real
  {
    Sum2(d.kh, d.kw, (k, l) => xp(n, oy * d.stride + k, ox * d.stride + l, c) * w(k, l, c))
  }

  lemma ChannelTap(x: Tensor, w: Filter, d: Dims, n: int, oy: int, ox: int, c: int, k: int, l: int)
    ensures Tap(Pad(Channel(x, c), One(d)), ChannelFilter(w, c), One(d), n, oy, ox, 0)(k, l, 0)
         == Pad(x, d)(n, oy * d.stride + k, ox * d.stride + l, c) * w(k, l, c)
  {}

  lemma DwSumIsConv(x: Tensor, w: Filter, d: Dims, n: int, oy: int, ox: int, c: int)
    ensures DwSum(Pad(x, d), w, d, n, oy, ox, c) == DwConv(x, w, d, c)(n, oy, ox, 0)
  {
    hide Pad, Channel, ChannelFilter, Tap, Sum2, Sum3;
    var t := Tap(Pad(Channel(x, c), One(d)), ChannelFilter(w, c), One(d), n, oy, ox, 0);
    forall k, l
      ensures t(k, l, 0) == Pad(x, d)(n, oy * d.stride + k, ox * d.stride + l, c) * w(k, l, c)
    {
      ChannelTap(x, w, d, n, oy, ox, c, k, l);
    }
    Sum2AsSum3(d.kh, d.kw, (k, l) => Pad(x, d)(n, oy * d.stride + k, ox * d.stride + l, c) * w(k, l, c), t);
  }

  /** A depthwise filter that is 1 at tap (k, l) copies the image, channel by channel. */
  lemma DwDeltaResponse(x: Tensor, w: Filter, d: Dims, n: int, oy: int, ox: int, c: int, k: nat, l: nat)
    requires k < d.kh && l < d.kw
    requires forall k', l' :: w(k', l', c) == if k' == k && l' == l then 1.0 else 0.0
    ensures var i, j := oy * d.stride + k - d.pad, ox * d.stride + l - d.pad;
            DwOutput(x, w, d)(n, oy, ox, c) == (if 0 <= i < d.h && 0 <= j < d.w then x(n, i, j, c) else 0.0)
  {
    hide Sum3, Pad;
    var one, xc := One(d), Channel(x, c);
    var t := Tap(Pad(xc, one), ChannelFilter(w, c), one, n, oy, ox, 0);
    DwOutputIs(x, w, d, n, oy, ox, c);
    Single3(d.kh, d.kw, 1, t, k, l, 0);
    assert t(k, l, 0) == Pad(xc, one)(n, oy * d.stride + k, ox * d.stride + l, 0) * 1.0;
    PadAt(xc, one, n, oy * d.stride + k, ox * d.stride + l, 0);
  }

  lemma DwOutputIs(x: Tensor, w: Filter, d: Dims, n: int, oy: int, ox: int, c: int)
    ensures DwOutput(x, w, d)(n, oy, ox, c)
         == Sum3(d.kh, d.kw, 1, Tap(Pad(Channel(x, c), One(d)), ChannelFilter(w, c), One(d), n, oy, ox, 0))
  {
    assert DwOutput(x, w, d)(n, oy, ox, c) == DwConv(x, w, d, c)(n, oy, ox, 0);
  }

  function SetDwPosition(out: Tensor, xp: Tensor, w: Filter, d: Dims, oy: int, ox: int): Tensor
  {
    (n, y, x, c) => if y == oy && x == ox then DwSum(xp, w, d, n, oy, ox, c) else out(n, y, x, c)
  }

  method DepthwiseForward(x: Tensor, w: Filter, b: Vector, d: Dims) returns (out: Tensor)
    requires d.Ok()
    ensures forall n, oy, ox, c | 0 <= oy < d.OutH() && 0 <= ox < d.OutW() ::
      out(n, oy, ox, c) == DwOutput(x, w, d)(n, oy, ox, c) + b(c)
  {
    hide DwSum, DwConv, Pad;
    var xp := Pad(x, d);
    out := ZEROS;
    for oy := 0 to d.OutH()
      invariant forall n, y, x, c | 0 <= y < oy && 0 <= x < d.OutW() :: out(n, y, x, c) == DwSum(xp, w, d, n, y, x, c)
    {
      for ox := 0 to d.OutW()
        invariant forall n, y, x, c | 0 <= y <= oy && 0 <= x < d.OutW() && (y < oy || x < ox) ::
          out(n, y, x, c) == DwSum(xp, w, d, n, y, x, c)
      {
        out := SetDwPosition(out, xp, w, d, oy, ox);
      }
    }
    forall n, y, z, c
      ensures DwSum(xp, w, d, n, y, z, c) == DwConv(x, w, d, c)(n, y, z, 0)
    {
      DwSumIsConv(x, w, d, n, y, z, c);
    }
    out := AddBias(out, b);
  }

  /** `dw += einsum('nc,nklc->klc', d, region)`. */
  function AddDwWeightGrad(dw: Filter, dout: Tensor, xp: Tensor, d: Dims, oy: int, ox: int): Filter
  {
    (k, l, c) => dw(k, l, c) + Sum(d.n, n => dout(n, oy, ox, c) * xp(n, oy * d.stride + k, ox * d.stride + l, c))
  }

  /** `dxp[:, window, :] += einsum('nc,klc->nklc', d, w)`. */
  function AddDwInputGrad(dxp: Tensor, dout: Tensor, w: Filter, d: Dims, oy: int, ox: int): Tensor
  {
    (n, i, j, c) => dxp(n, i, j, c) +
      if InWindow(d, oy, ox, i, j) then dout(n, oy, ox, c) * w(i - oy * d.stride, j - ox * d.stride, c) else 0.0
  }

  /** The contributions to channel c's gradients are those of its single-channel convolution. */
  function DwWeightTerm(dout: Tensor, x: Tensor, d: Dims, k: int, l: int, c: int): Term
  {
    WeightTerm(Channel(dout, c), Pad(Channel(x, c), One(d)), One(d), 0, k, l, 0)
  }

  function DwInputTerm(dout: Tensor, w: Filter, d: Dims, n: int, i: int, j: int, c: int): Term
  {
    InputTerm(Channel(dout, c), ChannelFilter(w, c), One(d), n, i, j, 0)
  }

  method DepthwiseBackward(dout: Tensor, x: Tensor, w: Filter, d: Dims) returns (dx: Tensor, dw: Filter, db: Vector)
    requires d.Ok()
    ensures forall n, y, z, c :: dx(n, y, z, c) == DwInputGrads(dout, w, d)(n, y, z, c)
    ensures forall k, l, c :: dw(k, l, c) == DwWeightGrads(dout, x, d)(k, l, c)
    ensures db == BiasGrad(dout, d)
  {
    hide InWindow, Pad, DwWeightTerm, DwInputTerm, Third, Second, First, Sum, AddDwWeightGrad, AddDwInputGrad;
    var xp := Pad(x, d);
    var dxp := ZEROS;
    dw := (k, l, c) => 0.0;
    db := BiasGrad(dout, d);
    ghost var oh, ow := d.OutH(), d.OutW();
    NothingSummed();
    for oy := 0 to d.OutH()
      invariant forall k, l, c :: dw(k, l, c) == Sum(oy, First(ow, d.n, DwWeightTerm(dout, x, d, k, l, c)))
      invariant forall n, i, j, c :: dxp(n, i, j, c) == Sum(oy, First(ow, 1, DwInputTerm(dout, w, d, n, i, j, c)))
    {
      for ox := 0 to d.OutW()
        invariant forall k, l, c ::
          dw(k, l, c) == Sum(oy, First(ow, d.n, DwWeightTerm(dout, x, d, k, l, c)))
                         + Sum(ox, Second(d.n, DwWeightTerm(dout, x, d, k, l, c), oy))
        invariant forall n, i, j, c ::
          dxp(n, i, j, c) == Sum(oy, First(ow, 1, DwInputTerm(dout, w, d, n, i, j, c)))
                             + Sum(ox, Second(1, DwInputTerm(dout, w, d, n, i, j, c), oy))
      {
        DwWeightStep(dw, dout, x, d, oy, ox);
        DwInputStep(dxp, dout, w, d, oy, ox);
        dw := AddDwWeightGrad(dw, dout, xp, d, oy, ox);
        dxp := AddDwInputGrad(dxp, dout, w, d, oy, ox);
      }
      RowSummed(ow, oy);
    }
    dx := Crop(dxp, d);
    DwGradsAre(dout, x, w, d);
    CropChannels(dxp, dout, w, d);
  }

  lemma CropChannels(dxp: Tensor, dout: Tensor, w: Filter, d: Dims)
    requires d.Ok()
    requires forall n, i, j, c ::
      dxp(n, i, j, c) == InputGrads(Channel(dout, c), ChannelFilter(w, c), One(d))(n, i, j, 0)
    ensures forall n, y, z, c :: Crop(dxp, d)(n, y, z, c) == DwInputGrads(dout, w, d)(n, y, z, c)
  {
    hide InputGrads, Channel, ChannelFilter;
    forall n, y, z, c
      ensures Crop(dxp, d)(n, y, z, c) == DwInputGrads(dout, w, d)(n, y, z, c)
    {
      var g := InputGrads(Channel(dout, c), ChannelFilter(w, c), One(d));
      assert Crop(dxp, d)(n, y, z, c) == dxp(n, y + d.pad, z + d.pad, c) == g(n, y + d.pad, z + d.pad, 0);
      assert Crop(g, One(d))(n, y, z, 0) == g(n, y + d.pad, z + d.pad, 0);
      assert DwInputGrads(dout, w, d)(n, y, z, c) == Crop(g, One(d))(n, y, z, 0);
    }
  }

  lemma DwGradsAre(dout: Tensor, x: Tensor, w: Filter, d: Dims)
    requires d.Ok()
    ensures forall k, l, c ::
      WeightGrads(Channel(dout, c), Pad(Channel(x, c), One(d)), One(d))(0, k, l, 0)
      == Sum(d.OutH(), First(d.OutW(), d.n, DwWeightTerm(dout, x, d, k, l, c)))
    ensures forall n, i, j, c ::
      InputGrads(Channel(dout, c), ChannelFilter(w, c), One(d))(n, i, j, 0)
      == Sum(d.OutH(), First(d.OutW(), 1, DwInputTerm(dout, w, d, n, i, j, c)))
  {}

  lemma DwWeightStep(dw: Filter, dout: Tensor, x: Tensor, d: Dims, oy: nat, ox: nat)
    ensures forall k, l, c ::
      AddDwWeightGrad(dw, dout, Pad(x, d), d, oy, ox)(k, l, c)
      == dw(k, l, c) + (Sum(ox + 1, Second(d.n, DwWeightTerm(dout, x, d, k, l, c), oy))
                        - Sum(ox, Second(d.n, DwWeightTerm(dout, x, d, k, l, c), oy)))
  {
    var xp := Pad(x, d);
    forall k, l, c
      ensures AddDwWeightGrad(dw, dout, xp, d, oy, ox)(k, l, c)
           == dw(k, l, c) + Second(d.n, DwWeightTerm(dout, x, d, k, l, c), oy)(ox)
    {
      SumCong(d.n, n => dout(n, oy, ox, c) * xp(n, oy * d.stride + k, ox * d.stride + l, c),
                   Third(DwWeightTerm(dout, x, d, k, l, c), oy, ox));
    }
  }

  lemma DwInputStep(dxp: Tensor, dout: Tensor, w: Filter, d: Dims, oy: nat, ox: nat)
    ensures forall n, i, j, c ::
      AddDwInputGrad(dxp, dout, w, d, oy, ox)(n, i, j, c)
      == dxp(n, i, j, c) + (Sum(ox + 1, Second(1, DwInputTerm(dout, w, d, n, i, j, c), oy))
                            - Sum(ox, Second(1, DwInputTerm(dout, w, d, n, i, j, c), oy)))
  {
    forall n, i, j, c
      ensures AddDwInputGrad(dxp, dout, w, d, oy, ox)(n, i, j, c)
           == dxp(n, i, j, c) + Second(1, DwInputTerm(dout, w, d, n, i, j, c), oy)(ox)
    {
      SumStep(0, Third(DwInputTerm(dout, w, d, n, i, j, c), oy, ox));
      assert InWindow(One(d), oy, ox, i, j) == InWindow(d, oy, ox, i, j);
    }
  }

  /** Channel by channel, the depthwise gradients are adjoint to the depthwise outputs. */
  lemma ChannelAdjoint(dout: Tensor, x: Tensor, w: Filter, d: Dims, c: int)
    requires d.Ok()
    ensures Dot(Channel(DwInputGrads(dout, w, d), c), Channel(x, c), d.n, d.h, d.w, 1)
         == Dot(Channel(dout, c), Channel(DwOutput(x, w, d), c), d.n, d.OutH(), d.OutW(), 1)
    ensures Dot(Channel(Repeated(DwWeightGrads(dout, x, d)), c), Channel(Repeated(w), c), 1, d.kh, d.kw, 1)
         == Dot(Channel(dout, c), Channel(DwOutput(x, w, d), c), d.n, d.OutH(), d.OutW(), 1)
  {
    hide Dot, Conv, Pad, Crop, InputGrads, WeightGrads;
    var one, dc, xc, wc := One(d), Channel(dout, c), Channel(x, c), ChannelFilter(w, c);
    InputAdjoint(dc, xc, wc, one);
    WeightAdjoint(dc, xc, wc, one);
    SameFirstChannel(dc, Channel(DwOutput(x, w, d), c), dc, DwConv(x, w, d, c), d.n, d.OutH(), d.OutW());
    SameFirstChannel(Channel(DwInputGrads(dout, w, d), c), xc, Crop(InputGrads(dc, wc, one), one), xc, d.n, d.h, d.w);
    SameFirstChannel(Channel(Repeated(DwWeightGrads(dout, x, d)), c), Channel(Repeated(w), c),
                     WeightGrads(dc, Pad(xc, one), one), wc, 1, d.kh, d.kw);
  }

  lemma SameFirstChannel(a: Tensor, b: Tensor, a': Tensor, b': Tensor, m: nat, p: nat, q: nat)
    requires forall n, i, j | 0 <= n < m :: a(n, i, j, 0) == a'(n, i, j, 0) && b(n, i, j, 0) == b'(n, i, j, 0)
    ensures Dot(a, b, m, p, q, 1) == Dot(a', b', m, p, q, 1)
  {
    hide Sum3;
    forall n | 0 <= n < m
      ensures PlaneDots(a, b, p, q, 1)(n) == PlaneDots(a', b', p, q, 1)(n)
    {
      Cong3(p, q, 1, Plane(a, b, n), Plane(a', b', n));
    }
    SumCong(m, PlaneDots(a, b, p, q, 1), PlaneDots(a', b', p, q, 1));
  }

  function ChannelDots(a: Tensor, b: Tensor, m: nat, p: nat, q: nat): int -> real
  {
    c => Dot(Channel(a, c), Channel(b, c), m, p, q, 1)
  }

  /** An inner product may be taken one channel at a time. */
  lemma ByChannel(a: Tensor, b: Tensor, m: nat, p: nat, q: nat, r: nat)
    ensures Dot(a, b, m, p, q, r) == Sum(r, ChannelDots(a, b, m, p, q))
  {
    hide Dot, Sum3;
    ImagesOrFilters(a, b, m, p, q, r);
    forall c | 0 <= c < r
      ensures FilterDots(a, b, p, q, m)(c) == ChannelDots(a, b, m, p, q)(c)
    {
      var a', b' := Channel(a, c), Channel(b, c);
      ImagesOrFilters(a', b', m, p, q, 1);
      SumStep(0, FilterDots(a', b', p, q, m));
      Cong3(p, q, m, FilterPlane(a, b, c), FilterPlane(a', b', 0));
    }
    SumCong(r, FilterDots(a, b, p, q, m), ChannelDots(a, b, m, p, q));
  }

  /** With zero bias, <dout, depthwise(x, w)> = <dx, x> = <dw, w> over all images and channels. */
  lemma DepthwiseAdjoint(dout: Tensor, x: Tensor, w: Filter, d: Dims)
    requires d.Ok()
    ensures Dot(DwInputGrads(dout, w, d), x, d.n, d.h, d.w, d.ic)
         == Dot(dout, DwOutput(x, w, d), d.n, d.OutH(), d.OutW(), d.ic)
    ensures Dot(Repeated(DwWeightGrads(dout, x, d)), Repeated(w), 1, d.kh, d.kw, d.ic)
         == Dot(dout, DwOutput(x, w, d), d.n, d.OutH(), d.OutW(), d.ic)
  {
    hide Dot, DwInputGrads, DwOutput, DwWeightGrads, Repeated;
    var dx, out := DwInputGrads(dout, w, d), DwOutput(x, w, d);
    var dw, ww := Repeated(DwWeightGrads(dout, x, d)), Repeated(w);
    ByChannel(dx, x, d.n, d.h, d.w, d.ic);
    ByChannel(dw, ww, 1, d.kh, d.kw, d.ic);
    ByChannel(dout, out, d.n, d.OutH(), d.OutW(), d.ic);
    forall c | 0 <= c < d.ic
      ensures ChannelDots(dx, x, d.n, d.h, d.w)(c) == ChannelDots(dout, out, d.n, d.OutH(), d.OutW())(c)
           == ChannelDots(dw, ww, 1, d.kh, d.kw)(c)
    {
      ChannelAdjoint(dout, x, w, d, c);
    }
    SumCong(d.ic, ChannelDots(dx, x, d.n, d.h, d.w), ChannelDots(dout, out, d.n, d.OutH(), d.OutW()));
    SumCong(d.ic, ChannelDots(dw, ww, 1, d.kh, d.kw), ChannelDots(dout, out, d.n, d.OutH(), d.OutW()));
  }

  // ----- dense layer -----

  function DenseForward(x: Matrix, w: Matrix, b: Vector, m: nat): Matrix
  {
    (n, o) => Sum(m, i => x(n, i) * w(o, i)) + b(o)
  }

  function DenseInputGrad(dout: Matrix, w: Matrix, k: nat): Matrix
  {
    (n, i) => Sum(k, o => dout(n, o) * w(o, i))
  }

  function DenseWeightGrad(dout: Matrix, x: Matrix, n: nat): Matrix
  {
    (o, i) => Sum(n, m => dout(m, o) * x(m, i))
  }

  /** `dout.sum(axis=0)`. */
  function DenseBiasGrad(dout: Matrix, n: nat): Vector
  {
    o => Sum(n, i => dout(i, o))
  }

  /** A weight row that is 1 at input i passes that input on, plus the bias. */
  lemma DenseDeltaResponse(x: Matrix, w: Matrix, b: Vector, m: nat, n: int, o: int, i: nat)
    requires i < m && forall j :: w(o, j) == if j == i then 1.0 else 0.0
    ensures DenseForward(x, w, b, m)(n, o) == x(n, i) + b(o)
  {
    var f := j => x(n, j) * w(o, j);
    SumSingle(m, f, i);
    SumCong(m, j => x(n, j) * w(o, j), f);
  }

  function RowDots(a: Matrix, b: Matrix, c: nat): int -> real
  {
    i => Sum(c, j => a(i, j) * b(i, j))
  }

  function Dot2(a: Matrix, b: Matrix, r: nat, c: nat): real
  {
    Sum(r, RowDots(a, b, c))
  }

  /** A triple product summed over its three indices in two orders. */
  lemma Triple(p: nat, q: nat, r: nat, a: Matrix, b: Matrix, c: Matrix, left: Matrix, right: Matrix)
    requires forall i, k :: left(i, k) == Sum(q, j => a(i, j) * b(j, k))
    requires forall i, j :: right(i, j) == Sum(r, k => c(i, k) * b(j, k))
    ensures Dot2(left, c, p, r) == Dot2(a, right, p, q)
  {
    forall i | 0 <= i < p
      ensures RowDots(left, c, r)(i) == RowDots(a, right, q)(i)
    {
      var f := (j: int, k: int) => a(i, j) * (c(i, k) * b(j, k));
      var rows, cols := j => a(i, j) * right(i, j), k => left(i, k) * c(i, k);
      forall j | 0 <= j < q
        ensures rows(j) == Sum(r, k => f(j, k))
      {
        SumScale(r, a(i, j), k => c(i, k) * b(j, k), k => f(j, k));
      }
      forall k | 0 <= k < r
        ensures cols(k) == Sum(q, j => f(j, k))
      {
        forall j
          ensures f(j, k) == c(i, k) * (a(i, j) * b(j, k))
        {
          ProductOfThree(a(i, j), c(i, k), b(j, k));
          ProductOfThree(c(i, k), a(i, j), b(j, k));
        }
        SumScale(q, c(i, k), j => a(i, j) * b(j, k), j => f(j, k));
      }
      SumSwap(q, r, f, rows, cols);
      SumCong(q, rows, j => a(i, j) * right(i, j));
      SumCong(r, cols, k => left(i, k) * c(i, k));
    }
    SumCong(p, RowDots(left, c, r), RowDots(a, right, q));
  }

  function Transpose(a: Matrix): Matrix { (i, j) => a(j, i) }

  lemma Dot2Transpose(a: Matrix, b: Matrix, r: nat, c: nat)
    ensures Dot2(a, b, r, c) == Dot2(Transpose(a), Transpose(b), c, r)
  {
    var f := (i: int, j: int) => a(i, j) * b(i, j);
    forall i | 0 <= i < r
      ensures RowDots(a, b, c)(i) == Sum(c, j => f(i, j))
    {
      SumCong(c, j => a(i, j) * b(i, j), j => f(i, j));
    }
    forall j | 0 <= j < c
      ensures RowDots(Transpose(a), Transpose(b), r)(j) == Sum(r, i => f(i, j))
    {
      forall i
        ensures Transpose(a)(j, i) * Transpose(b)(j, i) == f(i, j)
      {
        assert Transpose(a)(j, i) == a(i, j) && Transpose(b)(j, i) == b(i, j);
      }
      SumCong(r, i => Transpose(a)(j, i) * Transpose(b)(j, i), i => f(i, j));
    }
    SumSwap(r, c, f, RowDots(a, b, c), RowDots(Transpose(a), Transpose(b), r));
  }

  /** Summing the gradient over the batch is adjoint to adding the bias to every row. */
  lemma DenseBiasAdjoint(dout: Matrix, b: Vector, n: nat, k: nat)
    ensures Sum(k, o => DenseBiasGrad(dout, n)(o) * b(o)) == Dot2(dout, (i, o) => b(o), n, k)
  {
    var rows: Matrix := (i, o) => b(o);
    var f := (o: int, i: int) => b(o) * dout(i, o);
    var byOutput := o => DenseBiasGrad(dout, n)(o) * b(o);
    forall o | 0 <= o < k
      ensures byOutput(o) == Sum(n, i => f(o, i))
    {
      SumScale(n, b(o), i => dout(i, o), i => f(o, i));
    }
    forall i | 0 <= i < n
      ensures RowDots(dout, rows, k)(i) == Sum(k, o => f(o, i))
    {
      SumCong(k, o => dout(i, o) * rows(i, o), o => f(o, i));
    }
    SumSwap(k, n, f, byOutput, RowDots(dout, rows, k));
    SumCong(k, byOutput, o => DenseBiasGrad(dout, n)(o) * b(o));
    SumCong(n, RowDots(dout, rows, k), RowDots(dout, (i, o) => b(o), k));
  }

  /** The dense gradients of input and weights are adjoint to the dense output without bias. */
  lemma DenseAdjoint(dout: Matrix, x: Matrix, w: Matrix, n: nat, m: nat, k: nat)
    ensures var out := DenseForward(x, w, _ => 0.0, m);
            && Dot2(DenseInputGrad(dout, w, k), x, n, m) == Dot2(dout, out, n, k)
            && Dot2(DenseWeightGrad(dout, x, n), w, k, m) == Dot2(dout, out, n, k)
  {
    hide Dot2;
    var out := DenseForward(x, w, _ => 0.0, m);
    forall i, j
      ensures out(i, j) == Sum(m, l => x(i, l) * w(j, l))
    {}
    Triple(n, k, m, dout, w, x, DenseInputGrad(dout, w, k), out);
    forall i, j
      ensures Transpose(out)(i, j) == Sum(m, l => w(i, l) * x(j, l))
    {
      SumCong(m, l => x(j, l) * w(i, l), l => w(i, l) * x(j, l));
    }
    forall i, l
      ensures DenseWeightGrad(dout, x, n)(i, l) == Sum(n, j => Transpose(dout)(i, j) * x(j, l))
    {
      forall j
        ensures dout(j, i) * x(j, l) == Transpose(dout)(i, j) * x(j, l)
      {
        assert Transpose(dout)(i, j) == dout(j, i);
      }
      SumCong(n, j => dout(j, i) * x(j, l), j => Transpose(dout)(i, j) * x(j, l));
    }
    Triple(k, n, m, Transpose(dout), x, w, DenseWeightGrad(dout, x, n), Transpose(out));
    Dot2Transpose(dout, out, n, k);
  }

  // ----- global average pool -----

  function PoolTerm(x: Tensor, n: int, c: int): Term { (y, z, u) => x(n, y, z, c) }

  function PoolForward(x: Tensor, h: nat, w: nat): Matrix
    requires h >= 1 && w >= 1
  {
    (n, c) => Sum3(h, w, 1, PoolTerm(x, n, c)) / ((h as real) * (w as real))
  }

  function PoolBackward(dout: Matrix, h: nat, w: nat): Tensor
    requires h >= 1 && w >= 1
  {
    (n, y, z, c) => dout(n, c) / ((h as real) * (w as real))
  }

  /** Channel by channel, spreading the gradient evenly is adjoint to averaging. */
  lemma PoolAdjoint(dout: Matrix, x: Tensor, h: nat, w: nat, n: int, c: int)
    requires h >= 1 && w >= 1
    ensures Sum3(h, w, 1, (y, z, u) => PoolBackward(dout, h, w)(n, y, z, c) * x(n, y, z, c))
         == dout(n, c) * PoolForward(x, h, w)(n, c)
  {
    var area := (h as real) * (w as real);
    var f := PoolTerm(x, n, c);
    var g: Term := (y, z, u) => PoolBackward(dout, h, w)(n, y, z, c) * x(n, y, z, c);
    forall y, z, u
      ensures g(y, z, u) == dout(n, c) / area * f(y, z, u)
    {
      assert PoolBackward(dout, h, w)(n, y, z, c) == dout(n, c) / area;
    }
    Scale3(h, w, 1, dout(n, c) / area, f, g);
    Cong3(h, w, 1, g, (y, z, u) => PoolBackward(dout, h, w)(n, y, z, c) * x(n, y, z, c));
    MoveDivision(dout(n, c), Sum3(h, w, 1, f), area);
  }

  /** The average of a constant channel is the constant. */
  lemma PoolConstant(x: Tensor, h: nat, w: nat, n: int, c: int, v: real)
    requires h >= 1 && w >= 1 && forall y, z :: x(n, y, z, c) == v
    ensures PoolForward(x, h, w)(n, c) == v
  {
    var t := PoolTerm(x, n, c);
    forall y, z
      ensures Second(1, t, y)(z) == v
    {
      SumStep(0, Third(t, y, z));
    }
    forall y
      ensures First(w, 1, t)(y) == (w as real) * v
    {
      SumConst(w, Second(1, t, y), v);
    }
    SumConst(h, First(w, 1, t), (w as real) * v);
    CancelArea(h as real, w as real, v);
  }

  lemma {:induction false} SumConst(n: nat, f: int -> real, v: real)
    requires forall i | 0 <= i < n :: f(i) == v
    ensures Sum(n, f) == (n as real) * v
  {
    if n > 0 {
      SumConst(n - 1, f, v);
      SumStep(n - 1, f);
      OneMore(n, v);
    } else {
      assert (n as real) * v == 0.0;
    }
  }

  lemma OneMore(n: nat, v: real)
    requires n > 0
    ensures (n as real) * v == ((n - 1) as real) * v + v
  {
    var m := (n - 1) as real;
    assert n as real == m + 1.0;
    assert (m + 1.0) * v == m * v + v;
  }

  lemma CancelArea(h: real, w: real, v: real)
    requires h > 0.0 && w > 0.0
    ensures h * (w * v) / (h * w) == v
  {
    var area := h * w;
    assert area > 0.0;
    assert h * (w * v) == v * area;
    DivideBack(v, area);
  }

  lemma DivideBack(v: real, area: real)
    requires area > 0.0
    ensures v * area / area == v
  {}

  lemma MoveDivision(a: real, s: real, area: real)
    requires area != 0.0
    ensures (a / area) * s == a * (s / area)
  {}
}
