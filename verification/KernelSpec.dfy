/** What each layer computes, on nested tensors and unbounded integers: the definitions that both
    kws-framework/kwslib/kernels.py and firmware/core/src/nn/kernels.c are proved against. */
module KernelSpec {
  import opened Tensors
  import PyQuant

  datatype Bias = NoBias | Bias(values: seq<int>)

  /** Requantization to int8 with the zero point and clamp of one layer. */
  datatype Output = Output(zp: int, lo: int, hi: int)

  /** A 2-d convolution with weights [oc][kh][kw][ic] and per-channel requantization. */
  datatype Conv = Conv(wt: T4, bias: Bias, oc: nat, kh: nat, kw: nat, sh: nat, sw: nat, ph: nat, pw: nat,
                       inZp: int, mult: seq<int>, shift: seq<int>, out: Output)

  /** A depthwise convolution with weights [kh][kw][c]. */
  datatype Depthwise = Depthwise(wt: T3, bias: Bias, kh: nat, kw: nat, sh: nat, sw: nat, ph: nat, pw: nat,
                                 inZp: int, mult: seq<int>, shift: seq<int>, out: Output)

  function Get(s: seq<int>, i: int): int { if 0 <= i < |s| then s[i] else 0 }
  function BiasAt(b: Bias, i: int): int { if b.NoBias? then 0 else Get(b.values, i) }

  /** Entry of a tensor, 0 outside its shape. */
  function At3(t: T3, y: int, x: int, c: int): int
  {
    if 0 <= y < |t| && 0 <= x < |t[y]| then Get(t[y][x], c) else 0
  }

  function At4(t: T4, o: int, y: int, x: int, c: int): int
  {
    if 0 <= o < |t| then At3(t[o], y, x, c) else 0
  }

  /** Entry of a feature map padded with the zero point. */
  function Padded(t: T3, h: nat, w: nat, y: int, x: int, c: int, zp: int): int
  {
    if 0 <= y < h && 0 <= x < w then At3(t, y, x, c) else zp
  }

  function OutSize(n: nat, pad: nat, k: nat, stride: nat): int
    requires stride >= 1
  {
    (n + 2 * pad - k) / stride + 1
  }

  /** One output position of a convolution over a feature map. */
  datatype Site = Site(l: Conv, inp: T3, h: nat, w: nat, ic: nat, y: int, x: int, o: int)

  function ConvTap(s: Site, fy: int, fx: int): int -> int
  {
    c => (Padded(s.inp, s.h, s.w, s.y * s.l.sh - s.l.ph + fy, s.x * s.l.sw - s.l.pw + fx, c, s.l.inZp) - s.l.inZp)
         * At4(s.l.wt, s.o, fy, fx, c)
  }

  function ConvRowSum(s: Site, fy: int): int -> int
  {
    fx => Sum(s.ic, ConvTap(s, fy, fx))
  }

  function ConvPlaneSum(s: Site): int -> int
  {
    fy => Sum(s.l.kw, ConvRowSum(s, fy))
  }

  lemma ConvSums(s: Site, fy: int, fx: int)
    ensures ConvRowSum(s, fy)(fx) == Sum(s.ic, ConvTap(s, fy, fx))
    ensures ConvPlaneSum(s)(fy) == Sum(s.l.kw, ConvRowSum(s, fy))
  {}

  function ConvAcc(s: Site): int
  {
    BiasAt(s.l.bias, s.o) + Sum(s.l.kh, ConvPlaneSum(s))
  }

  function ConvCell(s: Site): int
  {
    PyQuant.Requantize(ConvAcc(s), Get(s.l.mult, s.o), Get(s.l.shift, s.o), s.l.out.zp, s.l.out.lo, s.l.out.hi)
  }

  function ConvPixel(l: Conv, inp: T3, h: nat, w: nat, ic: nat, y: int, x: int): seq<int>
  {
    seq(l.oc, o => ConvCell(Site(l, inp, h, w, ic, y, x, o)))
  }

  function ConvRow(l: Conv, inp: T3, h: nat, w: nat, ic: nat, ow: nat, y: int): T2
  {
    seq(ow, x => ConvPixel(l, inp, h, w, ic, y, x))
  }

  /** The convolution of an h x w x ic map, as an oh x ow x oc map. */
  function ConvRef(l: Conv, inp: T3, h: nat, w: nat, ic: nat, oh: nat, ow: nat): T3
  {
    seq(oh, y => ConvRow(l, inp, h, w, ic, ow, y))
  }

  datatype DwSite = DwSite(l: Depthwise, inp: T3, h: nat, w: nat, y: int, x: int, c: int)

  function DwTap(s: DwSite, fy: int): int -> int
  {
    fx => (Padded(s.inp, s.h, s.w, s.y * s.l.sh - s.l.ph + fy, s.x * s.l.sw - s.l.pw + fx, s.c, s.l.inZp) - s.l.inZp)
          * At3(s.l.wt, fy, fx, s.c)
  }

  function DwRowSum(s: DwSite): int -> int
  {
    fy => Sum(s.l.kw, DwTap(s, fy))
  }

  function DwAcc(s: DwSite): int
  {
    BiasAt(s.l.bias, s.c) + Sum(s.l.kh, DwRowSum(s))
  }

  function DwCell(s: DwSite): int
  {
    PyQuant.Requantize(DwAcc(s), Get(s.l.mult, s.c), Get(s.l.shift, s.c), s.l.out.zp, s.l.out.lo, s.l.out.hi)
  }

  function DwPixel(l: Depthwise, inp: T3, h: nat, w: nat, c: nat, y: int, x: int): seq<int>
  {
    seq(c, k => DwCell(DwSite(l, inp, h, w, y, x, k)))
  }

  function DwRow(l: Depthwise, inp: T3, h: nat, w: nat, c: nat, ow: nat, y: int): T2
  {
    seq(ow, x => DwPixel(l, inp, h, w, c, y, x))
  }

  function DwRef(l: Depthwise, inp: T3, h: nat, w: nat, c: nat, oh: nat, ow: nat): T3
  {
    seq(oh, y => DwRow(l, inp, h, w, c, ow, y))
  }

  // ----- global average pool and fully connected -----

  function PoolTap(inp: T3, zp: int, c: int, y: int): int -> int
  {
    x => At3(inp, y, x, c) - zp
  }

  function PoolRowSum(inp: T3, w: nat, zp: int, c: int): int -> int
  {
    y => Sum(w, PoolTap(inp, zp, c, y))
  }

  function PoolAcc(inp: T3, h: nat, w: nat, zp: int, c: int): int
  {
    Sum(h, PoolRowSum(inp, w, zp, c))
  }

  function PoolRef(inp: T3, h: nat, w: nat, c: nat, zp: int, mult: int, shift: int, out: Output): seq<int>
  {
    seq(c, k => PyQuant.Requantize(PoolAcc(inp, h, w, zp, k), mult, shift, out.zp, out.lo, out.hi))
  }

  datatype Dense = Dense(wt: T2, bias: Bias, n: nat, m: nat, inZp: int, mult: int, shift: int, out: Output)

  function DenseTap(l: Dense, inp: seq<int>, o: int): int -> int
  {
    i => (Get(inp, i) - l.inZp) * (if 0 <= o < |l.wt| then Get(l.wt[o], i) else 0)
  }

  function DenseAcc(l: Dense, inp: seq<int>, o: int): int
  {
    BiasAt(l.bias, o) + Sum(l.m, DenseTap(l, inp, o))
  }

  function DenseRef(l: Dense, inp: seq<int>): seq<int>
  {
    seq(l.n, o => PyQuant.Requantize(DenseAcc(l, inp, o), l.mult, l.shift, l.out.zp, l.out.lo, l.out.hi))
  }

  // ----- shapes -----

  lemma InShape3(t: T3, h: nat, w: nat, c: nat, y: int, x: int, k: int)
    requires Shape3(t, h, w, c) && 0 <= y < h && 0 <= x < w && 0 <= k < c
    ensures y < |t| && x < |t[y]| && k < |t[y][x]| && At3(t, y, x, k) == t[y][x][k]
  {
    assert Rows(t[y], w, c);
  }

  lemma InShape4(t: T4, o: nat, h: nat, w: nat, c: nat, n: int, y: int, x: int, k: int)
    requires Shape4(t, o, h, w, c) && 0 <= n < o && 0 <= y < h && 0 <= x < w && 0 <= k < c
    ensures n < |t| && y < |t[n]| && x < |t[n][y]| && k < |t[n][y][x]| && At4(t, n, y, x, k) == t[n][y][x][k]
  {
    InShape3(t[n], h, w, c, y, x, k);
  }

  lemma ConvShape(l: Conv, inp: T3, h: nat, w: nat, ic: nat, oh: nat, ow: nat)
    ensures Shape3(ConvRef(l, inp, h, w, ic, oh, ow), oh, ow, l.oc)
  {}

  lemma DwShape(l: Depthwise, inp: T3, h: nat, w: nat, c: nat, oh: nat, ow: nat)
    ensures Shape3(DwRef(l, inp, h, w, c, oh, ow), oh, ow, c)
  {}
}
