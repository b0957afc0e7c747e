/** What the reference layers of KernelSpec.dfy mean, said without them: how many positions they
    have, which input each weight reads, and what a silent input gives. */
module KernelMeaning {
  import opened Bits
  import opened Tensors
  import opened KernelSpec
  import PyQuant
  import Q = Quant

  /** A map has exactly the positions at which the filter fits the padded input. */
  lemma PositionsExact(n: nat, pad: nat, k: nat, stride: nat, i: nat)
    requires stride >= 1
    ensures i < OutSize(n, pad, k, stride) <==> i * stride + k <= n + 2 * pad
  {
    StepsFit(i, stride, n + 2 * pad - k);
  }

  /** Without weights the accumulator is the bias. */
  lemma ConvBiasOnly(s: Site)
    requires forall k, l, c :: At4(s.l.wt, s.o, k, l, c) == 0
    ensures ConvAcc(s) == BiasAt(s.l.bias, s.o)
  {
    hide At4, Padded;
    forall k, l
      ensures ConvRowSum(s, k)(l) == 0
    {
      SumZero(s.ic, ConvTap(s, k, l));
    }
    forall k
      ensures ConvPlaneSum(s)(k) == 0
    {
      SumZero(s.l.kw, ConvRowSum(s, k));
    }
    SumZero(s.l.kh, ConvPlaneSum(s));
  }

  /** A filter that is 1 at tap (k, l, c) adds to the bias the input at row y * sh - ph + k and column
      x * sw - pw + l less the zero point, and nothing in the padding. */
  lemma ConvDelta(s: Site, k: nat, l: nat, c: nat)
    requires k < s.l.kh && l < s.l.kw && c < s.ic
    requires forall k', l', c' :: At4(s.l.wt, s.o, k', l', c') == if k' == k && l' == l && c' == c then 1 else 0
    ensures var i, j := s.y * s.l.sh - s.l.ph + k, s.x * s.l.sw - s.l.pw + l;
            ConvAcc(s) == BiasAt(s.l.bias, s.o)
                          + if 0 <= i < s.h && 0 <= j < s.w then At3(s.inp, i, j, c) - s.l.inZp else 0
  {
    hide At4, At3;
    forall k', l' | !(k' == k && l' == l)
      ensures ConvRowSum(s, k')(l') == 0
    {
      SumZero(s.ic, ConvTap(s, k', l'));
    }
    forall k' | k' != k
      ensures ConvPlaneSum(s)(k') == 0
    {
      SumZero(s.l.kw, ConvRowSum(s, k'));
    }
    SumSingle(s.ic, ConvTap(s, k, l), c);
    SumSingle(s.l.kw, ConvRowSum(s, k), l);
    SumSingle(s.l.kh, ConvPlaneSum(s), k);
  }

  /** The same for one channel of a depthwise filter. */
  lemma DwDelta(s: DwSite, k: nat, l: nat)
    requires k < s.l.kh && l < s.l.kw
    requires forall k', l' :: At3(s.l.wt, k', l', s.c) == if k' == k && l' == l then 1 else 0
    ensures var i, j := s.y * s.l.sh - s.l.ph + k, s.x * s.l.sw - s.l.pw + l;
            DwAcc(s) == BiasAt(s.l.bias, s.c)
                        + if 0 <= i < s.h && 0 <= j < s.w then At3(s.inp, i, j, s.c) - s.l.inZp else 0
  {
    hide At3;
    forall k' | k' != k
      ensures DwRowSum(s)(k') == 0
    {
      SumZero(s.l.kw, DwTap(s, k'));
    }
    SumSingle(s.l.kw, DwTap(s, k), l);
    SumSingle(s.l.kh, DwRowSum(s), k);
  }

  /** A dense row that is 1 at input i adds that input less the zero point to the bias. */
  lemma DenseDelta(l: Dense, inp: seq<int>, o: nat, i: nat)
    requires i < l.m && l.m == |inp| && o < |l.wt|
    requires forall j :: Get(l.wt[o], j) == if j == i then 1 else 0
    ensures DenseAcc(l, inp, o) == BiasAt(l.bias, o) + inp[i] - l.inZp
  {
    hide Get;
    assert Get(inp, i) == inp[i] by { InRange(inp, i); }
    SumSingle(l.m, DenseTap(l, inp, o), i);
  }

  lemma InRange(s: seq<int>, i: nat)
    requires i < |s|
    ensures Get(s, i) == s[i]
  {}

  /** Pooling sums every position of a channel: one position that differs from the zero point by v
      contributes v. */
  lemma PoolDelta(inp: T3, h: nat, w: nat, zp: int, c: nat, y: nat, x: nat, v: int)
    requires y < h && x < w
    requires forall y', x' | 0 <= y' < h && 0 <= x' < w ::
      At3(inp, y', x', c) == zp + if y' == y && x' == x then v else 0
    ensures PoolAcc(inp, h, w, zp, c) == v
  {
    hide At3;
    forall y' | 0 <= y' < h && y' != y
      ensures PoolRowSum(inp, w, zp, c)(y') == 0
    {
      SumZero(w, PoolTap(inp, zp, c, y'));
    }
    SumSingle(w, PoolTap(inp, zp, c, y), x);
    SumSingle(h, PoolRowSum(inp, w, zp, c), y);
  }

  // ----- silence -----

  /** A zero accumulator gives the zero point, if the clamp admits it. */
  lemma ZeroGivesZeroPoint(qm: int, shift: int, zp: int, lo: int, hi: int)
    requires lo <= zp <= hi
    ensures PyQuant.Requantize(0, qm, shift, zp, lo, hi) == zp
  {
    hide PyQuant.MultiplyByQuantizedMultiplier;
    PyQuant.MultiplyZero(qm, shift);
  }

  /** Every entry of an h x w x c map is zp. */
  ghost predicate Silent(t: T3, h: nat, w: nat, c: nat, zp: int)
  {
    forall y, x, k | 0 <= y < h && 0 <= x < w && 0 <= k < c :: At3(t, y, x, k) == zp
  }

  /** On a silent map, a layer without bias is silent whatever its weights, padding included. */
  lemma SilentConv(l: Conv, inp: T3, h: nat, w: nat, ic: nat, oh: nat, ow: nat)
    requires Silent(inp, h, w, ic, l.inZp) && l.bias.NoBias? && l.out.lo <= l.out.zp <= l.out.hi
    ensures Silent(ConvRef(l, inp, h, w, ic, oh, ow), oh, ow, l.oc, l.out.zp)
  {
    hide At3, ConvRef, ConvAcc, PyQuant.Requantize;
    var out := ConvRef(l, inp, h, w, ic, oh, ow);
    forall y, x, o | 0 <= y < oh && 0 <= x < ow && 0 <= o < l.oc
      ensures At3(out, y, x, o) == l.out.zp
    {
      SilentAcc(Site(l, inp, h, w, ic, y, x, o));
      ZeroGivesZeroPoint(Get(l.mult, o), Get(l.shift, o), l.out.zp, l.out.lo, l.out.hi);
      ConvEntry(l, inp, h, w, ic, oh, ow, y, x, o);
    }
  }

  lemma SilentAcc(s: Site)
    requires Silent(s.inp, s.h, s.w, s.ic, s.l.inZp) && s.l.bias.NoBias?
    ensures ConvAcc(s) == 0
  {
    hide At4, At3;
    forall k, l
      ensures ConvRowSum(s, k)(l) == 0
    {
      forall c | 0 <= c < s.ic
        ensures ConvTap(s, k, l)(c) == 0
      {
        SilentTap(s, k, l, c);
      }
      SumZero(s.ic, ConvTap(s, k, l));
    }
    forall k
      ensures ConvPlaneSum(s)(k) == 0
    {
      SumZero(s.l.kw, ConvRowSum(s, k));
    }
    SumZero(s.l.kh, ConvPlaneSum(s));
  }

  lemma SilentTap(s: Site, k: int, l: int, c: int)
    requires Silent(s.inp, s.h, s.w, s.ic, s.l.inZp) && 0 <= c < s.ic
    ensures ConvTap(s, k, l)(c) == 0
  {
    hide At4, At3;
    var y, x := s.y * s.l.sh - s.l.ph + k, s.x * s.l.sw - s.l.pw + l;
    assert Padded(s.inp, s.h, s.w, y, x, c, s.l.inZp) == s.l.inZp;
  }

  lemma SilentDwTap(s: DwSite, c: nat, k: int, l: int)
    requires Silent(s.inp, s.h, s.w, c, s.l.inZp) && 0 <= s.c < c
    ensures DwTap(s, k)(l) == 0
  {
    hide At3;
    var y, x := s.y * s.l.sh - s.l.ph + k, s.x * s.l.sw - s.l.pw + l;
    assert Padded(s.inp, s.h, s.w, y, x, s.c, s.l.inZp) == s.l.inZp;
    assert DwTap(s, k)(l) == (s.l.inZp - s.l.inZp) * At3(s.l.wt, k, l, s.c);
  }

  lemma SilentDw(l: Depthwise, inp: T3, h: nat, w: nat, c: nat, oh: nat, ow: nat)
    requires Silent(inp, h, w, c, l.inZp) && l.bias.NoBias? && l.out.lo <= l.out.zp <= l.out.hi
    ensures Silent(DwRef(l, inp, h, w, c, oh, ow), oh, ow, c, l.out.zp)
  {
    hide At3, DwRef, DwAcc, PyQuant.Requantize;
    var out := DwRef(l, inp, h, w, c, oh, ow);
    forall y, x, k | 0 <= y < oh && 0 <= x < ow && 0 <= k < c
      ensures At3(out, y, x, k) == l.out.zp
    {
      SilentDwAcc(DwSite(l, inp, h, w, y, x, k), c);
      ZeroGivesZeroPoint(Get(l.mult, k), Get(l.shift, k), l.out.zp, l.out.lo, l.out.hi);
      DwEntry(l, inp, h, w, c, oh, ow, y, x, k);
    }
  }

  lemma SilentDwAcc(s: DwSite, c: nat)
    requires Silent(s.inp, s.h, s.w, c, s.l.inZp) && 0 <= s.c < c && s.l.bias.NoBias?
    ensures DwAcc(s) == 0
  {
    hide At3;
    forall k
      ensures DwRowSum(s)(k) == 0
    {
      forall l
        ensures DwTap(s, k)(l) == 0
      {
        SilentDwTap(s, c, k, l);
      }
      SumZero(s.l.kw, DwTap(s, k));
    }
    SumZero(s.l.kh, DwRowSum(s));
  }

  lemma SilentPool(inp: T3, h: nat, w: nat, c: nat, zp: int, mult: int, shift: int, out: Output)
    requires Silent(inp, h, w, c, zp) && out.lo <= out.zp <= out.hi
    ensures var r := PoolRef(inp, h, w, c, zp, mult, shift, out);
            |r| == c && forall k | 0 <= k < c :: r[k] == out.zp
  {
    hide At3, PyQuant.Requantize;
    ZeroGivesZeroPoint(mult, shift, out.zp, out.lo, out.hi);
    forall k | 0 <= k < c
      ensures PoolAcc(inp, h, w, zp, k) == 0
    {
      forall y | 0 <= y < h
        ensures PoolRowSum(inp, w, zp, k)(y) == 0
      {
        SumZero(w, PoolTap(inp, zp, k, y));
      }
      SumZero(h, PoolRowSum(inp, w, zp, k));
    }
  }

  lemma SilentDense(l: Dense, inp: seq<int>)
    requires |inp| == l.m && (forall i | 0 <= i < l.m :: inp[i] == l.inZp)
    requires l.bias.NoBias? && l.out.lo <= l.out.zp <= l.out.hi
    ensures |DenseRef(l, inp)| == l.n && forall o | 0 <= o < l.n :: DenseRef(l, inp)[o] == l.out.zp
  {
    hide PyQuant.Requantize;
    ZeroGivesZeroPoint(l.mult, l.shift, l.out.zp, l.out.lo, l.out.hi);
    forall o
      ensures DenseAcc(l, inp, o) == 0
    {
      SumZero(l.m, DenseTap(l, inp, o));
    }
  }

  // ----- entries and clamps -----

  /** The entry at a position is the requantized accumulator there. */
  lemma ConvEntry(l: Conv, inp: T3, h: nat, w: nat, ic: nat, oh: nat, ow: nat, y: nat, x: nat, o: nat)
    requires y < oh && x < ow && o < l.oc
    ensures At3(ConvRef(l, inp, h, w, ic, oh, ow), y, x, o)
         == PyQuant.Requantize(ConvAcc(Site(l, inp, h, w, ic, y, x, o)), Get(l.mult, o), Get(l.shift, o),
                               l.out.zp, l.out.lo, l.out.hi)
  {
    hide ConvAcc, PyQuant.Requantize;
    ConvShape(l, inp, h, w, ic, oh, ow);
    InShape3(ConvRef(l, inp, h, w, ic, oh, ow), oh, ow, l.oc, y, x, o);
  }

  lemma DwEntry(l: Depthwise, inp: T3, h: nat, w: nat, c: nat, oh: nat, ow: nat, y: nat, x: nat, k: nat)
    requires y < oh && x < ow && k < c
    ensures At3(DwRef(l, inp, h, w, c, oh, ow), y, x, k)
         == PyQuant.Requantize(DwAcc(DwSite(l, inp, h, w, y, x, k)), Get(l.mult, k), Get(l.shift, k),
                               l.out.zp, l.out.lo, l.out.hi)
  {
    hide DwAcc, PyQuant.Requantize;
    DwShape(l, inp, h, w, c, oh, ow);
    InShape3(DwRef(l, inp, h, w, c, oh, ow), oh, ow, c, y, x, k);
  }

  /** Every entry of an h x w x c map lies in [lo, hi]. */
  ghost predicate Within(t: T3, h: nat, w: nat, c: nat, lo: int, hi: int)
  {
    forall y, x, k | 0 <= y < h && 0 <= x < w && 0 <= k < c :: lo <= At3(t, y, x, k) <= hi
  }

  lemma ConvWithin(l: Conv, inp: T3, h: nat, w: nat, ic: nat, oh: nat, ow: nat)
    requires l.out.lo <= l.out.hi
    ensures Within(ConvRef(l, inp, h, w, ic, oh, ow), oh, ow, l.oc, l.out.lo, l.out.hi)
  {
    hide At3, ConvRef, ConvAcc, PyQuant.MultiplyByQuantizedMultiplier;
    forall y, x, o | 0 <= y < oh && 0 <= x < ow && 0 <= o < l.oc
      ensures l.out.lo <= At3(ConvRef(l, inp, h, w, ic, oh, ow), y, x, o) <= l.out.hi
    {
      ConvEntry(l, inp, h, w, ic, oh, ow, y, x, o);
    }
  }
}
