/** kws-framework/kwslib/kernels.py: the reference kernels, loop by loop, on nested tensors. */
module PyKernels {
  import opened Tensors
  import opened KernelSpec
  import PyQuant

  method FullyConnected(inp: seq<int>, l: Dense) returns (out: seq<int>)
    requires |inp| == l.m && Rows(l.wt, l.n, l.m) && (l.bias.Bias? ==> |l.bias.values| == l.n)
    ensures out == DenseRef(l, inp)
  {
    hide PyQuant.Requantize;
    out := [];
    for o := 0 to l.n
      invariant out == DenseRef(l, inp)[..o]
    {
      var acc := if l.bias.NoBias? then 0 else l.bias.values[o];
      for i := 0 to l.m
        invariant acc == BiasAt(l.bias, o) + Sum(i, DenseTap(l, inp, o))
      {
        acc := acc + (inp[i] - l.inZp) * l.wt[o][i];
      }
      out := out + [PyQuant.Requantize(acc, l.mult, l.shift, l.out.zp, l.out.lo, l.out.hi)];
    }
  }

  /** The accumulator of one convolution output. */
  method ConvAccumulate(s: Site) returns (acc: int)
    requires Shape3(s.inp, s.h, s.w, s.ic) && Shape4(s.l.wt, s.l.oc, s.l.kh, s.l.kw, s.ic)
    requires 0 <= s.o < s.l.oc && (s.l.bias.Bias? ==> |s.l.bias.values| == s.l.oc)
    ensures acc == ConvAcc(s)
  {
    hide Sum, ConvTap, ConvRowSum, ConvPlaneSum, Shape4, Shape3, At3, At4;
    acc := if s.l.bias.NoBias? then 0 else s.l.bias.values[s.o];
    SumStep(0, ConvPlaneSum(s));
    for fy := 0 to s.l.kh
      invariant acc == BiasAt(s.l.bias, s.o) + Sum(fy, ConvPlaneSum(s))
    {
      var iy := s.y * s.l.sh - s.l.ph + fy;
      SumStep(0, ConvRowSum(s, fy));
      for fx := 0 to s.l.kw
        invariant acc == BiasAt(s.l.bias, s.o) + Sum(fy, ConvPlaneSum(s)) + Sum(fx, ConvRowSum(s, fy))
      {
        var ix := s.x * s.l.sw - s.l.pw + fx;
        var inside := 0 <= iy < s.h && 0 <= ix < s.w;
        SumStep(0, ConvTap(s, fy, fx));
        for ic := 0 to s.ic
          invariant acc == BiasAt(s.l.bias, s.o) + Sum(fy, ConvPlaneSum(s)) + Sum(fx, ConvRowSum(s, fy))
                           + Sum(ic, ConvTap(s, fy, fx))
        {
          var v := s.l.inZp;
          if inside {
            InShape3(s.inp, s.h, s.w, s.ic, iy, ix, ic);
            v := s.inp[iy][ix][ic];
          }
          SumStep(ic, ConvTap(s, fy, fx));
          TapValue(s, fy, fx, ic);
          InShape4(s.l.wt, s.l.oc, s.l.kh, s.l.kw, s.ic, s.o, fy, fx, ic);
          acc := acc + (v - s.l.inZp) * s.l.wt[s.o][fy][fx][ic];
        }
        ConvSums(s, fy, fx);
        SumStep(fx, ConvRowSum(s, fy));
      }
      ConvSums(s, fy, 0);
      SumStep(fy, ConvPlaneSum(s));
    }
  }

  lemma TapValue(s: Site, fy: int, fx: int, ic: int)
    ensures var iy, ix := s.y * s.l.sh - s.l.ph + fy, s.x * s.l.sw - s.l.pw + fx;
            ConvTap(s, fy, fx)(ic)
              == ((if 0 <= iy < s.h && 0 <= ix < s.w then At3(s.inp, iy, ix, ic) else s.l.inZp) - s.l.inZp)
                 * At4(s.l.wt, s.o, fy, fx, ic)
  {}

  method Conv2d(inp: T3, h: nat, w: nat, ic: nat, l: Conv) returns (out: T3)
    requires Shape3(inp, h, w, ic) && Shape4(l.wt, l.oc, l.kh, l.kw, ic)
    requires l.sh >= 1 && l.sw >= 1 && OutSize(h, l.ph, l.kh, l.sh) >= 0 && OutSize(w, l.pw, l.kw, l.sw) >= 0
    requires |l.mult| == |l.shift| == l.oc && (l.bias.Bias? ==> |l.bias.values| == l.oc)
    ensures out == ConvRef(l, inp, h, w, ic, OutSize(h, l.ph, l.kh, l.sh), OutSize(w, l.pw, l.kw, l.sw))
  {
    hide PyQuant.Requantize, ConvAcc, Shape3, Shape4;
    var oh, ow := (h + 2 * l.ph - l.kh) / l.sh + 1, (w + 2 * l.pw - l.kw) / l.sw + 1;
    out := [];
    for y := 0 to oh
      invariant out == ConvRef(l, inp, h, w, ic, oh, ow)[..y]
    {
      var row: T2 := [];
      for x := 0 to ow
        invariant row == ConvRow(l, inp, h, w, ic, ow, y)[..x]
      {
        var pixel: seq<int> := [];
        for o := 0 to l.oc
          invariant pixel == ConvPixel(l, inp, h, w, ic, y, x)[..o]
        {
          var acc := ConvAccumulate(Site(l, inp, h, w, ic, y, x, o));
          pixel := pixel + [PyQuant.Requantize(acc, l.mult[o], l.shift[o], l.out.zp, l.out.lo, l.out.hi)];
        }
        assert pixel == ConvPixel(l, inp, h, w, ic, y, x);
        row := row + [pixel];
      }
      assert row == ConvRow(l, inp, h, w, ic, ow, y);
      out := out + [row];
    }
  }

  method DepthwiseAccumulate(s: DwSite, c: nat) returns (acc: int)
    requires Shape3(s.inp, s.h, s.w, c) && Shape3(s.l.wt, s.l.kh, s.l.kw, c)
    requires 0 <= s.c < c && (s.l.bias.Bias? ==> |s.l.bias.values| == c)
    ensures acc == DwAcc(s)
  {
    hide Sum, DwTap, DwRowSum, Shape3, At3;
    acc := if s.l.bias.NoBias? then 0 else s.l.bias.values[s.c];
    SumStep(0, DwRowSum(s));
    for fy := 0 to s.l.kh
      invariant acc == BiasAt(s.l.bias, s.c) + Sum(fy, DwRowSum(s))
    {
      var iy := s.y * s.l.sh - s.l.ph + fy;
      SumStep(0, DwTap(s, fy));
      for fx := 0 to s.l.kw
        invariant acc == BiasAt(s.l.bias, s.c) + Sum(fy, DwRowSum(s)) + Sum(fx, DwTap(s, fy))
      {
        var ix := s.x * s.l.sw - s.l.pw + fx;
        var inside := 0 <= iy < s.h && 0 <= ix < s.w;
        var v := s.l.inZp;
        if inside {
          InShape3(s.inp, s.h, s.w, c, iy, ix, s.c);
          v := s.inp[iy][ix][s.c];
        }
        SumStep(fx, DwTap(s, fy));
        DwTapValue(s, fy, fx);
        InShape3(s.l.wt, s.l.kh, s.l.kw, c, fy, fx, s.c);
        acc := acc + (v - s.l.inZp) * s.l.wt[fy][fx][s.c];
      }
      DwRowIs(s, fy);
      SumStep(fy, DwRowSum(s));
    }
  }

  lemma DwTapValue(s: DwSite, fy: int, fx: int)
    ensures var iy, ix := s.y * s.l.sh - s.l.ph + fy, s.x * s.l.sw - s.l.pw + fx;
            DwTap(s, fy)(fx)
              == ((if 0 <= iy < s.h && 0 <= ix < s.w then At3(s.inp, iy, ix, s.c) else s.l.inZp) - s.l.inZp)
                 * At3(s.l.wt, fy, fx, s.c)
  {}

  lemma DwRowIs(s: DwSite, fy: int)
    ensures DwRowSum(s)(fy) == Sum(s.l.kw, DwTap(s, fy))
  {}

  method DepthwiseConv2d(inp: T3, h: nat, w: nat, c: nat, l: Depthwise) returns (out: T3)
    requires Shape3(inp, h, w, c) && Shape3(l.wt, l.kh, l.kw, c)
    requires l.sh >= 1 && l.sw >= 1 && OutSize(h, l.ph, l.kh, l.sh) >= 0 && OutSize(w, l.pw, l.kw, l.sw) >= 0
    requires |l.mult| == |l.shift| == c && (l.bias.Bias? ==> |l.bias.values| == c)
    ensures out == DwRef(l, inp, h, w, c, OutSize(h, l.ph, l.kh, l.sh), OutSize(w, l.pw, l.kw, l.sw))
  {
    hide PyQuant.Requantize, DwAcc, Shape3;
    var oh, ow := (h + 2 * l.ph - l.kh) / l.sh + 1, (w + 2 * l.pw - l.kw) / l.sw + 1;
    out := [];
    for y := 0 to oh
      invariant out == DwRef(l, inp, h, w, c, oh, ow)[..y]
    {
      var row: T2 := [];
      for x := 0 to ow
        invariant row == DwRow(l, inp, h, w, c, ow, y)[..x]
      {
        var pixel: seq<int> := [];
        for k := 0 to c
          invariant pixel == DwPixel(l, inp, h, w, c, y, x)[..k]
        {
          var acc := DepthwiseAccumulate(DwSite(l, inp, h, w, y, x, k), c);
          pixel := pixel + [PyQuant.Requantize(acc, l.mult[k], l.shift[k], l.out.zp, l.out.lo, l.out.hi)];
        }
        assert pixel == DwPixel(l, inp, h, w, c, y, x);
        row := row + [pixel];
      }
      assert row == DwRow(l, inp, h, w, c, ow, y);
      out := out + [row];
    }
  }

  method GlobalAvgPool(inp: T3, h: nat, w: nat, c: nat, zp: int, mult: int, shift: int, o: Output)
    returns (out: seq<int>)
    requires Shape3(inp, h, w, c)
    ensures out == PoolRef(inp, h, w, c, zp, mult, shift, o)
  {
    hide PyQuant.Requantize;
    out := [];
    for k := 0 to c
      invariant out == PoolRef(inp, h, w, c, zp, mult, shift, o)[..k]
    {
      var acc := 0;
      for y := 0 to h
        invariant acc == Sum(y, PoolRowSum(inp, w, zp, k))
      {
        for x := 0 to w
          invariant acc == Sum(y, PoolRowSum(inp, w, zp, k)) + Sum(x, PoolTap(inp, zp, k, y))
        {
          acc := acc + (inp[y][x][k] - zp);
        }
      }
      out := out + [PyQuant.Requantize(acc, mult, shift, o.zp, o.lo, o.hi)];
    }
  }
}
