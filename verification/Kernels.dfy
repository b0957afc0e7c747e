/** firmware/core/src/nn/kernels.c: the int8 kernels over flat buffers with 32-bit accumulators.
    Element and accumulator types are range types, so every read, sum and store is proved to stay
    in range; `input != output` is demanded wherever a kernel writes. */
module Kernels {
  import opened Bits
  import opened Tensors
  import opened KernelSpec
  import Q = Quant
  import PyQuant

  /** Largest magnitude of one product (input - zero point) * weight. */
  const TAP: nat := 255 * 128

  /** Largest magnitude of one pooled difference input - zero point. */
  const DIFF: nat := 255

  /** No intermediate of a layer output leaves 32 bits: the accumulator with `taps` summands of
      magnitude at most `term`, its left shift, and the addition of the zero point. */
  predicate OutputFits(bias: int, taps: nat, term: nat, shift: int)
  {
    -31 <= shift <= 30 &&
    (Q.Abs(bias) + taps * term) * Pow2(if shift > 0 then shift else 0) + 128 <= Q.INT32_MAX
  }

  lemma AccumulatorFits(acc: int, bias: int, taps: nat, term: nat, qm: Q.int32, shift: int, zp: Q.int8)
    requires OutputFits(bias, taps, term, shift) && Q.Abs(acc) <= Q.Abs(bias) + taps * term
    ensures Q.InInt32(acc) && Q.ShiftFits(acc, shift)
    ensures Q.InInt32(Q.MultiplyByQuantizedMultiplier(acc, qm, shift) + zp)
  {
    hide Q.MultiplyByQuantizedMultiplier;
    var bound, p := Q.Abs(bias) + taps * term, Pow2(if shift > 0 then shift else 0);
    MulMonotone(0, term, taps);
    MulMonotone(Q.Abs(acc), bound, p);
    AtLeast(bound, p);
    Q.AbsProduct(acc, p);
    Q.MultiplyShrinks(acc, qm, shift);
  }

  /** The arguments of `nn_conv2d_i8` apart from the buffers and their sizes. */
  datatype ConvArgs = ConvArgs(weights: seq<Q.int8>, bias: Bias, oc: nat, kh: nat, kw: nat,
    sh: nat, sw: nat, ph: nat, pw: nat, inZp: Q.int8,
    mult: seq<Q.int32>, shift: seq<int>, zp: Q.int8, lo: Q.int8, hi: Q.int8)

  /** The layer these arguments describe when the flat weights are those of wt. */
  function ConvLayer(a: ConvArgs, wt: T4): Conv
  {
    Conv(wt, a.bias, a.oc, a.kh, a.kw, a.sh, a.sw, a.ph, a.pw, a.inZp, a.mult, a.shift, Output(a.zp, a.lo, a.hi))
  }

  predicate ConvArgsFit(a: ConvArgs, wt: T4, ic: nat)
  {
    && Shape4(wt, a.oc, a.kh, a.kw, ic) && a.weights == Flat4(wt)
    && a.sh >= 1 && a.sw >= 1 && |a.mult| == |a.shift| == a.oc
    && (a.bias.Bias? ==> |a.bias.values| == a.oc)
    && (forall o | 0 <= o < a.oc :: OutputFits(BiasAt(a.bias, o), a.kh * a.kw * ic, TAP, a.shift[o]))
  }

  /** The buffer starts with the flat layout of an h x w x c map. */
  predicate Holds(buf: array<Q.int8>, t: T3, h: nat, w: nat, c: nat)
    reads buf
  {
    Shape3(t, h, w, c) && h * w * c <= buf.Length && buf[..h * w * c] == Flat3(t)
  }

  /** Reads one input byte, or the zero point in the padding. */
  method ReadPadded(input: array<Q.int8>, h: nat, w: nat, c: nat, iy: int, ix: int, k: nat, zp: Q.int8, ghost t: T3)
    returns (v: Q.int8)
    requires Holds(input, t, h, w, c) && k < c
    ensures v == Padded(t, h, w, iy, ix, k, zp)
  {
    var inside := iy >= 0 && iy < h && ix >= 0 && ix < w;
    if inside {
      Flat3At(t, h, w, c, iy, ix, k);
      InShape3(t, h, w, c, iy, ix, k);
      v := input[(iy * w + ix) * c + k];
    } else {
      v := zp;
    }
  }

  /** Reads one input byte. */
  method ReadAt(input: array<Q.int8>, h: nat, w: nat, c: nat, y: nat, x: nat, k: nat, ghost t: T3) returns (v: Q.int8)
    requires Holds(input, t, h, w, c) && y < h && x < w && k < c
    ensures v == At3(t, y, x, k)
  {
    Flat3At(t, h, w, c, y, x, k);
    InShape3(t, h, w, c, y, x, k);
    v := input[(y * w + x) * c + k];
  }

  /** One product; its magnitude is at most TAP. */
  method Product(v: Q.int8, zp: Q.int8, w: Q.int8) returns (p: Q.int32)
    ensures p == (v - zp) * w && Q.Abs(p) <= TAP
  {
    MulMonotone(Q.Abs(v - zp), 255, Q.Abs(w));
    MulMonotone(Q.Abs(w), 128, 255);
    Q.AbsProduct(v - zp, w);
    p := (v - zp) * w;
  }

  /** The innermost loop: the products of one filter tap over the input channels. */
  method ConvTapLoop(input: array<Q.int8>, h: nat, w: nat, ic: nat, a: ConvArgs, iy: int, ix: int, o: nat,
                     fy: nat, fx: nat, acc0: Q.int32, ghost s: Site, ghost t: T3, ghost wt: T4)
    returns (acc: Q.int32)
    requires Holds(input, t, h, w, ic) && ConvArgsFit(a, wt, ic) && o < a.oc && fy < a.kh && fx < a.kw
    requires s.l == ConvLayer(a, wt) && s.inp == t && s.h == h && s.w == w && s.ic == ic && s.o == o
    requires iy == s.y * a.sh - a.ph + fy && ix == s.x * a.sw - a.pw + fx
    requires 0 <= (fy * a.kw + fx) * ic
    requires Q.Abs(acc0) <= Q.Abs(BiasAt(a.bias, o)) + (fy * a.kw + fx) * ic * TAP
    ensures acc == acc0 + Sum(ic, ConvTap(s, fy, fx))
    ensures Q.Abs(acc) <= Q.Abs(BiasAt(a.bias, o)) + ((fy * a.kw + fx) * ic + ic) * TAP
  {
    hide Sum, ConvTap, Shape4, Shape3, At3, At4, Padded, OutputFits, Flat4, Q.Abs, Holds;
    ghost var b, taps, n := BiasAt(a.bias, o), a.kh * a.kw * ic, (fy * a.kw + fx) * ic;
    acc := acc0;
    SumStep(0, ConvTap(s, fy, fx));
    for k := 0 to ic
      invariant acc == acc0 + Sum(k, ConvTap(s, fy, fx))
      invariant Q.Abs(acc) <= Q.Abs(b) + (n + k) * TAP
    {
      var v := ReadPadded(input, h, w, ic, iy, ix, k, a.inZp, t);
      Flat4At(wt, a.oc, a.kh, a.kw, ic, o, fy, fx, k);
      InShape4(wt, a.oc, a.kh, a.kw, ic, o, fy, fx, k);
      var p := Product(v, a.inZp, a.weights[((o * a.kh + fy) * a.kw + fx) * ic + k]);
      TapCount(a.kh, a.kw, ic, fy, fx, k);
      GrowAccumulator(acc, p, b, n + k, taps, TAP, a.shift[o]);
      acc := acc + p;
      SumStep(k, ConvTap(s, fy, fx));
      ConvTapIs(s, fy, fx, k);
    }
  }

  /** The accumulator of one convolution output. */
  method ConvAccumulate(input: array<Q.int8>, h: nat, w: nat, ic: nat, a: ConvArgs, y: nat, x: nat, o: nat,
                        ghost t: T3, ghost wt: T4) returns (acc: Q.int32)
    requires Holds(input, t, h, w, ic) && ConvArgsFit(a, wt, ic) && o < a.oc
    ensures acc == ConvAcc(Site(ConvLayer(a, wt), t, h, w, ic, y, x, o))
    ensures Q.Abs(acc) <= Q.Abs(BiasAt(a.bias, o)) + a.kh * a.kw * ic * TAP
  {
    hide Sum, ConvTap, ConvRowSum, ConvPlaneSum, Shape4, Shape3, At3, At4, Padded, OutputFits, Flat4, Q.Abs, Holds;
    ghost var s := Site(ConvLayer(a, wt), t, h, w, ic, y, x, o);
    ghost var b, n := BiasAt(a.bias, o), 0;
    BiasFits(b, a.kh * a.kw * ic, TAP, a.shift[o]);
    acc := if a.bias.NoBias? then 0 else a.bias.values[o];
    SumStep(0, ConvPlaneSum(s));
    for fy := 0 to a.kh
      invariant acc == b + Sum(fy, ConvPlaneSum(s))
      invariant n == fy * a.kw * ic && Q.Abs(acc) <= Q.Abs(b) + n * TAP
    {
      var iy := y * a.sh - a.ph + fy;
      SumStep(0, ConvRowSum(s, fy));
      for fx := 0 to a.kw
        invariant acc == b + Sum(fy, ConvPlaneSum(s)) + Sum(fx, ConvRowSum(s, fy))
        invariant n == (fy * a.kw + fx) * ic && Q.Abs(acc) <= Q.Abs(b) + n * TAP
      {
        var ix := x * a.sw - a.pw + fx;
        TapsDone(fy, a.kw, fx, ic);
        acc := ConvTapLoop(input, h, w, ic, a, iy, ix, o, fy, fx, acc, s, t, wt);
        n := n + ic;
        ConvSums(s, fy, fx);
        SumStep(fx, ConvRowSum(s, fy));
      }
      ConvSums(s, fy, 0);
      SumStep(fy, ConvPlaneSum(s));
      NextMultiple(fy, a.kw);
    }
  }

  lemma TapsDone(fy: nat, kw: nat, fx: nat, ic: nat)
    ensures 0 <= (fy * kw + fx) * ic
    ensures (fy * kw + fx) * ic + ic == (fy * kw + (fx + 1)) * ic
  {}

  lemma ConvTapIs(s: Site, fy: int, fx: int, k: int)
    ensures ConvTap(s, fy, fx)(k)
         == (Padded(s.inp, s.h, s.w, s.y * s.l.sh - s.l.ph + fy, s.x * s.l.sw - s.l.pw + fx, k, s.l.inZp) - s.l.inZp)
            * At4(s.l.wt, s.o, fy, fx, k)
  {}

  lemma NextMultiple(i: nat, m: nat)
    ensures i * m + m == (i + 1) * m
  {}

  lemma BiasFits(b: int, taps: nat, term: nat, shift: int)
    requires OutputFits(b, taps, term, shift)
    ensures 0 <= taps * term && Q.InInt32(b) && Q.Abs(b) + taps * term <= Q.INT32_MAX
  {
    MulMonotone(0, term, taps);
    AtLeast(Q.Abs(b) + taps * term, Pow2(if shift > 0 then shift else 0));
  }

  lemma AtLeast(x: nat, p: nat)
    requires p >= 1
    ensures x <= x * p
  {}

  lemma TapCount(kh: nat, kw: nat, ic: nat, fy: nat, fx: nat, k: nat)
    requires fy < kh && fx < kw && k < ic
    ensures 0 <= (fy * kw + fx) * ic + k < kh * kw * ic
  {
    InsideFlat(fy, fx, kh, kw);
    InsideFlat(fy * kw + fx, k, kh * kw, ic);
  }

  lemma GrowAccumulator(acc: int, p: int, b: int, n: nat, taps: nat, term: nat, shift: int)
    requires OutputFits(b, taps, term, shift) && n < taps
    requires Q.Abs(acc) <= Q.Abs(b) + n * term && Q.Abs(p) <= term
    ensures Q.Abs(acc + p) <= Q.Abs(b) + (n + 1) * term && Q.InInt32(acc + p)
  {
    BiasFits(b, taps, term, shift);
    MulMonotone(n + 1, taps, term);
    assert (n + 1) * term == n * term + term;
  }

  /** One output pixel: all channels at one position, written at its flat offset. */
  method ConvPixelInto(input: array<Q.int8>, h: nat, w: nat, ic: nat, a: ConvArgs, y: nat, x: nat, ow: nat,
                       output: array<Q.int8>, ghost t: T3, ghost wt: T4)
    requires input != output && Holds(input, t, h, w, ic) && ConvArgsFit(a, wt, ic)
    requires 0 <= (y * ow + x) * a.oc && (y * ow + x) * a.oc + a.oc <= output.Length
    modifies output
    ensures output[(y * ow + x) * a.oc..(y * ow + x) * a.oc + a.oc]
         == ConvPixel(ConvLayer(a, wt), t, h, w, ic, y, x)
    ensures forall p | 0 <= p < output.Length && !((y * ow + x) * a.oc <= p < (y * ow + x) * a.oc + a.oc) ::
      output[p] == old(output[p])
  {
    hide ConvAcc, PyQuant.Requantize, Q.Requantize, Q.Abs, Q.MultiplyByQuantizedMultiplier, Q.ShiftFits, OutputFits,
         Shape3, Shape4, Flat3, Flat4;
    ghost var base := (y * ow + x) * a.oc;
    ghost var pixel := ConvPixel(ConvLayer(a, wt), t, h, w, ic, y, x);
    for o := 0 to a.oc
      invariant Holds(input, t, h, w, ic)
      invariant forall k | 0 <= k < o :: output[base + k] == pixel[k]
      invariant forall p | 0 <= p < output.Length && !(base <= p < base + a.oc) :: output[p] == old(output[p])
    {
      var acc := ConvAccumulate(input, h, w, ic, a, y, x, o, t, wt);
      AccumulatorFits(acc, BiasAt(a.bias, o), a.kh * a.kw * ic, TAP, a.mult[o], a.shift[o], a.zp);
      PyQuant.RequantizeAgrees(acc, a.mult[o], a.shift[o], a.zp, a.lo, a.hi);
      output[(y * ow + x) * a.oc + o] := Q.Requantize(acc, a.mult[o], a.shift[o], a.zp, a.lo, a.hi);
    }
  }

  /** Room for one more pixel: positions of the (y, x) cell of an oh x ow x c buffer. */
  lemma PixelRoom(y: nat, x: nat, oh: nat, ow: nat, c: nat)
    requires y < oh && x < ow
    ensures 0 <= y * ow + x && 0 <= (y * ow + x) * c
    ensures (y * ow + x + 1) * c == (y * ow + x) * c + c <= oh * ow * c
  {
    InsideFlat(y, x, oh, ow);
    MulMonotone(y * ow + x + 1, oh * ow, c);
  }

  lemma PixelAdded(before: seq<int>, out: T3, y: nat, x: nat, oh: nat, ow: nat, c: nat, after: seq<int>)
    requires Shape3(out, oh, ow, c) && y < oh && x < ow
    requires before == Flatten(Flatten(out[..y]) + out[y][..x]) && after == before + out[y][x]
    ensures after == Flatten(Flatten(out[..y]) + out[y][..x + 1])
  {
    var pixels := Flatten(out[..y]) + out[y][..x];
    FlattenSnoc(pixels, out[y][x]);
    assert out[y][..x + 1] == out[y][..x] + [out[y][x]];
    assert Flatten(out[..y]) + out[y][..x + 1] == pixels + [out[y][x]];
  }

  lemma RowAdded(out: T3, y: nat, oh: nat, ow: nat, c: nat)
    requires Shape3(out, oh, ow, c) && y < oh
    ensures Flatten(out[..y + 1]) == Flatten(out[..y]) + out[y][..ow]
  {
    assert out[..y + 1] == out[..y] + [out[y]];
    FlattenSnoc(out[..y], out[y]);
    assert out[y][..ow] == out[y];
  }

  /** The first y rows of a map have been written. */
  ghost predicate RowsWritten(buf: seq<int>, out: T3, y: nat, oh: nat, ow: nat, c: nat)
    requires y <= |out|
  {
    var pixels := Flatten(out[..y]);
    && |pixels| == y * ow && 0 <= |pixels| * c <= oh * ow * c && |pixels| * c <= |buf|
    && buf[..|pixels| * c] == Flatten(pixels)
  }

  lemma ConvStrides(a: ConvArgs, wt: T4, ic: nat)
    requires ConvArgsFit(a, wt, ic)
    ensures a.sh >= 1 && a.sw >= 1
  {}

  lemma NoRows(buf: seq<int>, out: T3, oh: nat, ow: nat, c: nat)
    requires oh * ow * c <= |buf|
    ensures 0 <= oh * ow * c && RowsWritten(buf, out, 0, oh, ow, c)
  {
    FlattenNothing();
    MulMonotone(0, oh, ow);
    MulMonotone(0, oh * ow, c);
  }

  lemma AllRows(buf: array<Q.int8>, out: T3, oh: nat, ow: nat, c: nat)
    requires Shape3(out, oh, ow, c) && 0 <= oh * ow * c <= buf.Length
    requires RowsWritten(buf[..], out, oh, oh, ow, c)
    ensures Holds(buf, out, oh, ow, c)
  {
    hide Flatten, Flat3, Shape3;
    assert out[..oh] == out by {
      ShapeLength(out, oh, ow, c);
    }
    FlatIsFlatten(out);
    assert buf[..][..oh * ow * c] == buf[..oh * ow * c];
  }

  lemma ShapeLength(t: T3, h: nat, w: nat, c: nat)
    requires Shape3(t, h, w, c)
    ensures |t| == h
  {}

  /** One output row. */
  method ConvRowInto(input: array<Q.int8>, h: nat, w: nat, ic: nat, a: ConvArgs, y: nat, oh: nat, ow: nat,
                     output: array<Q.int8>, ghost t: T3, ghost wt: T4, ghost out: T3)
    requires input != output && Holds(input, t, h, w, ic) && ConvArgsFit(a, wt, ic) && y < oh
    requires out == ConvRef(ConvLayer(a, wt), t, h, w, ic, oh, ow) && 0 <= oh * ow * a.oc <= output.Length
    requires RowsWritten(output[..], out, y, oh, ow, a.oc)
    modifies output
    ensures RowsWritten(output[..], out, y + 1, oh, ow, a.oc)
    ensures forall p | oh * ow * a.oc <= p < output.Length :: output[p] == old(output[p])
  {
    hide ConvAcc, ConvPixel, Shape4, Flat4, OutputFits, Flatten, Flat3, Shape3;
    ConvShape(ConvLayer(a, wt), t, h, w, ic, oh, ow);
    ghost var pixels := Flatten(out[..y]);
    assert pixels == Flatten(out[..y]) + out[y][..0];
    for x := 0 to ow
      invariant Holds(input, t, h, w, ic)
      invariant pixels == Flatten(out[..y]) + out[y][..x] && |pixels| == y * ow + x
      invariant 0 <= |pixels| * a.oc <= oh * ow * a.oc
      invariant output[..|pixels| * a.oc] == Flatten(pixels)
      invariant forall p | oh * ow * a.oc <= p < output.Length :: output[p] == old(output[p])
    {
      PixelRoom(y, x, oh, ow, a.oc);
      ghost var base := |pixels| * a.oc;
      ghost var before := output[..base];
      ConvPixelInto(input, h, w, ic, a, y, x, ow, output, t, wt);
      assert output[..base + a.oc] == before + output[base..base + a.oc];
      PixelAdded(before, out, y, x, oh, ow, a.oc, output[..base + a.oc]);
      pixels := Flatten(out[..y]) + out[y][..x + 1];
    }
    RowAdded(out, y, oh, ow, a.oc);
    NextMultiple(y, ow);
    assert output[..][..|pixels| * a.oc] == output[..|pixels| * a.oc];
  }

  /** `nn_conv2d_i8`: for a filter that fits the padded input the output buffer ends up holding
      exactly the reference convolution, and nothing beyond it is written. */
  method Conv2d(input: array<Q.int8>, h: nat, w: nat, ic: nat, a: ConvArgs, output: array<Q.int8>,
                ghost t: T3, ghost wt: T4) returns (oh: nat, ow: nat)
    requires input != output && Holds(input, t, h, w, ic) && ConvArgsFit(a, wt, ic)
    requires a.kh <= h + 2 * a.ph && a.kw <= w + 2 * a.pw
    requires OutSize(h, a.ph, a.kh, a.sh) * OutSize(w, a.pw, a.kw, a.sw) * a.oc <= output.Length
    modifies output
    ensures oh == OutSize(h, a.ph, a.kh, a.sh) && ow == OutSize(w, a.pw, a.kw, a.sw)
    ensures Holds(output, ConvRef(ConvLayer(a, wt), t, h, w, ic, oh, ow), oh, ow, a.oc)
    ensures forall p | oh * ow * a.oc <= p < output.Length :: output[p] == old(output[p])
  {
    hide ConvRef, ConvArgsFit, Shape3, RowsWritten, Holds, OutSize, Q.TruncDiv;
    ConvStrides(a, wt, ic);
    FitsIffNonEmpty(h, a.ph, a.kh, a.sh);
    FitsIffNonEmpty(w, a.pw, a.kw, a.sw);
    oh := Q.TruncDiv(h + 2 * a.ph - a.kh, a.sh) + 1;
    ow := Q.TruncDiv(w + 2 * a.pw - a.kw, a.sw) + 1;
    ghost var l := ConvLayer(a, wt);
    ghost var out := ConvRef(l, t, h, w, ic, oh, ow);
    ConvShape(l, t, h, w, ic, oh, ow);
    ShapeLength(out, oh, ow, a.oc);
    NoRows(output[..], out, oh, ow, a.oc);
    for y := 0 to oh
      invariant Holds(input, t, h, w, ic)
      invariant RowsWritten(output[..], out, y, oh, ow, a.oc)
      invariant forall p | oh * ow * a.oc <= p < output.Length :: output[p] == old(output[p])
    {
      ConvRowInto(input, h, w, ic, a, y, oh, ow, output, t, wt, out);
    }
    AllRows(output, out, oh, ow, a.oc);
  }

  lemma SizeNonNegative(n: int, stride: int)
    requires n >= 0 && stride >= 1
    ensures 0 <= n / stride && Q.TruncDiv(n, stride) == n / stride
  {
    ghost var q := Quot(n, stride);
  }

  /** The size formula truncates in C and floors in Python; they agree exactly for a filter that
      fits the padded input or misses it by a multiple of the stride. */
  lemma SizesAgree(n: int, stride: int)
    requires stride >= 1
    ensures Q.TruncDiv(n, stride) == n / stride <==> n >= 0 || n % stride == 0
  {
    if n >= 0 {
      SizeNonNegative(n, stride);
    } else {
      var q, rem := n / stride, n % stride;
      assert -n == stride * (-q) - rem;
      if rem == 0 {
        DivModUnique(-n, stride, -q, 0);
      } else {
        assert -n == stride * (-q - 1) + (stride - rem);
        DivModUnique(-n, stride, -q - 1, stride - rem);
      }
    }
  }

  /** A 3 x 3 filter with stride 2 on an unpadded 2 x 2 input: C computes one output position where
      Python computes none. */
  lemma SizesDiffer()
    ensures Q.TruncDiv(2 - 3, 2) + 1 == 1 && OutSize(2, 0, 3, 2) == 0
  {}

  /** Python computes at least one position exactly when the filter fits, and then C agrees. */
  lemma FitsIffNonEmpty(n: nat, pad: nat, k: nat, stride: nat)
    requires stride >= 1
    ensures OutSize(n, pad, k, stride) >= 1 <==> k <= n + 2 * pad
    ensures k <= n + 2 * pad ==> Q.TruncDiv(n + 2 * pad - k, stride) + 1 == OutSize(n, pad, k, stride)
  {
    var room := n + 2 * pad - k;
    SizesAgree(room, stride);
    var q := room / stride;
    assert room == stride * q + room % stride;
    NonZeroMultiple(stride, q);
  }

  lemma FlattenNothing()
    ensures Flatten<seq<int>>([]) == [] && Flatten<int>([]) == []
  {}

  lemma FlatIsFlatten(t: T3)
    ensures Flat3(t) == Flatten(Flatten(t))
  {}

  // ----- depthwise convolution -----

  datatype DwArgs = DwArgs(weights: seq<Q.int8>, bias: Bias, kh: nat, kw: nat,
    sh: nat, sw: nat, ph: nat, pw: nat, inZp: Q.int8,
    mult: seq<Q.int32>, shift: seq<int>, zp: Q.int8, lo: Q.int8, hi: Q.int8)

  function DwLayer(a: DwArgs, wt: T3): Depthwise
  {
    Depthwise(wt, a.bias, a.kh, a.kw, a.sh, a.sw, a.ph, a.pw, a.inZp, a.mult, a.shift, Output(a.zp, a.lo, a.hi))
  }

  predicate DwArgsFit(a: DwArgs, wt: T3, c: nat)
  {
    && Shape3(wt, a.kh, a.kw, c) && a.weights == Flat3(wt)
    && a.sh >= 1 && a.sw >= 1 && |a.mult| == |a.shift| == c
    && (a.bias.Bias? ==> |a.bias.values| == c)
    && (forall k | 0 <= k < c :: OutputFits(BiasAt(a.bias, k), a.kh * a.kw, TAP, a.shift[k]))
  }

  /** One product of a depthwise filter. */
  method DwProduct(input: array<Q.int8>, h: nat, w: nat, c: nat, a: DwArgs, iy: int, ix: int, k: nat, fy: nat, fx: nat,
                   ghost s: DwSite, ghost t: T3, ghost wt: T3) returns (p: Q.int32)
    requires Holds(input, t, h, w, c) && DwArgsFit(a, wt, c) && k < c && fy < a.kh && fx < a.kw
    requires s.l == DwLayer(a, wt) && s.inp == t && s.h == h && s.w == w && s.c == k
    requires iy == s.y * a.sh - a.ph + fy && ix == s.x * a.sw - a.pw + fx
    ensures p == DwTap(s, fy)(fx) && Q.Abs(p) <= TAP
  {
    hide DwTap, Shape3, At3, Padded, OutputFits, Flat3, Holds, Q.Abs;
    var v := ReadPadded(input, h, w, c, iy, ix, k, a.inZp, t);
    WeightAt3(a.weights, wt, a.kh, a.kw, c, fy, fx, k);
    p := Product(v, a.inZp, a.weights[(fy * a.kw + fx) * c + k]);
    DwTapIs(s, fy, fx);
  }

  method DwAccumulate(input: array<Q.int8>, h: nat, w: nat, c: nat, a: DwArgs, y: nat, x: nat, k: nat,
                      ghost t: T3, ghost wt: T3) returns (acc: Q.int32)
    requires Holds(input, t, h, w, c) && DwArgsFit(a, wt, c) && k < c
    ensures acc == DwAcc(DwSite(DwLayer(a, wt), t, h, w, y, x, k))
    ensures Q.Abs(acc) <= Q.Abs(BiasAt(a.bias, k)) + a.kh * a.kw * TAP
  {
    hide Sum, DwTap, DwRowSum, Shape3, At3, Padded, OutputFits, Flat3, Q.Abs, Holds;
    ghost var s := DwSite(DwLayer(a, wt), t, h, w, y, x, k);
    ghost var b, n, taps := BiasAt(a.bias, k), 0, a.kh * a.kw;
    BiasFits(b, taps, TAP, a.shift[k]);
    acc := if a.bias.NoBias? then 0 else a.bias.values[k];
    SumStep(0, DwRowSum(s));
    for fy := 0 to a.kh
      invariant acc == b + Sum(fy, DwRowSum(s))
      invariant n == fy * a.kw && Q.Abs(acc) <= Q.Abs(b) + n * TAP
    {
      var iy := y * a.sh - a.ph + fy;
      SumStep(0, DwTap(s, fy));
      for fx := 0 to a.kw
        invariant acc == b + Sum(fy, DwRowSum(s)) + Sum(fx, DwTap(s, fy))
        invariant n == fy * a.kw + fx && Q.Abs(acc) <= Q.Abs(b) + n * TAP
      {
        var ix := x * a.sw - a.pw + fx;
        var p := DwProduct(input, h, w, c, a, iy, ix, k, fy, fx, s, t, wt);
        InsideFlat(fy, fx, a.kh, a.kw);
        GrowAccumulator(acc, p, b, n, taps, TAP, a.shift[k]);
        acc := acc + p;
        n := n + 1;
        SumStep(fx, DwTap(s, fy));
      }
      DwSums(s, fy);
      SumStep(fy, DwRowSum(s));
      NextMultiple(fy, a.kw);
    }
  }

  lemma WeightAt3(flat: seq<int>, wt: T3, kh: nat, kw: nat, c: nat, fy: nat, fx: nat, k: nat)
    requires Shape3(wt, kh, kw, c) && flat == Flat3(wt) && fy < kh && fx < kw && k < c
    ensures 0 <= (fy * kw + fx) * c + k < |flat|
    ensures flat[(fy * kw + fx) * c + k] == At3(wt, fy, fx, k)
  {
    Flat3At(wt, kh, kw, c, fy, fx, k);
    InShape3(wt, kh, kw, c, fy, fx, k);
  }

  lemma DwTapIs(s: DwSite, fy: int, fx: int)
    ensures DwTap(s, fy)(fx)
         == (Padded(s.inp, s.h, s.w, s.y * s.l.sh - s.l.ph + fy, s.x * s.l.sw - s.l.pw + fx, s.c, s.l.inZp) - s.l.inZp)
            * At3(s.l.wt, fy, fx, s.c)
  {}

  lemma DwSums(s: DwSite, fy: int)
    ensures DwRowSum(s)(fy) == Sum(s.l.kw, DwTap(s, fy))
  {}

  method DwPixelInto(input: array<Q.int8>, h: nat, w: nat, c: nat, a: DwArgs, y: nat, x: nat, ow: nat,
                     output: array<Q.int8>, ghost t: T3, ghost wt: T3)
    requires input != output && Holds(input, t, h, w, c) && DwArgsFit(a, wt, c)
    requires 0 <= (y * ow + x) * c && (y * ow + x) * c + c <= output.Length
    modifies output
    ensures output[(y * ow + x) * c..(y * ow + x) * c + c] == DwPixel(DwLayer(a, wt), t, h, w, c, y, x)
    ensures forall p | 0 <= p < output.Length && !((y * ow + x) * c <= p < (y * ow + x) * c + c) ::
      output[p] == old(output[p])
  {
    hide DwAcc, PyQuant.Requantize, Q.Requantize, Q.Abs, Q.MultiplyByQuantizedMultiplier, Q.ShiftFits, OutputFits,
         Shape3, Flat3;
    ghost var base := (y * ow + x) * c;
    ghost var pixel := DwPixel(DwLayer(a, wt), t, h, w, c, y, x);
    for k := 0 to c
      invariant Holds(input, t, h, w, c)
      invariant forall i | 0 <= i < k :: output[base + i] == pixel[i]
      invariant forall p | 0 <= p < output.Length && !(base <= p < base + c) :: output[p] == old(output[p])
    {
      var acc := DwAccumulate(input, h, w, c, a, y, x, k, t, wt);
      AccumulatorFits(acc, BiasAt(a.bias, k), a.kh * a.kw, TAP, a.mult[k], a.shift[k], a.zp);
      PyQuant.RequantizeAgrees(acc, a.mult[k], a.shift[k], a.zp, a.lo, a.hi);
      output[(y * ow + x) * c + k] := Q.Requantize(acc, a.mult[k], a.shift[k], a.zp, a.lo, a.hi);
    }
  }

  lemma DwStrides(a: DwArgs, wt: T3, c: nat)
    requires DwArgsFit(a, wt, c)
    ensures a.sh >= 1 && a.sw >= 1
  {}

  /** One output row. */
  method DwRowInto(input: array<Q.int8>, h: nat, w: nat, c: nat, a: DwArgs, y: nat, oh: nat, ow: nat,
                     output: array<Q.int8>, ghost t: T3, ghost wt: T3, ghost out: T3)
    requires input != output && Holds(input, t, h, w, c) && DwArgsFit(a, wt, c) && y < oh
    requires out == DwRef(DwLayer(a, wt), t, h, w, c, oh, ow) && 0 <= oh * ow * c <= output.Length
    requires RowsWritten(output[..], out, y, oh, ow, c)
    modifies output
    ensures RowsWritten(output[..], out, y + 1, oh, ow, c)
    ensures forall p | oh * ow * c <= p < output.Length :: output[p] == old(output[p])
  {
    hide DwAcc, DwPixel, OutputFits, Flatten, Flat3, Shape3;
    DwShape(DwLayer(a, wt), t, h, w, c, oh, ow);
    ghost var pixels := Flatten(out[..y]);
    assert pixels == Flatten(out[..y]) + out[y][..0];
    for x := 0 to ow
      invariant Holds(input, t, h, w, c)
      invariant pixels == Flatten(out[..y]) + out[y][..x] && |pixels| == y * ow + x
      invariant 0 <= |pixels| * c <= oh * ow * c
      invariant output[..|pixels| * c] == Flatten(pixels)
      invariant forall p | oh * ow * c <= p < output.Length :: output[p] == old(output[p])
    {
      PixelRoom(y, x, oh, ow, c);
      ghost var base := |pixels| * c;
      ghost var before := output[..base];
      DwPixelInto(input, h, w, c, a, y, x, ow, output, t, wt);
      assert output[..base + c] == before + output[base..base + c];
      PixelAdded(before, out, y, x, oh, ow, c, output[..base + c]);
      pixels := Flatten(out[..y]) + out[y][..x + 1];
    }
    RowAdded(out, y, oh, ow, c);
    NextMultiple(y, ow);
    assert output[..][..|pixels| * c] == output[..|pixels| * c];
  }

  /** `nn_depthwise_conv2d_i8`. */
  method DepthwiseConv2d(input: array<Q.int8>, h: nat, w: nat, c: nat, a: DwArgs, output: array<Q.int8>,
                         ghost t: T3, ghost wt: T3) returns (oh: nat, ow: nat)
    requires input != output && Holds(input, t, h, w, c) && DwArgsFit(a, wt, c)
    requires a.kh <= h + 2 * a.ph && a.kw <= w + 2 * a.pw
    requires OutSize(h, a.ph, a.kh, a.sh) * OutSize(w, a.pw, a.kw, a.sw) * c <= output.Length
    modifies output
    ensures oh == OutSize(h, a.ph, a.kh, a.sh) && ow == OutSize(w, a.pw, a.kw, a.sw)
    ensures Holds(output, DwRef(DwLayer(a, wt), t, h, w, c, oh, ow), oh, ow, c)
    ensures forall p | oh * ow * c <= p < output.Length :: output[p] == old(output[p])
  {
    hide DwRef, DwArgsFit, Shape3, RowsWritten, Holds, OutSize, Q.TruncDiv;
    DwStrides(a, wt, c);
    FitsIffNonEmpty(h, a.ph, a.kh, a.sh);
    FitsIffNonEmpty(w, a.pw, a.kw, a.sw);
    oh := Q.TruncDiv(h + 2 * a.ph - a.kh, a.sh) + 1;
    ow := Q.TruncDiv(w + 2 * a.pw - a.kw, a.sw) + 1;
    ghost var l := DwLayer(a, wt);
    ghost var out := DwRef(l, t, h, w, c, oh, ow);
    DwShape(l, t, h, w, c, oh, ow);
    ShapeLength(out, oh, ow, c);
    NoRows(output[..], out, oh, ow, c);
    for y := 0 to oh
      invariant Holds(input, t, h, w, c)
      invariant RowsWritten(output[..], out, y, oh, ow, c)
      invariant forall p | oh * ow * c <= p < output.Length :: output[p] == old(output[p])
    {
      DwRowInto(input, h, w, c, a, y, oh, ow, output, t, wt, out);
    }
    AllRows(output, out, oh, ow, c);
  }

  // ----- pooling, dense layer, argmax -----

  /** `nn_global_avgpool_i8`: at most h*w differences of magnitude 255 are added per channel. */
  method GlobalAvgPool(input: array<Q.int8>, h: nat, w: nat, c: nat, inZp: Q.int8, mult: Q.int32, shift: int,
                       zp: Q.int8, lo: Q.int8, hi: Q.int8, output: array<Q.int8>, ghost t: T3)
    requires input != output && Holds(input, t, h, w, c) && c <= output.Length
    requires OutputFits(0, h * w, DIFF, shift)
    modifies output
    ensures output[..c] == PoolRef(t, h, w, c, inZp, mult, shift, Output(zp, lo, hi))
    ensures forall p | c <= p < output.Length :: output[p] == old(output[p])
  {
    hide PoolAcc, PyQuant.Requantize, Q.Requantize, Q.Abs, Q.MultiplyByQuantizedMultiplier, Q.ShiftFits, OutputFits,
         Shape3, Flat3;
    ghost var ref := PoolRef(t, h, w, c, inZp, mult, shift, Output(zp, lo, hi));
    for k := 0 to c
      invariant Holds(input, t, h, w, c)
      invariant forall i | 0 <= i < k :: output[i] == ref[i]
      invariant forall p | c <= p < output.Length :: output[p] == old(output[p])
    {
      var acc := PoolAccumulate(input, h, w, c, inZp, shift, k, t);
      AccumulatorFits(acc, 0, h * w, DIFF, mult, shift, zp);
      PyQuant.RequantizeAgrees(acc, mult, shift, zp, lo, hi);
      output[k] := Q.Requantize(acc, mult, shift, zp, lo, hi);
    }
  }

  method PoolAccumulate(input: array<Q.int8>, h: nat, w: nat, c: nat, inZp: Q.int8, shift: int, k: nat, ghost t: T3)
    returns (acc: Q.int32)
    requires Holds(input, t, h, w, c) && k < c && OutputFits(0, h * w, DIFF, shift)
    ensures acc == PoolAcc(t, h, w, inZp, k)
    ensures Q.Abs(acc) <= Q.Abs(0) + h * w * DIFF
  {
    hide Sum, PoolRowSum, Shape3, At3, OutputFits, Flat3, Q.Abs, Holds;
    ghost var n := 0;
    acc := 0;
    SumStep(0, PoolRowSum(t, w, inZp, k));
    for y := 0 to h
      invariant acc == Sum(y, PoolRowSum(t, w, inZp, k))
      invariant n == y * w && Q.Abs(acc) <= Q.Abs(0) + n * DIFF
    {
      SumStep(0, PoolTap(t, inZp, k, y));
      for x := 0 to w
        invariant acc == Sum(y, PoolRowSum(t, w, inZp, k)) + Sum(x, PoolTap(t, inZp, k, y))
        invariant n == y * w + x && Q.Abs(acc) <= Q.Abs(0) + n * DIFF
      {
        var v := ReadAt(input, h, w, c, y, x, k, t);
        var d: Q.int32 := v - inZp;
        SmallDifference(v, inZp);
        InsideFlat(y, x, h, w);
        GrowAccumulator(acc, d, 0, n, h * w, DIFF, shift);
        acc := acc + d;
        n := n + 1;
        SumStep(x, PoolTap(t, inZp, k, y));
      }
      PoolSums(t, w, inZp, k, y);
      SumStep(y, PoolRowSum(t, w, inZp, k));
      NextMultiple(y, w);
    }
  }

  lemma SmallDifference(v: Q.int8, z: Q.int8)
    ensures Q.Abs(v - z) <= DIFF
  {}

  lemma PoolSums(t: T3, w: nat, zp: int, k: int, y: int)
    ensures PoolRowSum(t, w, zp, k)(y) == Sum(w, PoolTap(t, zp, k, y))
  {}

  datatype DenseArgs = DenseArgs(weights: seq<Q.int8>, bias: Bias, n: nat, inZp: Q.int8, mult: Q.int32, shift: int,
    zp: Q.int8, lo: Q.int8, hi: Q.int8)

  function DenseLayer(a: DenseArgs, wt: T2, m: nat): Dense
  {
    Dense(wt, a.bias, a.n, m, a.inZp, a.mult, a.shift, Output(a.zp, a.lo, a.hi))
  }

  predicate DenseArgsFit(a: DenseArgs, wt: T2, m: nat)
  {
    && Rows(wt, a.n, m) && a.weights == Flatten(wt)
    && (a.bias.Bias? ==> |a.bias.values| == a.n)
    && (forall o | 0 <= o < a.n :: OutputFits(BiasAt(a.bias, o), m, TAP, a.shift))
  }

  method DenseAccumulate(input: array<Q.int8>, m: nat, a: DenseArgs, o: nat, ghost wt: T2) returns (acc: Q.int32)
    requires m <= input.Length && DenseArgsFit(a, wt, m) && o < a.n
    ensures acc == DenseAcc(DenseLayer(a, wt, m), input[..m], o)
    ensures Q.Abs(acc) <= Q.Abs(BiasAt(a.bias, o)) + m * TAP
  {
    hide Sum, DenseTap, OutputFits, Q.Abs;
    ghost var l, b, inp := DenseLayer(a, wt, m), BiasAt(a.bias, o), input[..m];
    BiasFits(b, m, TAP, a.shift);
    acc := if a.bias.NoBias? then 0 else a.bias.values[o];
    SumStep(0, DenseTap(l, inp, o));
    for i := 0 to m
      invariant acc == b + Sum(i, DenseTap(l, inp, o))
      invariant Q.Abs(acc) <= Q.Abs(b) + i * TAP
    {
      FlattenAt(wt, a.n, m, o, i);
      var p := Product(input[i], a.inZp, a.weights[o * m + i]);
      GrowAccumulator(acc, p, b, i, m, TAP, a.shift);
      acc := acc + p;
      SumStep(i, DenseTap(l, inp, o));
      DenseTapIs(l, inp, o, i);
    }
  }

  lemma DenseTapIs(l: Dense, inp: seq<int>, o: int, i: int)
    requires 0 <= i < |inp| && 0 <= o < |l.wt| && i < |l.wt[o]|
    ensures DenseTap(l, inp, o)(i) == (inp[i] - l.inZp) * l.wt[o][i]
  {}

  /** `nn_fully_connected_i8`. */
  method FullyConnected(input: array<Q.int8>, m: nat, a: DenseArgs, output: array<Q.int8>, ghost wt: T2)
    requires input != output && m <= input.Length && a.n <= output.Length && DenseArgsFit(a, wt, m)
    modifies output
    ensures output[..a.n] == DenseRef(DenseLayer(a, wt, m), input[..m])
    ensures forall p | a.n <= p < output.Length :: output[p] == old(output[p])
  {
    hide DenseAcc, PyQuant.Requantize, Q.Requantize, Q.Abs, Q.MultiplyByQuantizedMultiplier, Q.ShiftFits, OutputFits;
    ghost var inp := input[..m];
    ghost var ref := DenseRef(DenseLayer(a, wt, m), inp);
    for o := 0 to a.n
      invariant input[..m] == inp
      invariant forall i | 0 <= i < o :: output[i] == ref[i]
      invariant forall p | a.n <= p < output.Length :: output[p] == old(output[p])
    {
      var acc := DenseAccumulate(input, m, a, o, wt);
      AccumulatorFits(acc, BiasAt(a.bias, o), m, TAP, a.mult, a.shift, a.zp);
      PyQuant.RequantizeAgrees(acc, a.mult, a.shift, a.zp, a.lo, a.hi);
      output[o] := Q.Requantize(acc, a.mult, a.shift, a.zp, a.lo, a.hi);
    }
  }

  /** `nn_argmax_i8`: the first position of the maximum. */
  method Argmax(v: seq<int>) returns (best: nat)
    requires v != []
    ensures best < |v| && forall i | 0 <= i < |v| :: v[i] <= v[best]
    ensures forall i | 0 <= i < best :: v[i] < v[best]
  {
    best := 0;
    for i := 1 to |v|
      invariant best < i
      invariant forall k | 0 <= k < i :: v[k] <= v[best]
      invariant forall k | 0 <= k < best :: v[k] < v[best]
    {
      if v[i] > v[best] {
        best := i;
      }
    }
  }

  lemma {:induction false} DenseBound(a: DenseArgs, wt: T2, inp: seq<Q.int8>, o: nat, i: nat)
    requires DenseArgsFit(a, wt, |inp|) && o < a.n && i <= |inp|
    requires forall k | 0 <= k < |inp| :: -128 <= wt[o][k] <= 127
    ensures Q.Abs(Sum(i, DenseTap(DenseLayer(a, wt, |inp|), inp, o))) <= i * TAP
  {
    hide DenseTap, OutputFits;
    if i > 0 {
      DenseBound(a, wt, inp, o, i - 1);
      DenseTapIs(DenseLayer(a, wt, |inp|), inp, o, i - 1);
      SmallProduct(inp[i - 1], a.inZp, wt[o][i - 1]);
    }
  }

  lemma SmallProduct(v: Q.int8, zp: Q.int8, w: Q.int8)
    ensures Q.Abs((v - zp) * w) <= TAP
  {
    Q.AbsProduct(v - zp, w);
    MulMonotone(Q.Abs(v - zp), 255, Q.Abs(w));
  }

  /** The weights of a fitting layer are bytes, since the flat ones are. */
  lemma WeightsAreBytes(a: DenseArgs, wt: T2, m: nat, o: nat)
    requires DenseArgsFit(a, wt, m) && o < a.n
    ensures forall k | 0 <= k < m :: -128 <= wt[o][k] <= 127
  {
    forall k | 0 <= k < m
      ensures -128 <= wt[o][k] <= 127
    {
      FlattenAt(wt, a.n, m, o, k);
      assert a.weights[o * m + k] == wt[o][k];
    }
  }

  /** Every accumulator of a fitting layer meets the conditions of the requantization. */
  lemma DenseFits(a: DenseArgs, wt: T2, inp: seq<Q.int8>, o: nat)
    requires DenseArgsFit(a, wt, |inp|) && o < a.n
    ensures var acc := DenseAcc(DenseLayer(a, wt, |inp|), inp, o);
            && Q.InInt32(acc) && Q.ShiftFits(acc, a.shift)
            && Q.InInt32(Q.MultiplyByQuantizedMultiplier(acc, a.mult, a.shift) + a.zp)
            && DenseRef(DenseLayer(a, wt, |inp|), inp)[o] == Q.Requantize(acc, a.mult, a.shift, a.zp, a.lo, a.hi)
  {
    hide OutputFits, Q.MultiplyByQuantizedMultiplier, Q.Requantize, PyQuant.Requantize, Sum, DenseTap, Q.ShiftFits;
    var acc := DenseAcc(DenseLayer(a, wt, |inp|), inp, o);
    WeightsAreBytes(a, wt, |inp|, o);
    DenseBound(a, wt, inp, o, |inp|);
    AccumulatorFits(acc, BiasAt(a.bias, o), |inp|, TAP, a.mult, a.shift, a.zp);
    PyQuant.RequantizeAgrees(acc, a.mult, a.shift, a.zp, a.lo, a.hi);
  }

  /** A class whose accumulator is largest has the largest logit, so it ties with the class that
      argmax reports for the outputs of the layer: requantization never demotes the winner. */
  lemma LargestAccumulatorWins(a: DenseArgs, wt: T2, inp: seq<Q.int8>, winner: nat, best: nat)
    requires DenseArgsFit(a, wt, |inp|) && a.mult >= 0 && winner < a.n && best < a.n
    requires var l := DenseLayer(a, wt, |inp|);
             && (forall o | 0 <= o < a.n :: DenseAcc(l, inp, o) <= DenseAcc(l, inp, winner))
             && (forall o | 0 <= o < a.n :: DenseRef(l, inp)[o] <= DenseRef(l, inp)[best])
    ensures var logits := DenseRef(DenseLayer(a, wt, |inp|), inp); logits[winner] == logits[best]
  {
    hide DenseAcc, DenseRef, DenseArgsFit, Q.MultiplyByQuantizedMultiplier, Q.ShiftFits;
    var l := DenseLayer(a, wt, |inp|);
    DenseFits(a, wt, inp, best);
    DenseFits(a, wt, inp, winner);
    Q.MultiplyMonotone(DenseAcc(l, inp, best), DenseAcc(l, inp, winner), a.mult, a.shift);
  }
}
