/** firmware/core/src/kws_model.c and kws-framework/kwslib/infer_int8.py: the layer pipeline, once
    over two fixed scratch buffers and once as a composition of reference kernels. */
module KwsModel {
  import opened Bits
  import opened Tensors
  import opened KernelSpec
  import K = Kernels
  import Q = Quant
  import PyKernels

  const SCRATCH: nat := 8192

  /** Everything in a model but the weight arrays; both sides hold the same numbers. */
  datatype Params = Params(
    inH: nat, inW: nat,
    convB: Bias, convMult: seq<Q.int32>, convShift: seq<int>,
    convOc: nat, convKh: nat, convKw: nat, convStride: nat, convPad: nat,
    nBlocks: nat,
    dwB: Bias, dwMult: seq<Q.int32>, dwShift: seq<int>, dwK: nat, dwStride: nat, dwPad: nat,
    pwB: Bias, pwMult: seq<Q.int32>, pwShift: seq<int>, pwOc: nat,
    gapMult: Q.int32, gapShift: int,
    fcB: Bias, fcMult: Q.int32, fcShift: int, numClasses: nat,
    inZp: Q.int8, convZp: Q.int8, dwZp: Q.int8, pwZp: Q.int8, gapZp: Q.int8, outZp: Q.int8)

  /** `kws_model_t`: flat weight arrays. */
  datatype CModel = CModel(p: Params, convW: seq<Q.int8>, dwW: seq<Q.int8>, pwW: seq<Q.int8>, fcW: seq<Q.int8>)

  /** The quantized-model dict: nested weight arrays. */
  datatype PyModel = PyModel(p: Params, convW: T4, dwW: T3, pwW: T4, fcW: T2)

  // ----- feature-map sizes along the pipeline -----

  function ConvH(p: Params): int
    requires p.convStride >= 1
  { OutSize(p.inH, p.convPad, p.convKh, p.convStride) }

  function ConvW(p: Params): int
    requires p.convStride >= 1
  { OutSize(p.inW, p.convPad, p.convKw, p.convStride) }

  predicate ConvSized(p: Params)
  {
    p.convStride >= 1 && p.convKh <= p.inH + 2 * p.convPad && p.convKw <= p.inW + 2 * p.convPad
    && ConvH(p) >= 1 && ConvW(p) >= 1
  }

  function DwH(p: Params): int
    requires ConvSized(p) && p.dwStride >= 1
  { OutSize(ConvH(p), p.dwPad, p.dwK, p.dwStride) }

  function DwW(p: Params): int
    requires ConvSized(p) && p.dwStride >= 1
  { OutSize(ConvW(p), p.dwPad, p.dwK, p.dwStride) }

  /** Every filter fits its padded input. */
  predicate Sized(p: Params)
  {
    ConvSized(p) &&
    (p.nBlocks >= 1 ==>
      p.dwStride >= 1 && p.dwK <= ConvH(p) + 2 * p.dwPad && p.dwK <= ConvW(p) + 2 * p.dwPad
      && DwH(p) >= 1 && DwW(p) >= 1)
  }

  function LastH(p: Params): nat requires Sized(p) { if p.nBlocks >= 1 then DwH(p) else ConvH(p) }
  function LastW(p: Params): nat requires Sized(p) { if p.nBlocks >= 1 then DwW(p) else ConvW(p) }
  function LastC(p: Params): nat { if p.nBlocks >= 1 then p.pwOc else p.convOc }
  function LastZp(p: Params): Q.int8 { if p.nBlocks >= 1 then p.pwZp else p.convZp }

  /** The three size checks of the C pipeline. */
  predicate FitsScratch(p: Params)
    requires Sized(p)
  {
    && p.convOc * ConvH(p) * ConvW(p) <= SCRATCH
    && (p.nBlocks >= 1 ==> p.convOc * DwH(p) * DwW(p) <= SCRATCH && p.pwOc * DwH(p) * DwW(p) <= SCRATCH)
  }

  // ----- layers -----

  function ConvArgs(m: CModel): K.ConvArgs
  {
    K.ConvArgs(m.convW, m.p.convB, m.p.convOc, m.p.convKh, m.p.convKw, m.p.convStride, m.p.convStride,
               m.p.convPad, m.p.convPad, m.p.inZp, m.p.convMult, m.p.convShift, m.p.convZp, m.p.convZp, 127)
  }

  function DwArgs(m: CModel): K.DwArgs
  {
    K.DwArgs(m.dwW, m.p.dwB, m.p.dwK, m.p.dwK, m.p.dwStride, m.p.dwStride, m.p.dwPad, m.p.dwPad,
             m.p.convZp, m.p.dwMult, m.p.dwShift, m.p.dwZp, m.p.dwZp, 127)
  }

  function PwArgs(m: CModel): K.ConvArgs
  {
    K.ConvArgs(m.pwW, m.p.pwB, m.p.pwOc, 1, 1, 1, 1, 0, 0,
               m.p.dwZp, m.p.pwMult, m.p.pwShift, m.p.pwZp, m.p.pwZp, 127)
  }

  function FcArgs(m: CModel): K.DenseArgs
  {
    K.DenseArgs(m.fcW, m.p.fcB, m.p.numClasses, m.p.gapZp, m.p.fcMult, m.p.fcShift, m.p.outZp, -128, 127)
  }

  function ConvLayer(m: PyModel): Conv
  {
    Conv(m.convW, m.p.convB, m.p.convOc, m.p.convKh, m.p.convKw, m.p.convStride, m.p.convStride,
         m.p.convPad, m.p.convPad, m.p.inZp, m.p.convMult, m.p.convShift, Output(m.p.convZp, m.p.convZp, 127))
  }

  function DwLayer(m: PyModel): Depthwise
  {
    Depthwise(m.dwW, m.p.dwB, m.p.dwK, m.p.dwK, m.p.dwStride, m.p.dwStride, m.p.dwPad, m.p.dwPad,
              m.p.convZp, m.p.dwMult, m.p.dwShift, Output(m.p.dwZp, m.p.dwZp, 127))
  }

  function PwLayer(m: PyModel): Conv
  {
    Conv(m.pwW, m.p.pwB, m.p.pwOc, 1, 1, 1, 1, 0, 0,
         m.p.dwZp, m.p.pwMult, m.p.pwShift, Output(m.p.pwZp, m.p.pwZp, 127))
  }

  function FcLayer(m: PyModel): Dense
  {
    Dense(m.fcW, m.p.fcB, m.p.numClasses, LastC(m.p), m.p.gapZp, m.p.fcMult, m.p.fcShift, Output(m.p.outZp, -128, 127))
  }

  // ----- the reference pipeline -----

  /** The input reshaped to one channel. */
  function OneChannel(inp: T2): T3
  {
    seq(|inp|, y requires 0 <= y < |inp| => seq(|inp[y]|, x requires 0 <= x < |inp[y]| => [inp[y][x]]))
  }

  function ConvMap(m: PyModel, inp: T2): T3
    requires Sized(m.p)
  {
    ConvRef(ConvLayer(m), OneChannel(inp), m.p.inH, m.p.inW, 1, ConvH(m.p), ConvW(m.p))
  }

  function DwMap(m: PyModel, inp: T2): T3
    requires Sized(m.p) && m.p.nBlocks >= 1
  {
    DwRef(DwLayer(m), ConvMap(m, inp), ConvH(m.p), ConvW(m.p), m.p.convOc, DwH(m.p), DwW(m.p))
  }

  function FeatureMap(m: PyModel, inp: T2): T3
    requires Sized(m.p)
  {
    if m.p.nBlocks == 0 then ConvMap(m, inp)
    else ConvRef(PwLayer(m), DwMap(m, inp), DwH(m.p), DwW(m.p), m.p.convOc, DwH(m.p), DwW(m.p))
  }

  /** The logits: what `infer` returns. */
  function Logits(m: PyModel, inp: T2): seq<int>
    requires Sized(m.p)
  {
    var pooled := PoolRef(FeatureMap(m, inp), LastH(m.p), LastW(m.p), LastC(m.p), LastZp(m.p),
                          m.p.gapMult, m.p.gapShift, Output(m.p.gapZp, -128, 127));
    DenseRef(FcLayer(m), pooled)
  }

  /** Array shapes of a model dict and of its parameters. */
  predicate Shaped(m: PyModel)
  {
    var p := m.p;
    && Shape4(m.convW, p.convOc, p.convKh, p.convKw, 1) && |p.convMult| == |p.convShift| == p.convOc
    && (p.convB.Bias? ==> |p.convB.values| == p.convOc)
    && (p.nBlocks >= 1 ==>
          && Shape3(m.dwW, p.dwK, p.dwK, p.convOc) && |p.dwMult| == |p.dwShift| == p.convOc
          && (p.dwB.Bias? ==> |p.dwB.values| == p.convOc)
          && Shape4(m.pwW, p.pwOc, 1, 1, p.convOc) && |p.pwMult| == |p.pwShift| == p.pwOc
          && (p.pwB.Bias? ==> |p.pwB.values| == p.pwOc))
    && Rows(m.fcW, p.numClasses, LastC(p)) && (p.fcB.Bias? ==> |p.fcB.values| == p.numClasses)
  }

  /** infer_int8.py, as calls to the reference kernels. */
  method PyInfer(m: PyModel, inp: T2) returns (logits: seq<int>)
    requires Sized(m.p) && Shaped(m) && Rows(inp, m.p.inH, m.p.inW)
    ensures logits == Logits(m, inp)
  {
    hide ConvRef, DwRef, PoolRef, DenseRef;
    var x := OneChannel(inp);
    var h := PyKernels.Conv2d(x, m.p.inH, m.p.inW, 1, ConvLayer(m));
    ConvShape(ConvLayer(m), x, m.p.inH, m.p.inW, 1, ConvH(m.p), ConvW(m.p));
    if m.p.nBlocks >= 1 {
      var d := PyKernels.DepthwiseConv2d(h, ConvH(m.p), ConvW(m.p), m.p.convOc, DwLayer(m));
      DwShape(DwLayer(m), h, ConvH(m.p), ConvW(m.p), m.p.convOc, DwH(m.p), DwW(m.p));
      SamePointwise(DwH(m.p));
      SamePointwise(DwW(m.p));
      h := PyKernels.Conv2d(d, DwH(m.p), DwW(m.p), m.p.convOc, PwLayer(m));
      ConvShape(PwLayer(m), d, DwH(m.p), DwW(m.p), m.p.convOc, DwH(m.p), DwW(m.p));
    }
    var pooled := PyKernels.GlobalAvgPool(h, LastH(m.p), LastW(m.p), LastC(m.p), LastZp(m.p),
                                          m.p.gapMult, m.p.gapShift, Output(m.p.gapZp, -128, 127));
    PoolLength(h, LastH(m.p), LastW(m.p), LastC(m.p), LastZp(m.p),
               m.p.gapMult, m.p.gapShift, Output(m.p.gapZp, -128, 127));
    logits := PyKernels.FullyConnected(pooled, FcLayer(m));
  }

  lemma SamePointwise(n: nat)
    ensures OutSize(n, 0, 1, 1) == n
  {}

  lemma PoolLength(inp: T3, h: nat, w: nat, c: nat, zp: int, mult: int, shift: int, out: Output)
    ensures |PoolRef(inp, h, w, c, zp, mult, shift, out)| == c
  {}

  // ----- the C pipeline -----

  /** The C model holds the flat weights of the Python model, filters fit, and no accumulator of
      any layer can leave 32 bits. */
  predicate Deployed(c: CModel, m: PyModel)
  {
    && c.p == m.p && Sized(m.p)
    && K.ConvArgsFit(ConvArgs(c), m.convW, 1)
    && (m.p.nBlocks >= 1 ==> K.DwArgsFit(DwArgs(c), m.dwW, m.p.convOc) && K.ConvArgsFit(PwArgs(c), m.pwW, m.p.convOc))
    && K.OutputFits(0, LastH(m.p) * LastW(m.p), K.DIFF, m.p.gapShift)
    && K.DenseArgsFit(FcArgs(c), m.fcW, LastC(m.p))
  }

  lemma Commute3(a: int, b: int, c: int)
    ensures a * b * c == b * c * a
  {}

  lemma ChannelsFit(c: nat, h: int, w: int)
    requires h >= 1 && w >= 1 && h * w * c <= SCRATCH
    ensures c <= SCRATCH
  {
    MulMonotone(1, h, w);
    MulMonotone(1, h * w, c);
  }

  /** `kws_model_infer` with its two static buffers as fields, so that whatever an earlier call left
      in them is still there. */
  class Engine {
    const bufA: array<Q.int8>
    const bufB: array<Q.int8>

    ghost predicate Valid()
    {
      bufA != bufB && bufA.Length == SCRATCH && bufB.Length == SCRATCH
    }

    constructor ()
      ensures Valid() && fresh(bufA) && fresh(bufB)
    {
      bufA := new Q.int8[SCRATCH](_ => 0);
      bufB := new Q.int8[SCRATCH](_ => 0);
    }

    /** The logits are bit for bit those of the Python reference, for every deployed model and every
        input, whatever the scratch buffers held before; the call is refused exactly when a feature
        map exceeds the scratch size, and then no logit is written. */
    method Infer(c: CModel, input: array<Q.int8>, logits: array<Q.int8>, ghost m: PyModel, ghost inp: T2)
      returns (ok: bool)
      requires Valid() && Deployed(c, m)
      requires K.Holds(input, OneChannel(inp), c.p.inH, c.p.inW, 1) && c.p.numClasses <= logits.Length
      requires input != bufA && input != bufB && logits != bufA && logits != bufB
      modifies bufA, bufB, logits
      ensures ok <==> FitsScratch(c.p)
      ensures ok ==> logits[..c.p.numClasses] == Logits(m, inp)
      ensures !ok ==> logits[..] == old(logits[..])
      ensures forall i | c.p.numClasses <= i < logits.Length :: logits[i] == old(logits[i])
    {
      hide ConvRef, DwRef, PoolRef, DenseRef, K.ConvArgsFit, K.DwArgsFit, K.DenseArgsFit, K.OutputFits, K.Holds;
      var p := c.p;
      if p.convOc * ConvH(p) * ConvW(p) > SCRATCH {
        return false;
      }
      Commute3(p.convOc, ConvH(p), ConvW(p));
      var h, w := K.Conv2d(input, p.inH, p.inW, 1, ConvArgs(c), bufA, OneChannel(inp), m.convW);
      var cur, ch := bufA, p.convOc;
      ghost var conv := ConvRef(ConvLayer(m), OneChannel(inp), p.inH, p.inW, 1, h, w);
      if p.nBlocks >= 1 {
        if p.convOc * DwH(p) * DwW(p) > SCRATCH {
          return false;
        }
        Commute3(p.convOc, DwH(p), DwW(p));
        var dh, dw := K.DepthwiseConv2d(cur, h, w, ch, DwArgs(c), bufB, conv, m.dwW);
        ghost var dmap := DwRef(DwLayer(m), conv, h, w, ch, dh, dw);
        cur, h, w := bufB, dh, dw;
        if p.pwOc * h * w > SCRATCH {
          return false;
        }
        Commute3(p.pwOc, h, w);
        SamePointwise(h);
        SamePointwise(w);
        h, w := K.Conv2d(cur, h, w, ch, PwArgs(c), bufA, dmap, m.pwW);
        cur, ch := bufA, p.pwOc;
      }
      ghost var fmap := FeatureMap(m, inp);
      assert K.Holds(cur, fmap, LastH(p), LastW(p), LastC(p));
      Commute3(ch, h, w);
      ChannelsFit(ch, h, w);
      K.GlobalAvgPool(cur, h, w, ch, LastZp(p), p.gapMult, p.gapShift, p.gapZp, -128, 127, bufB, fmap);
      K.FullyConnected(bufB, ch, FcArgs(c), logits, m.fcW);
      return true;
    }
  }
}
