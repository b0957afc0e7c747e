/** What the layer pipeline of KwsModel.dfy means as a whole: which parameters each layer is given,
    where every output reads, and what silence and the clamps give. */
module KwsMeaning {
  import opened Tensors
  import opened KernelSpec
  import opened KwsModel
  import M = KernelMeaning
  import PyQuant

  predicate NoBiases(m: PyModel)
  {
    m.p.convB.NoBias? && m.p.dwB.NoBias? && m.p.pwB.NoBias? && m.p.fcB.NoBias?
  }

  /** Zero in, zero out: on an input that is its zero point everywhere, a model without biases gives
      the output zero point for every class, whatever its weights and multipliers. Every layer must
      therefore read with the zero point the previous one writes, padding included. */
  lemma ZeroInZeroOut(m: PyModel, inp: T2)
    requires Sized(m.p) && NoBiases(m) && Rows(inp, m.p.inH, m.p.inW)
    requires forall y, x | 0 <= y < m.p.inH && 0 <= x < m.p.inW :: inp[y][x] == m.p.inZp
    ensures |Logits(m, inp)| == m.p.numClasses
    ensures forall o | 0 <= o < m.p.numClasses :: Logits(m, inp)[o] == m.p.outZp
  {
    hide ConvRef, DwRef, PoolRef, DenseRef, M.Silent, OutSize;
    var p := m.p;
    OneChannelSilent(m, inp);
    M.SilentConv(ConvLayer(m), OneChannel(inp), p.inH, p.inW, 1, ConvH(p), ConvW(p));
    if p.nBlocks >= 1 {
      M.SilentDw(DwLayer(m), ConvMap(m, inp), ConvH(p), ConvW(p), p.convOc, DwH(p), DwW(p));
      M.SilentConv(PwLayer(m), DwMap(m, inp), DwH(p), DwW(p), p.convOc, DwH(p), DwW(p));
    }
    M.SilentPool(FeatureMap(m, inp), LastH(p), LastW(p), LastC(p), LastZp(p), p.gapMult, p.gapShift,
                 Output(p.gapZp, -128, 127));
    var pooled := PoolRef(FeatureMap(m, inp), LastH(p), LastW(p), LastC(p), LastZp(p), p.gapMult, p.gapShift,
                          Output(p.gapZp, -128, 127));
    M.SilentDense(FcLayer(m), pooled);
  }

  lemma OneChannelSilent(m: PyModel, inp: T2)
    requires Rows(inp, m.p.inH, m.p.inW)
    requires forall y, x | 0 <= y < m.p.inH && 0 <= x < m.p.inW :: inp[y][x] == m.p.inZp
    ensures M.Silent(OneChannel(inp), m.p.inH, m.p.inW, 1, m.p.inZp)
  {}

  // ----- the clamps -----

  /** Both feature maps of the pipeline are rectified at their zero point, and logits are int8. */
  lemma Rectified(m: PyModel, inp: T2)
    requires Sized(m.p)
    ensures M.Within(FeatureMap(m, inp), LastH(m.p), LastW(m.p), LastC(m.p), LastZp(m.p), 127)
    ensures |Logits(m, inp)| == m.p.numClasses && forall v | v in Logits(m, inp) :: -128 <= v <= 127
  {
    hide ConvRef, DwRef, PoolRef, OutSize, M.Within;
    var p := m.p;
    if p.nBlocks == 0 {
      M.ConvWithin(ConvLayer(m), OneChannel(inp), p.inH, p.inW, 1, ConvH(p), ConvW(p));
    } else {
      M.ConvWithin(PwLayer(m), DwMap(m, inp), DwH(p), DwW(p), p.convOc, DwH(p), DwW(p));
    }
  }

  // ----- one path through the pipeline -----

  /** One convolution tap: output (y, x) of channel c reads input row y * stride - pad + k and column
      x * stride - pad + l, or nothing in the padding, and is rescaled with its own channel's bias,
      multiplier and shift. */
  lemma ConvPath(m: PyModel, inp: T2, y: nat, x: nat, c: nat, k: nat, l: nat)
    requires Sized(m.p) && Rows(inp, m.p.inH, m.p.inW)
    requires y < ConvH(m.p) && x < ConvW(m.p) && c < m.p.convOc && k < m.p.convKh && l < m.p.convKw
    requires forall k', l', c' :: At4(m.convW, c, k', l', c') == if k' == k && l' == l && c' == 0 then 1 else 0
    ensures var p := m.p;
            var i, j := y * p.convStride - p.convPad + k, x * p.convStride - p.convPad + l;
            var read := if 0 <= i < p.inH && 0 <= j < p.inW then inp[i][j] - p.inZp else 0;
            At3(ConvMap(m, inp), y, x, c)
            == PyQuant.Requantize(BiasAt(p.convB, c) + read,
                                  Get(p.convMult, c), Get(p.convShift, c), p.convZp, p.convZp, 127)
  {
    hide At4, ConvAcc, PyQuant.Requantize, OutSize;
    var p := m.p;
    var layer := ConvLayer(m);
    M.ConvEntry(layer, OneChannel(inp), p.inH, p.inW, 1, ConvH(p), ConvW(p), y, x, c);
    M.ConvDelta(Site(layer, OneChannel(inp), p.inH, p.inW, 1, y, x, c), k, l, 0);
  }

  /** One tap through a separable block: the depthwise filter reads its own channel c with the block's
      stride and padding, the pointwise one the same position of channel c. */
  lemma BlockPath(m: PyModel, inp: T2, y: nat, x: nat, o: nat, c: nat, k: nat, l: nat)
    requires Sized(m.p) && m.p.nBlocks >= 1
    requires y < DwH(m.p) && x < DwW(m.p) && o < m.p.pwOc && c < m.p.convOc && k < m.p.dwK && l < m.p.dwK
    requires forall k', l' :: At3(m.dwW, k', l', c) == if k' == k && l' == l then 1 else 0
    requires forall k', l', c' :: At4(m.pwW, o, k', l', c') == if k' == 0 && l' == 0 && c' == c then 1 else 0
    ensures var p := m.p;
            var i, j := y * p.dwStride - p.dwPad + k, x * p.dwStride - p.dwPad + l;
            var read := if 0 <= i < ConvH(p) && 0 <= j < ConvW(p) then At3(ConvMap(m, inp), i, j, c) - p.convZp else 0;
            var d := PyQuant.Requantize(BiasAt(p.dwB, c) + read,
                                        Get(p.dwMult, c), Get(p.dwShift, c), p.dwZp, p.dwZp, 127);
            At3(FeatureMap(m, inp), y, x, o)
            == PyQuant.Requantize(BiasAt(p.pwB, o) + d - p.dwZp,
                                  Get(p.pwMult, o), Get(p.pwShift, o), p.pwZp, p.pwZp, 127)
  {
    hide At3, At4, ConvAcc, DwAcc, ConvRef, DwRef, PyQuant.Requantize, OutSize;
    var p := m.p;
    var conv, dw := ConvMap(m, inp), DwMap(m, inp);
    M.DwEntry(DwLayer(m), conv, ConvH(p), ConvW(p), p.convOc, DwH(p), DwW(p), y, x, c);
    M.DwDelta(DwSite(DwLayer(m), conv, ConvH(p), ConvW(p), y, x, c), k, l);
    M.ConvEntry(PwLayer(m), dw, DwH(p), DwW(p), p.convOc, DwH(p), DwW(p), y, x, o);
    M.ConvDelta(Site(PwLayer(m), dw, DwH(p), DwW(p), p.convOc, y, x, o), 0, 0, c);
  }

  /** One entry of the feature map through the pool and a dense row that looks at its channel only. */
  lemma HeadPath(m: PyModel, inp: T2, o: nat, c: nat, y: nat, x: nat, v: int)
    requires Sized(m.p) && o < m.p.numClasses && o < |m.fcW| && c < LastC(m.p)
    requires y < LastH(m.p) && x < LastW(m.p)
    requires forall j :: Get(m.fcW[o], j) == if j == c then 1 else 0
    requires forall y', x' | 0 <= y' < LastH(m.p) && 0 <= x' < LastW(m.p) ::
      At3(FeatureMap(m, inp), y', x', c) == LastZp(m.p) + if y' == y && x' == x then v else 0
    ensures var p := m.p;
            var pooled := PyQuant.Requantize(v, p.gapMult, p.gapShift, p.gapZp, -128, 127);
            |Logits(m, inp)| == p.numClasses
            && Logits(m, inp)[o]
            == PyQuant.Requantize(BiasAt(p.fcB, o) + pooled - p.gapZp, p.fcMult, p.fcShift, p.outZp, -128, 127)
  {
    hide At3, Get, FeatureMap, DenseAcc, PoolAcc, PyQuant.Requantize, OutSize;
    var p := m.p;
    var last := FeatureMap(m, inp);
    var pooled := PoolRef(last, LastH(p), LastW(p), LastC(p), LastZp(p), p.gapMult, p.gapShift,
                          Output(p.gapZp, -128, 127));
    M.PoolDelta(last, LastH(p), LastW(p), LastZp(p), c, y, x, v);
    M.DenseDelta(FcLayer(m), pooled, o, c);
  }
}
