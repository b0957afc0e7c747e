/** server/src/vad.c and the block loop of server/src/session.c: mean absolute amplitude, of a whole
    span and accumulated over decode blocks. */
module Vad {
  import opened Bits

  const BLOCK: nat := 256
  type Sample = v: int | -32768 <= v <= 32767

  function Magnitude(v: Sample): (m: nat)
    ensures m <= 32768
  {
    var s: int := v;   // widened before negation
    if s < 0 then -s else s
  }

  function MagnitudeSum(pcm: seq<Sample>): (s: nat)
    ensures s <= 32768 * |pcm|
  {
    if pcm == [] then 0 else MagnitudeSum(pcm[..|pcm| - 1]) + Magnitude(pcm[|pcm| - 1])
  }

  /** The mean absolute amplitude, rounded down; zero for no samples. */
  function Mean(pcm: seq<Sample>): nat
  {
    if pcm == [] then 0 else Quot(MagnitudeSum(pcm), |pcm|)
  }

  /** `vad_frame_energy`. */
  method FrameEnergy(pcm: seq<Sample>) returns (e: nat)
    ensures e == Mean(pcm) && e <= 32768
  {
    if |pcm| == 0 {
      return 0;
    }
    var sum := 0;
    for i := 0 to |pcm|
      invariant sum == MagnitudeSum(pcm[..i])
    {
      assert pcm[..i + 1][..i] == pcm[..i];
      var s: int := pcm[i];
      sum := sum + if s < 0 then -s else s;
    }
    assert pcm[..|pcm|] == pcm;
    e := Quot(sum, |pcm|);
    MeanBound(sum, |pcm|);
  }

  lemma EmptyMean()
    ensures Mean([]) == 0
  {}

  /** A sample counts by its absolute value. */
  lemma MagnitudeExact(v: Sample)
    ensures v <= Magnitude(v) && 0 - v <= Magnitude(v) && (Magnitude(v) == v || Magnitude(v) == 0 - v)
  {}

  /** The mean is exact: a signal of constant magnitude has that mean, whatever its signs. */
  lemma ConstantMean(pcm: seq<Sample>, v: nat)
    requires pcm != [] && forall i | 0 <= i < |pcm| :: pcm[i] == v || pcm[i] == 0 - v
    ensures Mean(pcm) == v
  {
    hide MagnitudeSum;
    ConstantSum(pcm, v);
    ExactQuotient(v, |pcm|);
  }

  lemma ExactQuotient(v: nat, n: nat)
    requires n >= 1
    ensures Quot(v * n, n) == v
  {
    DivModUnique(v * n, n, v, 0);
  }

  lemma {:induction false} ConstantSum(pcm: seq<Sample>, v: nat)
    requires forall i | 0 <= i < |pcm| :: pcm[i] == v || pcm[i] == 0 - v
    ensures MagnitudeSum(pcm) == v * |pcm|
  {
    if pcm != [] {
      ConstantSum(pcm[..|pcm| - 1], v);
    }
  }

  lemma MeanBound(sum: nat, n: nat)
    requires n >= 1 && sum <= 32768 * n
    ensures Quot(sum, n) <= 32768
  {
    var q := Quot(sum, n);
    if q > 32768 {
      MulMonotone(32769, q, n);
    }
  }

  /** The block loop: each block contributes its truncated mean times its length. */
  function Blocked(pcm: seq<Sample>): nat
    decreases |pcm|
  {
    if |pcm| <= BLOCK then Mean(pcm) * |pcm|
    else BlockPart(pcm) + Blocked(pcm[BLOCK..])
  }

  function BlockPart(pcm: seq<Sample>): nat
    requires |pcm| > BLOCK
  {
    Mean(pcm[..BLOCK]) * BLOCK
  }

  lemma {:induction false} SumAppend(a: seq<Sample>, b: seq<Sample>)
    ensures MagnitudeSum(a + b) == MagnitudeSum(a) + MagnitudeSum(b)
  {
    if b == [] {
      assert a + b == a;
    } else {
      var b' := b[..|b| - 1];
      SumAppend(a, b');
      assert (a + b)[..|a + b| - 1] == a + b';
    }
  }

  lemma MeanTimes(pcm: seq<Sample>)
    requires pcm != []
    ensures 0 <= Mean(pcm) * |pcm| <= MagnitudeSum(pcm) < Mean(pcm) * |pcm| + |pcm|
  {
    hide MagnitudeSum;
    Commute(Quot(MagnitudeSum(pcm), |pcm|), |pcm|);
  }

  lemma Commute(a: nat, b: nat)
    ensures a * b == b * a >= 0
  {}

  /** Truncating per block loses less than one unit per sample. */
  lemma {:induction false} BlockedClose(pcm: seq<Sample>)
    ensures Blocked(pcm) <= MagnitudeSum(pcm)
    ensures pcm != [] ==> MagnitudeSum(pcm) < Blocked(pcm) + |pcm|
    decreases |pcm|
  {
    hide Mean;
    if pcm == [] {
    } else if |pcm| <= BLOCK {
      MeanTimes(pcm);
    } else {
      MeanTimes(pcm[..BLOCK]);
      BlockedClose(pcm[BLOCK..]);
      SumAppend(pcm[..BLOCK], pcm[BLOCK..]);
      assert pcm == pcm[..BLOCK] + pcm[BLOCK..];
    }
  }

  /** The mean computed from the blocks is the exact mean or one less, and it is exact up to one
      block; the 64-bit accumulator cannot overflow below 2^48 samples. */
  lemma BlockedMean(pcm: seq<Sample>)
    requires pcm != []
    ensures var e := Quot(Blocked(pcm), |pcm|); e == Mean(pcm) || e == Mean(pcm) - 1
    ensures |pcm| <= BLOCK ==> Quot(Blocked(pcm), |pcm|) == Mean(pcm)
    ensures |pcm| < 0x1_0000_0000_0000 ==> Blocked(pcm) < 0x1_0000_0000_0000_0000
  {
    hide Blocked, MagnitudeSum;
    BlockedClose(pcm);
    NearQuotients(Blocked(pcm), MagnitudeSum(pcm), |pcm|);
    if |pcm| <= BLOCK {
      OneBlock(pcm);
      NearQuotients(Mean(pcm) * |pcm|, Mean(pcm) * |pcm|, |pcm|);
      DivModUnique(Blocked(pcm), |pcm|, Mean(pcm), 0);
    }
  }

  lemma OneBlock(pcm: seq<Sample>)
    requires |pcm| <= BLOCK
    ensures Blocked(pcm) == Mean(pcm) * |pcm| == |pcm| * Mean(pcm)
  {}

  lemma NearQuotients(a: nat, s: nat, n: nat)
    requires n >= 1 && a <= s && s <= a + n
    ensures s < a + n ==> Quot(s, n) <= Quot(a, n) + 1 && Quot(a, n) <= Quot(s, n)
  {
    var p: int, q: int := Quot(a, n), Quot(s, n);
    if p > q {
      MulMonotone(q + 1, p, n);
    } else if p + 2 <= q {
      MulMonotone(p + 2, q, n);
    }
  }

  /** One less does occur: 255 samples of magnitude 1 and a zero fill a block, then a 2 follows. */
  lemma OneLessOccurs() returns (pcm: seq<Sample>)
    ensures |pcm| == 257 && Mean(pcm) == 1 && Quot(Blocked(pcm), |pcm|) == 0
  {
    var ones: seq<Sample> := seq(255, i => 1);
    var z: Sample := 0;
    var two: Sample := 2;
    var first, last := ones + [z], [two];
    pcm := first + last;
    OnesSum(ones);
    SumAppend(ones, [z]);
    assert MagnitudeSum([z]) == MagnitudeSum([]) + 0;
    SumAppend(first, last);
    assert MagnitudeSum(last) == MagnitudeSum([]) + 2;
    assert pcm[..BLOCK] == first && pcm[BLOCK..] == last;
    assert Mean(first) == 0 && Mean(last) == 2;
  }

  lemma {:induction false} OnesSum(s: seq<Sample>)
    requires forall i | 0 <= i < |s| :: s[i] == 1
    ensures MagnitudeSum(s) == |s|
  {
    if s != [] {
      OnesSum(s[..|s| - 1]);
    }
  }
}
