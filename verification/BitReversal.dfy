/** The bit-reversal permutation of firmware/core/src/dsp/fft.c and the reverse-carry counter
    that enumerates it. */
module BitReversal {
  import opened Bits

  /** The low `bits` bits of i in reverse order. */
  function Rev(bits: nat, i: nat): (r: nat)
    ensures r < Pow2(bits)
  {
    if bits == 0 then 0 else Pow2(bits - 1) * (i % 2) + Rev(bits - 1, i / 2)
  }

  /** Bit reversal read from the most significant end. */
  lemma {:induction false} RevTop(bits: nat, i: nat)
    requires bits >= 1 && i < Pow2(bits)
    ensures Rev(bits, i) == 2 * Rev(bits - 1, i % Pow2(bits - 1)) + i / Pow2(bits - 1)
  {
    if bits == 1 {
    } else {
      hide Rev;
      var q, h, b := Pow2(bits - 2), i / 2, i % 2;
      RevTop(bits - 1, h);
      Halved(i, q);
      RevStep(bits - 1, h % q, b);
      RevStep(bits, h, b);
    }
  }

  lemma Halved(i: nat, q: nat)
    requires q >= 1
    ensures i == 2 * (i / 2) + i % 2
    ensures i % (2 * q) == 2 * (i / 2 % q) + i % 2 && i / (2 * q) == i / 2 / q
  {
    DivDiv(i, q);
    ModDouble(i, q);
  }

  lemma RevStep(bits: nat, h: nat, b: nat)
    requires bits >= 1 && b < 2
    ensures Rev(bits, 2 * h + b) == (if b == 1 then Pow2(bits - 1) else 0) + Rev(bits - 1, h)
  {
    assert (2 * h + b) % 2 == b && (2 * h + b) / 2 == h;
  }

  /** Reversing twice is the identity. */
  lemma {:induction false} RevInvolution(bits: nat, i: nat)
    requires i < Pow2(bits)
    ensures Rev(bits, Rev(bits, i)) == i
  {
    if bits == 0 {
    } else {
      var p, low := Pow2(bits - 1), Rev(bits - 1, i / 2);
      var r := Rev(bits, i);
      DivModUnique(r, p, i % 2, low);
      RevTop(bits, r);
      RevInvolution(bits - 1, i / 2);
    }
  }

  lemma RevPermutes(bits: nat)
    ensures forall k: nat | k < Pow2(bits) :: Rev(bits, k) < Pow2(bits) && Rev(bits, Rev(bits, k)) == k
  {
    forall k: nat | k < Pow2(bits)
      ensures Rev(bits, Rev(bits, k)) == k
    {
      RevInvolution(bits, k);
    }
  }

  lemma {:induction false} RevZero(bits: nat)
    ensures Rev(bits, 0) == 0
  {
    if bits > 0 {
      RevZero(bits - 1);
    }
  }

  /** One position of the carry, from the top bit down: if the counter's top bit is set it is
      cleared and the carry moves on; otherwise setting it completes the increment. */
  lemma CarryStep(bits: nat, d: nat)
    requires bits >= 1 && d + 1 < Pow2(bits)
    ensures var r, top := Rev(bits, d), Pow2(bits - 1);
            if d % 2 == 1 then
              && BitAnd(r, top) != 0
              && BitXor(r, top) == Rev(bits - 1, d / 2)
              && Rev(bits, d + 1) == Rev(bits - 1, d / 2 + 1)
              && d / 2 + 1 < top
            else
              && BitAnd(r, top) == 0
              && BitXor(r, top) == Rev(bits, d + 1)
  {
    var r, top, h := Rev(bits, d), Pow2(bits - 1), d / 2;
    RevStep(bits, h, d % 2);
    DivModUnique(r, top, d % 2, Rev(bits - 1, h));
    AndPow2(r, bits - 1);
    XorPow2(r, bits - 1);
    if d % 2 == 1 {
      RevStep(bits, h + 1, 0);
    } else {
      RevStep(bits, h, 1);
    }
  }

  /** One turn of the reverse-carry counter: from the reversal of i - 1 to the reversal of i,
      by clearing leading ones from the top bit down and setting the first zero. */
  method NextReversed(n: nat, j0: nat, ghost m: nat, ghost i: nat) returns (j: nat)
    requires n == Pow2(m) && 1 <= i < n && j0 == Rev(m, i - 1)
    ensures j == Rev(m, i)
  {
    hide Rev, BitAnd, BitXor;
    j := j0;
    var bit := n / 2;
    ghost var l: nat, d: nat := m, i - 1;
    while BitAnd(j, bit) != 0
      invariant 1 <= l <= m && bit == Pow2(l - 1)
      invariant d + 1 < Pow2(l)
      invariant j == Rev(l, d)
      invariant Rev(m, i) == Rev(l, d + 1)
      decreases l
    {
      CarryStep(l, d);
      j := BitXor(j, bit);
      bit := bit / 2;
      l, d := l - 1, d / 2;
    }
    CarryStep(l, d);
    j := BitXor(j, bit);
  }
}
