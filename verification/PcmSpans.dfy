/** server/src/session.c:20-30: bytes to samples, and when cutting a payload into spans matters. */
module PcmSpans {
  import opened CString
  import opened Vad

  /** A little-endian 16-bit sample. */
  function Le16(lo: Byte, hi: Byte): Sample
  {
    var u := lo as int + 256 * hi as int;
    if u >= 0x8000 then u - 0x1_0000 else u
  }

  /** The whole samples of a payload; a trailing odd byte is dropped. */
  function Decode(bytes: Bytes): seq<Sample>
  {
    seq(|bytes| / 2, i requires 0 <= i < |bytes| / 2 => Le16(bytes[2 * i], bytes[2 * i + 1]))
  }

  lemma Le16Injective(a: Byte, b: Byte, c: Byte, d: Byte)
    requires Le16(a, b) == Le16(c, d)
    ensures a == c && b == d
  {}

  /** The 16-bit word of a sample in two's complement. */
  function Word(v: int): (u: nat)
    ensures u < 0x1_0000
  {
    v % 0x1_0000
  }

  function LowByte(v: int): Byte { (Word(v) % 256) as char }
  function HighByte(v: int): Byte { (Word(v) / 256) as char }

  /** Low byte first. */
  function Encode(pcm: seq<Sample>): Bytes
  {
    seq(2 * |pcm|, i requires 0 <= i < 2 * |pcm| =>
      if i % 2 == 0 then LowByte(pcm[i / 2]) else HighByte(pcm[i / 2]))
  }

  /** Decoding gives back what was encoded. */
  lemma DecodeEncode(pcm: seq<Sample>)
    ensures Decode(Encode(pcm)) == pcm
  {
    hide Le16, LowByte, HighByte;
    var bytes := Encode(pcm);
    forall i | 0 <= i < |pcm|
      ensures Decode(bytes)[i] == pcm[i]
    {
      SamplePair(pcm, i);
      TwosComplement(pcm[i]);
    }
  }

  lemma SamplePair(pcm: seq<Sample>, i: nat)
    requires i < |pcm|
    ensures Encode(pcm)[2 * i] == LowByte(pcm[i]) && Encode(pcm)[2 * i + 1] == HighByte(pcm[i])
  {
    hide LowByte, HighByte;
    assert (2 * i) / 2 == i && (2 * i + 1) / 2 == i && (2 * i) % 2 == 0 && (2 * i + 1) % 2 == 1;
  }

  lemma TwosComplement(v: Sample)
    ensures Le16(LowByte(v), HighByte(v)) == v
  {}

  /** And encoding what was decoded, up to an odd last byte. */
  lemma EncodeDecode(bytes: Bytes)
    ensures Encode(Decode(bytes)) == bytes[..2 * (|bytes| / 2)]
  {
    hide Le16, LowByte, HighByte, Encode;
    var pcm := Decode(bytes);
    EncodedLength(pcm);
    forall j | 0 <= j < 2 * |pcm|
      ensures Encode(pcm)[j] == bytes[j]
    {
      var i := j / 2;
      SamplePair(pcm, i);
      BothBytes(bytes[2 * i], bytes[2 * i + 1]);
      assert j == 2 * i || j == 2 * i + 1;
    }
  }

  lemma EncodedLength(pcm: seq<Sample>)
    ensures |Encode(pcm)| == 2 * |pcm|
  {}

  lemma BothBytes(lo: Byte, hi: Byte)
    ensures LowByte(Le16(lo, hi)) == lo && HighByte(Le16(lo, hi)) == hi
  {
    WordOf(lo, hi);
  }

  lemma WordOf(lo: Byte, hi: Byte)
    ensures Word(Le16(lo, hi)) == lo as int + 256 * hi as int
  {}

  // ----- two spans -----

  /** A span of even length may be decoded on its own. */
  lemma EvenSpan(a: Bytes, b: Bytes)
    requires |a| % 2 == 0 || b == []
    ensures Decode(a + b) == Decode(a) + Decode(b)
  {
    if b == [] {
      assert a + b == a;
    }
  }

  /** Two spans decode as their concatenation exactly when the first has even length or nothing
      follows it, or, by accident, when an even number of bytes follows that all equal the byte
      before them. */
  lemma SplitExact(a: Bytes, b: Bytes)
    ensures Decode(a + b) == Decode(a) + Decode(b)
       <==> |a| % 2 == 0 || b == [] || (|b| % 2 == 0 && forall i | 0 <= i < |b| :: b[i] == a[|a| - 1])
  {
    if |a| % 2 == 0 || b == [] {
      EvenSpan(a, b);
    } else if |b| % 2 == 1 {
      assert |Decode(a + b)| == |Decode(a) + Decode(b)| + 1;
    } else {
      if Decode(a + b) == Decode(a) + Decode(b) {
        Misaligned(a, b, |b| / 2);
      }
      if forall i | 0 <= i < |b| :: b[i] == a[|a| - 1] {
        SameByte(a, b);
      }
    }
  }

  lemma {:induction false} Misaligned(a: Bytes, b: Bytes, k: nat)
    requires |a| % 2 == 1 && |b| % 2 == 0 && 2 * k <= |b| && Decode(a + b) == Decode(a) + Decode(b)
    ensures forall i | 0 <= i < 2 * k :: b[i] == a[|a| - 1]
  {
    if k > 0 {
      Misaligned(a, b, k - 1);
      NextPair(a, b, k - 1);
    }
  }

  /** Sample k of the second span pairs bytes that the concatenation pairs one place earlier. */
  lemma NextPair(a: Bytes, b: Bytes, k: nat)
    requires |a| % 2 == 1 && 2 * k + 1 < |b| && Decode(a + b) == Decode(a) + Decode(b)
    ensures b[2 * k] == if k == 0 then a[|a| - 1] else b[2 * k - 1]
    ensures b[2 * k + 1] == b[2 * k]
  {
    hide Le16;
    var all, p := a + b, |a| / 2 + k;
    assert 2 * p == |a| - 1 + 2 * k;
    assert Decode(all)[p] == Le16(all[2 * p], all[2 * p + 1]);
    assert (Decode(a) + Decode(b))[p] == Decode(b)[k] == Le16(b[2 * k], b[2 * k + 1]);
    Le16Injective(all[2 * p], all[2 * p + 1], b[2 * k], b[2 * k + 1]);
  }

  lemma SameByte(a: Bytes, b: Bytes)
    requires |a| % 2 == 1 && |b| % 2 == 0 && forall i | 0 <= i < |b| :: b[i] == a[|a| - 1]
    ensures Decode(a + b) == Decode(a) + Decode(b)
  {
    var whole, parts := Decode(a + b), Decode(a) + Decode(b);
    forall p | 0 <= p < |whole|
      ensures whole[p] == parts[p]
    {
      if p >= |a| / 2 {
        assert parts[p] == Decode(b)[p - |a| / 2];
      }
    }
  }

  // ----- any number of spans -----

  /** Each span decoded on its own, as `session_on_pcm` does. */
  function DecodeEach(spans: seq<Bytes>): seq<Sample>
  {
    if spans == [] then [] else DecodeEach(spans[..|spans| - 1]) + Decode(spans[|spans| - 1])
  }

  function Lengths(spans: seq<Bytes>): seq<nat>
  {
    seq(|spans|, i requires 0 <= i < |spans| => |spans[i]|)
  }

  /** Nothing follows a span of odd length. */
  predicate Aligned(lens: seq<nat>)
  {
    forall i, j | 0 <= i < j < |lens| :: lens[i] % 2 == 0 || lens[j] == 0
  }

  lemma {:induction false} AlignedSpans(spans: seq<Bytes>)
    requires Aligned(Lengths(spans))
    ensures DecodeEach(spans) == Decode(Concat(spans))
  {
    hide Decode;
    if spans == [] {
      NoBytes();
    } else {
      var init, last := spans[..|spans| - 1], spans[|spans| - 1];
      assert forall i | 0 <= i < |init| :: Lengths(init)[i] == Lengths(spans)[i];
      AlignedSpans(init);
      if last != [] {
        EvenTotal(init, last, spans);
      }
      EvenSpan(Concat(init), last);
    }
  }

  lemma NoBytes()
    ensures Decode([]) == []
  {}

  lemma EvenTotal(init: seq<Bytes>, last: Bytes, spans: seq<Bytes>)
    requires spans == init + [last] && last != [] && Aligned(Lengths(spans))
    ensures |Concat(init)| % 2 == 0
  {
    forall i | 0 <= i < |init|
      ensures |init[i]| % 2 == 0
    {
      assert Lengths(spans)[i] == |init[i]| && Lengths(spans)[|init|] == |last|;
    }
    AllEven(init);
  }

  lemma {:induction false} AllEven(spans: seq<Bytes>)
    requires forall i | 0 <= i < |spans| :: |spans[i]| % 2 == 0
    ensures |Concat(spans)| % 2 == 0
  {
    if spans != [] {
      AllEven(spans[..|spans| - 1]);
    }
  }

  /** Spans of these lengths may be decoded one by one, whatever they contain, exactly when no
      bytes follow a span of odd length. */
  lemma SpansExact(lens: seq<nat>)
    ensures (forall spans | Lengths(spans) == lens :: DecodeEach(spans) == Decode(Concat(spans))) <==> Aligned(lens)
  {
    hide Decode, DecodeEach, Concat;
    if Aligned(lens) {
      forall spans | Lengths(spans) == lens
        ensures DecodeEach(spans) == Decode(Concat(spans))
      {
        AlignedSpans(spans);
      }
    } else {
      var spans := Shifted(lens);
      assert Lengths(spans) == lens && DecodeEach(spans) != Decode(Concat(spans));
    }
  }

  /** For two spans: the first has even length or the second is empty. */
  lemma TwoSpans(n: nat, m: nat)
    ensures (forall a: Bytes, b: Bytes | |a| == n && |b| == m :: Decode(a + b) == Decode(a) + Decode(b))
       <==> n % 2 == 0 || m == 0
  {
    hide Decode;
    if n % 2 == 0 || m == 0 {
      forall a: Bytes, b: Bytes | |a| == n && |b| == m
        ensures Decode(a + b) == Decode(a) + Decode(b)
      {
        SplitExact(a, b);
      }
    } else {
      var a: Bytes := seq(n, _ => 0 as char);
      var b: Bytes := seq(m, _ => 1 as char);
      SplitExact(a, b);
      assert b[0] != a[|a| - 1];
      assert |a| == n && |b| == m && Decode(a + b) != Decode(a) + Decode(b);
    }
  }

  function Zeros(n: nat): Bytes { seq(n, _ => 0 as char) }

  function AllZeros(lens: seq<nat>): seq<Bytes>
  {
    seq(|lens|, i requires 0 <= i < |lens| => Zeros(lens[i]))
  }

  predicate Quiet(bytes: Bytes) { forall i | 0 <= i < |bytes| :: bytes[i] == 0 as char }

  lemma {:induction false} QuietTotal(lens: seq<nat>)
    ensures Quiet(Concat(AllZeros(lens)))
  {
    if lens != [] {
      assert AllZeros(lens)[..|lens| - 1] == AllZeros(lens[..|lens| - 1]);
      QuietTotal(lens[..|lens| - 1]);
    }
  }

  /** Every odd span loses half a sample. */
  lemma {:induction false} OddLoses(spans: seq<Bytes>)
    ensures 2 * |DecodeEach(spans)| <= |Concat(spans)|
    ensures (exists i :: 0 <= i < |spans| && |spans[i]| % 2 == 1) ==> 2 * |DecodeEach(spans)| < |Concat(spans)|
  {
    hide Decode;
    if spans != [] {
      var init, last := spans[..|spans| - 1], spans[|spans| - 1];
      OddLoses(init);
      DecodedLength(last);
      if i :| 0 <= i < |spans| && |spans[i]| % 2 == 1 && i < |init| {
        assert |init[i]| % 2 == 1;
      }
    }
  }

  lemma DecodedLength(bytes: Bytes)
    ensures 2 * |Decode(bytes)| == |bytes| - |bytes| % 2
  {}

  /** Spans of misaligned lengths that do not decode as their concatenation: all bytes are zero
      except the last one, which only the separate decoding pairs up with its neighbour. */
  lemma {:induction false} Shifted(lens: seq<nat>) returns (spans: seq<Bytes>)
    requires !Aligned(lens)
    ensures Lengths(spans) == lens && DecodeEach(spans) != Decode(Concat(spans))
  {
    hide Decode, DecodeEach, Concat, Quiet;
    var init, m := lens[..|lens| - 1], lens[|lens| - 1];
    var i, j :| 0 <= i < j < |lens| && lens[i] % 2 == 1 && lens[j] != 0;
    if m == 0 {
      assert init[i] % 2 == 1 && init[j] != 0;
      var before := Shifted(init);
      spans := before + [[]];
      EmptySpan(before);
    } else {
      spans := AllZeros(init) + [ZerosAndOne(m)];
      LastIsOne(init, m, i);
    }
  }

  lemma EmptySpan(before: seq<Bytes>)
    ensures DecodeEach(before + [[]]) == DecodeEach(before) && Concat(before + [[]]) == Concat(before)
  {
    hide DecodeEach, Concat;
    LastSpan(before, [], before + [[]]);
    NoBytes();
    assert DecodeEach(before) + [] == DecodeEach(before) && Concat(before) + [] == Concat(before);
  }

  function ZerosAndOne(m: nat): (s: Bytes)
    requires m >= 1
    ensures |s| == m
  {
    Zeros(m - 1) + [1 as char]
  }

  lemma LastIsOne(init: seq<nat>, m: nat, i: nat)
    requires m >= 1 && i < |init| && init[i] % 2 == 1
    ensures var spans := AllZeros(init) + [ZerosAndOne(m)]; DecodeEach(spans) != Decode(Concat(spans))
  {
    hide Decode, DecodeEach, Concat;
    var before, last := AllZeros(init), ZerosAndOne(m);
    assert |before[i]| % 2 == 1;
    OddLoses(before);
    QuietTotal(init);
    assert last[..m - 1] == Zeros(m - 1);
    LastByteMatters(before, last, before + [last]);
  }

  lemma LastByteMatters(before: seq<Bytes>, last: Bytes, spans: seq<Bytes>)
    requires last != [] && last[|last| - 1] == 1 as char && spans == before + [last]
    requires Quiet(Concat(before)) && Quiet(last[..|last| - 1]) && 2 * |DecodeEach(before)| < |Concat(before)|
    ensures DecodeEach(spans) != Decode(Concat(spans))
  {
    hide DecodeEach, Concat;
    var front, total, h := DecodeEach(before), Concat(before), |last| / 2;
    LastSpan(before, last, spans);
    var whole := Decode(total + last);
    if |front| + h == |whole| {
      assert |last| % 2 == 0 && |total| % 2 == 1;
      var k := |whole| - 1;
      assert (front + Decode(last))[k] == Decode(last)[h - 1];
      QuietEnd(total, last);
    }
  }

  lemma LastSpan(before: seq<Bytes>, last: Bytes, spans: seq<Bytes>)
    requires spans == before + [last]
    ensures DecodeEach(spans) == DecodeEach(before) + Decode(last)
    ensures Concat(spans) == Concat(before) + last
  {
    assert spans[..|before|] == before;
  }

  /** After an odd number of zeros, a trailing 1 is dropped when decoded with them and not when
      decoded without them. */
  lemma QuietEnd(total: Bytes, last: Bytes)
    requires last != [] && |last| % 2 == 0 && last[|last| - 1] == 1 as char
    requires Quiet(total) && Quiet(last[..|last| - 1]) && |total| % 2 == 1
    ensures Decode(last)[|last| / 2 - 1] != 0
    ensures var whole := Decode(total + last); whole[|whole| - 1] == 0
  {
    var all := total + last;
    var k := |all| / 2 - 1;
    assert last[..|last| - 1][|last| - 2] == last[|last| - 2];
    assert all[2 * k + 1] == last[|last| - 2];
    assert all[2 * k] == if |last| == 2 then total[|total| - 1] else last[..|last| - 1][|last| - 3];
    assert Decode(all)[k] == Le16(all[2 * k], all[2 * k + 1]);
    assert Decode(last)[|last| / 2 - 1] == Le16(last[|last| - 2], last[|last| - 1]);
  }
}
