/** firmware/core/src/net/stream_proto.c: the client-side encoders, writing into caller buffers.
    The wire format is the chunked coding of section 4.1 of RFC 7230. */
module StreamProto {
  import opened Bits
  import opened CString

  datatype Config = Config(path: seq<char>, host: seq<char>, session: seq<char>, conf: nat)

  // ----- the bytes that should be on the wire -----

  function DigitChar(d: nat): char
    requires d < 16
  {
    "0123456789abcdef"[d]
  }

  /** Number of digits of n, at least one, lowercase, most significant first. */
  function Digits(n: nat, radix: nat): (s: seq<char>)
    requires 2 <= radix <= 16
    ensures |s| >= 1
  {
    if n < radix then [DigitChar(n)] else
      QuotSmaller(n, radix);
      Digits(n / radix, radix) + [DigitChar(n % radix)]
  }

  lemma QuotSmaller(n: nat, radix: nat)
    requires 2 <= radix <= n
    ensures 0 < n / radix < n
  {
    var q := Quot(n, radix);
    MulMonotone(2, radix, q);
  }

  const HOST_TEXT := " HTTP/1.1\r\nHost: "
  const SESSION_TEXT := "\r\n" + ("Transfer-Encoding" + ": " + "chunked" + "\r\n")
                        + ("Content-Type" + ": " + "application/octet-stream" + "\r\n")
                        + ("X-SimonSays-Session" + ": ")
  const CONF_TEXT := "\r\nX-SimonSays-Wake-Conf: "

  function HeaderBytes(c: Config): seq<char>
  {
    "POST " + c.path + HOST_TEXT + c.host + SESSION_TEXT + c.session + CONF_TEXT + Digits(c.conf, 10) + "\r\n\r\n"
  }

  function ChunkBytes(payload: seq<char>): seq<char>
  {
    Digits(|payload|, 16) + "\r\n" + payload + "\r\n"
  }

  const FINAL_BYTES := "0\r\n\r\n"

  function ChunksBytes(frames: seq<seq<char>>): seq<char>
  {
    if frames == [] then [] else ChunksBytes(frames[..|frames| - 1]) + ChunkBytes(frames[|frames| - 1])
  }

  // ----- facts about digit strings -----

  /** A digit string denotes its number. */
  lemma {:induction false} DigitsValue(n: nat, radix: nat)
    requires 2 <= radix <= 16
    ensures forall c | c in Digits(n, radix) :: IsHexDigit(c)
    ensures Value(Digits(n, radix), radix) == n
    decreases n
  {
    hide IsHexDigit, DigitValue, DigitChar, Value;
    OneDigit(n % radix, radix);
    if n < radix {
      DivModUnique(n, radix, 0, n);
    } else {
      var q, d := n / radix, n % radix;
      QuotSmaller(n, radix);
      DigitsValue(q, radix);
      ValueSnoc(Digits(q, radix), DigitChar(d), radix);
    }
  }

  lemma ValueSnoc(s: seq<char>, c: char, radix: nat)
    requires IsHexDigit(c) && forall c | c in s :: IsHexDigit(c)
    ensures forall c' | c' in s + [c] :: IsHexDigit(c')
    ensures Value(s + [c], radix) == Value(s, radix) * radix + DigitValue(c)
  {
    hide IsHexDigit, DigitValue;
    assert (s + [c])[..|s|] == s;
  }

  lemma OneDigit(d: nat, radix: nat)
    requires d < 16
    ensures IsHexDigit(DigitChar(d)) && DigitValue(DigitChar(d)) == d
    ensures Value([DigitChar(d)], radix) == d
  {
    assert [DigitChar(d)][..0] == [];
  }

  lemma {:induction false} DecimalDigits(n: nat)
    ensures forall c | c in Digits(n, 10) :: IsDigit(c)
    decreases n
  {
    if n >= 10 {
      DecimalDigits(n / 10);
    }
  }

  function Pow(b: nat, k: nat): nat
  {
    if k == 0 then 1 else b * Pow(b, k - 1)
  }

  /** Digits are decimal digits and lowercase letters. */
  lemma {:induction false} DigitsLowercase(n: nat, radix: nat)
    requires 2 <= radix <= 16
    ensures forall c | c in Digits(n, radix) :: '0' <= c <= '9' || 'a' <= c <= 'f'
    decreases n
  {
    if n >= radix {
      QuotSmaller(n, radix);
      DigitsLowercase(n / radix, radix);
    }
  }

  lemma PowOne(b: nat)
    ensures Pow(b, 1) == b
  {
    assert Pow(b, 1) == b * Pow(b, 0);
  }

  /** A number below radix^k has at most k digits. */
  lemma {:induction false} DigitsLength(n: nat, radix: nat, k: nat)
    requires 2 <= radix <= 16 && k >= 1 && n < Pow(radix, k)
    ensures |Digits(n, radix)| <= k
    decreases k
  {
    PowOne(radix);
    if n >= radix {
      QuotSmaller(n, radix);
      QuotBound(n, radix, Pow(radix, k - 1));
      DigitsLength(n / radix, radix, k - 1);
    }
  }

  lemma QuotBound(n: nat, radix: nat, p: nat)
    requires radix >= 1 && n < radix * p
    ensures n / radix < p
  {
    var q := Quot(n, radix);
    if q >= p {
      MulMonotone(p, q, radix);
    }
  }

  /** Longer payloads need at least as many size digits. */
  lemma {:induction false} DigitsMonotone(a: nat, b: nat)
    requires a <= b
    ensures |Digits(a, 16)| <= |Digits(b, 16)|
    decreases b
  {
    if a >= 16 {
      DigitsMonotone(a / 16, b / 16);
    }
  }

  // ----- the encoders -----

  method HexDigits(n0: nat) returns (d: nat)
    ensures d == |Digits(n0, 16)|
  {
    d := 1;
    var n := n0 / 16;
    while n > 0
      invariant 0 <= n
      invariant d + (if n == 0 then 0 else |Digits(n, 16)|) == |Digits(n0, 16)|
      decreases n
    {
      d := d + 1;
      n := n / 16;
    }
  }

  /** Writes n in hex from index `at` on. */
  method WriteHex(buf: array<char>, at: nat, n0: nat) returns (d: nat)
    requires at + |Digits(n0, 16)| <= buf.Length
    modifies buf
    ensures d == |Digits(n0, 16)|
    ensures buf[at..at + d] == Digits(n0, 16)
    ensures forall p | 0 <= p < buf.Length && !(at <= p < at + d) :: buf[p] == old(buf[p])
  {
    hide DigitChar, BitAnd;
    d := HexDigits(n0);
    var n := n0;
    var i := 0;
    while i < d
      invariant 0 <= i <= d && 0 <= n
      invariant (if i < d then Digits(n, 16) else []) + buf[at + d - i..at + d] == Digits(n0, 16)
      invariant forall p | 0 <= p < buf.Length && !(at <= p < at + d) :: buf[p] == old(buf[p])
    {
      ghost var done := buf[at + d - i..at + d];
      LowNibble(n);
      buf[at + d - 1 - i] := DigitChar(BitAnd(n, 15));
      assert buf[at + d - 1 - i..at + d] == [DigitChar(n % 16)] + done;
      LastDigit(n, 16, done);
      n := n / 16;
      i := i + 1;
    }
  }

  lemma LowNibble(n: nat)
    ensures BitAnd(n, 15) == n % 16
  {
    AndMask(n, 4);
    assert Pow2(4) == 16;
  }

  /** Moving the last digit from a number to the digits already written. */
  lemma LastDigit(n: nat, radix: nat, done: seq<char>)
    requires 2 <= radix <= 16
    ensures n % radix < 16
    ensures Digits(n, radix) + done
         == (if n < radix then [] else Digits(n / radix, radix)) + ([DigitChar(n % radix)] + done)
    ensures n < radix ==> n % radix == n && n / radix == 0 && |Digits(n, radix)| == 1
    ensures n >= radix ==> n / radix > 0
  {
    hide DigitChar;
    if n < radix {
      DivModUnique(n, radix, 0, n);
    } else {
      QuotSmaller(n, radix);
    }
  }

  /** `append`: copies s at pos when it fits in the first cap bytes. */
  method Append(buf: array<char>, cap: nat, pos: nat, s: seq<char>) returns (ok: bool, pos': nat)
    requires pos <= cap <= buf.Length
    modifies buf
    ensures ok == (pos + |s| <= cap)
    ensures pos' == if ok then pos + |s| else pos
    ensures buf[pos..pos'] == if ok then s else []
    ensures forall p | 0 <= p < buf.Length && !(pos <= p < pos') :: buf[p] == old(buf[p])
  {
    if pos + |s| > cap {
      return false, pos;
    }
    forall i | 0 <= i < |s| {
      buf[pos + i] := s[i];
    }
    return true, pos + |s|;
  }

  function Reverse(s: seq<char>): seq<char>
  {
    if s == [] then [] else [s[|s| - 1]] + Reverse(s[..|s| - 1])
  }

  /** `append_u32`: the decimal digits, produced in reverse into ten bytes and turned around. */
  method AppendU32(buf: array<char>, cap: nat, pos: nat, v0: nat) returns (ok: bool, pos': nat)
    requires pos <= cap <= buf.Length && v0 < 0x1_0000_0000
    modifies buf
    ensures ok == (pos + |Digits(v0, 10)| <= cap)
    ensures pos' == if ok then pos + |Digits(v0, 10)| else pos
    ensures buf[pos..pos'] == if ok then Digits(v0, 10) else []
    ensures forall p | 0 <= p < buf.Length && !(pos <= p < pos') :: buf[p] == old(buf[p])
  {
    hide DigitChar;
    var tmp, n := DecimalReversed(v0);
    if pos + n > cap {
      return false, pos;
    }
    forall i | 0 <= i < n {
      buf[pos + i] := tmp[i];
    }
    assert buf[pos..pos + n] == tmp[..n];
    return true, pos + n;
  }

  /** The ten-byte scratch of `append_u32`: digits least significant first, then turned around. */
  method DecimalReversed(v0: nat) returns (tmp: array<char>, n: nat)
    requires v0 < 0x1_0000_0000
    ensures fresh(tmp) && n <= tmp.Length == 10 && tmp[..n] == Digits(v0, 10)
  {
    hide Digits, Reverse;
    tmp := new char[10];
    n := 0;
    if v0 == 0 {
      tmp[0] := '0';
      n := 1;
      ZeroDigit();
      return;
    }
    var rev, r := DecimalBackwards(v0);
    ghost var done, rest: seq<char> := [], rev[..r];
    assert [] + Reverse(rest) == Reverse(rest);
    while r > 0
      invariant 0 <= r && r + n <= 10 && |done| == n
      invariant rest == rev[..r] && done == tmp[..n]
      invariant done + Reverse(rest) == Digits(v0, 10)
    {
      r := r - 1;
      assert rest == rev[..r] + [rev[r]];
      ReverseSnoc(rev[..r], rev[r]);
      Shift(done, rev[r], Reverse(rev[..r]));
      tmp[n] := rev[r];
      n := n + 1;
      done, rest := done + [rev[r]], rev[..r];
    }
    ReverseNothing();
    assert done + [] == done;
  }

  lemma Shift(a: seq<char>, c: char, b: seq<char>)
    ensures a + ([c] + b) == (a + [c]) + b
  {}

  method DecimalBackwards(v0: nat) returns (rev: array<char>, r: nat)
    requires 0 < v0 < 0x1_0000_0000
    ensures fresh(rev) && r <= rev.Length == 10 && Reverse(rev[..r]) == Digits(v0, 10)
  {
    hide DigitChar, Digits, Pow, Reverse;
    rev := new char[10];
    var v := v0;
    r := 0;
    TenDigits();
    ghost var done: seq<char> := [];
    assert rev[..0] == [];
    ReverseNothing();
    while v > 0
      invariant 0 <= v && 0 <= r <= 10 && v < Pow(10, 10 - r)
      invariant done == rev[..r]
      invariant (if v == 0 then [] else Digits(v, 10)) + Reverse(done) == Digits(v0, 10)
      decreases v
    {
      PowStep(10, 10 - r);
      QuotBound(v, 10, Pow(10, 9 - r));
      LastDigit(v, 10, Reverse(done));
      ghost var c := DigitChar(v % 10);
      ReverseSnoc(done, c);
      rev[r] := DigitChar(v % 10);
      r := r + 1;
      assert rev[..r] == done + [c];
      done := done + [c];
      v := v / 10;
    }
  }

  lemma ReverseNothing()
    ensures Reverse([]) == []
  {}

  lemma ZeroDigit()
    ensures Digits(0, 10) == ['0']
  {}

  lemma TenDigits()
    ensures Pow(10, 10) == 10_000_000_000
  {
    assert Pow(10, 5) == 100_000 by {
      assert Pow(10, 2) == 100;
      assert Pow(10, 4) == 10_000;
    }
    assert Pow(10, 7) == 10_000_000;
    assert Pow(10, 9) == 1_000_000_000;
  }

  lemma PowStep(b: nat, k: int)
    requires k >= 0 && Pow(b, k) > 1
    ensures k >= 1 && Pow(b, k) == b * Pow(b, k - 1)
  {}

  lemma ReverseSnoc(s: seq<char>, c: char)
    ensures Reverse(s + [c]) == [c] + Reverse(s)
  {
    assert (s + [c])[..|s|] == s;
  }

  /** One of the chained appends of the header builder: `text` is what has been asked for so far. */
  method AppendNext(buf: array<char>, cap: nat, ok: bool, pos: nat, s: seq<char>, ghost text: seq<char>)
    returns (ok': bool, pos': nat)
    requires Written(buf, cap, ok, pos, text)
    modifies buf
    ensures Written(buf, cap, ok', pos', text + s)
    ensures forall p | cap <= p < buf.Length :: buf[p] == old(buf[p])
  {
    var one;
    one, pos' := Append(buf, cap, pos, s);
    ok' := ok && one;
    assert ok' ==> buf[..pos'] == buf[..pos] + buf[pos..pos'];
  }

  /** Either everything asked for is in the buffer, or it cannot fit. */
  ghost predicate Written(buf: array<char>, cap: nat, ok: bool, pos: nat, text: seq<char>)
    reads buf
  {
    && pos <= cap <= buf.Length
    && (if ok then buf[..pos] == text else |text| > cap)
  }

  method AppendNextU32(buf: array<char>, cap: nat, ok: bool, pos: nat, v: nat, ghost text: seq<char>)
    returns (ok': bool, pos': nat)
    requires Written(buf, cap, ok, pos, text) && v < 0x1_0000_0000
    modifies buf
    ensures Written(buf, cap, ok', pos', text + Digits(v, 10))
    ensures forall p | cap <= p < buf.Length :: buf[p] == old(buf[p])
  {
    hide Digits;
    var one;
    one, pos' := AppendU32(buf, cap, pos, v);
    ok' := ok && one;
    assert ok' ==> buf[..pos'] == buf[..pos] + buf[pos..pos'];
  }

  lemma NothingWritten(buf: array<char>, cap: nat)
    requires cap <= buf.Length
    ensures Written(buf, cap, true, 0, [])
  {}

  method WrittenLength(buf: array<char>, cap: nat, ok: bool, pos: nat, ghost text: seq<char>) returns (n: nat)
    requires Written(buf, cap, ok, pos, text) && text != []
    ensures n == if |text| <= cap then |text| else 0
    ensures n > 0 ==> n <= buf.Length && buf[..n] == text
  {
    n := if ok then pos else 0;
  }

  /** Builds the request header; 0 exactly when it does not fit, and never a byte beyond cap. */
  method BuildRequestHeader(buf: array<char>, cap: nat, c: Config) returns (n: nat)
    requires cap <= buf.Length && c.conf < 0x1_0000_0000
    modifies buf
    ensures n == if |HeaderBytes(c)| <= cap then |HeaderBytes(c)| else 0
    ensures n > 0 ==> buf[..n] == HeaderBytes(c)
    ensures forall p | cap <= p < buf.Length :: buf[p] == old(buf[p])
  {
    hide Digits, Written;
    var ok, pos := true, 0;
    NothingWritten(buf, cap);
    ok, pos := AppendNext(buf, cap, ok, pos, "POST ", []);
    ghost var t := [] + "POST ";
    ok, pos := AppendNext(buf, cap, ok, pos, c.path, t);
    t := t + c.path;
    ok, pos := AppendNext(buf, cap, ok, pos, HOST_TEXT, t);
    t := t + HOST_TEXT;
    ok, pos := AppendNext(buf, cap, ok, pos, c.host, t);
    t := t + c.host;
    ok, pos := AppendNext(buf, cap, ok, pos, SESSION_TEXT, t);
    t := t + SESSION_TEXT;
    ok, pos := AppendNext(buf, cap, ok, pos, c.session, t);
    t := t + c.session;
    ok, pos := AppendNext(buf, cap, ok, pos, CONF_TEXT, t);
    t := t + CONF_TEXT;
    ok, pos := AppendNextU32(buf, cap, ok, pos, c.conf, t);
    t := t + Digits(c.conf, 10);
    ok, pos := AppendNext(buf, cap, ok, pos, "\r\n\r\n", t);
    t := t + "\r\n\r\n";
    assert [] + "POST " == "POST ";
    n := WrittenLength(buf, cap, ok, pos, t);
  }

  /** `stream_proto_chunk_overhead`: size digits, CRLF, payload, CRLF. */
  method ChunkOverhead(len: nat) returns (n: nat)
    ensures n == Overhead(len)
  {
    if len == 0 {
      return 0;
    }
    var d := HexDigits(len);
    return d + 2 + len + 2;
  }

  function Overhead(len: nat): nat
  {
    if len == 0 then 0 else |Digits(len, 16)| + 2 + len + 2
  }

  /** Encodes src[off..off+len] as one chunk at the start of buf. The payload may live in the same
      array, beyond the cap. 0 exactly when the payload is empty or the chunk does not fit. */
  method EncodeChunk(buf: array<char>, cap: nat, src: array<char>, off: nat, len: nat) returns (n: nat)
    requires cap <= buf.Length && off + len <= src.Length
    requires src == buf ==> off >= cap
    modifies buf
    ensures n == if len == 0 || Overhead(len) > cap then 0 else Overhead(len)
    ensures n > 0 ==> buf[..n] == ChunkBytes(old(src[off..off + len]))
    ensures forall p | n <= p < buf.Length :: buf[p] == old(buf[p])
  {
    hide Digits;
    if len == 0 {
      return 0;
    }
    var need := ChunkOverhead(len);
    if need > cap {
      return 0;
    }
    ghost var payload := src[off..off + len];
    var d := WriteHex(buf, 0, len);
    assert forall i | 0 <= i < len :: src[off + i] == payload[i];
    ghost var digits := buf[0..d];
    WriteTail(buf, d, src, off, len);
    n := d + 4 + len;
    ChunkLayout(buf[..n], digits, payload);
  }

  /** CRLF, payload, CRLF from index d on. */
  method WriteTail(buf: array<char>, d: nat, src: array<char>, off: nat, len: nat)
    requires d + len + 4 <= buf.Length && off + len <= src.Length
    requires src == buf ==> off >= d + len + 4
    modifies buf
    ensures buf[d] == '\r' && buf[d + 1] == '\n'
    ensures forall p | d + 2 <= p < d + 2 + len :: buf[p] == old(src[p - d - 2 + off])
    ensures buf[d + 2 + len] == '\r' && buf[d + 3 + len] == '\n'
    ensures forall p | 0 <= p < buf.Length && !(d <= p < d + len + 4) :: buf[p] == old(buf[p])
  {
    buf[d] := '\r';
    buf[d + 1] := '\n';
    CopyBytes(buf, d + 2, src, off, len);
    buf[d + 2 + len] := '\r';
    buf[d + 3 + len] := '\n';
  }

  lemma ChunkLayout(s: seq<char>, digits: seq<char>, payload: seq<char>)
    requires var d, len := |digits|, |payload|;
             && |s| == d + len + 4
             && (forall i | 0 <= i < d :: s[i] == digits[i])
             && s[d] == '\r' && s[d + 1] == '\n'
             && (forall i | d + 2 <= i < d + 2 + len :: s[i] == payload[i - d - 2])
             && s[d + 2 + len] == '\r' && s[d + 3 + len] == '\n'
    ensures s == digits + "\r\n" + payload + "\r\n"
  {}

  /** `memcpy` between regions that do not overlap. */
  method CopyBytes(buf: array<char>, at: nat, src: array<char>, off: nat, len: nat)
    requires at + len <= buf.Length && off + len <= src.Length
    requires src == buf ==> at + len <= off || off + len <= at
    modifies buf
    ensures forall p | at <= p < at + len :: buf[p] == old(src[p - at + off])
    ensures forall p | 0 <= p < buf.Length && !(at <= p < at + len) :: buf[p] == old(buf[p])
  {
    forall i | 0 <= i < len {
      buf[at + i] := src[off + i];
    }
  }

  method EncodeFinal(buf: array<char>, cap: nat) returns (n: nat)
    requires cap <= buf.Length
    modifies buf
    ensures n == if |FINAL_BYTES| <= cap then |FINAL_BYTES| else 0
    ensures n > 0 ==> buf[..n] == FINAL_BYTES
    ensures forall p | n <= p < buf.Length :: buf[p] == old(buf[p])
  {
    if |FINAL_BYTES| > cap {
      return 0;
    }
    forall i | 0 <= i < |FINAL_BYTES| {
      buf[i] := FINAL_BYTES[i];
    }
    return |FINAL_BYTES|;
  }
}
