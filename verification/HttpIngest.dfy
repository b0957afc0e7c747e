/** server/src/http_ingest.c: the incremental chunked-POST parser, over its fixed line buffer. */
module HttpIngest {
  import opened Bits
  import opened CString
  import S = IngestSpec
  import opened IngestSpec

  /** The loop of `parse_u32`: decimal digits modulo 2^32, stopping at the first other byte. */
  method ParseDecimal(s: seq<char>) returns (v: nat)
    ensures v == ParseU32(s)
  {
    hide Value;
    v := 0;
    var i := 0;
    ghost var k := DigitRun(s);
    NoDigits(s, 10);
    while i < |s| && IsDigit(s[i])
      invariant 0 <= i <= k
      invariant forall c | c in s[..i] :: IsHexDigit(c)
      invariant v == Value(s[..i], 10) % U32
    {
      NextDigit(s, i, 10, U32);
      v := (v * 10 + DigitValue(s[i])) % U32;
      i := i + 1;
    }
  }

  /** The loop of `parse_chunk_size`, with SIZE_MAX as its error value. */
  method ParseChunkSize(s: seq<char>) returns (v: nat)
    requires '\0' !in s
    ensures v == match ParseSize(s) case BadSize => SIZE_MAX case Size(n) => n
  {
    hide Value, ParseSize;
    v := 0;
    var i := 0;
    NoDigits(s, 16);
    while i < |s| && s[i] != ';'
      invariant 0 <= i <= |s| && ';' !in s[..i]
      invariant forall c | c in s[..i] :: IsHexDigit(c)
      invariant v == Value(s[..i], 16) % SIZE_MOD
    {
      if !IsHexDigit(s[i]) {
        BadDigit(s, i);
        return SIZE_MAX;
      }
      NextDigit(s, i, 16, SIZE_MOD);
      v := (v * 16 + DigitValue(s[i])) % SIZE_MOD;
      i := i + 1;
    }
    SizeIs(s, i);
    if i == 0 {
      v := SIZE_MAX;
    }
  }

  lemma NoDigits(s: seq<char>, radix: nat)
    ensures s[..0] == [] && Value([], radix) == 0
  {}

  /** One turn of a digit loop. */
  lemma NextDigit(s: seq<char>, i: nat, radix: nat, m: nat)
    requires i < |s| && m > 0 && IsHexDigit(s[i]) && forall c | c in s[..i] :: IsHexDigit(c)
    ensures forall c | c in s[..i + 1] :: IsHexDigit(c)
    ensures (Value(s[..i], radix) % m * radix + DigitValue(s[i])) % m == Value(s[..i + 1], radix) % m
    ensures ';' !in s[..i] && s[i] != ';' ==> ';' !in s[..i + 1]
  {
    assert s[..i + 1] == s[..i] + [s[i]];
    assert s[..i + 1][..i] == s[..i];
    AppendDigitMod(Value(s[..i], radix), radix, DigitValue(s[i]), m);
  }

  lemma SizeIs(s: seq<char>, i: nat)
    requires '\0' !in s && i <= |s| && (i < |s| ==> s[i] == ';') && ';' !in s[..i]
    requires forall c | c in s[..i] :: IsHexDigit(c)
    ensures match ParseSize(s)
            case BadSize => i == 0 || Value(s[..i], 16) % SIZE_MOD == SIZE_MAX
            case Size(n) => i > 0 && Value(s[..i], 16) % SIZE_MOD == n
  {
    hide Value;
    if i < |s| {
      FindIs(s, ';', i);
    } else {
      assert s[..i] == s;
    }
  }

  lemma BadDigit(s: seq<char>, i: nat)
    requires '\0' !in s && i < |s| && ';' !in s[..i] && s[i] != ';' && !IsHexDigit(s[i])
    ensures ParseSize(s) == BadSize
  {
    var k := Find(s, ';');
    assert forall j | 0 <= j < i :: s[j] in s[..i];
    assert s[..k][i] == s[i];
  }

  lemma AppendDigitMod(a: nat, radix: nat, d: nat, m: nat)
    requires m > 0
    ensures (a % m * radix + d) % m == (a * radix + d) % m
  {
    var q, r := a / m, a % m;
    assert a * radix == r * radix + m * (q * radix);
    ModAddMultiple(r * radix + d, m, q * radix);
  }

  class Parser {
    var state: State
    const line: array<char>
    var lineLen: nat
    var chunkRemaining: nat
    var verb: seq<char>
    var path: seq<char>
    var session: seq<char>
    var wakeConfMilli: nat
    var complete: bool
    var error: bool
    var payload: seq<char>                        // all bytes handed to on_payload, in order
    var headers: seq<(seq<char>, seq<char>)>      // all pairs handed to on_header, in order

    ghost predicate Valid()
      reads this
    {
      line.Length == LINE_MAX && lineLen < LINE_MAX && (state == ChunkData ==> chunkRemaining > 0)
    }

    /** The machine state this object represents; the bytes beyond lineLen are dead. */
    ghost function Abs(): Ingest
      reads this, line
      requires Valid()
      ensures Abs().Valid()
    {
      Ingest(state, line[..lineLen], chunkRemaining, verb, path, session, wakeConfMilli,
             complete, error, payload, headers)
    }

    constructor ()
      ensures Valid() && fresh(line) && Abs() == S.INIT
      ensures state == RequestLine && lineLen == 0 && !complete && !error && payload == [] && headers == []
      ensures verb == [] && path == [] && session == [] && wakeConfMilli == 0
    {
      state := RequestLine;
      line := new char[LINE_MAX](_ => '\0');
      lineLen, chunkRemaining := 0, 0;
      verb, path, session, wakeConfMilli := [], [], [], 0;
      complete, error := false, false;
      payload, headers := [], [];
    }

    /** Collects bytes up to a newline: 1 at a complete line (stripped and NUL-terminated), 0 when
        the input ran out, -1 when the line buffer is full. */
    method AccumulateLine(buf: seq<char>, start: nat) returns (r: int, pos: nat)
      requires Valid() && start < |buf| && InLine(Abs())
      modifies this`lineLen, line
      ensures Valid() && start < pos <= |buf| && -1 <= r <= 1
      ensures Abs() == old(Abs()).(line := line[..lineLen])
      ensures r == 0 ==> pos == |buf| && Abs() == Run(old(Abs()), buf[start..])
      ensures r == -1 ==> Fail(Abs()) == Run(old(Abs()), buf[start..pos])
      ensures r == 1 ==> line[lineLen] == '\0' && EndLine(Abs()) == Run(old(Abs()), buf[start..pos])
      ensures forall k | start <= k < pos :: InLine(Run(old(Abs()), buf[start..k]))
    {
      hide Run, EndLine, StripCr;
      pos := start;
      ghost var s0 := Abs();
      RunNothing(s0, buf, start);
      while pos < |buf|
        invariant Valid() && start <= pos <= |buf|
        invariant Abs() == s0.(line := line[..lineLen])
        invariant Abs() == Run(s0, buf[start..pos])
        invariant forall k | start <= k < pos :: InLine(Run(s0, buf[start..k]))
      {
        var c := buf[pos];
        RunNext(s0, buf, start, pos);
        pos := pos + 1;
        if c == '\n' {
          EndText();
          return 1, pos;
        }
        if lineLen >= LINE_MAX - 1 {
          return -1, pos;
        }
        line[lineLen] := c;
        lineLen := lineLen + 1;
      }
      assert buf[start..pos] == buf[start..];
      r := 0;
    }

    /** Strips a CR and terminates the text. */
    method EndText()
      requires Valid()
      modifies this`lineLen, line
      ensures Valid() && line[lineLen] == '\0' && line[..lineLen] == StripCr(old(line[..lineLen]))
    {
      if lineLen > 0 && line[lineLen - 1] == '\r' {
        lineLen := lineLen - 1;
      }
      line[lineLen] := '\0';
    }

    /** The C string in the line buffer is the C string of the live part of the line. */
    method LineText() returns (s: seq<char>)
      requires Valid() && line[lineLen] == '\0'
      ensures s == CStr(line[..lineLen]) && '\0' !in s
    {
      s := CStr(line[..]);
      assert line[..] == line[..lineLen] + ['\0'] + line[lineLen + 1..];
      CStrAppendNul(line[..lineLen], line[lineLen + 1..]);
    }

    method FailNow()
      requires Valid()
      modifies this`state, this`error
      ensures Valid() && Abs() == Fail(old(Abs()))
    {
      state := Error;
      error := true;
    }

    /** -1 on a malformed request line, otherwise 0 with verb and path stored. */
    method ParseRequestLine() returns (r: int)
      requires Valid() && line[lineLen] == '\0' && state == RequestLine
      modifies this`verb, this`path
      ensures Valid() && Abs() == old(Abs()).(verb := verb, path := path)
      ensures (r < 0) <==> !ParseRequest(line[..lineLen]).Request?
      ensures match ParseRequest(line[..lineLen])
              case NoVerb => verb == old(verb) && path == old(path)
              case NoPath(v) => verb == v && path == old(path)
              case Request(v, p) => verb == v && path == p
    {
      hide CStr, Find;
      var s := LineText();
      var sp1 := Find(s, ' ');
      if sp1 == |s| {
        return -1;
      }
      if sp1 == 0 || sp1 >= METHOD_MAX {
        return -1;
      }
      verb := s[..sp1];
      var rest := s[sp1 + 1..];
      var sp2 := Find(rest, ' ');
      if sp2 == |rest| {
        return -1;
      }
      if sp2 == 0 || sp2 >= PATH_MAX {
        return -1;
      }
      path := rest[..sp2];
      return 0;
    }

    method ParseHeaderLine()
      requires Valid() && line[lineLen] == '\0' && state == HeaderLine
      modifies this`session, this`wakeConfMilli, this`headers
      ensures Valid() && Abs() == TakeHeader(old(Abs()))
    {
      hide CStr, Find, Truncate, ParseU32, EqualIgnoringCase;
      var s := LineText();
      var colon := Find(s, ':');
      if colon == |s| {
        return;
      }
      var name, value := s[..colon], s[colon + 1..];
      while value != [] && (value[0] == ' ' || value[0] == '\t')
        invariant SkipBlanks(value) == SkipBlanks(s[colon + 1..])
        decreases |value|
      {
        value := value[1..];
      }
      AfterBlanks(value);
      if EqualIgnoringCase(name, "X-SimonSays-Session") {
        session := Truncate(value, SESSION_MAX);
      } else if EqualIgnoringCase(name, "X-SimonSays-Wake-Conf") {
        wakeConfMilli := ParseDecimal(value);
      }
      headers := headers + [(name, value)];
    }

    /** Acts on a chunk-size line. */
    method FinishSize() returns (r: int)
      requires Valid() && line[lineLen] == '\0' && state == ChunkSize
      modifies this`lineLen, this`state, this`error, this`chunkRemaining
      ensures Valid() && Abs() == EndLine(old(Abs()))
      ensures r < 0 <==> state == Error
    {
      hide ParseRequest, ParseSize, TakeHeader, CStr, StripCr;
      r := 0;
      var s := LineText();
      SizeOfText(line[..lineLen]);
      var sz := ParseChunkSize(s);
      lineLen := 0;
      if sz == SIZE_MAX {
        FailNow();
        return -1;
      }
      if sz == 0 {
        state := Trailer;
      } else {
        chunkRemaining := sz;
        state := ChunkData;
      }
    }

    /** Acts on a complete line; -1 on a protocol error. */
    method FinishLine() returns (r: int)
      requires Valid() && line[lineLen] == '\0' && InLine(Abs())
      modifies this
      ensures Valid() && Abs() == EndLine(old(Abs()))
      ensures r < 0 <==> state == Error
    {
      hide ParseRequest, ParseSize, TakeHeader, CStr, StripCr, EqualIgnoringCase, SkipBlanks;
      r := 0;
      match state {
        case RequestLine =>
          var ok := ParseRequestLine();
          if ok < 0 {
            FailNow();
            return -1;
          }
          lineLen := 0;
          state := HeaderLine;
        case HeaderLine =>
          if lineLen == 0 {
            state := ChunkSize;
          } else {
            ParseHeaderLine();
            lineLen := 0;
          }
        case ChunkSize =>
          r := FinishSize();
        case ChunkCrlf =>
          if lineLen != 0 {
            FailNow();
            return -1;
          }
          state := ChunkSize;
        case Trailer =>
          lineLen := 0;
          complete := true;
          state := Done;
      }
    }

    /** Delivers what the input holds of the current chunk. */
    method TakeData(buf: seq<char>, start: nat) returns (pos: nat)
      requires Valid() && state == ChunkData && start < |buf|
      modifies this`state, this`payload, this`chunkRemaining
      ensures Valid() && start < pos <= |buf| && state != Error && state != Done
      ensures Abs() == Run(old(Abs()), buf[start..pos])
      ensures Taken(old(Abs()), buf[start..pos]) == pos - start
    {
      hide Run, Taken;
      ghost var before := Abs();
      pos := start;
      var avail := |buf| - pos;
      var take := if avail < chunkRemaining then avail else chunkRemaining;
      payload := payload + buf[pos..pos + take];
      pos := pos + take;
      chunkRemaining := chunkRemaining - take;
      if chunkRemaining == 0 {
        state := ChunkCrlf;
      }
      TakenData(before, buf[start..pos]);
    }

    /** Feeds a span of bytes: the object moves exactly as the byte machine does, whatever the
        input, and the result is the number of bytes taken, or -1 in the error state. */
    method Feed(buf: seq<char>) returns (n: int)
      requires Valid()
      modifies this, line
      ensures Valid()
      ensures Abs() == Run(old(Abs()), buf)
      ensures n == if state == Error then -1 else Taken(old(Abs()), buf)
      ensures n == |buf|
         <==> state != Error && (buf == [] || Run(old(Abs()), buf[..|buf| - 1]).state != Done)
    {
      hide Run, Taken, EndLine, Step;
      ghost var s0 := Abs();
      RunNothing(s0, buf, 0);
      TakenExact(s0, buf);
      if state == Error {
        Final(s0, buf);
        return -1;
      }
      var pos := 0;
      while pos < |buf| && state != Done
        invariant Valid() && 0 <= pos <= |buf|
        invariant state != Error
        invariant Abs() == Run(s0, buf[..pos])
        invariant Taken(s0, buf[..pos]) == pos
        decreases |buf| - pos
      {
        ghost var before, at := Abs(), pos;
        if state == ChunkData {
          pos := TakeData(buf, pos);
          Extend(s0, buf, at, pos);
        } else {
          var r, p := AccumulateLine(buf, pos);
          pos := p;
          TakenLine(before, buf, at, pos);
          Extend(s0, buf, at, pos);
          if r < 0 {
            FailNow();
            Stuck(s0, buf, pos);
            return -1;
          }
          if r == 0 {
            assert buf[..pos] == buf && buf[at..pos] == buf[at..];
            return pos;
          }
          var f := FinishLine();
          if f < 0 {
            Stuck(s0, buf, pos);
            return -1;
          }
        }
      }
      if pos < |buf| {
        Stuck(s0, buf, pos);
      } else {
        assert buf[..pos] == buf;
      }
      return pos;
    }
  }

  lemma AfterBlanks(value: seq<char>)
    requires value == [] || (value[0] != ' ' && value[0] != '\t')
    ensures SkipBlanks(value) == value
  {}

  lemma RunNothing(s0: Ingest, buf: seq<char>, start: nat)
    requires s0.Valid() && start <= |buf|
    ensures Run(s0, buf[start..start]) == s0 == Run(s0, buf[..0])
    ensures Taken(s0, buf[..0]) == 0
  {}

  lemma RunNext(s0: Ingest, buf: seq<char>, start: nat, pos: nat)
    requires s0.Valid() && start <= pos < |buf|
    ensures Run(s0, buf[start..pos + 1]) == Step(Run(s0, buf[start..pos]), buf[pos])
  {
    hide Run;
    assert buf[start..pos + 1] == buf[start..pos] + [buf[pos]];
    RunSnoc(s0, buf[start..pos], buf[pos]);
  }

  lemma RunSnoc(s: Ingest, bytes: seq<char>, b: char)
    requires s.Valid()
    ensures Run(s, bytes + [b]) == Step(Run(s, bytes), b)
  {
    hide Step;
    assert (bytes + [b])[..|bytes|] == bytes;
  }

  lemma Extend(s0: Ingest, buf: seq<char>, at: nat, pos: nat)
    requires s0.Valid() && at <= pos <= |buf|
    ensures Run(s0, buf[..pos]) == Run(Run(s0, buf[..at]), buf[at..pos])
    ensures Taken(s0, buf[..pos]) == Taken(s0, buf[..at]) + Taken(Run(s0, buf[..at]), buf[at..pos])
  {
    assert buf[..pos] == buf[..at] + buf[at..pos];
    RunAppend(s0, buf[..at], buf[at..pos]);
  }

  lemma Stuck(s0: Ingest, buf: seq<char>, pos: nat)
    requires s0.Valid() && pos <= |buf|
    requires Run(s0, buf[..pos]).state == Done || Run(s0, buf[..pos]).state == Error
    ensures Run(s0, buf) == Run(s0, buf[..pos])
    ensures Run(s0, buf).state == Done ==> Taken(s0, buf) == Taken(s0, buf[..pos])
  {
    hide Run, Taken, Step;
    Extend(s0, buf, pos, |buf|);
    assert buf[..|buf|] == buf;
    Final(Run(s0, buf[..pos]), buf[pos..|buf|]);
  }

  /** Bytes that do not end the message are all taken. */
  lemma {:induction false} TakenSpan(s: Ingest, buf: seq<char>, at: nat, pos: nat)
    requires s.Valid() && at <= pos <= |buf|
    requires forall k | at <= k < pos :: Run(s, buf[at..k]).state != Done
    ensures Taken(s, buf[at..pos]) == pos - at
  {
    hide Run;
    if at < pos {
      TakenSpan(s, buf, at, pos - 1);
      assert buf[at..pos][..pos - at - 1] == buf[at..pos - 1];
    }
  }

  lemma TakenLine(s: Ingest, buf: seq<char>, at: nat, pos: nat)
    requires s.Valid() && at <= pos <= |buf|
    requires forall k | at <= k < pos :: InLine(Run(s, buf[at..k]))
    ensures Taken(s, buf[at..pos]) == pos - at
  {
    hide Run, Taken;
    TakenSpan(s, buf, at, pos);
  }

  lemma TakenData(s: Ingest, data: seq<char>)
    requires s.Valid() && s.state == ChunkData && |data| <= s.remaining
    ensures Taken(s, data) == |data|
    ensures Run(s, data) == s.(payload := s.payload + data, remaining := s.remaining - |data|,
                               state := if |data| == s.remaining then ChunkCrlf else ChunkData)
  {
    hide Run, Taken;
    RunData(s, data);
    forall k | 0 <= k < |data|
      ensures Run(s, data[0..k]).state != Done
    {
      RunData(s, data[0..k]);
    }
    TakenSpan(s, data, 0, |data|);
    assert data[0..|data|] == data;
  }

  lemma SizeOfText(line: seq<char>)
    ensures ParseSize(CStr(line)) == ParseSize(line)
  {
    assert CStr(CStr(line)) == CStr(line);
  }
}
