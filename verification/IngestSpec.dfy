/** What the server's ingest parser does, as a machine that takes one byte at a time: the
    reference the incremental parser of HttpIngest.dfy is proved against. */
module IngestSpec {
  import opened CString

  const LINE_MAX: nat := 512
  const METHOD_MAX: nat := 8
  const PATH_MAX: nat := 128
  const SESSION_MAX: nat := 64
  const U32: nat := 0x1_0000_0000
  const SIZE_MOD: nat := 0x1_0000_0000_0000_0000   // size_t on the server
  const SIZE_MAX: nat := SIZE_MOD - 1

  datatype State = RequestLine | HeaderLine | ChunkSize | ChunkData | ChunkCrlf | Trailer | Done | Error

  datatype Ingest = Ingest(
    state: State, line: seq<char>, remaining: nat,
    verb: seq<char>, path: seq<char>, session: seq<char>, conf: nat,
    complete: bool, error: bool,
    payload: seq<char>, headers: seq<(seq<char>, seq<char>)>)
  {
    ghost predicate Valid()
    {
      |line| < LINE_MAX && (state == ChunkData ==> remaining > 0)
    }
  }

  const INIT := Ingest(RequestLine, [], 0, [], [], [], 0, false, false, [], [])

  // ----- the texts of single lines -----

  datatype Request = NoVerb | NoPath(verb: seq<char>) | Request(verb: seq<char>, path: seq<char>)

  /** "VERB PATH ..." with a verb of 1..7 bytes and a path of 1..127 bytes. */
  function ParseRequest(line: seq<char>): Request
  {
    var s := CStr(line);
    var v := Find(s, ' ');
    if v == |s| || v == 0 || v >= METHOD_MAX then NoVerb
    else
      var rest := s[v + 1..];
      var p := Find(rest, ' ');
      if p == |rest| || p == 0 || p >= PATH_MAX then NoPath(s[..v]) else Request(s[..v], rest[..p])
  }

  function SkipBlanks(s: seq<char>): seq<char>
  {
    if s != [] && (s[0] == ' ' || s[0] == '\t') then SkipBlanks(s[1..]) else s
  }

  datatype Header = NoColon | Header(name: seq<char>, value: seq<char>)

  function ParseHeader(line: seq<char>): Header
  {
    var s := CStr(line);
    var k := Find(s, ':');
    if k == |s| then NoColon else Header(s[..k], SkipBlanks(s[k + 1..]))
  }

  function ParseU32(s: seq<char>): nat
  {
    Value(s[..DigitRun(s)], 10) % U32
  }

  datatype Size = BadSize | Size(value: nat)

  /** Hex digits up to a ';' or the end; at least one. The value wraps at the word size, and the
      all-ones word cannot be told from the error value. */
  function ParseSize(line: seq<char>): (r: Size)
    ensures r.Size? ==> r.value < SIZE_MAX
  {
    var s := CStr(line);
    var digits := s[..Find(s, ';')];
    if digits == [] || (exists c | c in digits :: !IsHexDigit(c)) then BadSize
    else
      var v := Value(digits, 16) % SIZE_MOD;
      if v == SIZE_MAX then BadSize else Size(v)
  }

  // ----- the machine -----

  function Fail(s: Ingest): Ingest { s.(state := Error, error := true) }

  function StripCr(line: seq<char>): seq<char>
  {
    if line != [] && line[|line| - 1] == '\r' then line[..|line| - 1] else line
  }

  function TakeHeader(s: Ingest): (s': Ingest)
    ensures s' == s.(session := s'.session, conf := s'.conf, headers := s'.headers)
  {
    match ParseHeader(s.line)
    case NoColon => s
    case Header(name, value) =>
      var s1 := if EqualIgnoringCase(name, "X-SimonSays-Session") then s.(session := Truncate(value, SESSION_MAX))
                else if EqualIgnoringCase(name, "X-SimonSays-Wake-Conf") then s.(conf := ParseU32(value))
                else s;
      s1.(headers := s.headers + [(name, value)])
  }

  /** The transition at the end of a line, with the line already stripped. */
  function EndLine(s: Ingest): (s': Ingest)
    requires s.Valid()
    ensures s'.Valid()
  {
    hide ParseRequest, TakeHeader, ParseSize;
    match s.state
    case RequestLine =>
      (match ParseRequest(s.line)
       case NoVerb => Fail(s)
       case NoPath(verb) => Fail(s.(verb := verb))
       case Request(verb, path) => s.(verb := verb, path := path, line := [], state := HeaderLine))
    case HeaderLine =>
      if s.line == [] then s.(state := ChunkSize) else TakeHeader(s).(line := [])
    case ChunkSize =>
      (match ParseSize(s.line)
       case BadSize => Fail(s.(line := []))
       case Size(v) =>
         if v == 0 then s.(line := [], state := Trailer)
         else s.(line := [], remaining := v, state := ChunkData))
    case ChunkCrlf => if s.line != [] then Fail(s) else s.(state := ChunkSize)
    case Trailer => s.(line := [], complete := true, state := Done)
    case _ => s
  }

  function Step(s: Ingest, b: char): (s': Ingest)
    requires s.Valid()
    ensures s'.Valid()
  {
    hide EndLine;
    if s.state == Done || s.state == Error then s
    else if s.state == ChunkData then
      s.(payload := s.payload + [b], remaining := s.remaining - 1,
         state := if s.remaining == 1 then ChunkCrlf else ChunkData)
    else if b == '\n' then EndLine(s.(line := StripCr(s.line)))
    else if |s.line| >= LINE_MAX - 1 then Fail(s)
    else s.(line := s.line + [b])
  }

  /** The machine run over a byte sequence. */
  function Run(s: Ingest, bytes: seq<char>): (s': Ingest)
    requires s.Valid()
    ensures s'.Valid()
  {
    hide Step;
    if bytes == [] then s else Step(Run(s, bytes[..|bytes| - 1]), bytes[|bytes| - 1])
  }

  /** How many of the bytes are taken: all of them, up to the end of the message. */
  function Taken(s: Ingest, bytes: seq<char>): (n: nat)
    requires s.Valid()
    ensures n <= |bytes|
  {
    if bytes == [] then 0
    else
      var init := bytes[..|bytes| - 1];
      Taken(s, init) + if Run(s, init).state == Done then 0 else 1
  }

  lemma RunEmpty(s: Ingest)
    requires s.Valid()
    ensures Run(s, []) == s
  {}

  /** Feeding a ++ b is feeding a and then b: nothing depends on where the stream is cut. */
  lemma {:induction false} RunAppend(s: Ingest, a: seq<char>, b: seq<char>)
    requires s.Valid()
    ensures Run(s, a + b) == Run(Run(s, a), b)
    ensures Taken(s, a + b) == Taken(s, a) + Taken(Run(s, a), b)
  {
    hide Step;
    if b == [] {
      assert a + b == a;
    } else {
      var b' := b[..|b| - 1];
      RunAppend(s, a, b');
      assert (a + b)[..|a + b| - 1] == a + b';
    }
  }

  function RunParts(s: Ingest, parts: seq<seq<char>>): (s': Ingest)
    requires s.Valid()
    ensures s'.Valid()
  {
    hide Step;
    if parts == [] then s else Run(RunParts(s, parts[..|parts| - 1]), parts[|parts| - 1])
  }

  /** Any fragmentation of a byte stream, even into empty pieces, ends in the same state. */
  lemma {:induction false} FragmentationInvariance(s: Ingest, parts: seq<seq<char>>)
    requires s.Valid()
    ensures RunParts(s, parts) == Run(s, Concat(parts))
  {
    if parts == [] {
    } else {
      var init := parts[..|parts| - 1];
      FragmentationInvariance(s, init);
      RunAppend(s, Concat(init), parts[|parts| - 1]);
    }
  }

  /** A finished or failed parser ignores everything that follows. */
  lemma {:induction false} Final(s: Ingest, bytes: seq<char>)
    requires s.Valid() && (s.state == Done || s.state == Error)
    ensures Run(s, bytes) == s
    ensures s.state == Done ==> Taken(s, bytes) == 0
  {
    hide EndLine;
    if bytes != [] {
      Final(s, bytes[..|bytes| - 1]);
    }
  }

  /** A call takes its whole input exactly when the message does not end before the last byte,
      which is when no proper prefix of the input reaches the done state. */
  lemma {:induction false} TakenExact(s: Ingest, bytes: seq<char>)
    requires s.Valid()
    ensures Taken(s, bytes) == |bytes| <==> forall k | 0 <= k < |bytes| :: Run(s, bytes[..k]).state != Done
    ensures Taken(s, bytes) == |bytes| <==> bytes == [] || Run(s, bytes[..|bytes| - 1]).state != Done
  {
    hide Run, Step;
    if bytes != [] {
      var init := bytes[..|bytes| - 1];
      TakenExact(s, init);
      forall k | 0 <= k < |bytes|
        ensures Run(s, bytes[..k]).state == Done ==> Run(s, init).state == Done
      {
        assert init == bytes[..k] + init[k..];
        RunAppend(s, bytes[..k], init[k..]);
        if Run(s, bytes[..k]).state == Done {
          Final(Run(s, bytes[..k]), init[k..]);
        }
      }
      assert forall k | 0 <= k < |init| :: init[..k] == bytes[..k];
    }
  }

  /** An input that is not taken whole: the message ends at its first byte. */
  lemma StopsAtEnd(s: Ingest, b: char)
    requires s.Valid() && s.state == Trailer
    ensures Taken(s, ['\n', b]) == 1
  {
    hide StripCr;
    assert ['\n', b][..1] == ['\n'] && ['\n'][..0] == [];
    assert Run(s, ['\n']) == Step(Run(s, []), '\n');
    assert Run(s, ['\n']).state == Done;
  }

  /** Payload is only ever appended. */
  lemma {:induction false} PayloadGrows(s: Ingest, bytes: seq<char>)
    requires s.Valid()
    ensures s.payload <= Run(s, bytes).payload
  {
    if bytes != [] {
      var init := bytes[..|bytes| - 1];
      PayloadGrows(s, init);
      PayloadStep(Run(s, init), bytes[|bytes| - 1]);
    }
  }

  lemma PayloadStep(s: Ingest, b: char)
    requires s.Valid()
    ensures s.payload <= Step(s, b).payload
  {
    hide ParseRequest, TakeHeader, ParseSize;
  }

  /** A run of payload bytes that fits the open chunk is taken whole. */
  lemma {:induction false} RunData(s: Ingest, data: seq<char>)
    requires s.Valid() && s.state == ChunkData && |data| <= s.remaining
    ensures Run(s, data) == s.(payload := s.payload + data, remaining := s.remaining - |data|,
                               state := if |data| == s.remaining then ChunkCrlf else ChunkData)
  {
    hide EndLine;
    if data == [] {
      assert s.payload + data == s.payload;
    } else {
      var init := data[..|data| - 1];
      RunData(s, init);
      assert s.payload + data == s.payload + init + [data[|data| - 1]];
    }
  }

  predicate InLine(s: Ingest)
  {
    s.state != Done && s.state != Error && s.state != ChunkData
  }

  /** Bytes without a newline extend the current line while they fit. */
  lemma {:induction false} RunLineBytes(s: Ingest, text: seq<char>)
    requires s.Valid() && InLine(s) && '\n' !in text && |s.line| + |text| < LINE_MAX
    ensures Run(s, text) == s.(line := s.line + text)
  {
    hide EndLine;
    if text == [] {
      assert s.line + text == s.line;
    } else {
      var init := text[..|text| - 1];
      RunLineBytes(s, init);
      assert s.line + text == s.line + init + [text[|text| - 1]];
    }
  }

  /** One complete CRLF-terminated line. */
  lemma RunLine(s: Ingest, text: seq<char>)
    requires s.Valid() && InLine(s) && s.line == []
    requires '\n' !in text && |text| + 1 < LINE_MAX
    ensures Run(s, text + "\r\n") == EndLine(s.(line := text))
  {
    hide Run, EndLine;
    var body := text + "\r";
    RunLineBytes(s, body);
    assert s.line + body == body;
    RunAppend(s, body, ['\n']);
    assert text + "\r\n" == body + ['\n'];
    RunNewline(s.(line := body));
    StripsCr(text);
  }

  lemma RunNewline(s: Ingest)
    requires s.Valid() && InLine(s)
    ensures Run(s, ['\n']) == EndLine(s.(line := StripCr(s.line)))
  {
    hide EndLine, StripCr;
    assert ['\n'][..0] == [];
    assert Run(s, ['\n']) == Step(Run(s, []), '\n');
  }

  lemma StripsCr(text: seq<char>)
    ensures StripCr(text + "\r") == text
  {}
}
