/** The two ends together: what the firmware encodes is what the server decodes. */
module RoundTrip {
  import opened CString
  import opened IngestSpec
  import opened StreamProto

  const CRLF := "\r\n"

  /** Free of CR, LF and NUL. */
  predicate Plain(s: seq<char>)
  {
    '\r' !in s && '\n' !in s && '\0' !in s
  }

  /** The configurations whose header lines fit the server's line buffer. */
  predicate Sendable(c: Config)
  {
    && Plain(c.path) && Plain(c.host) && Plain(c.session)
    && 1 <= |c.path| < PATH_MAX && ' ' !in c.path
    && |c.host| <= 504
    && |c.session| <= 489
    && c.conf < U32
  }

  predicate Frames(frames: seq<seq<char>>)
  {
    forall f | f in frames :: 0 < |f| < SIZE_MAX
  }

  /** Everything one client session puts on the wire. */
  function StreamBytes(c: Config, frames: seq<seq<char>>): seq<char>
  {
    HeaderBytes(c) + ChunksBytes(frames) + FINAL_BYTES
  }

  // ----- the request line -----

  function RequestText(path: seq<char>): seq<char>
  {
    "POST " + path + " HTTP/1.1"
  }

  /** The server recovers a path exactly when it has 1..127 bytes and no space. */
  lemma RequestExact(path: seq<char>)
    requires Plain(path)
    ensures ParseRequest(RequestText(path)) == Request.Request("POST", path)
       <==> 1 <= |path| < PATH_MAX && ' ' !in path
  {
    var s := RequestText(path);
    assert '\0' !in s;
    assert s[4] == ' ' && s[..4] == "POST";
    FindIs(s, ' ', 4);
    var rest := s[5..];
    assert rest == path + " HTTP/1.1";
    var p := Find(rest, ' ');
    if ' ' !in path {
      assert rest[..|path|] == path;
      FindIs(rest, ' ', |path|);
    } else {
      var i :| 0 <= i < |path| && path[i] == ' ';
      assert rest[i] == ' ';
      assert forall j | 0 <= j < p :: rest[j] in rest[..p];
    }
  }

  // ----- header fields -----

  type Field = (seq<char>, seq<char>)

  function FieldLine(f: Field): seq<char>
  {
    f.0 + ": " + f.1 + CRLF
  }

  function FieldLines(fs: seq<Field>): seq<char>
  {
    if fs == [] then [] else FieldLines(fs[..|fs| - 1]) + FieldLine(fs[|fs| - 1])
  }

  predicate FieldFits(f: Field)
  {
    Plain(f.0) && Plain(f.1) && ':' !in f.0 && |f.0| + |f.1| <= 508
  }

  /** What one header field changes in the parser. */
  function SetField(s: Ingest, f: Field): Ingest
  {
    var value := SkipBlanks(f.1);
    var isSession := EqualIgnoringCase(f.0, "X-SimonSays-Session");
    s.(session := if isSession then Truncate(value, SESSION_MAX) else s.session,
       conf := if !isSession && EqualIgnoringCase(f.0, "X-SimonSays-Wake-Conf") then ParseU32(value) else s.conf,
       headers := s.headers + [(f.0, value)])
  }

  function SetFields(s: Ingest, fs: seq<Field>): Ingest
  {
    if fs == [] then s else SetField(SetFields(s, fs[..|fs| - 1]), fs[|fs| - 1])
  }

  lemma HeaderText(name: seq<char>, value: seq<char>)
    requires Plain(name) && Plain(value) && ':' !in name
    ensures ParseHeader(name + ": " + value) == Header.Header(name, SkipBlanks(value))
    ensures Plain(name + ": " + value)
  {
    var s := name + ": " + value;
    assert s[|name|] == ':' && s[..|name|] == name;
    FindIs(s, ':', |name|);
    assert s[|name| + 1..] == " " + value;
    assert (" " + value)[1..] == value;
  }

  /** One header line takes the parser to the next one, recording the field. */
  lemma RunField(s: Ingest, f: Field)
    requires s.Valid() && s.state == HeaderLine && s.line == [] && FieldFits(f)
    ensures Run(s, FieldLine(f)) == SetField(s, f)
  {
    hide ParseHeader, EqualIgnoringCase, ParseU32, Truncate, SkipBlanks, Run;
    HeaderText(f.0, f.1);
    RunLine(s, f.0 + ": " + f.1);
  }

  /** Any list of header fields. */
  lemma {:induction false} RunFields(s: Ingest, fs: seq<Field>)
    requires s.Valid() && s.state == HeaderLine && s.line == [] && forall f | f in fs :: FieldFits(f)
    ensures Run(s, FieldLines(fs)) == SetFields(s, fs)
    ensures var t := SetFields(s, fs); t == s.(session := t.session, conf := t.conf, headers := t.headers)
  {
    hide Run, Step, FieldLine, FieldFits, EqualIgnoringCase, ParseU32, Truncate, SkipBlanks;
    if fs == [] {
      RunEmpty(s);
    } else {
      var init, last := fs[..|fs| - 1], fs[|fs| - 1];
      RunFields(s, init);
      assert last in fs;
      RunField(SetFields(s, init), last);
      RunAppend(s, FieldLines(init), FieldLine(last));
    }
  }

  lemma NamesDiffer()
    ensures EqualIgnoringCase("X-SimonSays-Session", "X-SimonSays-Session")
    ensures EqualIgnoringCase("X-SimonSays-Wake-Conf", "X-SimonSays-Wake-Conf")
    ensures !EqualIgnoringCase("X-SimonSays-Wake-Conf", "X-SimonSays-Session")
    ensures forall name | |name| < 19 ::
      !EqualIgnoringCase(name, "X-SimonSays-Session") && !EqualIgnoringCase(name, "X-SimonSays-Wake-Conf")
  {
    forall a: seq<char>, b: seq<char> | EqualIgnoringCase(a, b)
      ensures |a| == |b|
    {
      assert |LowerAll(a)| == |LowerAll(b)|;
    }
  }

  /** The confidence survives as decimal text. */
  lemma ConfidenceText(v: nat)
    requires v < U32
    ensures SkipBlanks(Digits(v, 10)) == Digits(v, 10)
    ensures ParseU32(Digits(v, 10)) == v
    ensures Plain(Digits(v, 10)) && ':' !in Digits(v, 10) && |Digits(v, 10)| <= 10
  {
    hide Digits, Value;
    var s := Digits(v, 10);
    DecimalDigits(v);
    DigitsValue(v, 10);
    TenDigits();
    DigitsLength(v, 10, 10);
    assert forall i | 0 <= i < |s| :: s[i] in s;
    assert s[..DigitRun(s)] == s;
    NoBlanks(s);
  }

  lemma NoBlanks(s: seq<char>)
    requires s != [] && s[0] != ' ' && s[0] != '\t'
    ensures SkipBlanks(s) == s
  {}

  // ----- the header block as lines -----

  function Fields(c: Config): seq<Field>
  {
    [("Host", c.host), ("Transfer-Encoding", "chunked"), ("Content-Type", "application/octet-stream"),
     ("X-SimonSays-Session", c.session), ("X-SimonSays-Wake-Conf", Digits(c.conf, 10))]
  }

  /** The header block is the request line, the five field lines and an empty line. */
  lemma HeaderLines(c: Config)
    ensures HeaderBytes(c) == RequestText(c.path) + CRLF + FieldLines(Fields(c)) + ([] + CRLF)
  {
    hide Digits, FieldLines;
    var te, ct := FieldLine(("Transfer-Encoding", "chunked")), FieldLine(("Content-Type", "application/octet-stream"));
    var host, sess, wake := "Host" + ": ", "X-SimonSays-Session" + ": ", "X-SimonSays-Wake-Conf" + ": ";
    assert HOST_TEXT == " HTTP/1.1" + CRLF + host;
    assert CONF_TEXT == CRLF + wake;
    assert SESSION_TEXT == CRLF + te + ct + sess;
    FiveFields(Fields(c));
    LineUp("POST ", c.path, " HTTP/1.1", host, c.host, te, ct, sess, c.session, wake, Digits(c.conf, 10));
  }

  lemma FiveFields(fs: seq<Field>)
    requires |fs| == 5
    ensures FieldLines(fs)
         == FieldLine(fs[0]) + FieldLine(fs[1]) + FieldLine(fs[2]) + FieldLine(fs[3]) + FieldLine(fs[4])
  {
    hide FieldLine;
    assert fs[..4][..3] == fs[..3];
    assert fs[..3][..2] == fs[..2];
    assert fs[..2][..1] == fs[..1];
    assert FieldLines(fs[..1]) == [] + FieldLine(fs[0]);
    assert FieldLines(fs[..2]) == FieldLines(fs[..1]) + FieldLine(fs[1]);
    assert FieldLines(fs[..3]) == FieldLines(fs[..2]) + FieldLine(fs[2]);
    assert FieldLines(fs[..4]) == FieldLines(fs[..3]) + FieldLine(fs[3]);
  }

  lemma LineUp(post: seq<char>, path: seq<char>, http: seq<char>, host: seq<char>, h: seq<char>, te: seq<char>,
               ct: seq<char>, sess: seq<char>, s: seq<char>, wake: seq<char>, w: seq<char>)
    ensures post + path + (http + CRLF + host) + h + (CRLF + te + ct + sess) + s + (CRLF + wake) + w + "\r\n\r\n"
         == post + path + http + CRLF
            + ((host + h + CRLF) + te + ct + (sess + s + CRLF) + (wake + w + CRLF)) + ([] + CRLF)
  {
    var l1 := post + path + http + CRLF;
    var l2, l5, l6 := host + h + CRLF, sess + s + CRLF, wake + w + CRLF;
    assert post + path + (http + CRLF + host) == l1 + host;
    Regroup(l1, host, h, CRLF, te + ct + sess);
    assert CRLF + te + ct + sess == CRLF + (te + ct + sess);
    assert l1 + l2 + (te + ct + sess) == l1 + l2 + te + ct + sess;
    Regroup(l1 + l2 + te + ct, sess, s, CRLF, wake);
    assert "\r\n\r\n" == CRLF + ([] + CRLF);
    Regroup(l1 + l2 + te + ct + l5, wake, w, CRLF, [] + CRLF);
    assert l1 + l2 + te + ct + l5 + l6 == l1 + (l2 + te + ct + l5 + l6);
  }

  lemma Regroup(a: seq<char>, b: seq<char>, c: seq<char>, d: seq<char>, e: seq<char>)
    ensures a + b + c + (d + e) == a + (b + c + d) + e
  {}

  /** The parser after the header block. */
  function AfterHeader(c: Config): Ingest
  {
    INIT.(state := ChunkSize, verb := "POST", path := c.path,
          session := Truncate(SkipBlanks(c.session), SESSION_MAX), conf := c.conf,
          headers := [("Host", SkipBlanks(c.host)), ("Transfer-Encoding", "chunked"),
                      ("Content-Type", "application/octet-stream"),
                      ("X-SimonSays-Session", SkipBlanks(c.session)),
                      ("X-SimonSays-Wake-Conf", Digits(c.conf, 10))])
  }

  lemma RunRequest(c: Config)
    requires Sendable(c)
    ensures Run(INIT, RequestText(c.path) + CRLF)
         == INIT.(state := HeaderLine, verb := "POST", path := c.path)
  {
    hide ParseRequest, Run;
    RequestExact(c.path);
    RunLine(INIT, RequestText(c.path));
  }

  lemma FieldsFit(c: Config)
    requires Sendable(c)
    ensures forall f | f in Fields(c) :: FieldFits(f)
  {
    hide Digits, FieldFits;
    ConfidenceText(c.conf);
    TransferFits();
    ContentFits();
    HostFits(c.host);
    SessionFits(c.session);
    ConfFits(Digits(c.conf, 10));
  }

  lemma TransferFits()
    ensures FieldFits(("Transfer-Encoding", "chunked"))
  {
    LettersAreFine("Transfer-Encoding");
    LettersAreFine("chunked");
  }

  lemma ContentFits()
    ensures FieldFits(("Content-Type", "application/octet-stream"))
  {
    LettersAreFine("Content-Type");
    LettersAreFine("application/octet-stream");
  }

  lemma HostFits(host: seq<char>)
    requires Plain(host)
    ensures FieldFits(("Host", host)) <==> |host| <= 504
  {
    LettersAreFine("Host");
  }

  lemma SessionFits(session: seq<char>)
    requires Plain(session)
    ensures FieldFits(("X-SimonSays-Session", session)) <==> |session| <= 489
  {
    LettersAreFine("X-SimonSays-Session");
  }

  lemma ConfFits(conf: seq<char>)
    requires Plain(conf) && |conf| <= 10
    ensures FieldFits(("X-SimonSays-Wake-Conf", conf))
  {
    LettersAreFine("X-SimonSays-Wake-Conf");
  }

  predicate Wordy(s: seq<char>)
  {
    forall i | 0 <= i < |s| :: s[i] == '-' || s[i] == '/' || 'A' <= s[i] <= 'Z' || 'a' <= s[i] <= 'z'
  }

  lemma LettersAreFine(s: seq<char>)
    requires Wordy(s)
    ensures Plain(s) && ':' !in s
  {}

  lemma FieldsSet(c: Config, s: Ingest)
    requires Sendable(c) && s == INIT.(state := HeaderLine, verb := "POST", path := c.path)
    ensures SetFields(s, Fields(c)) == AfterHeader(c).(state := HeaderLine)
  {
    hide Digits, EqualIgnoringCase, ParseU32, Truncate, SkipBlanks, SetFields, SetField;
    NamesDiffer();
    ConfidenceText(c.conf);
    NoBlanks("chunked");
    NoBlanks("application/octet-stream");
    SetFive(s, Fields(c));
    FiveSet(s, Fields(c));
  }

  predicate Uninterpreted(name: seq<char>)
  {
    !EqualIgnoringCase(name, "X-SimonSays-Session") && !EqualIgnoringCase(name, "X-SimonSays-Wake-Conf")
  }

  lemma FiveSet(s: Ingest, fs: seq<Field>)
    requires |fs| == 5 && s.headers == []
    requires Uninterpreted(fs[0].0) && Uninterpreted(fs[1].0) && Uninterpreted(fs[2].0)
    requires EqualIgnoringCase(fs[3].0, "X-SimonSays-Session")
    requires EqualIgnoringCase(fs[4].0, "X-SimonSays-Wake-Conf") && !EqualIgnoringCase(fs[4].0, "X-SimonSays-Session")
    ensures SetField(SetField(SetField(SetField(SetField(s, fs[0]), fs[1]), fs[2]), fs[3]), fs[4])
         == s.(session := Truncate(SkipBlanks(fs[3].1), SESSION_MAX), conf := ParseU32(SkipBlanks(fs[4].1)),
               headers := [(fs[0].0, SkipBlanks(fs[0].1)), (fs[1].0, SkipBlanks(fs[1].1)),
                           (fs[2].0, SkipBlanks(fs[2].1)), (fs[3].0, SkipBlanks(fs[3].1)),
                           (fs[4].0, SkipBlanks(fs[4].1))])
  {
    hide EqualIgnoringCase, ParseU32, Truncate, SkipBlanks, SetField;
    var h0, h1, h2 := (fs[0].0, SkipBlanks(fs[0].1)), (fs[1].0, SkipBlanks(fs[1].1)), (fs[2].0, SkipBlanks(fs[2].1));
    var h3, h4 := (fs[3].0, SkipBlanks(fs[3].1)), (fs[4].0, SkipBlanks(fs[4].1));
    var s3 := s.(headers := [h0, h1, h2]);
    SetOther(s, fs[0]);
    assert [] + [h0] == [h0];
    SetOther(s.(headers := [h0]), fs[1]);
    assert [h0] + [h1] == [h0, h1];
    SetOther(s.(headers := [h0, h1]), fs[2]);
    assert [h0, h1] + [h2] == [h0, h1, h2];
    SetInterpreted(s3, fs[3], fs[4]);
    assert [h0, h1, h2] + [h3, h4] == [h0, h1, h2, h3, h4];
  }

  lemma SetOther(s: Ingest, f: Field)
    requires Uninterpreted(f.0)
    ensures SetField(s, f) == s.(headers := s.headers + [(f.0, SkipBlanks(f.1))])
  {
    hide EqualIgnoringCase, SkipBlanks;
  }

  lemma SetInterpreted(s: Ingest, f: Field, g: Field)
    requires EqualIgnoringCase(f.0, "X-SimonSays-Session")
    requires EqualIgnoringCase(g.0, "X-SimonSays-Wake-Conf") && !EqualIgnoringCase(g.0, "X-SimonSays-Session")
    ensures SetField(SetField(s, f), g)
         == s.(session := Truncate(SkipBlanks(f.1), SESSION_MAX), conf := ParseU32(SkipBlanks(g.1)),
               headers := s.headers + [(f.0, SkipBlanks(f.1)), (g.0, SkipBlanks(g.1))])
  {
    hide EqualIgnoringCase, SkipBlanks, ParseU32, Truncate;
  }

  lemma SetFive(s: Ingest, fs: seq<Field>)
    requires |fs| == 5
    ensures SetFields(s, fs) == SetField(SetField(SetField(SetField(SetField(s, fs[0]), fs[1]), fs[2]), fs[3]), fs[4])
  {
    hide SetField;
    assert fs[..4][..3] == fs[..3];
    assert fs[..3][..2] == fs[..2];
    assert fs[..2][..1] == fs[..1];
    assert fs[..1][..0] == [];
    assert SetFields(s, fs[..1]) == SetField(s, fs[0]);
    assert SetFields(s, fs[..2]) == SetField(SetFields(s, fs[..1]), fs[1]);
    assert SetFields(s, fs[..3]) == SetField(SetFields(s, fs[..2]), fs[2]);
    assert SetFields(s, fs[..4]) == SetField(SetFields(s, fs[..3]), fs[3]);
  }

  lemma RunHeaderBlock(c: Config)
    requires Sendable(c)
    ensures Run(INIT, HeaderBytes(c)) == AfterHeader(c)
  {
    hide Run, Step, Digits, Fields, FieldLines, RequestText, HeaderBytes, SetFields, AfterHeader, FieldFits;
    HeaderLines(c);
    RunRequest(c);
    FieldsFit(c);
    var first, rest, end := RequestText(c.path) + CRLF, FieldLines(Fields(c)), [] + CRLF;
    var s1 := Run(INIT, first);
    RunFields(s1, Fields(c));
    FieldsSet(c, s1);
    RunAppend(INIT, first, rest);
    var s2 := Run(s1, rest);
    EndHeader(c, s2);
    RunAppend(INIT, first + rest, end);
  }

  lemma EndHeader(c: Config, s: Ingest)
    requires s == AfterHeader(c).(state := HeaderLine)
    ensures Run(s, [] + CRLF) == AfterHeader(c)
  {
    hide Run, Digits, Truncate, SkipBlanks;
    RunLine(s, []);
  }

  // ----- chunks -----

  /** The size line of a chunk denotes the payload length. */
  lemma SizeText(n: nat)
    requires n < SIZE_MAX
    ensures ParseSize(Digits(n, 16)) == Size.Size(n)
    ensures Plain(Digits(n, 16)) && |Digits(n, 16)| <= 16
  {
    hide Value, Digits, IsHexDigit;
    var s := Digits(n, 16);
    DigitsValue(n, 16);
    HexIsPlain();
    SixteenDigits();
    DigitsLength(n, 16, 16);
    assert '\0' !in s && ';' !in s;
    assert s[..Find(s, ';')] == s;
  }

  lemma HexIsPlain()
    ensures forall c | IsHexDigit(c) :: c != '\r' && c != '\n' && c != '\0' && c != ';'
  {}

  lemma SixteenDigits()
    ensures StreamProto.Pow(16, 16) == SIZE_MOD
  {
    assert StreamProto.Pow(16, 4) == 0x1_0000 by {
      assert StreamProto.Pow(16, 2) == 0x100;
    }
    assert StreamProto.Pow(16, 8) == 0x1_0000_0000 by {
      assert StreamProto.Pow(16, 6) == 0x100_0000;
    }
    assert StreamProto.Pow(16, 10) == 0x100_0000_0000;
    assert StreamProto.Pow(16, 12) == 0x1_0000_0000_0000;
    assert StreamProto.Pow(16, 14) == 0x100_0000_0000_0000;
  }

  /** One chunk adds its payload and returns to the chunk boundary. */
  lemma RunChunk(s: Ingest, p: seq<char>)
    requires s.Valid() && s.state == ChunkSize && s.line == [] && 0 < |p| < SIZE_MAX
    ensures Run(s, ChunkBytes(p)) == s.(payload := s.payload + p, remaining := 0)
  {
    hide Run, Digits, ParseSize, Step;
    var size := Digits(|p|, 16);
    SizeText(|p|);
    RunLine(s, size);
    var s1 := Run(s, size + CRLF);
    RunData(s1, p);
    var s2 := Run(s1, p);
    RunLine(s2, []);
    assert [] + CRLF == CRLF;
    RunAppend(s, size + CRLF, p);
    RunAppend(s, size + CRLF + p, CRLF);
  }

  lemma {:induction false} RunChunks(s: Ingest, frames: seq<seq<char>>)
    requires s.Valid() && s.state == ChunkSize && s.line == [] && s.remaining == 0 && Frames(frames)
    ensures Run(s, ChunksBytes(frames)) == s.(payload := s.payload + Concat(frames))
  {
    hide Run, ChunkBytes, Step;
    if frames == [] {
      RunEmpty(s);
      assert s.payload + [] == s.payload;
    } else {
      var init, last := frames[..|frames| - 1], frames[|frames| - 1];
      RunChunks(s, init);
      assert last in frames;
      RunChunk(Run(s, ChunksBytes(init)), last);
      RunAppend(s, ChunksBytes(init), ChunkBytes(last));
      assert s.payload + Concat(init) + last == s.payload + (Concat(init) + last);
    }
  }

  /** The terminator completes the message with its last byte and not before. */
  lemma RunFinal(s: Ingest)
    requires s.Valid() && s.state == ChunkSize && s.line == []
    ensures Run(s, FINAL_BYTES) == s.(state := Done, complete := true)
    ensures Run(s, FINAL_BYTES[..|FINAL_BYTES| - 1]).state == Trailer
  {
    hide Run, Step, ParseSize;
    assert FINAL_BYTES == "0" + CRLF + ([] + CRLF);
    SizeText(0);
    ZeroHex();
    RunLine(s, "0");
    RunLine(Run(s, "0" + CRLF), []);
    RunAppend(s, "0" + CRLF, [] + CRLF);
    assert FINAL_BYTES[..|FINAL_BYTES| - 1] == "0" + CRLF + "\r";
    RunAppend(s, "0" + CRLF, "\r");
    RunLineBytes(Run(s, "0" + CRLF), "\r");
  }

  lemma ZeroHex()
    ensures Digits(0, 16) == "0"
  {}

  /** What the server holds after a whole stream. */
  function Received(c: Config, frames: seq<seq<char>>): Ingest
  {
    AfterHeader(c).(payload := Concat(frames), state := Done, complete := true)
  }

  /** For every sendable configuration and all frames, the parser ends complete and without error,
      with the path, session, confidence and header fields that were sent and exactly the
      concatenated payload, and not before the last byte. */
  lemma WholeStream(c: Config, frames: seq<seq<char>>)
    requires Sendable(c) && Frames(frames)
    ensures Run(INIT, StreamBytes(c, frames)) == Received(c, frames)
    ensures var all := StreamBytes(c, frames);
            all != [] && Run(INIT, all[..|all| - 1]).state == Trailer
  {
    hide Run, HeaderBytes, ChunksBytes, AfterHeader;
    BeforeFinal(c, frames);
    FinalAfter(INIT, HeaderBytes(c) + ChunksBytes(frames));
  }

  lemma BeforeFinal(c: Config, frames: seq<seq<char>>)
    requires Sendable(c) && Frames(frames)
    ensures Run(INIT, HeaderBytes(c) + ChunksBytes(frames)) == AfterHeader(c).(payload := Concat(frames))
    ensures AfterHeader(c).state == ChunkSize && AfterHeader(c).line == [] && !AfterHeader(c).error
  {
    hide Run, HeaderBytes, ChunksBytes, Step, Truncate, SkipBlanks, Digits, Sendable, Frames, Concat;
    RunHeaderBlock(c);
    RunChunks(AfterHeader(c), frames);
    assert [] + Concat(frames) == Concat(frames);
    RunAppend(INIT, HeaderBytes(c), ChunksBytes(frames));
  }

  lemma FinalAfter(s: Ingest, sent: seq<char>)
    requires s.Valid() && Run(s, sent).state == ChunkSize && Run(s, sent).line == []
    ensures Run(s, sent + FINAL_BYTES) == Run(s, sent).(state := Done, complete := true)
    ensures Run(s, (sent + FINAL_BYTES)[..|sent + FINAL_BYTES| - 1]).state == Trailer
  {
    hide Run, Step;
    var most := FINAL_BYTES[..|FINAL_BYTES| - 1];
    RunFinal(Run(s, sent));
    RunAppend(s, sent, FINAL_BYTES);
    RunAppend(s, sent, most);
    assert (sent + FINAL_BYTES)[..|sent + FINAL_BYTES| - 1] == sent + most;
  }

  /** What the server has received, field by field. */
  lemma ReceivedFields(c: Config, frames: seq<seq<char>>)
    ensures var r := Received(c, frames);
            && r.complete && !r.error && r.state == Done
            && r.verb == "POST" && r.path == c.path && r.conf == c.conf && r.payload == Concat(frames)
    ensures |c.session| < 64 && (c.session == [] || (c.session[0] != ' ' && c.session[0] != '\t'))
       ==> Received(c, frames).session == c.session
  {
    SessionExact(c.session);
  }

  /** Whatever follows the stream is left alone: the parser takes every byte of the stream and
      none of the rest. */
  lemma TakesStream(c: Config, frames: seq<seq<char>>, rest: seq<char>)
    requires Sendable(c) && Frames(frames)
    ensures Run(INIT, StreamBytes(c, frames) + rest) == Received(c, frames)
    ensures Taken(INIT, StreamBytes(c, frames) + rest) == |StreamBytes(c, frames)|
  {
    hide Run, Taken, Step, StreamBytes, AfterHeader;
    WholeStream(c, frames);
    TakenExact(INIT, StreamBytes(c, frames));
    RunAppend(INIT, StreamBytes(c, frames), rest);
    Final(Received(c, frames), rest);
  }

  /** The same however the network cuts the stream. */
  lemma AnyFragmentation(c: Config, frames: seq<seq<char>>, parts: seq<seq<char>>)
    requires Sendable(c) && Frames(frames) && Concat(parts) == StreamBytes(c, frames)
    ensures RunParts(INIT, parts) == Received(c, frames)
  {
    FragmentationInvariance(INIT, parts);
    WholeStream(c, frames);
  }

  /** The session id is the one stored exactly when it has at most 63 bytes and no leading blank. */
  lemma SessionExact(s: seq<char>)
    ensures Truncate(SkipBlanks(s), SESSION_MAX) == s
       <==> |s| < SESSION_MAX && (s == [] || (s[0] != ' ' && s[0] != '\t'))
  {
    SkipShortens(s);
  }

  lemma {:induction false} SkipShortens(s: seq<char>)
    ensures |SkipBlanks(s)| <= |s|
    ensures SkipBlanks(s) == s <==> s == [] || (s[0] != ' ' && s[0] != '\t')
    ensures |SkipBlanks(s)| == |s| ==> SkipBlanks(s) == s
  {
    if s != [] && (s[0] == ' ' || s[0] == '\t') {
      SkipShortens(s[1..]);
    }
  }
}
