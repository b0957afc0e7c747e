/** What the line parsers of server/src/http_ingest.c accept, said without their definitions: the
    shape of a request line, of a header and of a chunk size, and the verdict on every line. */
module LineMeaning {
  import opened Bits
  import opened CString
  import opened IngestSpec
  import RoundTrip
  import StreamProto

  // ----- the request line -----

  /** A line is read as method and path if it is those two, each followed by one space. */
  lemma RequestOf(v: seq<char>, p: seq<char>, rest: seq<char>)
    requires '\0' !in v + " " + p + " " + rest
    requires 1 <= |v| < 8 && ' ' !in v && 1 <= |p| < 128 && ' ' !in p
    ensures ParseRequest(v + " " + p + " " + rest) == Request.Request(v, p)
  {
    var s := v + " " + p + " " + rest;
    assert s[|v|] == ' ' && s[..|v|] == v;
    FindIs(s, ' ', |v|);
    var tail := s[|v| + 1..];
    assert tail == p + " " + rest;
    assert tail[|p|] == ' ' && tail[..|p|] == p;
    FindIs(tail, ' ', |p|);
  }

  /** And only then. */
  lemma RequestShape(line: seq<char>) returns (rest: seq<char>)
    requires '\0' !in line && ParseRequest(line).Request?
    ensures var q := ParseRequest(line);
            && line == q.verb + " " + q.path + " " + rest
            && 1 <= |q.verb| < 8 && ' ' !in q.verb && 1 <= |q.path| < 128 && ' ' !in q.path
  {
    var v := Find(line, ' ');
    var tail := line[v + 1..];
    var p := Find(tail, ' ');
    rest := tail[p + 1..];
    assert tail == tail[..p] + " " + rest;
    assert line == line[..v] + " " + tail;
  }

  // ----- header lines -----

  predicate Blank(s: seq<char>) { forall i | 0 <= i < |s| :: s[i] == ' ' || s[i] == '\t' }

  /** A header is the text before the first colon and, past any blanks, the text after it. */
  lemma HeaderOf(name: seq<char>, blanks: seq<char>, value: seq<char>)
    requires '\0' !in name + ":" + blanks + value && ':' !in name && Blank(blanks)
    requires value == [] || (value[0] != ' ' && value[0] != '\t')
    ensures ParseHeader(name + ":" + blanks + value) == Header.Header(name, value)
  {
    var s := name + ":" + blanks + value;
    assert s[|name|] == ':' && s[..|name|] == name;
    FindIs(s, ':', |name|);
    assert s[|name| + 1..] == blanks + value;
    BlanksSkipped(blanks, value);
  }

  lemma {:induction false} BlanksSkipped(blanks: seq<char>, value: seq<char>)
    requires Blank(blanks) && (value == [] || (value[0] != ' ' && value[0] != '\t'))
    ensures SkipBlanks(blanks + value) == value
  {
    if blanks == [] {
      assert blanks + value == value;
    } else {
      assert (blanks + value)[1..] == blanks[1..] + value;
      BlanksSkipped(blanks[1..], value);
    }
  }

  lemma NoHeader(line: seq<char>)
    requires '\0' !in line
    ensures ParseHeader(line) == NoColon <==> ':' !in line
  {
    if ':' !in line {
      NotFound(line, ':');
    }
  }

  /** The two names that matter are recognised in any case; every header is reported. */
  lemma KnownFields(s: Ingest, name: seq<char>, value: seq<char>)
    requires ParseHeader(s.line) == Header.Header(name, value)
    ensures var t, reported := TakeHeader(s), s.headers + [(name, value)];
            && (LowerAll(name) == "x-simonsays-session" ==>
                  t == s.(session := Truncate(value, 64), headers := reported))
            && (LowerAll(name) == "x-simonsays-wake-conf" ==>
                  t == s.(conf := ParseU32(value), headers := reported))
            && (LowerAll(name) != "x-simonsays-session" && LowerAll(name) != "x-simonsays-wake-conf" ==>
                  t == s.(headers := reported))
  {
    hide ParseHeader, Truncate, ParseU32;
    LowerNames();
  }

  lemma LowerNames()
    ensures LowerAll("X-SimonSays-Session") == "x-simonsays-session"
    ensures LowerAll("X-SimonSays-Wake-Conf") == "x-simonsays-wake-conf"
  {}

  // ----- numbers -----

  /** The digits are 0 to 9, and for sizes also the letters a to f in either case. */
  lemma DigitsExact(c: char)
    ensures IsDigit(c) <==> c in "0123456789"
    ensures IsHexDigit(c) <==> Lower(c) in "0123456789abcdef"
    ensures IsHexDigit(c) ==> DigitValue(c) < 16 && "0123456789abcdef"[DigitValue(c)] == Lower(c)
  {}

  /** A decimal is read up to the first character that is no digit, modulo 2^32. */
  lemma DecimalPrefix(n: nat, rest: seq<char>)
    requires rest == [] || !IsDigit(rest[0])
    ensures ParseU32(StreamProto.Digits(n, 10) + rest) == n % U32
  {
    hide StreamProto.Digits, Value;
    var s := StreamProto.Digits(n, 10);
    StreamProto.DecimalDigits(n);
    StreamProto.DigitsValue(n, 10);
    RunOfDigits(s, rest);
    assert (s + rest)[..|s|] == s;
  }

  lemma {:induction false} RunOfDigits(s: seq<char>, rest: seq<char>)
    requires (forall c | c in s :: IsDigit(c)) && (rest == [] || !IsDigit(rest[0]))
    ensures DigitRun(s + rest) == |s|
  {
    if s == [] {
      assert s + rest == rest;
    } else {
      assert s[0] in s && forall c | c in s[1..] :: c in s;
      RunOfDigits(s[1..], rest);
      assert (s + rest)[1..] == s[1..] + rest;
    }
  }

  /** A chunk extension does not change the size. */
  lemma ExtensionIgnored(text: seq<char>, ext: seq<char>)
    requires '\0' !in text && ';' !in text && '\0' !in ext
    ensures ParseSize(text + ";" + ext) == ParseSize(text)
  {
    var s := text + ";" + ext;
    assert s[|text|] == ';' && s[..|text|] == text;
    FindIs(s, ';', |text|);
    NotFound(text, ';');
    assert text[..|text|] == text;
  }

  lemma NotFound(s: seq<char>, c: char)
    requires c !in s
    ensures Find(s, c) == |s|
  {
    assert forall i | 0 <= i < |s| :: s[i] in s;
  }

  /** The size is bad exactly when its text is empty, holds something that is no hex digit, or
      denotes the error value modulo the word. */
  lemma BadSizes(text: seq<char>)
    requires '\0' !in text && ';' !in text
    ensures ParseSize(text) == BadSize
       <==> || text == [] || (exists c | c in text :: !IsHexDigit(c))
            || Value(text, 16) % SIZE_MOD == SIZE_MAX
  {
    NotFound(text, ';');
    assert text[..|text|] == text;
  }

  /** The case of the digits does not matter. */
  lemma SizeIgnoresCase(a: seq<char>, b: seq<char>)
    requires '\0' !in a && ';' !in a && '\0' !in b && ';' !in b && EqualIgnoringCase(a, b)
    ensures ParseSize(a) == ParseSize(b)
  {
    hide Value;
    SameCharacters(a, b);
    NotFound(a, ';');
    NotFound(b, ';');
    assert a[..|a|] == a && b[..|b|] == b;
    if forall c | c in a :: IsHexDigit(c) {
      forall i | 0 <= i < |b|
        ensures IsHexDigit(b[i])
      {
        assert a[i] in a;
        HexIgnoresCase(a[i], b[i]);
      }
      ValueIgnoresCase(a, b);
    } else {
      var c :| c in a && !IsHexDigit(c);
      var i :| 0 <= i < |a| && a[i] == c;
      HexIgnoresCase(a[i], b[i]);
      assert b[i] in b;
    }
  }

  lemma SameCharacters(a: seq<char>, b: seq<char>)
    requires EqualIgnoringCase(a, b)
    ensures |a| == |b| && forall i | 0 <= i < |a| :: Lower(a[i]) == Lower(b[i])
  {
    assert |LowerAll(a)| == |a| && |LowerAll(b)| == |b|;
    forall i | 0 <= i < |a|
      ensures Lower(a[i]) == Lower(b[i])
    {
      assert LowerAll(a)[i] == LowerAll(b)[i];
    }
  }

  lemma HexIgnoresCase(a: char, b: char)
    requires Lower(a) == Lower(b)
    ensures IsHexDigit(a) <==> IsHexDigit(b)
    ensures IsHexDigit(a) ==> DigitValue(a) == DigitValue(b)
  {
    LowerExact(a, b);
  }

  lemma {:induction false} ValueIgnoresCase(a: seq<char>, b: seq<char>)
    requires |a| == |b| && forall i | 0 <= i < |a| :: Lower(a[i]) == Lower(b[i])
    requires (forall c | c in a :: IsHexDigit(c)) && (forall c | c in b :: IsHexDigit(c))
    ensures Value(a, 16) == Value(b, 16)
  {
    if a != [] {
      var a', b' := a[..|a| - 1], b[..|b| - 1];
      assert (forall c | c in a' :: c in a) && (forall c | c in b' :: c in b);
      ValueIgnoresCase(a', b');
      HexIgnoresCase(a[|a| - 1], b[|b| - 1]);
    }
  }

  // ----- the verdict on a line -----

  /** Which lines are refused: a request line of another shape, a bad chunk size, and anything but an
      empty line after chunk data. Header and trailer lines never are. */
  ghost predicate Refused(state: State, text: seq<char>)
  {
    match state
    case RequestLine =>
      !exists v: seq<char>, p: seq<char>, rest: seq<char> :: (
         && text == v + " " + p + " " + rest
         && 1 <= |v| < 8 && ' ' !in v && 1 <= |p| < 128 && ' ' !in p)
    case ChunkSize => ParseSize(text) == BadSize
    case ChunkCrlf => text != []
    case _ => false
  }

  /** A complete line ends in the error state exactly when it is refused, and otherwise in the state
      the protocol prescribes. */
  lemma LineVerdict(s: Ingest, text: seq<char>)
    requires s.Valid() && InLine(s) && s.line == [] && RoundTrip.Plain(text) && |text| + 1 < LINE_MAX
    ensures var t := Run(s, text + "\r\n");
            && (t.state == Error <==> Refused(s.state, text)) && (t.error == (s.error || t.state == Error))
            && (t.state != Error ==>
                  match s.state
                  case RequestLine => t.state == HeaderLine
                  case HeaderLine => t.state == if text == [] then ChunkSize else HeaderLine
                  case ChunkSize =>
                    var n := ParseSize(text).value;
                    t.state == (if n == 0 then Trailer else ChunkData) && (n > 0 ==> t.remaining == n)
                  case ChunkCrlf => t.state == ChunkSize
                  case _ => t.state == Done && t.complete)
  {
    hide Run, ParseRequest, ParseSize, TakeHeader;
    RunLine(s, text);
    if s.state == RequestLine {
      RequestVerdict(text);
    }
  }

  lemma RequestVerdict(text: seq<char>)
    requires '\0' !in text
    ensures ParseRequest(text).Request? <==> !Refused(RequestLine, text)
  {
    hide ParseRequest;
    if ParseRequest(text).Request? {
      var rest := RequestShape(text);
    }
    if v: seq<char>, p: seq<char>, rest: seq<char> :|
      && text == v + " " + p + " " + rest
      && 1 <= |v| < 8 && ' ' !in v && 1 <= |p| < 128 && ' ' !in p
    {
      RequestOf(v, p, rest);
    }
  }
}
