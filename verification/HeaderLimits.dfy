/** Which configurations survive the trip from firmware/core/src/net/stream_proto.c through
    server/src/http_ingest.c: the limits of `RoundTrip.Sendable` are exact. */
module HeaderLimits {
  import opened CString
  import IngestBatch
  import opened IngestSpec
  import opened RoundTrip
  import opened StreamProto

  /** Texts without CR, LF and NUL: what a configuration must be to have any chance. */
  predicate Clean(c: Config)
  {
    Plain(c.path) && Plain(c.host) && Plain(c.session) && c.conf < U32
  }

  /** A parser that has failed, or holds another request than the one that was sent. */
  predicate Mistaken(c: Config, s: Ingest)
  {
    s.state == Error || (s.state != RequestLine && (s.verb != "POST" || s.path != c.path))
  }

  /** A line that leaves no room for its CR overflows the line buffer, whatever follows. */
  lemma LineTooLong(s: Ingest, text: seq<char>, rest: seq<char>)
    requires s.Valid() && InLine(s) && s.line == [] && '\n' !in text && |text| + 1 >= LINE_MAX
    ensures Run(s, text + CRLF + rest).state == Error
  {
    hide Run;
    var bytes, k := text + CRLF + rest, |text| + 1;
    assert bytes[..k] == text + ['\r'] && bytes[k] == '\n';
    FindIs(bytes, '\n', k);
    IngestBatch.LineOverflows(s, bytes);
  }

  /** Verb and path are never changed after the request line. */
  lemma {:induction false} RequestKept(s: Ingest, bytes: seq<char>)
    requires s.Valid() && s.state != RequestLine
    ensures var t := Run(s, bytes); t.state != RequestLine && t.verb == s.verb && t.path == s.path
  {
    hide Step;
    if bytes != [] {
      var init := bytes[..|bytes| - 1];
      RequestKept(s, init);
      StepKeepsRequest(Run(s, init), bytes[|bytes| - 1]);
    }
  }

  lemma StepKeepsRequest(s: Ingest, b: char)
    requires s.Valid() && s.state != RequestLine
    ensures var t := Step(s, b); t.state != RequestLine && t.verb == s.verb && t.path == s.path
  {
    hide ParseRequest, ParseSize, TakeHeader, StripCr;
  }

  lemma MistakenForever(c: Config, s: Ingest, bytes: seq<char>)
    requires s.Valid() && Mistaken(c, s)
    ensures Mistaken(c, Run(s, bytes))
  {
    hide Run, Step;
    if s.state == Error {
      Final(s, bytes);
    } else {
      RequestKept(s, bytes);
    }
  }

  /** An empty, long or spaced path is refused or misread. */
  lemma BadPath(c: Config, rest: seq<char>)
    requires Plain(c.path) && !(1 <= |c.path| < PATH_MAX && ' ' !in c.path)
    ensures Mistaken(c, Run(INIT, RequestText(c.path) + CRLF + rest))
  {
    hide Run, ParseRequest;
    var text := RequestText(c.path);
    if |text| + 1 >= LINE_MAX {
      LineTooLong(INIT, text, rest);
    } else {
      RequestExact(c.path);
      RunLine(INIT, text);
      RunAppend(INIT, text + CRLF, rest);
      MistakenForever(c, Run(INIT, text + CRLF), rest);
    }
  }

  lemma {:induction false} FieldLinesSplit(fs: seq<Field>, k: nat) returns (rest: seq<char>)
    requires k < |fs|
    ensures FieldLines(fs) == FieldLines(fs[..k]) + FieldLine(fs[k]) + rest
  {
    hide FieldLine;
    var n := |fs| - 1;
    if k == n {
      rest := [];
    } else {
      assert fs[..n][..k] == fs[..k];
      var r := FieldLinesSplit(fs[..n], k);
      rest := r + FieldLine(fs[n]);
    }
  }

  /** The first field that does not fit stops the parser. */
  lemma LongField(s: Ingest, fs: seq<Field>, k: nat, rest: seq<char>)
    requires s.Valid() && s.state == HeaderLine && s.line == [] && k < |fs|
    requires forall f | f in fs[..k] :: FieldFits(f)
    requires Plain(fs[k].0) && Plain(fs[k].1) && |fs[k].0| + |fs[k].1| > 508
    ensures Run(s, FieldLines(fs) + rest).state == Error
  {
    hide Run, SetFields, FieldLines, FieldFits, Plain;
    var before, text := FieldLines(fs[..k]), fs[k].0 + ": " + fs[k].1;
    var more := FieldLinesSplit(fs, k);
    RunFields(s, fs[..k]);
    NoNewline(fs[k]);
    LineTooLong(Run(s, before), text, more + rest);
    RunAppend(s, before, text + CRLF + (more + rest));
    assert FieldLines(fs) + rest == before + (text + CRLF + (more + rest));
  }

  lemma NoNewline(f: Field)
    requires Plain(f.0) && Plain(f.1)
    ensures '\n' !in f.0 + ": " + f.1
  {}

  lemma LongValue(c: Config, s: Ingest, rest: seq<char>)
    requires Clean(c) && (|c.host| > 504 || |c.session| > 489)
    requires s.Valid() && s.state == HeaderLine && s.line == []
    ensures Run(s, FieldLines(Fields(c)) + rest).state == Error
  {
    hide Run, FieldLines, FieldFits, Plain, Digits;
    var fs := Fields(c);
    LettersAreFine("Host");
    LettersAreFine("X-SimonSays-Session");
    if |c.host| > 504 {
      LongField(s, fs, 0, rest);
    } else {
      HostFits(c.host);
      TransferFits();
      ContentFits();
      LongField(s, fs, 3, rest);
    }
  }

  /** Any other configuration is refused or misread, whatever follows its header. */
  lemma Unsendable(c: Config, rest: seq<char>)
    requires Clean(c) && !Sendable(c)
    ensures Mistaken(c, Run(INIT, HeaderBytes(c) + rest))
  {
    hide Run, HeaderBytes, FieldLines, Fields, RequestText, Plain, Digits;
    var request, fields := RequestText(c.path) + CRLF, FieldLines(Fields(c));
    HeaderLines(c);
    var more := fields + ([] + CRLF + rest);
    assert HeaderBytes(c) + rest == request + more;
    if 1 <= |c.path| < PATH_MAX && ' ' !in c.path {
      GoodRequest(c.path);
      RunAppend(INIT, request, more);
      LongValue(c, Run(INIT, request), [] + CRLF + rest);
    } else {
      BadPath(c, more);
    }
  }

  lemma GoodRequest(path: seq<char>)
    requires Plain(path) && 1 <= |path| < PATH_MAX && ' ' !in path
    ensures var s := Run(INIT, RequestText(path) + CRLF); s.state == HeaderLine && s.line == []
  {
    hide ParseRequest, Run;
    RequestExact(path);
    RunLine(INIT, RequestText(path));
  }

  /** The header block is read back if and only if path, host and session keep to their limits. */
  lemma HeaderExact(c: Config)
    requires Clean(c)
    ensures Run(INIT, HeaderBytes(c)) == AfterHeader(c) <==> Sendable(c)
  {
    hide Run, HeaderBytes, Plain, Digits, SkipBlanks, Truncate;
    if Sendable(c) {
      RunHeaderBlock(c);
    } else {
      Unsendable(c, []);
      assert HeaderBytes(c) + [] == HeaderBytes(c);
    }
  }

  /** And so is a whole session, however the network cuts it. */
  lemma StreamExact(c: Config, frames: seq<seq<char>>, parts: seq<seq<char>>)
    requires Clean(c) && Frames(frames) && Concat(parts) == StreamBytes(c, frames)
    ensures RunParts(INIT, parts) == Received(c, frames) <==> Sendable(c)
  {
    hide Run, RunParts, HeaderBytes, ChunksBytes, Plain, Digits, SkipBlanks, Truncate, Concat, Frames;
    if Sendable(c) {
      AnyFragmentation(c, frames, parts);
    } else {
      FragmentationInvariance(INIT, parts);
      Unsendable(c, ChunksBytes(frames) + FINAL_BYTES);
      assert StreamBytes(c, frames) == HeaderBytes(c) + (ChunksBytes(frames) + FINAL_BYTES);
    }
  }
}
