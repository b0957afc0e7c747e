/** A second reading of the wire format that looks at whole lines and whole chunks, and its
    agreement with the byte machine on every input, well-formed or not. */
module IngestBatch {
  import opened CString
  import opened IngestSpec

  predicate AtBoundary(s: Ingest)
  {
    InLine(s) ==> s.line == []
  }

  /** Parses everything there is: a chunk's data by its length, anything else line by line. A line
      may have at most 511 bytes before its newline. */
  function Parse(s: Ingest, bytes: seq<char>): Ingest
    requires s.Valid() && AtBoundary(s)
    decreases |bytes|
  {
    if bytes == [] || s.state == Done || s.state == Error then s
    else if s.state == ChunkData then
      var n := if |bytes| < s.remaining then |bytes| else s.remaining;
      Parse(s.(payload := s.payload + bytes[..n], remaining := s.remaining - n,
               line := [], state := if n == s.remaining then ChunkCrlf else ChunkData), bytes[n..])
    else
      var k := Find(bytes, '\n');
      if k >= LINE_MAX then Fail(s.(line := bytes[..LINE_MAX - 1]))
      else if k == |bytes| then s.(line := bytes)
      else Parse(AfterLine(s, bytes[..k]), bytes[k + 1..])
  }

  function AfterLine(s: Ingest, text: seq<char>): (s': Ingest)
    requires s.Valid() && InLine(s) && s.line == [] && |text| < LINE_MAX
    ensures s'.Valid() && AtBoundary(s')
    ensures s'.state == ChunkData ==> s'.line == []
  {
    hide ParseRequest, ParseSize, TakeHeader;
    EndLine(s.(line := StripCr(text)))
  }

  /** The incremental machine and the batch reading agree on every byte sequence. */
  lemma {:induction false} MachineIsBatch(s: Ingest, bytes: seq<char>)
    requires s.Valid() && AtBoundary(s) && (s.state == ChunkData ==> s.line == [])
    ensures Run(s, bytes) == Parse(s, bytes)
    decreases |bytes|
  {
    hide Run, Step, AfterLine, EndLine;
    if bytes == [] {
      RunEmpty(s);
    } else if s.state == Done || s.state == Error {
      Final(s, bytes);
    } else if s.state == ChunkData {
      var n := if |bytes| < s.remaining then |bytes| else s.remaining;
      RunData(s, bytes[..n]);
      RunAppend(s, bytes[..n], bytes[n..]);
      assert bytes == bytes[..n] + bytes[n..];
      MachineIsBatch(Run(s, bytes[..n]), bytes[n..]);
    } else {
      var k := Find(bytes, '\n');
      if k >= LINE_MAX {
        LineOverflows(s, bytes);
      } else if k == |bytes| {
        assert bytes[..k] == bytes;
        RunLineBytes(s, bytes);
      } else {
        LineEnds(s, bytes[..k]);
        var whole := bytes[..k] + ['\n'];
        assert bytes == whole + bytes[k + 1..];
        RunAppend(s, whole, bytes[k + 1..]);
        MachineIsBatch(AfterLine(s, bytes[..k]), bytes[k + 1..]);
      }
    }
  }

  lemma LineEnds(s: Ingest, text: seq<char>)
    requires s.Valid() && InLine(s) && s.line == [] && |text| < LINE_MAX && '\n' !in text
    ensures Run(s, text + ['\n']) == AfterLine(s, text)
  {
    hide Run, EndLine, StripCr;
    RunLineBytes(s, text);
    assert [] + text == text;
    RunAppend(s, text, ['\n']);
    RunNewline(s.(line := text));
  }

  lemma LineOverflows(s: Ingest, bytes: seq<char>)
    requires s.Valid() && InLine(s) && s.line == [] && Find(bytes, '\n') >= LINE_MAX
    ensures Run(s, bytes) == Fail(s.(line := bytes[..LINE_MAX - 1]))
  {
    hide Run, Step, Find;
    var full, rest := bytes[..LINE_MAX - 1], bytes[LINE_MAX - 1..];
    NoNewlineBefore(bytes);
    RunLineBytes(s, full);
    assert [] + full == full && bytes == full + rest;
    RunAppend(s, full, rest);
    FullLine(s.(line := full), rest);
  }

  lemma NoNewlineBefore(bytes: seq<char>)
    requires Find(bytes, '\n') >= LINE_MAX
    ensures '\n' !in bytes[..LINE_MAX - 1] && bytes[LINE_MAX - 1] != '\n'
  {
    hide Find;
    assert forall i | 0 <= i < LINE_MAX :: bytes[i] in bytes[..Find(bytes, '\n')];
  }

  /** One more byte than the line buffer holds is an error, and then nothing changes any more. */
  lemma FullLine(s: Ingest, rest: seq<char>)
    requires s.Valid() && InLine(s) && |s.line| == LINE_MAX - 1 && rest != [] && rest[0] != '\n'
    ensures Run(s, rest) == Fail(s)
  {
    hide EndLine;
    assert [rest[0]][..0] == [];
    assert Run(s, [rest[0]]) == Step(Run(s, []), rest[0]);
    RunAppend(s, [rest[0]], rest[1..]);
    assert rest == [rest[0]] + rest[1..];
    Final(Fail(s), rest[1..]);
  }
}
