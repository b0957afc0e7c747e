/** firmware/core/src/net/stream_client.c: one streaming session over an injected transport and
    PCM source. The environment is scripted: a run may be any finite sequence of results. */
module StreamClient {
  import opened CString
  import opened StreamProto
  import opened FsmTypes
  import IngestSpec
  import RoundTrip

  const WOULD_BLOCK: int := -2

  /** A byte transport that answers from scripts; an exhausted script answers with an error.
      A send takes at most what it is given, possibly nothing. */
  class Transport {
    var sends: seq<int>
    var recvs: seq<int>
    var wire: seq<char>       // all bytes accepted so far
    var polls: nat            // recv calls made
    var closed: bool          // some recv returned 0
    var failed: bool          // some send or recv returned a real error

    method Send(buf: array<char>, off: nat, len: nat) returns (n: int)
      requires off + len <= buf.Length
      modifies this`sends, this`wire, this`failed
      ensures n <= len
      ensures wire == old(wire) + if n < 0 then [] else buf[off..off + n]
      ensures failed == (old(failed) || n < 0)
      ensures n >= 0 ==> |sends| < |old(sends)|
    {
      n := -1;
      if sends != [] {
        n := if sends[0] < len then sends[0] else len;
        sends := sends[1..];
      }
      if n < 0 {
        failed := true;
      } else {
        wire := wire + buf[off..off + n];
      }
      assert wire == old(wire) + if n < 0 then [] else buf[off..off + n];
    }

    method Recv() returns (n: int)
      modifies this`recvs, this`polls, this`closed, this`failed
      ensures polls == old(polls) + 1
      ensures closed == (old(closed) || n == 0)
      ensures failed == (old(failed) || (n < 0 && n != WOULD_BLOCK))
    {
      n := -1;
      if recvs != [] {
        n := recvs[0];
        recvs := recvs[1..];
      }
      polls := polls + 1;
      closed := closed || n == 0;
      failed := failed || (n < 0 && n != WOULD_BLOCK);
    }
  }

  function CutTo(f: seq<char>, cap: nat): seq<char>
  {
    if |f| < cap then f else f[..cap]
  }

  /** A PCM source: each read delivers the next scripted frame, cut to the requested size. An empty
      frame, or the end of the script, is the end of speech. */
  class Source {
    var script: seq<seq<char>>
    var given: seq<seq<char>>   // the non-empty frames delivered so far
    var ended: bool             // some read returned nothing

    method Read(buf: array<char>, off: nat, cap: nat) returns (n: nat)
      requires off + cap <= buf.Length
      modifies this, buf
      ensures n <= cap && ended == (old(ended) || n == 0)
      ensures buf[off..off + n] == if old(script) == [] then [] else CutTo(old(script)[0], cap)
      ensures script == if old(script) == [] then [] else old(script)[1..]
      ensures given == old(given) + if n == 0 then [] else [buf[off..off + n]]
      ensures forall p | 0 <= p < off :: buf[p] == old(buf[p])
    {
      n := 0;
      if script != [] {
        var f := script[0];
        script := script[1..];
        n := if |f| < cap then |f| else cap;
        forall i | 0 <= i < n {
          buf[off + i] := f[i];
        }
        assert buf[off..off + n] == CutTo(f, cap);
      }
      if n > 0 {
        given := given + [buf[off..off + n]];
      } else {
        ended := true;
      }
      assert given == old(given) + if n == 0 then [] else [buf[off..off + n]];
    }
  }

  /** The frames a source has to offer: up to the first empty one, and at most max. */
  function Recorded(script: seq<seq<char>>, cap: nat, max: nat): seq<seq<char>>
    decreases max
  {
    if max == 0 || script == [] || CutTo(script[0], cap) == [] then []
    else [CutTo(script[0], cap)] + Recorded(script[1..], cap, max - 1)
  }

  lemma NextRecorded(script: seq<seq<char>>, cap: nat, max: nat)
    ensures max == 0 || script == [] || CutTo(script[0], cap) == [] ==> Recorded(script, cap, max) == []
    ensures max > 0 && script != [] && CutTo(script[0], cap) != [] ==>
      Recorded(script, cap, max) == [CutTo(script[0], cap)] + Recorded(script[1..], cap, max - 1)
  {}

  lemma {:induction false} RecordedSizes(script: seq<seq<char>>, cap: nat, max: nat)
    ensures |Recorded(script, cap, max)| <= max
    ensures forall f | f in Recorded(script, cap, max) :: 0 < |f| <= cap
    decreases max
  {
    if max > 0 && script != [] {
      RecordedSizes(script[1..], cap, max - 1);
    }
  }

  function First(script: seq<seq<char>>, max: nat): seq<seq<char>>
  {
    if |script| < max then script else script[..max]
  }

  /** When every frame is non-empty and of at most the requested size, those are the first frames of
      the script, unchanged. */
  lemma {:induction false} RecordedWhole(script: seq<seq<char>>, cap: nat, max: nat)
    requires forall f | f in script :: 0 < |f| <= cap
    ensures Recorded(script, cap, max) == First(script, max)
    decreases max
  {
    hide Recorded, First;
    NextRecorded(script, cap, max);
    FirstStep(script, max);
    if max > 0 && script != [] {
      assert script[0] in script;
      assert CutTo(script[0], cap) == script[0];
      RecordedWhole(script[1..], cap, max - 1);
    }
  }

  lemma FirstStep(script: seq<seq<char>>, max: nat)
    ensures max == 0 || script == [] ==> First(script, max) == []
    ensures max > 0 && script != [] ==> First(script, max) == [script[0]] + First(script[1..], max - 1)
  {}

  /** Sends buf[..len]; `k` bytes have gone out, all of them exactly on success. */
  method SendAll(tr: Transport, buf: array<char>, len: nat) returns (ok: bool, ghost k: nat)
    requires len <= buf.Length
    modifies tr`sends, tr`wire, tr`failed
    ensures k <= len && tr.wire == old(tr.wire) + buf[..k]
    ensures ok <==> k == len
    ensures ok ==> tr.failed == old(tr.failed)
    ensures !ok ==> tr.failed
  {
    var sent := 0;
    ok, k := true, 0;
    assert old(tr.wire) + buf[..0] == old(tr.wire);
    while sent < len
      invariant 0 <= sent <= len && k == sent
      invariant tr.wire == old(tr.wire) + buf[..sent]
      invariant tr.failed == old(tr.failed)
      decreases |tr.sends|
    {
      var n := tr.Send(buf, sent, len - sent);
      if n < 0 {
        return false, sent;
      }
      assert buf[..sent] + buf[sent..sent + n] == buf[..sent + n];
      sent := sent + n;
      k := sent;
    }
  }

  /** 1 when the peer has closed, 0 when the stream is open, -1 on a real error. */
  method PollClose(tr: Transport) returns (c: int)
    modifies tr`recvs, tr`polls, tr`closed, tr`failed
    ensures -1 <= c <= 1
    ensures tr.polls == old(tr.polls) + 1
    ensures tr.closed == (old(tr.closed) || c == 1)
    ensures tr.failed == (old(tr.failed) || c == -1)
  {
    var n := tr.Recv();
    if n == 0 {
      return 1;
    }
    if n == WOULD_BLOCK || n > 0 {
      return 0;
    }
    return -1;
  }

  /** What a session has put on the wire: completed messages and the start of an interrupted one. */
  datatype Trace = Trace(header: bool, frames: seq<seq<char>>, final: bool, partial: seq<char>)

  function Sent(c: Config, t: Trace): seq<char>
  {
    (if t.header then HeaderBytes(c) else [])
    + ChunksBytes(t.frames) + (if t.final then FINAL_BYTES else []) + t.partial
  }

  /** The message a session would send after the completed ones, when `given` has been read. */
  function NextMessage(c: Config, t: Trace, given: seq<seq<char>>): seq<char>
  {
    if !t.header then HeaderBytes(c)
    else if |t.frames| < |given| then ChunkBytes(given[|t.frames|])
    else if !t.final then FINAL_BYTES
    else []
  }

  /** Completed messages are in protocol order and an interrupted one is the next in line. */
  ghost predicate WellOrdered(c: Config, t: Trace, given: seq<seq<char>>)
  {
    && t.frames <= given && |given| <= |t.frames| + 1
    && (t.final ==> t.frames == given)
    && (!t.header ==> given == [] && !t.final)
    && (t.partial != [] ==> t.partial < NextMessage(c, t, given))
  }

  /** What every caller needs of the scratch buffer: a PCM frame and an encoded chunk. */
  function Need(frameBytes: nat): nat
  {
    frameBytes + Overhead(frameBytes)
  }

  /** The size asked for is exactly that of a full frame and its encoded chunk. */
  lemma NeedTight(frameBytes: nat, scratch: nat)
    requires frameBytes > 0
    ensures Need(frameBytes) <= scratch <==> frameBytes + |ChunkBytes(seq(frameBytes, _ => ' '))| <= scratch
  {
    hide Digits;
  }

  /** Every chunk of a frame up to the requested size fits ahead of the PCM tail. */
  lemma ChunkFits(n: nat, frameBytes: nat, scratch: nat)
    requires 0 < n <= frameBytes && Need(frameBytes) <= scratch
    ensures Overhead(n) <= scratch - frameBytes
    ensures |FINAL_BYTES| <= scratch
  {
    DigitsMonotone(n, frameBytes);
  }

  /** Waits for the peer to close, at most `max` polls. */
  method AwaitClose(tr: Transport, max: nat) returns (ev: Event)
    requires !tr.closed && !tr.failed
    modifies tr`recvs, tr`polls, tr`closed, tr`failed
    ensures tr.polls <= old(tr.polls) + max
    ensures ev == SessionTimeout ==> tr.polls == old(tr.polls) + max
    ensures ev != SessionTimeout ==> tr.polls > old(tr.polls)
    ensures ev == ServerClosed <==> tr.closed
    ensures ev == EvError <==> tr.failed
    ensures ev in {ServerClosed, EvError, SessionTimeout}
  {
    for i := 0 to max
      invariant tr.polls == old(tr.polls) + i
      invariant !tr.closed && !tr.failed
    {
      var c := PollClose(tr);
      if c < 0 {
        return EvError;
      }
      if c > 0 {
        return ServerClosed;
      }
    }
    return SessionTimeout;
  }

  /** Encodes and sends the frame of n bytes at the tail of scratch. */
  method SendFrame(c: Config, tr: Transport, scratch: array<char>, frameBytes: nat, n: nat, ghost t: Trace,
                   ghost given: seq<seq<char>>, ghost w0: seq<char>) returns (ok: bool, ghost t': Trace)
    requires 0 < n <= frameBytes && Need(frameBytes) <= scratch.Length
    requires t.header && !t.final && t.partial == []
    requires given == t.frames + [scratch[scratch.Length - frameBytes..][..n]]
    requires !tr.failed && tr.wire == w0 + Sent(c, t)
    modifies tr`sends, tr`wire, tr`failed, scratch
    ensures WellOrdered(c, t', given) && t'.header && !t'.final
    ensures tr.wire == w0 + Sent(c, t')
    ensures if ok then t' == t.(frames := given) && !tr.failed
            else t' == t.(partial := t'.partial) && tr.failed
  {
    hide ChunkBytes, ChunksBytes, HeaderBytes, Overhead;
    ghost var p := scratch[scratch.Length - frameBytes..][..n];
    var off := scratch.Length - frameBytes;
    assert p == scratch[off..off + n];
    ChunkFits(n, frameBytes, scratch.Length);
    var clen := EncodeChunk(scratch, off, scratch, off, n);
    NeedPositive(n);
    ghost var k;
    ok, k := SendAll(tr, scratch, clen);
    assert scratch[..k] == ChunkBytes(p)[..k];
    if ok {
      t' := t.(frames := given);
      AppendChunk(c, t, p);
    } else {
      t' := t.(partial := scratch[..k]);
    }
    assert w0 + Sent(c, t) + scratch[..k] == w0 + (Sent(c, t) + scratch[..k]);
    assert Sent(c, t') == Sent(c, t) + scratch[..k];
  }

  /** The size the client asks for does not cover the header: with one-byte frames and exactly that
      much scratch no header can be built, whatever the configuration. */
  lemma NeedMissesHeader(c: Config)
    ensures Need(1) < |HeaderBytes(c)|
  {
    hide Digits;
    assert |StreamProto.Digits(1, 16)| == 1 by {
      StreamProto.DigitsLength(1, 16, 1);
    }
  }

  lemma NeedPositive(n: nat)
    requires n > 0
    ensures Overhead(n) > 0
  {}

  lemma AppendChunk(c: Config, t: Trace, p: seq<char>)
    requires !t.final && t.partial == []
    ensures Sent(c, t.(frames := t.frames + [p])) == Sent(c, t) + ChunkBytes(p)
  {
    hide ChunksBytes, ChunkBytes, HeaderBytes;
    MoreChunks(t.frames, p);
    var h := if t.header then HeaderBytes(c) else [];
    assert h + (ChunksBytes(t.frames) + ChunkBytes(p)) == h + ChunksBytes(t.frames) + ChunkBytes(p);
  }

  lemma MoreChunks(frames: seq<seq<char>>, p: seq<char>)
    ensures ChunksBytes(frames + [p]) == ChunksBytes(frames) + ChunkBytes(p)
  {
    hide ChunkBytes;
    assert (frames + [p])[..|frames|] == frames;
  }

  /** Encodes and sends the terminator. */
  method SendFinal(c: Config, tr: Transport, scratch: array<char>, ghost t: Trace, ghost w0: seq<char>)
    returns (ok: bool, ghost t': Trace)
    requires |FINAL_BYTES| <= scratch.Length
    requires t.header && !t.final && t.partial == []
    requires !tr.failed && tr.wire == w0 + Sent(c, t)
    modifies tr`sends, tr`wire, tr`failed, scratch
    ensures WellOrdered(c, t', t.frames)
    ensures tr.wire == w0 + Sent(c, t')
    ensures if ok then t' == t.(final := true) && !tr.failed
            else t' == t.(partial := t'.partial) && tr.failed
  {
    hide ChunkBytes, ChunksBytes, HeaderBytes;
    var flen := EncodeFinal(scratch, scratch.Length);
    ghost var k;
    ok, k := SendAll(tr, scratch, flen);
    assert scratch[..k] == FINAL_BYTES[..k];
    t' := if ok then t.(final := true) else t.(partial := scratch[..k]);
    assert w0 + Sent(c, t) + scratch[..k] == w0 + (Sent(c, t) + scratch[..k]);
    assert Sent(c, t') == Sent(c, t) + scratch[..k];
  }

  /** One session. For every script of the environment the wire carries, in order, the header,
      one chunk per frame and the terminator, possibly stopping inside the next message; the
      event says why it ended; reads and polls stay within the budget. */
  method RunSession(c: Config, frameBytes: nat, maxChunks: nat, tr: Transport, src: Source, scratch: array<char>)
    returns (ev: Event, ghost t: Trace)
    requires c.conf < 0x1_0000_0000
    requires src.given == [] && !src.ended && !tr.closed && !tr.failed && tr.polls == 0
    modifies tr, src, scratch
    ensures tr.wire == old(tr.wire) + Sent(c, t)
    ensures WellOrdered(c, t, src.given)
    ensures |src.given| <= maxChunks && |src.given| <= tr.polls <= 2 * maxChunks
    ensures src.given <= Recorded(old(src.script), frameBytes, maxChunks)
    ensures t.final ==> src.given == Recorded(old(src.script), frameBytes, maxChunks)
    ensures t.final ==> src.ended || |src.given| == maxChunks
    ensures t.header && !t.final && !tr.failed ==> tr.closed && !src.ended && tr.polls == |src.given| + 1
    ensures ev == SessionTimeout ==> tr.polls == if src.ended then |src.given| + 1 + maxChunks else maxChunks
    ensures t.header && !tr.closed && !tr.failed ==> ev == SessionTimeout && t.final && t.frames == src.given
    ensures ev in {ServerClosed, SessionTimeout, EvError}
    ensures ev == ServerClosed <==> tr.closed
    ensures ev == EvError <==> (
      || frameBytes == 0 || scratch.Length < Need(frameBytes) || scratch.Length < |HeaderBytes(c)|
      || (tr.failed && (!t.header || t.final || |t.frames| < maxChunks)))
    ensures ev == SessionTimeout ==> t.final || (tr.failed && |t.frames| == maxChunks)
    ensures t.partial != [] ==> tr.failed && !t.final
    ensures forall f | f in src.given :: 0 < |f| <= frameBytes
  {
    hide ChunkBytes, ChunksBytes, HeaderBytes, Overhead, Digits;
    t := Trace(false, [], false, []);
    assert Sent(c, t) == [] by { NothingSent(c); }
    assert tr.wire + [] == tr.wire;
    if frameBytes == 0 || scratch.Length < Need(frameBytes) {
      return EvError, t;
    }
    ChunkFits(frameBytes, frameBytes, scratch.Length);
    var hlen := BuildRequestHeader(scratch, scratch.Length, c);
    HeaderNotEmpty(c);
    if hlen == 0 {
      return EvError, t;
    }
    var ok;
    ghost var k;
    ok, k := SendAll(tr, scratch, hlen);
    assert scratch[..k] == HeaderBytes(c)[..k];
    t := if ok then t.(header := true) else t.(partial := scratch[..k]);
    HeaderSent(c, scratch[..k]);
    if !ok {
      return EvError, t;
    }
    RecordedSizes(src.script, frameBytes, maxChunks);
    ev, t := StreamFrames(c, frameBytes, maxChunks, tr, src, scratch, old(tr.wire));
  }

  /** The end of speech: the terminator is sent and the peer gets `max` polls to close. */
  method EndSpeech(c: Config, max: nat, tr: Transport, scratch: array<char>, ghost t: Trace, ghost w0: seq<char>)
    returns (ev: Event, ghost t': Trace)
    requires |FINAL_BYTES| <= scratch.Length && t.header && !t.final && t.partial == []
    requires !tr.closed && !tr.failed && tr.wire == w0 + Sent(c, t)
    modifies tr`sends, tr`wire, tr`failed, tr`recvs, tr`polls, tr`closed, scratch
    ensures WellOrdered(c, t', t.frames) && t'.header && t'.frames == t.frames
    ensures tr.wire == w0 + Sent(c, t')
    ensures t'.final || tr.failed
    ensures t'.partial != [] ==> !t'.final
    ensures old(tr.polls) <= tr.polls <= old(tr.polls) + max
    ensures ev == SessionTimeout ==> t'.final && tr.polls == old(tr.polls) + max
    ensures ev in {ServerClosed, SessionTimeout, EvError}
    ensures (ev == ServerClosed <==> tr.closed) && (ev == EvError <==> tr.failed)
  {
    hide ChunkBytes, ChunksBytes, HeaderBytes, Overhead, Sent, NextMessage, WellOrdered;
    var ok;
    ok, t' := SendFinal(c, tr, scratch, t, w0);
    if !ok {
      return EvError, t';
    }
    ev := AwaitClose(tr, max);
  }

  /** The chunk loop and the closing of a session whose header is out. */
  method StreamFrames(c: Config, frameBytes: nat, maxChunks: nat, tr: Transport, src: Source, scratch: array<char>,
                      ghost w0: seq<char>) returns (ev: Event, ghost t: Trace)
    requires frameBytes > 0 && Need(frameBytes) <= scratch.Length && |FINAL_BYTES| <= scratch.Length
    requires src.given == [] && !src.ended && !tr.closed && !tr.failed && tr.polls == 0
    requires tr.wire == w0 + Sent(c, Trace(true, [], false, []))
    modifies tr, src, scratch
    ensures tr.wire == w0 + Sent(c, t)
    ensures WellOrdered(c, t, src.given) && t.header
    ensures |src.given| <= maxChunks && |src.given| <= tr.polls <= 2 * maxChunks
    ensures src.given <= Recorded(old(src.script), frameBytes, maxChunks)
    ensures t.final ==> src.given == Recorded(old(src.script), frameBytes, maxChunks)
    ensures t.final ==> src.ended || |src.given| == maxChunks
    ensures t.header && !t.final && !tr.failed ==> tr.closed && !src.ended && tr.polls == |src.given| + 1
    ensures ev == SessionTimeout ==> tr.polls == if src.ended then |src.given| + 1 + maxChunks else maxChunks
    ensures t.header && !tr.closed && !tr.failed ==> ev == SessionTimeout && t.final && t.frames == src.given
    ensures ev in {ServerClosed, SessionTimeout, EvError}
    ensures ev == ServerClosed <==> tr.closed
    ensures ev == EvError <==> tr.failed && (t.final || |t.frames| < maxChunks)
    ensures ev == SessionTimeout ==> t.final || (tr.failed && |t.frames| == maxChunks)
    ensures t.partial != [] ==> tr.failed && !t.final
  {
    hide ChunkBytes, ChunksBytes, HeaderBytes, Overhead, Sent, NextMessage, Recorded, CutTo, WellOrdered, Remaining;
    t := Trace(true, [], false, []);
    ghost var recorded := Recorded(src.script, frameBytes, maxChunks);
    NothingRead(recorded);
    var ok;
    var chunk := 0;
    while chunk < maxChunks
      invariant 0 <= chunk <= maxChunks
      invariant t == Trace(true, src.given, false, []) && |src.given| == chunk && tr.polls == chunk
      invariant tr.wire == w0 + Sent(c, t)
      invariant !tr.closed && !tr.failed && !src.ended
      invariant Remaining(recorded, src.given, Recorded(src.script, frameBytes, maxChunks - chunk))
    {
      NextRecorded(src.script, frameBytes, maxChunks - chunk);
      InStep(c, src.given);
      ReadSoFar(recorded, src.given, Recorded(src.script, frameBytes, maxChunks - chunk));
      var closed := PollClose(tr);
      if closed < 0 {
        return EvError, t;
      }
      if closed > 0 {
        return ServerClosed, t;
      }
      var off := scratch.Length - frameBytes;
      ghost var before := src.given;
      var n := src.Read(scratch, off, frameBytes);
      ghost var rest := Recorded(src.script, frameBytes, maxChunks - chunk - 1);
      if n == 0 {
        assert src.given == t.frames;
        ev, t := EndSpeech(c, maxChunks, tr, scratch, t, w0);
        return ev, t;
      }
      assert scratch[off..off + n] == scratch[off..][..n];
      OneRead(recorded, before, scratch[off..off + n], rest);
      ReadSoFar(recorded, src.given, rest);
      ok, t := SendFrame(c, tr, scratch, frameBytes, n, t, src.given, w0);
      if !ok {
        return EvError, t;
      }
      chunk := chunk + 1;
    }
    NextRecorded(src.script, frameBytes, 0);
    ReadSoFar(recorded, src.given, []);
    ok, t := SendFinal(c, tr, scratch, t, w0);
    return SessionTimeout, t;
  }

  /** The whole is what has been read and what is still to come. */
  ghost predicate Remaining(whole: seq<seq<char>>, given: seq<seq<char>>, rest: seq<seq<char>>)
  {
    whole == given + rest
  }

  lemma ReadSoFar(whole: seq<seq<char>>, given: seq<seq<char>>, rest: seq<seq<char>>)
    requires Remaining(whole, given, rest)
    ensures given <= whole && (rest == [] ==> given == whole)
  {}

  lemma NothingRead(whole: seq<seq<char>>)
    ensures Remaining(whole, [], whole)
  {}

  lemma OneRead(whole: seq<seq<char>>, a: seq<seq<char>>, f: seq<char>, rest: seq<seq<char>>)
    requires Remaining(whole, a, [f] + rest)
    ensures Remaining(whole, a + [f], rest)
  {}

  lemma InStep(c: Config, given: seq<seq<char>>)
    ensures WellOrdered(c, Trace(true, given, false, []), given)
  {}

  lemma NothingSent(c: Config)
    ensures Sent(c, Trace(false, [], false, [])) == []
  {}

  lemma HeaderNotEmpty(c: Config)
    ensures HeaderBytes(c) != []
  {}

  lemma HeaderSent(c: Config, part: seq<char>)
    ensures Sent(c, Trace(false, [], false, part)) == part
    ensures Sent(c, Trace(true, [], false, [])) == HeaderBytes(c)
  {
    hide HeaderBytes;
    assert [] + part == part;
  }

  // ----- what the server makes of it -----

  /** A finalised session is received whole: path, session, confidence and exactly the frames
      read from the source, whatever the fragmentation. */
  lemma Delivered(c: Config, t: Trace, given: seq<seq<char>>, parts: seq<seq<char>>)
    requires RoundTrip.Sendable(c) && RoundTrip.Frames(given) && WellOrdered(c, t, given)
    requires t.final && t.partial == [] && Concat(parts) == Sent(c, t)
    ensures IngestSpec.RunParts(IngestSpec.INIT, parts) == RoundTrip.Received(c, given)
  {
    hide HeaderBytes, ChunksBytes;
    assert Sent(c, t) == RoundTrip.StreamBytes(c, given);
    RoundTrip.AnyFragmentation(c, given, parts);
  }

  /** An interrupted session never confuses the server: it is not in error, and the payload it has
      is a prefix of the frames read. */
  lemma Interrupted(c: Config, t: Trace, given: seq<seq<char>>, parts: seq<seq<char>>)
    requires RoundTrip.Sendable(c) && RoundTrip.Frames(given) && WellOrdered(c, t, given)
    requires Concat(parts) == Sent(c, t)
    ensures var s := IngestSpec.RunParts(IngestSpec.INIT, parts);
            s.state != IngestSpec.Error && s.payload <= Concat(given)
  {
    hide HeaderBytes, ChunksBytes, ChunkBytes, IngestSpec.Run, IngestSpec.Step;
    var whole := RoundTrip.StreamBytes(c, given);
    SentPrefix(c, t, given);
    var rest := whole[|Sent(c, t)|..];
    assert whole == Sent(c, t) + rest;
    RoundTrip.WholeStream(c, given);
    IngestSpec.FragmentationInvariance(IngestSpec.INIT, parts);
    IngestSpec.RunAppend(IngestSpec.INIT, Sent(c, t), rest);
    var s := IngestSpec.Run(IngestSpec.INIT, Sent(c, t));
    if s.state == IngestSpec.Error {
      IngestSpec.Final(s, rest);
    }
    IngestSpec.PayloadGrows(s, rest);
  }

  /** Everything sent so far begins the stream of all frames read. */
  lemma SentPrefix(c: Config, t: Trace, given: seq<seq<char>>)
    requires WellOrdered(c, t, given)
    ensures Sent(c, t) <= RoundTrip.StreamBytes(c, given)
  {
    hide HeaderBytes, ChunkBytes;
    var h, cs := HeaderBytes(c), ChunksBytes(t.frames);
    var next := NextMessage(c, t, given);
    assert t.partial <= next;
    if !t.header {
      assert Sent(c, t) == t.partial;
    } else if |t.frames| < |given| {
      assert given[..|given| - 1] == t.frames;
      assert ChunksBytes(given) == cs + next;
      assert Sent(c, t) == h + cs + t.partial;
      assert h + (cs + next) == h + cs + next;
    } else {
      assert given == t.frames;
      assert !t.final ==> Sent(c, t) == h + cs + t.partial;
    }
  }

  /** Device and server together: when no call of a session failed and the server let it finish, the
      server has received, however the network cut the bytes, exactly the frames the source had to
      offer; if each is non-empty and of at most the requested size, those are the first max_chunks
      of them, unchanged. */
  lemma SessionDelivers(c: Config, t: Trace, script: seq<seq<char>>, frameBytes: nat, maxChunks: nat,
                        parts: seq<seq<char>>)
    requires RoundTrip.Sendable(c) && frameBytes < IngestSpec.SIZE_MAX
    requires forall f | f in script :: 0 < |f| <= frameBytes
    requires t.final && t.partial == [] && WellOrdered(c, t, Recorded(script, frameBytes, maxChunks))
    requires Concat(parts) == Sent(c, t)
    ensures IngestSpec.RunParts(IngestSpec.INIT, parts) == RoundTrip.Received(c, First(script, maxChunks))
  {
    hide Recorded, Sent, WellOrdered, First, IngestSpec.RunParts, RoundTrip.Sendable, RoundTrip.Received, Concat;
    RecordedWhole(script, frameBytes, maxChunks);
    RecordedSizes(script, frameBytes, maxChunks);
    Delivered(c, t, First(script, maxChunks), parts);
  }
}
