/** server/src/session.c: PCM in, transcripts out of the stub, commands into the debounce timer. */
module Session {
  import opened Bits
  import opened CString
  import D = Debounce
  import I = Intent
  import opened PcmSpans
  import S = SttSpec
  import SttStub
  import opened Vad

  datatype Config = Config(intents: seq<I.Entry>, vadThresh: nat)

  /** What hearing transcripts changes. */
  datatype Heard = Heard(timer: D.Timer, text: S.Text, intent: int, name: I.Name, commands: nat)

  function NothingHeard(now: nat): Heard { Heard(D.Init(now), [], I.INTENT_NONE, I.NoName, 0) }

  /** One transcript: it is remembered, and a recognised intent counts as a command. */
  ghost function Hear(table: seq<I.Entry>, now: nat, h: Heard, text: S.Text): Heard
  {
    var id := I.Recognise(table, text);
    if id == I.INTENT_NONE then h.(text := text)
    else Heard(D.NoteCommand(h.timer, now), text, id, I.RecognisedName(table, text), h.commands + 1)
  }

  ghost function HearAll(table: seq<I.Entry>, now: nat, h: Heard, texts: seq<S.Text>): Heard
    decreases texts
  {
    if texts == [] then h
    else HearAll(table, now, Hear(table, now, h, texts[0]), texts[1..])
  }

  /** Whether a payload counts as voice activity: the blocked mean against the threshold. */
  function Voiced(pcm: seq<Sample>, thresh: nat): bool
  {
    pcm != [] && Quot(Blocked(pcm), |pcm|) > thresh
  }

  /** The voice decision against the exact mean E: above the threshold by more than one it is voice,
      at or below the threshold it is not, and up to one block it is exactly E > thresh. */
  lemma VoicedMean(pcm: seq<Sample>, thresh: nat)
    ensures pcm == [] ==> !Voiced(pcm, thresh)
    ensures Mean(pcm) > thresh + 1 ==> Voiced(pcm, thresh)
    ensures Voiced(pcm, thresh) ==> Mean(pcm) > thresh
    ensures |pcm| <= BLOCK ==> (Voiced(pcm, thresh) <==> Mean(pcm) > thresh)
  {
    hide Blocked, Mean, MagnitudeSum;
    if pcm == [] {
      EmptyMean();
    } else {
      BlockedMean(pcm);
    }
  }

  /** How many of some transcripts are recognised. */
  ghost function Recognised(table: seq<I.Entry>, texts: seq<S.Text>): nat
  {
    if texts == [] then 0
    else (if I.Recognise(table, texts[0]) != I.INTENT_NONE then 1 else 0) + Recognised(table, texts[1..])
  }

  /** After hearing some transcripts: the last one is remembered, every recognised one has counted,
      and the intent and its name are those of the last recognised one. */
  lemma {:induction false} NewsAre(table: seq<I.Entry>, now: nat, h: Heard, texts: seq<S.Text>)
    ensures var h' := HearAll(table, now, h, texts);
            && h'.text == (if texts == [] then h.text else texts[|texts| - 1])
            && h'.commands == h.commands + Recognised(table, texts)
            && (Recognised(table, texts) == 0 ==> h'.intent == h.intent && h'.name == h.name)
            && (forall i | 0 <= i < |texts| && I.Recognise(table, texts[i]) != I.INTENT_NONE
                           && Recognised(table, texts[i + 1..]) == 0 ::
                  h'.intent == I.Recognise(table, texts[i]) && h'.name == I.RecognisedName(table, texts[i]))
    decreases texts
  {
    hide I.Recognise, I.RecognisedName, D.NoteCommand;
    if texts != [] {
      var rest := texts[1..];
      NewsAre(table, now, Hear(table, now, h, texts[0]), rest);
      assert forall i | 0 < i < |texts| :: texts[i] == rest[i - 1] && texts[i + 1..] == rest[i - 1 + 1..];
    }
  }

  /** The segmentation state of the backend and what the session has heard. */
  datatype Life = Life(seg: S.Seg, heard: Heard)

  /** One payload: the backend sees every whole sample; the timer hears voice activity first and
      then one command per recognised transcript; all pending transcripts are drained. */
  ghost function PcmStep(c: Config, stt: S.Config, l: Life, bytes: Bytes, now: nat): Life
  {
    var pcm := Decode(bytes);
    var seg := S.Samples(stt, l.seg, SttStub.Louds(pcm, stt.thresh));
    var h := if Voiced(pcm, c.vadThresh) then l.heard.(timer := D.NoteSpeech(l.heard.timer, now)) else l.heard;
    Life(S.Drained(seg), HearAll(c.intents, now, h, seg.queue))
  }

  function TickStep(limits: D.Config, l: Life, now: nat): Life
  {
    l.(heard := l.heard.(timer := D.ShouldCut(limits, l.heard.timer, now)))
  }

  class Session {
    const cfg: Config
    const stt: SttStub.Stub
    const deb: D.Machine
    var lastTranscript: S.Text
    var lastIntent: int
    var lastIntentName: I.Name
    var commands: nat

    ghost predicate Valid()
      reads this, stt, stt.pending
    {
      stt.Valid()
    }

    ghost function Abs(): Heard
      reads this, deb
    {
      Heard(deb.timer, lastTranscript, lastIntent, lastIntentName, commands)
    }

    constructor (c: Config, backend: SttStub.Stub, limits: D.Config, now: nat)
      requires backend.Valid()
      modifies backend
      ensures cfg == c && stt == backend && Valid() && stt.Abs() == S.START
      ensures fresh(deb) && deb.cfg == limits && Abs() == NothingHeard(now)
      ensures deb.timer == D.Init(now) && lastTranscript == [] && lastIntent == I.INTENT_NONE
      ensures lastIntentName == I.NoName && commands == 0
    {
      cfg := c;
      stt := backend;
      lastTranscript, lastIntent, lastIntentName, commands := [], I.INTENT_NONE, I.NoName, 0;
      deb := new D.Machine(limits, now);
      new;
      stt.Reset();
    }

    /** The block loop: accumulates block energies and feeds every sample to the backend. */
    method FeedBlocks(bytes: Bytes) returns (energySum: nat, energyN: nat)
      requires Valid()
      modifies stt, stt.pending
      ensures Valid() && energyN == |Decode(bytes)| && energySum == Blocked(Decode(bytes))
      ensures stt.Abs() == S.Samples(stt.cfg, old(stt.Abs()), SttStub.Louds(Decode(bytes), stt.cfg.thresh))
    {
      hide Blocked, Mean, S.Samples, SttStub.Slots, Le16;
      var pcm := Decode(bytes);
      var off := 0;
      ghost var seg := stt.Abs();
      energySum, energyN := 0, 0;
      NothingFed(stt.cfg, seg, pcm, stt.cfg.thresh);
      while off < |pcm|
        invariant Valid() && 0 <= off <= |pcm| && energyN == off
        invariant energySum + Blocked(pcm[off..]) == Blocked(pcm)
        invariant stt.Abs() == S.Samples(stt.cfg, seg, SttStub.Louds(pcm[..off], stt.cfg.thresh))
      {
        var n := |pcm| - off;
        if n > BLOCK {
          n := BLOCK;
        }
        var block := pcm[off..off + n];
        var e := FrameEnergy(block);
        BlockStep(pcm, off, n);
        energySum := energySum + e * n;
        energyN := energyN + n;
        stt.Feed(block);
        Fed(stt.cfg, seg, pcm, off, n, stt.cfg.thresh);
        off := off + n;
      }
      assert pcm[..|pcm|] == pcm;
      NothingLeft(pcm);
    }

    /** `session_on_pcm`. */
    method OnPcm(bytes: Bytes, now: nat)
      requires Valid()
      modifies this, stt, stt.pending, deb
      ensures Valid() && Life(stt.Abs(), Abs()) == PcmStep(cfg, stt.cfg, old(Life(stt.Abs(), Abs())), bytes, now)
    {
      hide Blocked, S.Samples, SttStub.Slots, I.Recognise, D.NoteCommand, D.NoteSpeech, Decode;
      var energySum, energyN := FeedBlocks(bytes);
      if energyN > 0 {
        var mean := Quot(energySum, energyN);
        if mean > cfg.vadThresh {
          deb.OnSpeech(now);
        }
      }
      Drain(now);
    }

    /** The poll loop. */
    method Drain(now: nat)
      requires Valid()
      modifies this, stt, deb
      ensures Valid() && stt.Abs() == S.Drained(old(stt.Abs()))
      ensures Abs() == HearAll(cfg.intents, now, old(Abs()), old(stt.Abs()).queue)
    {
      hide SttStub.Slots, Hear, Truncate;
      ghost var h1, seg := Abs(), stt.Abs();
      ghost var rest := seg.queue;
      if rest != [] {
        TruncateShort(rest[0], S.TRANSCRIPT_MAX);
      }
      var more, transcript := stt.Poll(S.TRANSCRIPT_MAX);
      while more
        invariant Valid()
        invariant more ==> rest != [] && transcript == rest[0]
        invariant !more ==> rest == []
        invariant forall t | t in rest :: |t| < S.TRANSCRIPT_MAX
        invariant stt.Abs() == seg.(queue := if more then rest[1..] else [])
        invariant HearAll(cfg.intents, now, Abs(), rest) == HearAll(cfg.intents, now, h1, seg.queue)
        decreases |rest|
      {
        HearOne(transcript, now);
        rest := rest[1..];
        if rest != [] {
          TruncateShort(rest[0], S.TRANSCRIPT_MAX);
        }
        more, transcript := stt.Poll(S.TRANSCRIPT_MAX);
      }
    }

    /** One drained transcript. */
    method HearOne(transcript: S.Text, now: nat)
      modifies this, deb
      ensures Abs() == Hear(cfg.intents, now, old(Abs()), transcript)
    {
      hide I.Recognise, I.RecognisedName, D.NoteCommand;
      lastTranscript := transcript;
      var id, name, _ := I.IntentMatch(cfg.intents, transcript);
      if id != I.INTENT_NONE {
        lastIntent := id;
        lastIntentName := name;
        commands := commands + 1;
        deb.OnCommand(now);
      }
    }

    /** `session_tick`. */
    method Tick(now: nat) returns (cut: bool)
      requires Valid()
      modifies deb
      ensures Valid() && Life(stt.Abs(), Abs()) == TickStep(deb.cfg, old(Life(stt.Abs(), Abs())), now)
      ensures cut == (deb.timer.state == D.Cut)
    {
      cut := deb.Tick(now);
    }
  }

  lemma NothingFed(c: S.Config, s: S.Seg, pcm: seq<Sample>, thresh: nat)
    ensures S.Samples(c, s, SttStub.Louds(pcm[..0], thresh)) == s
    ensures pcm[0..] == pcm
  {}

  lemma NothingLeft(pcm: seq<Sample>)
    ensures Blocked(pcm[|pcm|..]) == 0
  {}

  lemma Fed(c: S.Config, s: S.Seg, pcm: seq<Sample>, off: nat, n: nat, thresh: nat)
    requires off + n <= |pcm|
    ensures S.Samples(c, s, SttStub.Louds(pcm[..off + n], thresh))
         == S.Samples(c, S.Samples(c, s, SttStub.Louds(pcm[..off], thresh)), SttStub.Louds(pcm[off..off + n], thresh))
  {
    hide S.Samples;
    assert pcm[..off + n] == pcm[..off] + pcm[off..off + n];
    SttStub.LoudsAppend(pcm[..off], pcm[off..off + n], thresh);
    S.SamplesAppend(c, s, SttStub.Louds(pcm[..off], thresh), SttStub.Louds(pcm[off..off + n], thresh));
  }

  /** One turn of the block loop. */
  lemma BlockStep(pcm: seq<Sample>, off: nat, n: nat)
    requires off < |pcm| && n == if |pcm| - off > BLOCK then BLOCK else |pcm| - off
    ensures Mean(pcm[off..off + n]) * n >= 0
    ensures Blocked(pcm[off..]) == Mean(pcm[off..off + n]) * n + Blocked(pcm[off + n..])
  {
    hide Mean;
    var rest := pcm[off..];
    assert rest[..n] == pcm[off..off + n];
    if |rest| > BLOCK {
      assert rest[BLOCK..] == pcm[off + n..];
    } else {
      assert pcm[off..off + n] == rest;
      NothingLeft(pcm);
    }
  }
}
