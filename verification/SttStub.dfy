/** server/src/stt_stub.c: the stub speech-to-text backend with its run counters and its ring of
    pending transcripts. */
module SttStub {
  import opened CString
  import opened SttSpec

  class Stub {
    const cfg: Config
    var inSpeech: bool
    var speechRun: nat
    var silenceRun: nat
    var nextScript: nat
    const pending: array<Text>
    var pendHead: nat
    var pendTail: nat

    ghost predicate Valid()
      reads this, pending
    {
      && cfg.Ok() && nextScript <= |cfg.scripts|
      && pending.Length == MAX_PENDING && pendHead < MAX_PENDING && pendTail < MAX_PENDING
      && forall k | 0 <= k < MAX_PENDING :: |pending[k]| < TRANSCRIPT_MAX
    }

    /** The pending transcripts, oldest first. */
    ghost function Queue(): (q: seq<Text>)
      reads this, pending
      requires Valid()
      ensures |q| <= MAX_PENDING - 1 && forall t | t in q :: |t| < TRANSCRIPT_MAX
    {
      Slots(pending[..], pendHead, pendTail)
    }

    ghost function Abs(): Seg
      reads this, pending
      requires Valid()
    {
      Seg(inSpeech, speechRun, silenceRun, nextScript, Queue())
    }

    /** A zero hangover is taken as one sample. */
    constructor (scripts: seq<Text>, thresh: nat, hang: nat, minSpeech: nat)
      ensures Valid() && fresh(pending) && Abs() == START
      ensures cfg == Config(thresh, if hang == 0 then 1 else hang, minSpeech, scripts)
    {
      cfg := Config(thresh, if hang == 0 then 1 else hang, minSpeech, scripts);
      inSpeech, speechRun, silenceRun, nextScript := false, 0, 0, 0;
      pending := new Text[MAX_PENDING](_ => []);
      pendHead, pendTail := 0, 0;
    }

    method Reset()
      requires Valid()
      modifies this
      ensures Valid() && Abs() == START
    {
      nextScript := 0;
      inSpeech := false;
      speechRun := 0;
      silenceRun := 0;
      pendHead := 0;
      pendTail := 0;
    }

    method PushPending(text: Text)
      requires Valid()
      modifies this`pendTail, pending
      ensures Valid() && Queue() == Push(old(Queue()), text)
    {
      hide Truncate;
      var next := (pendTail + 1) % MAX_PENDING;
      if next == pendHead {
        return;
      }
      SlotsPush(pending[..], pendHead, pendTail, Truncate(text, TRANSCRIPT_MAX));
      TruncateShort(text, TRANSCRIPT_MAX);
      pending[pendTail] := Truncate(text, TRANSCRIPT_MAX);
      pendTail := next;
    }

    method EndUtterance()
      requires Valid()
      modifies this, pending
      ensures Valid() && Abs() == SttSpec.EndUtterance(cfg, old(Abs()))
    {
      if speechRun >= cfg.minSpeech && nextScript < |cfg.scripts| {
        var text := cfg.scripts[nextScript];
        nextScript := nextScript + 1;
        PushPending(text);
      }
      inSpeech := false;
      speechRun := 0;
      silenceRun := 0;
    }

    /** Runs the segmentation over a span of samples. */
    method Feed(pcm: seq<int>)
      requires Valid()
      modifies this, pending
      ensures Valid() && Abs() == Samples(cfg, old(Abs()), Louds(pcm, cfg.thresh))
    {
      hide SttSpec.EndUtterance, Slots;
      ghost var louds, s0 := Louds(pcm, cfg.thresh), Abs();
      for i := 0 to |pcm|
        invariant Valid() && Abs() == Samples(cfg, s0, louds[..i])
      {
        OneMore(cfg, s0, louds, i);
        ghost var before := Abs();
        var v := pcm[i];
        var mag := if v < 0 then -v else v;
        if mag > cfg.thresh {
          inSpeech := true;
          speechRun := speechRun + 1;
          silenceRun := 0;
        } else if inSpeech {
          silenceRun := silenceRun + 1;
          if silenceRun >= cfg.hang {
            EndUtterance();
          }
        }
        assert Abs() == Sample(cfg, before, louds[i]);
      }
      assert louds[..|pcm|] == louds;
    }

    /** Removes and returns the oldest pending transcript, if any. */
    method Poll(cap: nat) returns (ready: bool, out: Text)
      requires Valid() && cap >= 1
      modifies this`pendHead
      ensures Valid() && ready == (old(Queue()) != [])
      ensures Abs() == if ready then old(Abs()).(queue := old(Queue())[1..]) else old(Abs())
      ensures ready ==> out == Truncate(old(Queue())[0], cap)
    {
      hide Truncate;
      if pendHead == pendTail {
        return false, [];
      }
      out := Truncate(pending[pendHead], cap);
      pendHead := (pendHead + 1) % MAX_PENDING;
      ready := true;
    }
  }

  lemma OneMore(c: Config, s: Seg, louds: seq<bool>, i: nat)
    requires i < |louds|
    ensures Samples(c, s, louds[..i + 1]) == Sample(c, Samples(c, s, louds[..i]), louds[i])
  {
    assert louds[..i + 1][..i] == louds[..i];
  }

  /** The occupied slots of the ring, from head up to tail. */
  function Slots(slots: seq<Text>, head: nat, tail: nat): (q: seq<Text>)
    requires |slots| == MAX_PENDING && head < MAX_PENDING && tail < MAX_PENDING
    ensures |q| == (tail - head) % MAX_PENDING && forall t | t in q :: t in slots
    decreases (tail - head) % MAX_PENDING
  {
    if head == tail then [] else [slots[head]] + Slots(slots, (head + 1) % MAX_PENDING, tail)
  }

  lemma {:induction false} SlotsPush(slots: seq<Text>, head: nat, tail: nat, x: Text)
    requires |slots| == MAX_PENDING && head < MAX_PENDING && tail < MAX_PENDING && (tail + 1) % MAX_PENDING != head
    ensures Slots(slots[tail := x], head, (tail + 1) % MAX_PENDING) == Slots(slots, head, tail) + [x]
    ensures |Slots(slots, head, tail)| < MAX_PENDING - 1
    decreases (tail - head) % MAX_PENDING
  {
    if head != tail {
      SlotsPush(slots, (head + 1) % MAX_PENDING, tail, x);
    }
  }

  /** Which samples are above the threshold. */
  function Louds(pcm: seq<int>, thresh: nat): seq<bool>
  {
    seq(|pcm|, i requires 0 <= i < |pcm| => (if pcm[i] < 0 then -pcm[i] else pcm[i]) > thresh)
  }

  /** A sample is loud when it lies outside [-thresh, thresh]. */
  lemma LoudExact(pcm: seq<int>, thresh: nat, i: nat)
    requires i < |pcm|
    ensures |Louds(pcm, thresh)| == |pcm|
    ensures Louds(pcm, thresh)[i] <==> !(0 - thresh <= pcm[i] <= thresh)
  {}

  lemma LoudsAppend(a: seq<int>, b: seq<int>, thresh: nat)
    ensures Louds(a + b, thresh) == Louds(a, thresh) + Louds(b, thresh)
  {}
}
