/** Utterance segmentation as a machine over loud/quiet samples, and as a declarative property of
    the whole sample stream. */
module SttSpec {
  import opened CString

  const TRANSCRIPT_MAX: nat := 128
  const MAX_PENDING: nat := 4          // ring slots; one stays empty

  type Text = seq<char>

  datatype Config = Config(thresh: nat, hang: nat, minSpeech: nat, scripts: seq<Text>)
  {
    predicate Ok() { hang >= 1 }
  }

  datatype Seg = Seg(inSpeech: bool, speech: nat, silence: nat, next: nat, queue: seq<Text>)

  const START := Seg(false, 0, 0, 0, [])

  /** A full ring drops the new transcript. */
  function Push(q: seq<Text>, t: Text): seq<Text>
  {
    if |q| >= MAX_PENDING - 1 then q else q + [Truncate(t, TRANSCRIPT_MAX)]
  }

  /** Three transcripts of up to 127 characters are held whole; a fourth is lost. */
  lemma PushWhole(q: seq<Text>, t: Text)
    ensures |q| >= 3 ==> Push(q, t) == q
    ensures |q| < 3 ==> (Push(q, t) == q + [t] <==> |t| <= 127)
  {
    hide Truncate;
    TruncateShort(t, TRANSCRIPT_MAX);
    if |q| < 3 && Push(q, t) == q + [t] {
      assert (q + [t])[|q|] == t;
    }
  }

  function EndUtterance(c: Config, s: Seg): Seg
  {
    var s1 := if s.speech >= c.minSpeech && s.next < |c.scripts|
              then s.(queue := Push(s.queue, c.scripts[s.next]), next := s.next + 1) else s;
    s1.(inSpeech := false, speech := 0, silence := 0)
  }

  function Sample(c: Config, s: Seg, loud: bool): Seg
  {
    if loud then s.(inSpeech := true, speech := s.speech + 1, silence := 0)
    else if s.inSpeech then
      if s.silence + 1 >= c.hang then EndUtterance(c, s.(silence := s.silence + 1)) else s.(silence := s.silence + 1)
    else s
  }

  function Samples(c: Config, s: Seg, louds: seq<bool>): Seg
  {
    if louds == [] then s else Sample(c, Samples(c, s, louds[..|louds| - 1]), louds[|louds| - 1])
  }

  /** However a stream is split into feeds, the machine ends in the same state. */
  lemma {:induction false} SamplesAppend(c: Config, s: Seg, a: seq<bool>, b: seq<bool>)
    ensures Samples(c, s, a + b) == Samples(c, Samples(c, s, a), b)
  {
    if b == [] {
      assert a + b == a;
    } else {
      var b' := b[..|b| - 1];
      SamplesAppend(c, s, a, b');
      assert (a + b)[..|a + b| - 1] == a + b';
    }
  }

  // ----- utterances, declaratively -----

  /** Sample i closes an utterance: it completes a gap of exactly `hang` quiet samples that follows
      a loud one. */
  predicate Closes(louds: seq<bool>, hang: nat, i: nat)
  {
    hang <= i < |louds| && louds[i - hang] && forall j | i - hang < j <= i :: !louds[j]
  }

  /** Where the utterance in progress at time n may begin: just after the last closing sample. */
  function Begin(louds: seq<bool>, hang: nat, n: nat): (b: nat)
    ensures b <= n
  {
    if n == 0 then 0 else if Closes(louds, hang, n - 1) then n else Begin(louds, hang, n - 1)
  }

  function LoudCount(louds: seq<bool>, a: nat, b: nat): nat
    requires b <= |louds|
  {
    if a >= b then 0 else LoudCount(louds, a, b - 1) + if louds[b - 1] then 1 else 0
  }

  /** Closed utterances with at least minSpeech loud samples among the first n samples. */
  function Utterances(louds: seq<bool>, hang: nat, minSpeech: nat, n: nat): nat
    requires n <= |louds|
  {
    if n == 0 then 0 else
      var closed := Closes(louds, hang, n - 1) && LoudCount(louds, Begin(louds, hang, n - 1), n) >= minSpeech;
      Utterances(louds, hang, minSpeech, n - 1) + if closed then 1 else 0
  }

  function Min(a: nat, b: nat): nat { if a < b then a else b }

  /** The machine state after the first n samples, read off the stream. */
  ghost predicate Tracks(c: Config, louds: seq<bool>, n: nat, s: Seg)
    requires n <= |louds|
  {
    && s.next == Min(|c.scripts|, Utterances(louds, c.hang, c.minSpeech, n))
    && s.speech == LoudCount(louds, Begin(louds, c.hang, n), n)
    && s.inSpeech == (s.speech > 0)
    && (s.inSpeech ==>
          && s.silence < c.hang && s.silence < n && Begin(louds, c.hang, n) <= n - 1 - s.silence
          && louds[n - 1 - s.silence]
          && forall j | n - s.silence <= j < n :: !louds[j])
    && (!s.inSpeech ==> s.silence == 0)
  }

  lemma {:induction false} LoudInside(louds: seq<bool>, a: nat, b: nat, i: nat)
    requires a <= i < b <= |louds| && louds[i]
    ensures LoudCount(louds, a, b) > 0
  {
    if i < b - 1 {
      LoudInside(louds, a, b - 1, i);
    }
  }

  /** A sample closes an utterance only if something loud came after the previous close. */
  lemma {:induction false} BeginBeforeLoud(louds: seq<bool>, hang: nat, n: nat, i: nat)
    requires hang >= 1 && Closes(louds, hang, i) && n <= i
    ensures Begin(louds, hang, n) <= i - hang
  {
    if n > 0 {
      if Closes(louds, hang, n - 1) {
        assert forall j | n - 1 - hang < j <= n - 1 :: !louds[j];
      } else {
        BeginBeforeLoud(louds, hang, n - 1, i);
      }
    }
  }

  lemma TracksStep(c: Config, louds: seq<bool>, n: nat, s: Seg)
    requires c.Ok() && n < |louds| && Tracks(c, louds, n, s)
    ensures Tracks(c, louds, n + 1, Sample(c, s, louds[n]))
  {
    var b := Begin(louds, c.hang, n);
    if louds[n] {
      assert !Closes(louds, c.hang, n);
    } else {
      if Closes(louds, c.hang, n) {
        BeginBeforeLoud(louds, c.hang, n, n);
        LoudInside(louds, b, n, n - c.hang);
        assert forall j | n - c.hang < j <= n :: !louds[j];
      } else if s.inSpeech && s.silence + 1 >= c.hang {
        assert n - c.hang == n - 1 - s.silence;
      }
    }
  }

  /** After any stream from reset, the script counter is the number of long enough closed
      utterances, capped by the number of scripts, and the run counters describe the open one. */
  lemma {:induction false} Segmentation(c: Config, louds: seq<bool>, n: nat)
    requires c.Ok() && n <= |louds|
    ensures Tracks(c, louds, n, Samples(c, START, louds[..n]))
  {
    if n > 0 {
      Segmentation(c, louds, n - 1);
      assert louds[..n][..n - 1] == louds[..n - 1];
      TracksStep(c, louds, n - 1, Samples(c, START, louds[..n - 1]));
    }
  }

  // ----- the transcript queue -----

  function TruncateAll(ts: seq<Text>): seq<Text>
  {
    seq(|ts|, i requires 0 <= i < |ts| => Truncate(ts[i], TRANSCRIPT_MAX))
  }

  function FirstThree(q: seq<Text>): seq<Text>
  {
    if |q| <= 3 then q else q[..3]
  }

  /** Feeding samples appends the transcripts of the utterances they close, in script order, and
      keeps exactly those that fit three pending places. */
  lemma {:induction false} QueueAfter(c: Config, s: Seg, louds: seq<bool>)
    requires |s.queue| <= 3 && s.next <= |c.scripts|
    ensures var s' := Samples(c, s, louds);
            && s.next <= s'.next <= |c.scripts|
            && s'.queue == FirstThree(s.queue + TruncateAll(c.scripts[s.next..s'.next]))
  {
    if louds == [] {
      assert s.queue + TruncateAll(c.scripts[s.next..s.next]) == s.queue;
    } else {
      var init, last := louds[..|louds| - 1], louds[|louds| - 1];
      QueueAfter(c, s, init);
      var m := Samples(c, s, init);
      var s' := Sample(c, m, last);
      if s'.next == m.next + 1 {
        var more := TruncateAll(c.scripts[s.next..m.next]);
        var text := Truncate(c.scripts[m.next], TRANSCRIPT_MAX);
        assert TruncateAll(c.scripts[s.next..s'.next]) == more + [text];
        assert s.queue + TruncateAll(c.scripts[s.next..s'.next]) == s.queue + more + [text];
      } else {
        assert s'.next == m.next;
      }
    }
  }

  /** A session round: samples are fed, then the queue is drained. */
  function Drained(s: Seg): Seg { s.(queue := []) }

  function AfterRounds(c: Config, rounds: seq<seq<bool>>): Seg
  {
    if rounds == [] then START
    else Drained(Samples(c, AfterRounds(c, rounds[..|rounds| - 1]), rounds[|rounds| - 1]))
  }

  /** Everything the drains of these rounds return. */
  function Emitted(c: Config, rounds: seq<seq<bool>>): seq<Text>
  {
    if rounds == [] then []
    else
      var init := rounds[..|rounds| - 1];
      Emitted(c, init) + Samples(c, AfterRounds(c, init), rounds[|rounds| - 1]).queue
  }

  lemma RoundSnoc(c: Config, rounds: seq<seq<bool>>, round: seq<bool>)
    ensures AfterRounds(c, rounds + [round]) == Drained(Samples(c, AfterRounds(c, rounds), round))
    ensures Emitted(c, rounds + [round]) == Emitted(c, rounds) + Samples(c, AfterRounds(c, rounds), round).queue
  {
    hide Samples;
    assert (rounds + [round])[..|rounds|] == rounds;
  }

  /** Pending transcripts never influence the segmentation. */
  lemma {:induction false} QueueIgnored(c: Config, s: Seg, louds: seq<bool>)
    ensures Drained(Samples(c, Drained(s), louds)) == Drained(Samples(c, s, louds))
  {
    if louds != [] {
      QueueIgnored(c, s, louds[..|louds| - 1]);
    }
  }

  /** Draining after every round leaves what one undrained pass over the whole stream leaves. */
  lemma {:induction false} RoundsAreOneStream(c: Config, rounds: seq<seq<bool>>)
    ensures AfterRounds(c, rounds) == Drained(Samples(c, START, Concat(rounds)))
  {
    hide Sample;
    if rounds != [] {
      var init, last := rounds[..|rounds| - 1], rounds[|rounds| - 1];
      RoundsAreOneStream(c, init);
      QueueIgnored(c, Samples(c, START, Concat(init)), last);
      SamplesAppend(c, START, Concat(init), last);
    }
  }

  /** How many scripted utterances a stream closes, read off its samples alone. */
  function Closed(c: Config, louds: seq<bool>): (n: nat)
    ensures n <= |c.scripts|
  {
    Min(|c.scripts|, Utterances(louds, c.hang, c.minSpeech, |louds|))
  }

  lemma ClosedByRounds(c: Config, rounds: seq<seq<bool>>)
    requires c.Ok()
    ensures AfterRounds(c, rounds).next == Closed(c, Concat(rounds))
  {
    hide Samples, Utterances;
    var louds := Concat(rounds);
    RoundsAreOneStream(c, rounds);
    Segmentation(c, louds, |louds|);
    assert louds[..|louds|] == louds;
  }

  /** How many scripted utterances the samples of round i close. */
  function ClosedIn(c: Config, rounds: seq<seq<bool>>, i: nat): int
    requires i < |rounds|
  {
    Closed(c, Concat(rounds[..i + 1])) - Closed(c, Concat(rounds[..i]))
  }

  ghost predicate AtMostThree(c: Config, rounds: seq<seq<bool>>)
  {
    forall i | 0 <= i < |rounds| :: ClosedIn(c, rounds, i) <= 3
  }

  lemma {:induction false} RoundsBounded(c: Config, rounds: seq<seq<bool>>)
    ensures AfterRounds(c, rounds).queue == [] && AfterRounds(c, rounds).next <= |c.scripts|
  {
    if rounds != [] {
      var init := rounds[..|rounds| - 1];
      RoundsBounded(c, init);
      QueueAfter(c, AfterRounds(c, init), rounds[|rounds| - 1]);
    }
  }

  /** Nothing is lost or reordered over a whole run exactly when the samples of no round close more
      than three scripted utterances. */
  lemma {:induction false} Lossless(c: Config, rounds: seq<seq<bool>>)
    requires c.Ok()
    ensures Emitted(c, rounds) == TruncateAll(c.scripts[..Closed(c, Concat(rounds))]) <==> AtMostThree(c, rounds)
    ensures |Emitted(c, rounds)| <= Closed(c, Concat(rounds))
  {
    hide AfterRounds, TruncateAll, AtMostThree, Closed, Concat, Emitted;
    if rounds == [] {
      NoRounds(c);
    } else {
      var init := rounds[..|rounds| - 1];
      Lossless(c, init);
      ClosedByRounds(c, rounds);
      ClosedByRounds(c, init);
      var from, to := AfterRounds(c, init).next, AfterRounds(c, rounds).next;
      LastEmitted(c, rounds);
      LastRound(c, rounds, to - from);
      var before, added := TruncateAll(c.scripts[..from]), TruncateAll(c.scripts[from..to]);
      TruncateSplit(c.scripts, from, to);
      SamePrefix(Emitted(c, init), before, FirstThree(added), added);
    }
  }

  /** A round emits the first three of the scripts it closes. */
  lemma LastEmitted(c: Config, rounds: seq<seq<bool>>)
    requires rounds != []
    ensures var init := rounds[..|rounds| - 1];
            var from, to := AfterRounds(c, init).next, AfterRounds(c, rounds).next;
            && from <= to <= |c.scripts|
            && Emitted(c, rounds) == Emitted(c, init) + FirstThree(TruncateAll(c.scripts[from..to]))
  {
    hide Samples, TruncateAll;
    var init, last := rounds[..|rounds| - 1], rounds[|rounds| - 1];
    RoundsBounded(c, init);
    var s := AfterRounds(c, init);
    QueueAfter(c, s, last);
    var added := TruncateAll(c.scripts[s.next..Samples(c, s, last).next]);
    assert [] + added == added;
  }

  lemma TruncateSplit(ts: seq<Text>, from: nat, to: nat)
    requires from <= to <= |ts|
    ensures TruncateAll(ts[..to]) == TruncateAll(ts[..from]) + TruncateAll(ts[from..to])
    ensures |TruncateAll(ts[..from])| == from && |TruncateAll(ts[from..to])| == to - from
  {
    hide Truncate;
  }

  lemma NoRounds(c: Config)
    ensures AtMostThree(c, []) && Emitted(c, []) == TruncateAll(c.scripts[..Closed(c, Concat([]))]) == []
  {}

  lemma LastRound(c: Config, rounds: seq<seq<bool>>, k: int)
    requires rounds != []
    requires k == Closed(c, Concat(rounds)) - Closed(c, Concat(rounds[..|rounds| - 1]))
    ensures AtMostThree(c, rounds) <==> AtMostThree(c, rounds[..|rounds| - 1]) && k <= 3
  {
    hide ClosedIn, Closed, Concat;
    var init := rounds[..|rounds| - 1];
    ClosedLast(c, rounds);
    forall i | 0 <= i < |init|
      ensures ClosedIn(c, rounds, i) == ClosedIn(c, init, i)
    {
      ClosedEarlier(c, rounds, i);
    }
  }

  lemma ClosedLast(c: Config, rounds: seq<seq<bool>>)
    requires rounds != []
    ensures ClosedIn(c, rounds, |rounds| - 1)
         == Closed(c, Concat(rounds)) - Closed(c, Concat(rounds[..|rounds| - 1]))
  {
    hide Closed, Concat;
    assert rounds[..|rounds|] == rounds;
  }

  lemma ClosedEarlier(c: Config, rounds: seq<seq<bool>>, i: nat)
    requires i < |rounds| - 1
    ensures ClosedIn(c, rounds, i) == ClosedIn(c, rounds[..|rounds| - 1], i)
  {
    hide Closed, Concat;
    var init := rounds[..|rounds| - 1];
    assert rounds[..i + 1] == init[..i + 1] && rounds[..i] == init[..i];
  }

  lemma SamePrefix(a: seq<Text>, b: seq<Text>, x: seq<Text>, y: seq<Text>)
    requires |a| <= |b| && x <= y
    ensures a + x == b + y <==> a == b && x == y
  {
    if a + x == b + y {
      assert a == (a + x)[..|a|] && b == (b + y)[..|b|];
    }
  }

  // ----- feeds and single polls in any order -----

  datatype Op = Feed(louds: seq<bool>) | Poll

  /** The machine, what the polls have returned, and how many transcripts found the ring full. */
  datatype Polled = Polled(seg: Seg, out: seq<Text>, lost: nat)

  /** How many transcripts a feed drops. */
  function LostIn(c: Config, s: Seg, louds: seq<bool>): nat
  {
    if louds == [] then 0
    else
      var init := louds[..|louds| - 1];
      var m := Samples(c, s, init);
      var s' := Sample(c, m, louds[|louds| - 1]);
      LostIn(c, s, init) + if s'.next > m.next && |m.queue| >= MAX_PENDING - 1 then 1 else 0
  }

  function AfterOps(c: Config, ops: seq<Op>): Polled
  {
    if ops == [] then Polled(START, [], 0)
    else
      var p := AfterOps(c, ops[..|ops| - 1]);
      match ops[|ops| - 1]
      case Feed(louds) => p.(seg := Samples(c, p.seg, louds), lost := p.lost + LostIn(c, p.seg, louds))
      case Poll =>
        if p.seg.queue == [] then p
        else p.(seg := p.seg.(queue := p.seg.queue[1..]), out := p.out + [p.seg.queue[0]])
  }

  function Feeds(ops: seq<Op>): seq<seq<bool>>
  {
    if ops == [] then []
    else Feeds(ops[..|ops| - 1]) + if ops[|ops| - 1].Feed? then [ops[|ops| - 1].louds] else []
  }

  /** `a` is `b` with some elements left out. */
  predicate Subsequence(a: seq<Text>, b: seq<Text>)
  {
    if a == [] then true
    else if b == [] then false
    else
      var b' := b[..|b| - 1];
      (a[|a| - 1] == b[|b| - 1] && Subsequence(a[..|a| - 1], b')) || Subsequence(a, b')
  }

  lemma SubsequenceGrows(a: seq<Text>, b: seq<Text>, x: Text)
    requires Subsequence(a, b)
    ensures Subsequence(a + [x], b + [x]) && Subsequence(a, b + [x])
  {
    assert (a + [x])[..|a|] == a && (b + [x])[..|b|] == b;
  }

  lemma {:induction false} WholeSubsequence(a: seq<Text>, b: seq<Text>)
    requires Subsequence(a, b)
    ensures |a| <= |b| && (|a| == |b| ==> a == b)
  {
    if a != [] && b != [] {
      var a', b' := a[..|a| - 1], b[..|b| - 1];
      if Subsequence(a, b') {
        WholeSubsequence(a, b');
      } else {
        WholeSubsequence(a', b');
        assert a == a' + [a[|a| - 1]] && b == b' + [b[|b| - 1]];
      }
    }
  }

  /** What is known of the transcripts that got out or are pending. */
  ghost predicate Kept(c: Config, s: Seg, out: seq<Text>, lost: nat)
  {
    && s.next <= |c.scripts| && |s.queue| <= MAX_PENDING - 1
    && Subsequence(out + s.queue, TruncateAll(c.scripts[..s.next]))
    && |out + s.queue| + lost == s.next
  }

  lemma KeptSample(c: Config, s: Seg, out: seq<Text>, lost: nat, loud: bool)
    requires Kept(c, s, out, lost)
    ensures var s' := Sample(c, s, loud);
            Kept(c, s', out, lost + if s'.next > s.next && |s.queue| >= MAX_PENDING - 1 then 1 else 0)
  {
    hide Subsequence, Truncate;
    var s' := Sample(c, s, loud);
    if s'.next > s.next {
      var done, text := TruncateAll(c.scripts[..s.next]), Truncate(c.scripts[s.next], TRANSCRIPT_MAX);
      assert TruncateAll(c.scripts[..s'.next]) == done + [text];
      SubsequenceGrows(out + s.queue, done, text);
      assert out + (s.queue + [text]) == out + s.queue + [text];
    }
  }

  lemma {:induction false} KeptSamples(c: Config, s: Seg, out: seq<Text>, lost: nat, louds: seq<bool>)
    requires Kept(c, s, out, lost)
    ensures Kept(c, Samples(c, s, louds), out, lost + LostIn(c, s, louds))
  {
    hide Kept, Sample;
    if louds != [] {
      var init := louds[..|louds| - 1];
      KeptSamples(c, s, out, lost, init);
      KeptSample(c, Samples(c, s, init), out, lost + LostIn(c, s, init), louds[|louds| - 1]);
    }
  }

  /** For any interleaving of feeds and polls, what was polled followed by what is pending is the
      closed scripts in order with exactly the dropped ones missing. */
  lemma {:induction false} PollsInOrder(c: Config, ops: seq<Op>)
    ensures var p := AfterOps(c, ops); Kept(c, p.seg, p.out, p.lost)
  {
    hide Samples, LostIn, Subsequence;
    if ops == [] {
      NothingKept(c);
    } else {
      var p := AfterOps(c, ops[..|ops| - 1]);
      PollsInOrder(c, ops[..|ops| - 1]);
      match ops[|ops| - 1]
      case Feed(louds) => KeptSamples(c, p.seg, p.out, p.lost, louds);
      case Poll =>
        if p.seg.queue != [] {
          assert p.out + [p.seg.queue[0]] + p.seg.queue[1..] == p.out + p.seg.queue;
        }
    }
  }

  lemma NothingKept(c: Config)
    ensures Kept(c, START, [], 0)
  {}

  /** Everything closed so far was polled or is pending if and only if nothing was dropped. */
  lemma NothingLost(c: Config, ops: seq<Op>)
    ensures var p := AfterOps(c, ops);
            && p.seg.next <= |c.scripts|
            && (p.out + p.seg.queue == TruncateAll(c.scripts[..p.seg.next]) <==> p.lost == 0)
  {
    hide AfterOps;
    var p := AfterOps(c, ops);
    PollsInOrder(c, ops);
    WholeSubsequence(p.out + p.seg.queue, TruncateAll(c.scripts[..p.seg.next]));
  }

  /** Polls do not disturb the segmentation: the counters are those of one pass over the samples. */
  lemma {:induction false} PollsIgnored(c: Config, ops: seq<Op>)
    ensures Drained(AfterOps(c, ops).seg) == Drained(Samples(c, START, Concat(Feeds(ops))))
  {
    hide Sample, LostIn;
    if ops != [] {
      var init, last := ops[..|ops| - 1], ops[|ops| - 1];
      PollsIgnored(c, init);
      match last
      case Poll => assert Feeds(ops) == Feeds(init);
      case Feed(louds) =>
        assert Feeds(ops)[..|Feeds(init)|] == Feeds(init);
        var s, m := AfterOps(c, init).seg, Samples(c, START, Concat(Feeds(init)));
        QueueIgnored(c, s, louds);
        QueueIgnored(c, m, louds);
        SamplesAppend(c, START, Concat(Feeds(init)), louds);
    }
  }
}
