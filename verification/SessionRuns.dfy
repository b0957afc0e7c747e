/** Whole sessions: any sequence of payload and tick calls on server/src/session.c, in true time.
    The theorems about samples, transcripts and the timer are brought together here. */
module SessionRuns {
  import opened CString
  import D = Debounce
  import I = Intent
  import opened PcmSpans
  import S = SttSpec
  import opened Session
  import SttStub

  datatype Call = Pcm(at: nat, bytes: Bytes) | Tick(at: nat)

  /** What stays fixed during a session. */
  datatype Setup = Setup(session: Config, stt: S.Config, limits: D.Config, t0: nat)

  /** The session after these calls; its clock shows true time modulo 2^32. */
  ghost function After(u: Setup, calls: seq<Call>): Life
  {
    if calls == [] then Life(S.START, NothingHeard(u.t0 % D.WORD))
    else
      var l := After(u, calls[..|calls| - 1]);
      match calls[|calls| - 1]
      case Pcm(at, bytes) => PcmStep(u.session, u.stt, l, bytes, at % D.WORD)
      case Tick(at) => TickStep(u.limits, l, at % D.WORD)
  }

  // ----- samples and transcripts -----

  function Spans(calls: seq<Call>): seq<Bytes>
  {
    if calls == [] then []
    else
      var last := calls[|calls| - 1];
      Spans(calls[..|calls| - 1]) + if last.Pcm? then [last.bytes] else []
  }

  /** Each payload as a round of loud and quiet samples. */
  function Rounds(u: Setup, spans: seq<Bytes>): seq<seq<bool>>
  {
    seq(|spans|, i requires 0 <= i < |spans| => SttStub.Louds(Decode(spans[i]), u.stt.thresh))
  }

  lemma RoundsSnoc(u: Setup, spans: seq<Bytes>, bytes: Bytes)
    ensures Rounds(u, spans + [bytes]) == Rounds(u, spans) + [SttStub.Louds(Decode(bytes), u.stt.thresh)]
  {}

  lemma SpansSnoc(calls: seq<Call>)
    requires calls != []
    ensures var init, last := calls[..|calls| - 1], calls[|calls| - 1];
            Spans(calls) == if last.Pcm? then Spans(init) + [last.bytes] else Spans(init)
  {}

  lemma NothingCalled(u: Setup)
    ensures S.AfterRounds(u.stt, Rounds(u, Spans([]))) == S.START && S.Emitted(u.stt, Rounds(u, Spans([]))) == []
    ensures HearAll(u.session.intents, 0, NothingHeard(0), []) == NothingHeard(0)
  {}

  /** The backend's state is that of its rounds; ticks do not touch it. */
  lemma {:induction false} SegmentsRounds(u: Setup, calls: seq<Call>)
    ensures After(u, calls).seg == S.AfterRounds(u.stt, Rounds(u, Spans(calls)))
  {
    hide S.Samples, S.AfterRounds, HearAll, Decode, Voiced, Rounds, Spans;
    if calls == [] {
      NothingCalled(u);
    } else {
      var init, last := calls[..|calls| - 1], calls[|calls| - 1];
      SegmentsRounds(u, init);
      SpansSnoc(calls);
      if last.Pcm? {
        RoundsSnoc(u, Spans(init), last.bytes);
        S.RoundSnoc(u.stt, Rounds(u, Spans(init)), SttStub.Louds(Decode(last.bytes), u.stt.thresh));
      }
    }
  }

  lemma {:induction false} RoundsJoin(u: Setup, spans: seq<Bytes>)
    ensures Concat(Rounds(u, spans)) == SttStub.Louds(DecodeEach(spans), u.stt.thresh)
  {
    hide Decode;
    if spans != [] {
      var init, last := spans[..|spans| - 1], spans[|spans| - 1];
      RoundsJoin(u, init);
      assert init + [last] == spans;
      RoundsSnoc(u, init, last);
      assert Rounds(u, spans)[..|init|] == Rounds(u, init);
      SttStub.LoudsAppend(DecodeEach(init), Decode(last), u.stt.thresh);
    }
  }

  /** Whatever the calls, the segmentation is that of one pass over all decoded samples. */
  lemma SegmentsSamples(u: Setup, calls: seq<Call>)
    ensures After(u, calls).seg
         == S.Drained(S.Samples(u.stt, S.START, SttStub.Louds(DecodeEach(Spans(calls)), u.stt.thresh)))
  {
    hide After, S.Samples, DecodeEach, Rounds, Spans;
    SegmentsRounds(u, calls);
    S.RoundsAreOneStream(u.stt, Rounds(u, Spans(calls)));
    RoundsJoin(u, Spans(calls));
  }

  /** If no bytes follow a span of odd length, the session segments the concatenated bytes. */
  lemma SegmentsBytes(u: Setup, calls: seq<Call>)
    requires Aligned(Lengths(Spans(calls)))
    ensures After(u, calls).seg
         == S.Drained(S.Samples(u.stt, S.START, SttStub.Louds(Decode(Concat(Spans(calls))), u.stt.thresh)))
  {
    hide After, S.Samples, DecodeEach, Decode, Spans, Aligned;
    SegmentsSamples(u, calls);
    AlignedSpans(Spans(calls));
  }

  /** How aligned payloads are cut, and when they and the ticks come, is invisible to the backend. */
  lemma SplitInvisible(u: Setup, calls: seq<Call>, calls': seq<Call>)
    requires Aligned(Lengths(Spans(calls))) && Aligned(Lengths(Spans(calls')))
    requires Concat(Spans(calls)) == Concat(Spans(calls'))
    ensures After(u, calls).seg == After(u, calls').seg
  {
    hide After, S.Samples, Decode, Spans, Aligned;
    SegmentsBytes(u, calls);
    SegmentsBytes(u, calls');
  }

  // ----- what is heard -----

  predicate SameNews(a: Heard, b: Heard)
  {
    a == b.(timer := a.timer)
  }

  lemma {:induction false} NewsIgnoreTime(table: seq<I.Entry>, now: nat, a: Heard, now': nat, b: Heard,
                                          texts: seq<S.Text>)
    requires SameNews(a, b)
    ensures SameNews(HearAll(table, now, a, texts), HearAll(table, now', b, texts))
    decreases texts
  {
    hide I.Recognise, I.RecognisedName, D.NoteCommand;
    if texts != [] {
      NewsIgnoreTime(table, now, Hear(table, now, a, texts[0]), now', Hear(table, now', b, texts[0]), texts[1..]);
    }
  }

  lemma {:induction false} HearAllAppend(table: seq<I.Entry>, now: nat, h: Heard, a: seq<S.Text>, b: seq<S.Text>)
    ensures HearAll(table, now, h, a + b) == HearAll(table, now, HearAll(table, now, h, a), b)
    decreases a
  {
    hide Hear;
    if a == [] {
      assert a + b == b;
    } else {
      assert (a + b)[1..] == a[1..] + b;
      HearAllAppend(table, now, Hear(table, now, h, a[0]), a[1..], b);
    }
  }

  /** Last transcript, last intent with its name, and command count of a session are those of
      hearing everything the backend emitted, in order; `S.Lossless` says when that is everything. */
  lemma {:induction false} HearsEmitted(u: Setup, calls: seq<Call>)
    ensures SameNews(After(u, calls).heard,
                     HearAll(u.session.intents, 0, NothingHeard(0), S.Emitted(u.stt, Rounds(u, Spans(calls)))))
  {
    hide S.Samples, Hear, HearAll, Decode, Voiced, S.Emitted, S.AfterRounds, Rounds, Spans;
    var table, start := u.session.intents, NothingHeard(0);
    if calls == [] {
      NothingCalled(u);
    } else {
      var init, last := calls[..|calls| - 1], calls[|calls| - 1];
      HearsEmitted(u, init);
      SpansSnoc(calls);
      if last.Pcm? {
        var before, round := Rounds(u, Spans(init)), SttStub.Louds(Decode(last.bytes), u.stt.thresh);
        SegmentsRounds(u, init);
        RoundsSnoc(u, Spans(init), last.bytes);
        S.RoundSnoc(u.stt, before, round);
        var texts := S.Samples(u.stt, S.AfterRounds(u.stt, before), round).queue;
        HearAllAppend(table, 0, start, S.Emitted(u.stt, before), texts);
        var l := After(u, init);
        var now := last.at % D.WORD;
        var h := if Voiced(Decode(last.bytes), u.session.vadThresh)
                 then l.heard.(timer := D.NoteSpeech(l.heard.timer, now)) else l.heard;
        NewsIgnoreTime(table, now, h, 0, HearAll(table, 0, start, S.Emitted(u.stt, before)), texts);
      }
    }
  }

  /** If no payload closes more than three scripted utterances, the session has heard every scripted
      utterance its samples closed. */
  lemma HearsEverything(u: Setup, calls: seq<Call>)
    requires u.stt.Ok() && S.AtMostThree(u.stt, Rounds(u, Spans(calls)))
    ensures var louds := SttStub.Louds(DecodeEach(Spans(calls)), u.stt.thresh);
            SameNews(After(u, calls).heard,
                     HearAll(u.session.intents, 0, NothingHeard(0),
                             S.TruncateAll(u.stt.scripts[..S.Closed(u.stt, louds)])))
  {
    hide After, HearAll, DecodeEach, Rounds, Spans, S.Emitted, S.Closed, S.AtMostThree;
    HearsEmitted(u, calls);
    S.Lossless(u.stt, Rounds(u, Spans(calls)));
    RoundsJoin(u, Spans(calls));
  }

  // ----- the timer -----

  /** The commands among some transcripts, as events at one time. */
  ghost function Commands(table: seq<I.Entry>, texts: seq<S.Text>, at: nat): seq<D.Event>
    decreases texts
  {
    if texts == [] then []
    else
      (if I.Recognise(table, texts[0]) != I.INTENT_NONE then [D.Event(at, D.Command)] else [])
      + Commands(table, texts[1..], at)
  }

  /** What a call tells the timer when the backend is in this state. */
  ghost function CallEvents(u: Setup, seg: S.Seg, call: Call): seq<D.Event>
  {
    match call
    case Pcm(at, bytes) =>
      var pcm := Decode(bytes);
      (if Voiced(pcm, u.session.vadThresh) then [D.Event(at, D.Speech)] else [])
      + Commands(u.session.intents, S.Samples(u.stt, seg, SttStub.Louds(pcm, u.stt.thresh)).queue, at)
    case Tick(at) => [D.Event(at, D.Tick)]
  }

  ghost function Events(u: Setup, calls: seq<Call>): seq<D.Event>
  {
    if calls == [] then []
    else
      var init := calls[..|calls| - 1];
      Events(u, init) + CallEvents(u, After(u, init).seg, calls[|calls| - 1])
  }

  lemma WrappedSnoc(c: D.Config, t0: nat, run: seq<D.Event>, e: D.Event)
    ensures (run + [e])[..|run + [e]| - 1] == run && (run + [e])[|run + [e]| - 1] == e
  {}

  lemma {:induction false} HearsCommands(table: seq<I.Entry>, c: D.Config, t0: nat, run: seq<D.Event>, h: Heard,
                                         texts: seq<S.Text>, at: nat)
    requires h.timer == D.Wrapped(c, t0, run)
    ensures HearAll(table, at % D.WORD, h, texts).timer == D.Wrapped(c, t0, run + Commands(table, texts, at))
    decreases texts
  {
    hide I.Recognise, I.RecognisedName, D.NoteCommand;
    if texts == [] {
      assert run + [] == run;
    } else {
      var e := D.Event(at, D.Command);
      var h' := Hear(table, at % D.WORD, h, texts[0]);
      var rest := Commands(table, texts[1..], at);
      if I.Recognise(table, texts[0]) != I.INTENT_NONE {
        WrappedSnoc(c, t0, run, e);
        HearsCommands(table, c, t0, run + [e], h', texts[1..], at);
        assert run + [e] + rest == run + ([e] + rest);
      } else {
        HearsCommands(table, c, t0, run, h', texts[1..], at);
        assert [] + rest == rest;
      }
    }
  }

  /** The timer of a session is the timer of its events: every theorem about runs of the timer is
      one about sessions. */
  lemma {:induction false} TimerIsRun(u: Setup, calls: seq<Call>)
    ensures After(u, calls).heard.timer == D.Wrapped(u.limits, u.t0, Events(u, calls))
  {
    hide PcmStep, CallEvents, D.Wrapped;
    if calls == [] {
      NoEvents(u);
    } else {
      var init, last := calls[..|calls| - 1], calls[|calls| - 1];
      TimerIsRun(u, init);
      match last
      case Tick(at) => TickIsEvent(u, After(u, init), Events(u, init), at);
      case Pcm(at, bytes) => PcmIsEvents(u, After(u, init), Events(u, init), at, bytes);
    }
  }

  lemma NoEvents(u: Setup)
    ensures D.Wrapped(u.limits, u.t0, []) == D.Init(u.t0 % D.WORD)
  {}

  lemma TickIsEvent(u: Setup, l: Life, run: seq<D.Event>, at: nat)
    requires l.heard.timer == D.Wrapped(u.limits, u.t0, run)
    ensures TickStep(u.limits, l, at % D.WORD).heard.timer
         == D.Wrapped(u.limits, u.t0, run + CallEvents(u, l.seg, Call.Tick(at)))
  {
    hide D.ShouldCut;
    WrappedSnoc(u.limits, u.t0, run, D.Event(at, D.Tick));
  }

  lemma PcmIsEvents(u: Setup, l: Life, run: seq<D.Event>, at: nat, bytes: Bytes)
    requires l.heard.timer == D.Wrapped(u.limits, u.t0, run)
    ensures PcmStep(u.session, u.stt, l, bytes, at % D.WORD).heard.timer
         == D.Wrapped(u.limits, u.t0, run + CallEvents(u, l.seg, Pcm(at, bytes)))
  {
    hide S.Samples, HearAll, Decode, Voiced, Commands, D.NoteSpeech;
    var table, now, pcm, e := u.session.intents, at % D.WORD, Decode(bytes), D.Event(at, D.Speech);
    var texts := S.Samples(u.stt, l.seg, SttStub.Louds(pcm, u.stt.thresh)).queue;
    var told := Commands(table, texts, at);
    if Voiced(pcm, u.session.vadThresh) {
      WrappedSnoc(u.limits, u.t0, run, e);
      HearsCommands(table, u.limits, u.t0, run + [e], l.heard.(timer := D.NoteSpeech(l.heard.timer, now)), texts, at);
      assert run + [e] + told == run + ([e] + told);
    } else {
      HearsCommands(table, u.limits, u.t0, run, l.heard, texts, at);
      assert [] + told == told;
    }
  }

  /** True times never run backwards. */
  predicate InOrder(t0: nat, calls: seq<Call>)
  {
    && (forall i | 0 <= i < |calls| :: t0 <= calls[i].at)
    && (forall i, j | 0 <= i < j < |calls| :: calls[i].at <= calls[j].at)
  }

  lemma {:induction false} CommandsAt(table: seq<I.Entry>, texts: seq<S.Text>, at: nat)
    ensures forall e | e in Commands(table, texts, at) :: e.at == at
    decreases texts
  {
    hide I.Recognise;
    if texts != [] {
      CommandsAt(table, texts[1..], at);
    }
  }

  lemma CallEventsAt(u: Setup, seg: S.Seg, call: Call)
    ensures forall e | e in CallEvents(u, seg, call) :: e.at == call.at
  {
    hide S.Samples, Decode, Voiced, Commands;
    if call.Pcm? {
      var louds := SttStub.Louds(Decode(call.bytes), u.stt.thresh);
      CommandsAt(u.session.intents, S.Samples(u.stt, seg, louds).queue, call.at);
    }
  }

  lemma {:induction false} EventsInOrder(u: Setup, calls: seq<Call>)
    requires InOrder(u.t0, calls)
    ensures D.Ordered(u.t0, Events(u, calls))
    ensures forall e | e in Events(u, calls) :: calls != [] && e.at <= calls[|calls| - 1].at
  {
    hide After, CallEvents;
    if calls != [] {
      var init, last := calls[..|calls| - 1], calls[|calls| - 1];
      EventsInOrder(u, init);
      CallEventsAt(u, After(u, init).seg, last);
      OrderedAppend(u.t0, Events(u, init), CallEvents(u, After(u, init).seg, last), last.at);
    }
  }

  lemma OrderedAppend(t0: nat, run: seq<D.Event>, more: seq<D.Event>, at: nat)
    requires D.Ordered(t0, run) && t0 <= at
    requires (forall e | e in run :: e.at <= at) && (forall e | e in more :: e.at == at)
    ensures D.Ordered(t0, run + more)
  {
    assert forall i | 0 <= i < |run| :: run[i] in run;
    assert forall i | 0 <= i < |more| :: more[i] in more;
  }

  /** No session is cut before the time its reason names has really passed. */
  lemma CutsJustified(u: Setup, calls: seq<Call>)
    requires InOrder(u.t0, calls)
    ensures D.Justified(u.limits, u.t0, After(u, calls).heard.timer, D.TrueMarks(u.limits, u.t0, Events(u, calls)))
  {
    hide After, Events;
    TimerIsRun(u, calls);
    EventsInOrder(u, calls);
    D.ReasonsJustified(u.limits, u.t0, Events(u, calls));
  }

  ghost predicate TickedWithin(calls: seq<Call>, from: nat, gap: nat)
  {
    exists i :: 0 <= i < |calls| && calls[i].Tick? && from <= calls[i].at <= from + gap
  }

  /** With ticks at most `gap` apart and max_session + gap below 2^32, every session is cut, whatever
      audio and commands arrive. */
  lemma SessionEnds(u: Setup, calls: seq<Call>, gap: nat)
    requires u.limits.Ok() && u.limits.maxSession > 0 && u.limits.maxSession + gap < D.WORD && InOrder(u.t0, calls)
    requires forall from: nat | u.t0 <= from <= u.t0 + u.limits.maxSession :: TickedWithin(calls, from, gap)
    ensures After(u, calls).heard.timer.state == D.Cut
  {
    hide After, Events, D.Wrapped;
    var run, end := Events(u, calls), u.t0 + u.limits.maxSession + gap;
    TimerIsRun(u, calls);
    EventsInOrder(u, calls);
    forall from: nat | u.t0 <= from && from + gap <= end
      ensures D.HasTick(run, from, gap)
    {
      assert TickedWithin(calls, from, gap);
      var i :| 0 <= i < |calls| && calls[i].Tick? && from <= calls[i].at <= from + gap;
      TickSeen(u, calls, i);
    }
    var cut := D.EverySessionEnds(u.limits, u.t0, run, gap);
  }

  lemma {:induction false} TickSeen(u: Setup, calls: seq<Call>, i: nat)
    requires i < |calls| && calls[i].Tick?
    ensures D.Event(calls[i].at, D.Tick) in Events(u, calls)
  {
    hide After;
    if i < |calls| - 1 {
      TickSeen(u, calls[..|calls| - 1], i);
    }
  }

  /** A tick of a session decides by true times: session limit, then debounce, then silence. */
  lemma TickDecidesSession(u: Setup, calls: seq<Call>, at: nat)
    requires InOrder(u.t0, calls + [Call.Tick(at)]) && at - u.t0 < D.WORD
    requires After(u, calls).heard.timer.state != D.Cut
    ensures D.Outcome(u.limits, u.t0, Events(u, calls), at, After(u, calls + [Call.Tick(at)]).heard.timer)
  {
    hide After, Events, D.Wrapped, D.Outcome;
    var all := calls + [Call.Tick(at)];
    TickEvent(u, calls, at);
    TimerIsRun(u, calls);
    TimerIsRun(u, all);
    EventsInOrder(u, all);
    D.TickDecides(u.limits, u.t0, Events(u, calls), D.Event(at, D.Tick));
  }

  /** In a session of any age a tick cuts for every limit that is due. */
  lemma DueLimitCutsSession(u: Setup, calls: seq<Call>, at: nat)
    requires InOrder(u.t0, calls + [Call.Tick(at)]) && D.Due(u.limits, u.t0, Events(u, calls), at)
    ensures After(u, calls + [Call.Tick(at)]).heard.timer.state == D.Cut
  {
    hide After, Events, D.Wrapped, D.Due;
    var all := calls + [Call.Tick(at)];
    TickEvent(u, calls, at);
    TimerIsRun(u, all);
    EventsInOrder(u, all);
    D.DueLimitCuts(u.limits, u.t0, Events(u, calls), D.Event(at, D.Tick));
  }

  lemma TickEvent(u: Setup, calls: seq<Call>, at: nat)
    ensures Events(u, calls + [Call.Tick(at)]) == Events(u, calls) + [D.Event(at, D.Tick)]
  {
    hide After;
    assert (calls + [Call.Tick(at)])[..|calls|] == calls;
  }

  /** A voiced payload is speech at that moment. */
  lemma VoiceMarks(u: Setup, calls: seq<Call>, at: nat, bytes: Bytes)
    requires After(u, calls).heard.timer.state != D.Cut && Voiced(Decode(bytes), u.session.vadThresh)
    ensures After(u, calls + [Pcm(at, bytes)]).heard.timer.lastSpeech == at % D.WORD
  {
    hide S.Samples, Decode, Voiced, SttStub.Louds;
    var l := After(u, calls);
    assert (calls + [Pcm(at, bytes)])[..|calls|] == calls;
    var seg := S.Samples(u.stt, l.seg, SttStub.Louds(Decode(bytes), u.stt.thresh));
    var h := l.heard.(timer := D.NoteSpeech(l.heard.timer, at % D.WORD));
    HearingMarks(u.session.intents, at % D.WORD, h, seg.queue);
  }

  /** A payload that is no voice and brings no command leaves the timer alone. */
  lemma QuietPayload(u: Setup, calls: seq<Call>, at: nat, bytes: Bytes)
    requires !Voiced(Decode(bytes), u.session.vadThresh)
    requires After(u, calls + [Pcm(at, bytes)]).heard.commands == After(u, calls).heard.commands
    ensures After(u, calls + [Pcm(at, bytes)]).heard.timer == After(u, calls).heard.timer
  {
    hide S.Samples, Decode, Voiced, SttStub.Louds;
    var l := After(u, calls);
    assert (calls + [Pcm(at, bytes)])[..|calls|] == calls;
    var seg := S.Samples(u.stt, l.seg, SttStub.Louds(Decode(bytes), u.stt.thresh));
    HearingCounts(u.session.intents, at % D.WORD, l.heard, seg.queue);
  }

  lemma {:induction false} HearingCounts(table: seq<I.Entry>, now: nat, h: Heard, texts: seq<S.Text>)
    ensures var g := HearAll(table, now, h, texts);
            g.commands >= h.commands && (g.commands == h.commands ==> g.timer == h.timer)
    decreases texts
  {
    hide I.Recognise, I.RecognisedName, D.NoteCommand;
    if texts != [] {
      HearingCounts(table, now, Hear(table, now, h, texts[0]), texts[1..]);
    }
  }

  lemma {:induction false} HearingMarks(table: seq<I.Entry>, now: nat, h: Heard, texts: seq<S.Text>)
    requires h.timer.state != D.Cut
    ensures var t := HearAll(table, now, h, texts).timer;
            t.state != D.Cut && (h.timer.lastSpeech == now ==> t.lastSpeech == now)
    decreases texts
  {
    hide I.Recognise, I.RecognisedName;
    if texts != [] {
      HearingMarks(table, now, Hear(table, now, h, texts[0]), texts[1..]);
    }
  }
}
