/** server/src/debounce.c: the connection-cut timer on 32-bit wrapping time stamps, and its
    meaning over whole runs in unbounded true time. */
module Debounce {
  const WORD: nat := 0x1_0000_0000

  datatype State = Listening | Waiting | Cut
  datatype Reason = CutNone | CutDebounce | CutMaxSession | CutSilence

  /** A zero limit disables the corresponding timer. */
  datatype Config = Config(debounce: nat, maxSession: nat, silence: nat)
  {
    predicate Ok() { debounce < WORD && maxSession < WORD && silence < WORD }
  }

  datatype Timer = Timer(state: State, reason: Reason, start: nat, lastSpeech: nat, lastCmd: nat, commands: nat)

  // ----- the transitions, over any clock -----

  function Init(now: nat): Timer { Timer(Listening, CutNone, now, now, now, 0) }

  function NoteSpeech(t: Timer, now: nat): Timer
  {
    if t.state == Cut then t else t.(lastSpeech := now)
  }

  function NoteCommand(t: Timer, now: nat): Timer
  {
    if t.state == Cut then t
    else t.(lastSpeech := now, lastCmd := now, commands := t.commands + 1, state := Waiting)
  }

  function CutFor(t: Timer, reason: Reason): Timer { t.(state := Cut, reason := reason) }

  /** Decides on the elapsed times since start, last command and last speech. */
  function Decide(c: Config, t: Timer, sinceStart: nat, sinceCmd: nat, sinceSpeech: nat): Timer
  {
    if t.state == Cut then t
    else if c.maxSession > 0 && sinceStart >= c.maxSession then CutFor(t, CutMaxSession)
    else if t.state == Waiting && c.debounce > 0 && sinceCmd >= c.debounce then CutFor(t, CutDebounce)
    else if c.silence > 0 && sinceSpeech >= c.silence then CutFor(t, CutSilence)
    else t
  }

  /** `now - since` in 32-bit unsigned arithmetic. */
  function Elapsed(now: nat, since: nat): nat
  {
    (now - since) % WORD
  }

  function ShouldCut(c: Config, t: Timer, now: nat): Timer
  {
    Decide(c, t, Elapsed(now, t.start), Elapsed(now, t.lastCmd), Elapsed(now, t.lastSpeech))
  }

  // ----- the object -----

  class Machine {
    const cfg: Config
    var timer: Timer

    constructor (c: Config, now: nat)
      ensures cfg == c && timer == Init(now)
    {
      cfg := c;
      timer := Init(now);
    }

    method OnSpeech(now: nat)
      modifies this
      ensures timer == NoteSpeech(old(timer), now)
    {
      if timer.state == Cut {
        return;
      }
      timer := timer.(lastSpeech := now);
    }

    method OnCommand(now: nat)
      modifies this
      ensures timer == NoteCommand(old(timer), now)
    {
      if timer.state == Cut {
        return;
      }
      timer := timer.(lastSpeech := now);
      timer := timer.(lastCmd := now);
      timer := timer.(commands := timer.commands + 1);
      timer := timer.(state := Waiting);
    }

    method Tick(now: nat) returns (cut: bool)
      modifies this
      ensures timer == ShouldCut(cfg, old(timer), now)
      ensures cut == (timer.state == Cut)
    {
      if timer.state == Cut {
        return true;
      }
      if cfg.maxSession != 0 && Elapsed(now, timer.start) >= cfg.maxSession {
        timer := timer.(reason := CutMaxSession, state := Cut);
        return true;
      }
      if timer.state == Waiting && cfg.debounce != 0 && Elapsed(now, timer.lastCmd) >= cfg.debounce {
        timer := timer.(reason := CutDebounce, state := Cut);
        return true;
      }
      if cfg.silence != 0 && Elapsed(now, timer.lastSpeech) >= cfg.silence {
        timer := timer.(reason := CutSilence, state := Cut);
        return true;
      }
      return false;
    }
  }

  // ----- whole runs in true time -----

  datatype Kind = Speech | Command | Tick
  datatype Event = Event(at: nat, kind: Kind)

  /** True times never run backwards, from the start of the session on. */
  predicate Ordered(t0: nat, run: seq<Event>)
  {
    && (forall i | 0 <= i < |run| :: t0 <= run[i].at)
    && (forall i, j | 0 <= i < j < |run| :: run[i].at <= run[j].at)
  }

  /** The machine on the wrapping clock: it sees every time modulo 2^32. */
  function Wrapped(c: Config, t0: nat, run: seq<Event>): Timer
  {
    if run == [] then Init(t0 % WORD)
    else
      var t, e := Wrapped(c, t0, run[..|run| - 1]), run[|run| - 1];
      match e.kind
      case Speech => NoteSpeech(t, e.at % WORD)
      case Command => NoteCommand(t, e.at % WORD)
      case Tick => ShouldCut(c, t, e.at % WORD)
  }

  /** The same machine on an unbounded clock. */
  function Ideal(c: Config, t0: nat, run: seq<Event>): Timer
  {
    if run == [] then Init(t0)
    else
      var t, e := Ideal(c, t0, run[..|run| - 1]), run[|run| - 1];
      match e.kind
      case Speech => NoteSpeech(t, e.at)
      case Command => NoteCommand(t, e.at)
      case Tick => if t.start <= e.at && t.lastCmd <= e.at && t.lastSpeech <= e.at
                   then Decide(c, t, e.at - t.start, e.at - t.lastCmd, e.at - t.lastSpeech) else t
  }

  /** True times of the last command and of the last speech before a cut. */
  datatype Marks = Marks(cmd: nat, speech: nat, cutAt: nat)

  function TrueMarks(c: Config, t0: nat, run: seq<Event>): Marks
  {
    if run == [] then Marks(t0, t0, t0)
    else
      var init, e := run[..|run| - 1], run[|run| - 1];
      var m := TrueMarks(c, t0, init);
      if Wrapped(c, t0, init).state == Cut then m
      else match e.kind
        case Speech => m.(speech := e.at)
        case Command => m.(speech := e.at, cmd := e.at)
        case Tick => m.(cutAt := e.at)
  }

  lemma {:induction false} MarksTrack(c: Config, t0: nat, run: seq<Event>)
    requires Ordered(t0, run)
    ensures var t, m := Wrapped(c, t0, run), TrueMarks(c, t0, run);
            && t.start == t0 % WORD && t.lastCmd == m.cmd % WORD && t.lastSpeech == m.speech % WORD
            && t0 <= m.cmd && t0 <= m.speech
            && (forall e | e in run :: t0 <= e.at)
            && (run != [] ==> m.cmd <= run[|run| - 1].at && m.speech <= run[|run| - 1].at)
            && (run == [] ==> m == Marks(t0, t0, t0))
            && ((t.state == Cut) <==> t.reason != CutNone)
  {
    if run != [] {
      MarksTrack(c, t0, run[..|run| - 1]);
    }
  }

  /** Wrapping can only make an elapsed time look shorter, and is exact within one wrap. */
  lemma ElapsedBound(now: nat, since: nat)
    requires since <= now
    ensures Elapsed(now % WORD, since % WORD) <= now - since
    ensures now - since < WORD ==> Elapsed(now % WORD, since % WORD) == now - since
  {
    var d := now - since;
    var q := now / WORD - since / WORD;
    assert now % WORD - since % WORD == d - q * WORD;
    assert (d - q * WORD) % WORD == d % WORD;
  }

  /** A cut is final: no later event changes the timer. */
  lemma {:induction false} CutIsFinal(c: Config, t0: nat, run: seq<Event>, more: seq<Event>)
    requires Wrapped(c, t0, run).state == Cut
    ensures Wrapped(c, t0, run + more) == Wrapped(c, t0, run)
  {
    if more == [] {
      assert run + more == run;
    } else {
      CutIsFinal(c, t0, run, more[..|more| - 1]);
      assert (run + more)[..|run + more| - 1] == run + more[..|more| - 1];
    }
  }

  /** What each reason promises, in true time at the tick that cut. */
  ghost predicate Justified(c: Config, t0: nat, t: Timer, m: Marks)
  {
    match t.reason
    case CutNone => t.state != Cut
    case CutMaxSession => t.state == Cut && c.maxSession > 0 && m.cutAt - t0 >= c.maxSession
    case CutDebounce => t.state == Cut && t.commands > 0 && c.debounce > 0 && m.cutAt - m.cmd >= c.debounce
    case CutSilence => t.state == Cut && c.silence > 0 && m.cutAt - m.speech >= c.silence
  }

  /** Over every run, wrap-around included: the reported reason is never premature. */
  lemma {:induction false} ReasonsJustified(c: Config, t0: nat, run: seq<Event>)
    requires Ordered(t0, run)
    ensures Justified(c, t0, Wrapped(c, t0, run), TrueMarks(c, t0, run))
    ensures Wrapped(c, t0, run).state == Waiting ==> Wrapped(c, t0, run).commands > 0
  {
    hide Elapsed, Ordered;
    if run != [] {
      var init, e := run[..|run| - 1], run[|run| - 1];
      OrderedPrefix(t0, run);
      ReasonsJustified(c, t0, init);
      MarksTrack(c, t0, init);
      LastIsLatest(t0, run);
      var m := TrueMarks(c, t0, init);
      ElapsedBound(e.at, t0);
      ElapsedBound(e.at, m.cmd);
      ElapsedBound(e.at, m.speech);
    }
  }

  lemma LastIsLatest(t0: nat, run: seq<Event>)
    requires Ordered(t0, run) && run != []
    ensures t0 <= run[|run| - 1].at
    ensures forall i | 0 <= i < |run| :: run[i].at <= run[|run| - 1].at
  {}

  /** A wrapped timer and a true one that tell the same story at time `now`. */
  ghost predicate Agree(t: Timer, i: Timer, t0: nat, now: nat)
  {
    && t.state == i.state && t.reason == i.reason && t.commands == i.commands
    && t.start == i.start % WORD && t.lastCmd == i.lastCmd % WORD && t.lastSpeech == i.lastSpeech % WORD
    && i.start == t0 && t0 <= i.lastCmd <= now && t0 <= i.lastSpeech <= now
  }

  /** While the session is younger than one wrap, the 32-bit machine is the true-time machine. */
  lemma {:induction false} WrapInvisible(c: Config, t0: nat, run: seq<Event>)
    requires Ordered(t0, run) && (run != [] ==> run[|run| - 1].at - t0 < WORD)
    ensures Agree(Wrapped(c, t0, run), Ideal(c, t0, run), t0, Latest(t0, run))
  {
    hide Elapsed, Ordered, Agree, ShouldCut, Decide;
    if run == [] {
      AgreeAtStart(c, t0);
    } else {
      var init, e := run[..|run| - 1], run[|run| - 1];
      OrderedPrefix(t0, run);
      LatestGrows(t0, run);
      WrapInvisible(c, t0, init);
      AgreeStep(c, Wrapped(c, t0, init), Ideal(c, t0, init), t0, Latest(t0, init), e.at);
    }
  }

  function Latest(t0: nat, run: seq<Event>): nat
  {
    if run == [] then t0 else run[|run| - 1].at
  }

  lemma LatestGrows(t0: nat, run: seq<Event>)
    requires Ordered(t0, run) && run != []
    ensures t0 <= Latest(t0, run[..|run| - 1]) <= Latest(t0, run)
  {}

  lemma AgreeAtStart(c: Config, t0: nat)
    ensures Agree(Wrapped(c, t0, []), Ideal(c, t0, []), t0, t0)
  {}

  lemma AgreeStep(c: Config, t: Timer, i: Timer, t0: nat, before: nat, now: nat)
    requires Agree(t, i, t0, before) && t0 <= before <= now && now - t0 < WORD
    ensures Agree(NoteSpeech(t, now % WORD), NoteSpeech(i, now), t0, now)
    ensures Agree(NoteCommand(t, now % WORD), NoteCommand(i, now), t0, now)
    ensures Agree(ShouldCut(c, t, now % WORD),
                  Decide(c, i, now - i.start, now - i.lastCmd, now - i.lastSpeech), t0, now)
    ensures i.start <= now && i.lastCmd <= now && i.lastSpeech <= now
  {
    hide Elapsed;
    ElapsedBound(now, t0);
    ElapsedBound(now, i.lastCmd);
    ElapsedBound(now, i.lastSpeech);
  }

  // ----- when a tick cuts -----

  /** What a tick at true time `at` makes of an uncut timer: it cuts for the session limit if that is
      due, else for the debounce limit if a command has been noted and that is due, else for the
      silence limit if that is due, else not at all. */
  ghost predicate Outcome(c: Config, t0: nat, run: seq<Event>, at: nat, t: Timer)
  {
    var m := TrueMarks(c, t0, run);
    var max := c.maxSession > 0 && at - t0 >= c.maxSession;
    var quiet := Heard(run) && c.debounce > 0 && at - m.cmd >= c.debounce;
    var silent := c.silence > 0 && at - m.speech >= c.silence;
    && (t.state == Cut <==> max || quiet || silent)
    && (max ==> t.reason == CutMaxSession)
    && (!max && quiet ==> t.reason == CutDebounce)
    && (!max && !quiet && silent ==> t.reason == CutSilence)
    && (!max && !quiet && !silent ==> t == Wrapped(c, t0, run))
  }

  /** Within one wrap of the clock since the start, true times decide. */
  lemma TickDecides(c: Config, t0: nat, run: seq<Event>, e: Event)
    requires Ordered(t0, run + [e]) && e.kind == Tick && e.at - t0 < WORD
    requires Wrapped(c, t0, run).state != Cut
    ensures Outcome(c, t0, run, e.at, Wrapped(c, t0, run + [e]))
  {
    hide Elapsed, Ordered, Heard, TrueMarks;
    RunEnds(t0, run, e);
    LastEvent(c, t0, run, e);
    MarksTrack(c, t0, run);
    WaitingIffHeard(c, t0, run);
    ReasonsJustified(c, t0, run);
    var m := TrueMarks(c, t0, run);
    MarksBefore(c, t0, run, e);
    ElapsedBound(e.at, t0);
    ElapsedBound(e.at, m.cmd);
    ElapsedBound(e.at, m.speech);
  }

  /** A limit that is due, and for less than a whole wrap. */
  ghost predicate Due(c: Config, t0: nat, run: seq<Event>, at: nat)
  {
    var m := TrueMarks(c, t0, run);
    || (c.maxSession > 0 && c.maxSession <= at - t0 < WORD)
    || (Heard(run) && c.debounce > 0 && c.debounce <= at - m.cmd < WORD)
    || (c.silence > 0 && c.silence <= at - m.speech < WORD)
  }

  /** In a session of any age a tick cuts for every limit that is due. */
  lemma DueLimitCuts(c: Config, t0: nat, run: seq<Event>, e: Event)
    requires Ordered(t0, run + [e]) && e.kind == Tick && Due(c, t0, run, e.at)
    ensures Wrapped(c, t0, run + [e]).state == Cut
  {
    hide Elapsed, Ordered, Heard, TrueMarks;
    RunEnds(t0, run, e);
    LastEvent(c, t0, run, e);
    MarksTrack(c, t0, run);
    WaitingIffHeard(c, t0, run);
    var m := TrueMarks(c, t0, run);
    MarksBefore(c, t0, run, e);
    ElapsedBound(e.at, t0);
    ElapsedBound(e.at, m.cmd);
    ElapsedBound(e.at, m.speech);
  }

  /** Some command has been noted. */
  ghost predicate Heard(run: seq<Event>)
  {
    exists i :: 0 <= i < |run| && run[i].kind == Command
  }

  /** An uncut timer waits exactly when a command has been noted. */
  lemma {:induction false} WaitingIffHeard(c: Config, t0: nat, run: seq<Event>)
    ensures var t := Wrapped(c, t0, run); t.state != Cut ==> (t.state == Waiting <==> Heard(run))
  {
    hide ShouldCut;
    if run != [] {
      var init, e := run[..|run| - 1], run[|run| - 1];
      WaitingIffHeard(c, t0, init);
      HeardSnoc(run);
      TickKeeps(c, Wrapped(c, t0, init), e.at % WORD);
    }
  }

  lemma HeardSnoc(run: seq<Event>)
    requires run != []
    ensures Heard(run) <==> Heard(run[..|run| - 1]) || run[|run| - 1].kind == Command
  {
    var init := run[..|run| - 1];
    if Heard(init) {
      var i :| 0 <= i < |init| && init[i].kind == Command;
      assert run[i].kind == Command;
    }
    if i :| 0 <= i < |run| && run[i].kind == Command && i < |init| {
      assert init[i].kind == Command;
    }
  }

  lemma TickKeeps(c: Config, t: Timer, now: nat)
    ensures var t' := ShouldCut(c, t, now); t'.state == Cut || t' == t
  {}

  lemma RunEnds(t0: nat, run: seq<Event>, e: Event)
    requires Ordered(t0, run + [e])
    ensures Ordered(t0, run) && t0 <= e.at && (run != [] ==> run[|run| - 1].at <= e.at)
  {
    var all := run + [e];
    assert all[..|run|] == run && all[|run|] == e;
    assert forall i | 0 <= i < |run| :: all[i] == run[i];
  }

  lemma LastEvent(c: Config, t0: nat, run: seq<Event>, e: Event)
    requires e.kind == Tick
    ensures Wrapped(c, t0, run + [e]) == ShouldCut(c, Wrapped(c, t0, run), e.at % WORD)
  {
    hide ShouldCut;
    assert (run + [e])[..|run|] == run;
  }

  lemma MarksBefore(c: Config, t0: nat, run: seq<Event>, e: Event)
    requires Ordered(t0, run) && t0 <= e.at && (run != [] ==> run[|run| - 1].at <= e.at)
    ensures var m := TrueMarks(c, t0, run); m.cmd <= e.at && m.speech <= e.at
  {
    hide Ordered;
    MarksTrack(c, t0, run);
  }

  /** The last command is answered: if no command follows it and ticks come at most `gap` apart, the
      session is cut no later than debounce + gap after it, whatever speech goes on. */
  lemma DebounceEnds(c: Config, t0: nat, run: seq<Event>, i: nat, gap: nat)
    requires Ordered(t0, run) && i < |run| && run[i].kind == Command
    requires forall j | i < j < |run| :: run[j].kind != Command
    requires c.debounce > 0 && c.debounce + gap < WORD && HasTick(run, run[i].at + c.debounce, gap)
    ensures Wrapped(c, t0, run).state == Cut
  {
    hide Wrapped, TrueMarks, Ordered, Heard;
    var due := run[i].at + c.debounce;
    var k :| 0 <= k < |run| && run[k].kind == Tick && due <= run[k].at <= due + gap;
    InTime(t0, run, i, k);
    var before := run[..k];
    assert run[..k + 1] == before + [run[k]];
    OrderedSlice(t0, run, k + 1);
    if Wrapped(c, t0, before).state == Cut {
      CutIsFinal(c, t0, before, [run[k]]);
    } else {
      LastCommand(c, t0, before, i);
      HeardAt(before, i);
      DueLimitCuts(c, t0, before, run[k]);
    }
    CutIsFinal(c, t0, run[..k + 1], run[k + 1..]);
    assert run[..k + 1] + run[k + 1..] == run;
  }

  lemma HeardAt(run: seq<Event>, i: nat)
    requires i < |run| && run[i].kind == Command
    ensures Heard(run)
  {}

  lemma InTime(t0: nat, run: seq<Event>, i: nat, k: nat)
    requires Ordered(t0, run) && i < |run| && k < |run| && run[i].at < run[k].at
    ensures i < k
  {}

  lemma OrderedSlice(t0: nat, run: seq<Event>, n: nat)
    requires Ordered(t0, run) && n <= |run|
    ensures Ordered(t0, run[..n])
  {}

  lemma UncutBefore(c: Config, t0: nat, run: seq<Event>)
    requires run != [] && Wrapped(c, t0, run).state != Cut
    ensures Wrapped(c, t0, run[..|run| - 1]).state != Cut
  {}

  lemma {:induction false} LastCommand(c: Config, t0: nat, run: seq<Event>, i: nat)
    requires i < |run| && run[i].kind == Command && forall j | i < j < |run| :: run[j].kind != Command
    requires Wrapped(c, t0, run).state != Cut
    ensures TrueMarks(c, t0, run).cmd == run[i].at
  {
    var init := run[..|run| - 1];
    UncutBefore(c, t0, run);
    if i < |init| {
      LastCommand(c, t0, init, i);
    }
  }

  /** The timer counts the commands noted before the cut. */
  lemma {:induction false} CommandsCounted(c: Config, t0: nat, run: seq<Event>)
    requires Wrapped(c, t0, run).state != Cut
    ensures Wrapped(c, t0, run).commands == NoteCount(run)
  {
    hide ShouldCut;
    if run != [] {
      var init, e := run[..|run| - 1], run[|run| - 1];
      UncutBefore(c, t0, run);
      CommandsCounted(c, t0, init);
      TickKeeps(c, Wrapped(c, t0, init), e.at % WORD);
    }
  }

  function NoteCount(run: seq<Event>): nat
  {
    if run == [] then 0 else NoteCount(run[..|run| - 1]) + if run[|run| - 1].kind == Command then 1 else 0
  }

  // ----- every session ends -----

  /** Ticks come at most `gap` apart: every stretch of the run longer than `gap` holds a tick. */
  ghost predicate TicksWithin(t0: nat, run: seq<Event>, gap: nat, end: nat)
  {
    forall from: nat | t0 <= from && from + gap <= end :: HasTick(run, from, gap)
  }

  ghost predicate HasTick(run: seq<Event>, from: nat, gap: nat)
  {
    exists i :: 0 <= i < |run| && run[i].kind == Tick && from <= run[i].at <= from + gap
  }

  /** If ticks come at most `gap` apart until start + maxSession + gap and that sum does not wrap,
      the session is cut by a tick no later than that. */
  lemma EverySessionEnds(c: Config, t0: nat, run: seq<Event>, gap: nat) returns (i: nat)
    requires c.Ok() && c.maxSession > 0 && c.maxSession + gap < WORD && Ordered(t0, run)
    requires TicksWithin(t0, run, gap, t0 + c.maxSession + gap)
    ensures i < |run| && run[i].at <= t0 + c.maxSession + gap
    ensures Wrapped(c, t0, run[..i + 1]).state == Cut && Wrapped(c, t0, run).state == Cut
  {
    hide Wrapped;
    var from := t0 + c.maxSession;
    assert HasTick(run, from, gap);
    i :| 0 <= i < |run| && run[i].kind == Tick && from <= run[i].at <= from + gap;
    TickCuts(c, t0, run[..i], run[i]);
    assert run[..i + 1] == run[..i] + [run[i]];
    CutIsFinal(c, t0, run[..i + 1], run[i + 1..]);
    assert run[..i + 1] + run[i + 1..] == run;
  }

  /** A tick at or after the session limit, and within one wrap, leaves the session cut. */
  lemma TickCuts(c: Config, t0: nat, init: seq<Event>, e: Event)
    requires Ordered(t0, init) && e.kind == Tick && c.maxSession > 0 && c.maxSession <= e.at - t0 < WORD
    ensures Wrapped(c, t0, init + [e]).state == Cut
  {
    assert (init + [e])[..|init|] == init;
    MarksTrack(c, t0, init);
    ElapsedBound(e.at, t0);
  }

  /** Ticks at 0, 1, ..., n - 1. */
  function EarlyTicks(n: nat): seq<Event>
  {
    seq(n, i requires 0 <= i < n => Event(i, Tick))
  }

  lemma {:induction false} EarlyTicksPass(max: nat, n: nat)
    requires n <= max < WORD
    ensures Wrapped(Config(0, max, 0), 0, EarlyTicks(n)) == Init(0)
  {
    if n > 0 {
      EarlyTicksPass(max, n - 1);
      assert EarlyTicks(n)[..n - 1] == EarlyTicks(n - 1);
    }
  }

  /** The bound on the sum is exact: as soon as maxSession + gap reaches 2^32 there is a session
      whose ticks are frequent enough and which is never cut by them, because a tick can land
      exactly one wrap after the start. */
  lemma SlowTicksMiss(max: nat, gap: nat) returns (run: seq<Event>)
    requires 0 < max < WORD && max + gap >= WORD
    ensures Ordered(0, run) && TicksWithin(0, run, gap, max + gap)
    ensures Wrapped(Config(0, max, 0), 0, run).state == Listening
  {
    run := EarlyTicks(max) + [Event(WORD, Tick)];
    EarlyTicksPass(max, max);
    assert run[..|run| - 1] == EarlyTicks(max);
    forall from: nat | from + gap <= max + gap
      ensures HasTick(run, from, gap)
    {
      assert run[from].kind == Tick && from <= run[from].at <= from + gap;
    }
  }

  // ----- only differences of times matter -----

  function Shift(run: seq<Event>, delta: nat): seq<Event>
  {
    seq(|run|, i requires 0 <= i < |run| => run[i].(at := run[i].at + delta))
  }

  lemma ElapsedShift(now: nat, since: nat, delta: nat)
    ensures Elapsed((now + delta) % WORD, (since + delta) % WORD) == Elapsed(now % WORD, since % WORD)
  {
    var a, b := (now + delta) % WORD - (since + delta) % WORD, now % WORD - since % WORD;
    var q := now / WORD - since / WORD - (now + delta) / WORD + (since + delta) / WORD;
    assert a - b == q * WORD;
    assert (b + q * WORD) % WORD == b % WORD;
  }

  predicate SameDecision(a: Timer, b: Timer)
  {
    a.state == b.state && a.reason == b.reason && a.commands == b.commands
  }

  predicate SameTimes(a: Timer, b: Timer)
  {
    a.start == b.start && a.lastCmd == b.lastCmd && a.lastSpeech == b.lastSpeech
  }

  lemma SameTick(c: Config, a: Timer, now: nat, b: Timer, now': nat)
    requires SameDecision(a, b) && Elapsed(now, a.start) == Elapsed(now', b.start)
    requires Elapsed(now, a.lastCmd) == Elapsed(now', b.lastCmd)
    requires Elapsed(now, a.lastSpeech) == Elapsed(now', b.lastSpeech)
    ensures SameDecision(ShouldCut(c, a, now), ShouldCut(c, b, now'))
    ensures SameTimes(a, ShouldCut(c, a, now)) && SameTimes(b, ShouldCut(c, b, now'))
  {
    hide Elapsed;
  }

  /** Moving all times by a constant changes no decision, wherever the clock wraps. */
  lemma {:induction false} ShiftInvariant(c: Config, t0: nat, run: seq<Event>, delta: nat)
    requires Ordered(t0, run)
    ensures var s, m := Wrapped(c, t0 + delta, Shift(run, delta)), TrueMarks(c, t0, run);
            && SameDecision(Wrapped(c, t0, run), s)
            && s.start == (t0 + delta) % WORD
            && s.lastCmd == (m.cmd + delta) % WORD && s.lastSpeech == (m.speech + delta) % WORD
  {
    hide Shift, ShouldCut, Elapsed, Ordered;
    ShiftSnoc(run, delta);
    if run != [] {
      var init, e := run[..|run| - 1], run[|run| - 1];
      OrderedPrefix(t0, run);
      ShiftInvariant(c, t0, init, delta);
      MarksTrack(c, t0, init);
      var m := TrueMarks(c, t0, init);
      ElapsedShift(e.at, t0, delta);
      ElapsedShift(e.at, m.cmd, delta);
      ElapsedShift(e.at, m.speech, delta);
      SameTick(c, Wrapped(c, t0, init), e.at % WORD,
               Wrapped(c, t0 + delta, Shift(init, delta)), (e.at + delta) % WORD);
    }
  }

  lemma ShiftSnoc(run: seq<Event>, delta: nat)
    ensures |Shift(run, delta)| == |run|
    ensures run != [] ==>
      && Shift(run, delta)[..|run| - 1] == Shift(run[..|run| - 1], delta)
      && Shift(run, delta)[|run| - 1] == run[|run| - 1].(at := run[|run| - 1].at + delta)
  {}

  lemma OrderedPrefix(t0: nat, run: seq<Event>)
    requires Ordered(t0, run) && run != []
    ensures Ordered(t0, run[..|run| - 1])
  {}
}
