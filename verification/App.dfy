/** firmware/core/src/app.c with firmware/core/src/power.c: wake cycles driven by arbitrary hooks. */
module App {
  import opened FsmTypes
  import opened Fsm

  /** A hook is absent or answers its n-th call with any event; so is the wake-cause source. */
  datatype Hook = NoHook | Hook(result: nat -> Event)
  datatype Source = NoSource | Source(cause: nat -> Cause)
  datatype Env = Env(mode: Mode, source: Source, kws: Hook, connect: Hook, stream: Hook)

  /** Everything that changes: the reducer, the power counters, the cycle counter, and how often
      each part of the environment has been consulted. */
  datatype Sys = Sys(fsm: Data, cycles: nat, sleeps: nat, falseWakes: nat,
                     wakes: nat, kwsCalls: nat, connectCalls: nat, streamCalls: nat)

  const FRESH := Sys(INIT, 0, 0, 0, 0, 0, 0, 0)

  function Ask(h: Hook, n: nat, fallback: Event): Event
  {
    if h.Hook? then h.result(n) else fallback
  }

  function KwsEvent(e: Env, s: Sys): Event { Ask(e.kws, s.kwsCalls, KwsRejected) }
  function ConnectEvent(e: Env, s: Sys): Event { Ask(e.connect, s.connectCalls, ConnectFailed) }
  function StreamEvent(e: Env, s: Sys): Event { Ask(e.stream, s.streamCalls, SessionTimeout) }
  function CauseOf(e: Env, s: Sys): Cause { if e.source.Source? then e.source.cause(s.wakes) else PowerOn }

  // ----- one cycle as four stages -----

  datatype Stage = Stage(sys: Sys, act: Action)

  function WakeStage(e: Env, s: Sys): Stage
  {
    var step := Next(s.fsm, Woke, CauseOf(e, s));
    Stage(s.(fsm := step.data, wakes := s.wakes + if e.source.Source? then 1 else 0), step.act)
  }

  function KwsStage(e: Env, g: Stage): Stage
  {
    if g.act != StartKws then g
    else
      var ev := KwsEvent(e, g.sys);
      var step := Next(g.sys.fsm, ev, CauseUnknown);
      Stage(g.sys.(fsm := step.data, kwsCalls := g.sys.kwsCalls + (if e.kws.Hook? then 1 else 0),
                   falseWakes := if ev == KwsRejected then Inc(g.sys.falseWakes) else g.sys.falseWakes), step.act)
  }

  function ConnectStage(e: Env, g: Stage): Stage
  {
    if g.act != StartConnect then g
    else
      var step := Next(g.sys.fsm, ConnectEvent(e, g.sys), CauseUnknown);
      Stage(g.sys.(fsm := step.data, connectCalls := g.sys.connectCalls + if e.connect.Hook? then 1 else 0), step.act)
  }

  function StreamStage(e: Env, g: Stage): Stage
  {
    if g.act != StartStream then g
    else
      var step := Next(g.sys.fsm, StreamEvent(e, g.sys), CauseUnknown);
      Stage(g.sys.(fsm := step.data, streamCalls := g.sys.streamCalls + if e.stream.Hook? then 1 else 0), step.act)
  }

  function AfterStages(e: Env, s: Sys): Stage
  {
    StreamStage(e, ConnectStage(e, KwsStage(e, WakeStage(e, s))))
  }

  /** `power_enter_deep_sleep` and the cycle counter. */
  function EndCycle(e: Env, s: Sys): Sys
  {
    s.(cycles := Inc(s.cycles), sleeps := if e.mode == StayAwake then s.sleeps else Inc(s.sleeps))
  }

  function OneCycle(e: Env, s: Sys): Sys
  {
    EndCycle(e, AfterStages(e, s).sys)
  }

  /** How many more hooks an action can lead to. */
  function Rank(act: Action): nat
  {
    match act
    case StartKws => 3
    case StartConnect => 2
    case StartStream => 1
    case _ => 0
  }

  class Runner {
    const env: Env
    const fsm: Machine
    var cycles: nat
    var sleeps: nat
    var falseWakes: nat
    // how far the environment's answers have been consumed
    var wakes: nat
    var kwsCalls: nat
    var connectCalls: nat
    var streamCalls: nat

    ghost function Abs(): Sys
      reads this, fsm
    {
      Sys(fsm.Abs(), cycles, sleeps, falseWakes, wakes, kwsCalls, connectCalls, streamCalls)
    }

    constructor (e: Env)
      ensures env == e && fresh(fsm) && Abs() == FRESH
    {
      env := e;
      cycles, sleeps, falseWakes := 0, 0, 0;
      wakes, kwsCalls, connectCalls, streamCalls := 0, 0, 0, 0;
      fsm := new Machine();
    }

    method WakeCause() returns (c: Cause)
      modifies this`wakes
      ensures c == CauseOf(env, old(Abs()))
      ensures wakes == old(wakes) + if env.source.Source? then 1 else 0
    {
      if env.source.NoSource? {
        return PowerOn;
      }
      c := env.source.cause(wakes);
      wakes := wakes + 1;
    }

    method EnterDeepSleep()
      modifies this`sleeps
      ensures sleeps == if env.mode == StayAwake then old(sleeps) else Inc(old(sleeps))
    {
      if env.mode == StayAwake {
        return;
      }
      sleeps := Inc(sleeps);
    }

    /** One turn of the cycle loop: the hook the action asks for, and the dispatch of its answer. */
    method TakeTurn(act: Action) returns (act': Action)
      requires Rank(act) > 0
      modifies this, fsm
      ensures Stage(Abs(), act') == Turn(env, Stage(old(Abs()), act))
    {
      hide Next;
      var ev;
      if act == StartKws {
        ev := Ask(env.kws, kwsCalls, KwsRejected);
        kwsCalls := kwsCalls + if env.kws.Hook? then 1 else 0;
        if ev == KwsRejected {
          falseWakes := Inc(falseWakes);
        }
      } else if act == StartConnect {
        ev := Ask(env.connect, connectCalls, ConnectFailed);
        connectCalls := connectCalls + if env.connect.Hook? then 1 else 0;
      } else {
        ev := Ask(env.stream, streamCalls, SessionTimeout);
        streamCalls := streamCalls + if env.stream.Hook? then 1 else 0;
      }
      act' := fsm.Dispatch(ev, CauseUnknown);
    }

    /** `app_run_cycle`: for any answers of the hooks the loop ends, because each turn moves on to a
        later hook or to the end, and the cycle is exactly the four stages in order. */
    method RunCycle() returns (cause: Cause)
      modifies this, fsm
      ensures Abs() == OneCycle(env, old(Abs())) && cause == CauseOf(env, old(Abs()))
    {
      hide Next, Turn, Reaches, AfterStages, Inc;
      ghost var s0 := Abs();
      cause := WakeCause();
      var act := fsm.Dispatch(Woke, cause);
      Ranks(env, s0);
      while Rank(act) > 0
        invariant Reaches(env, Stage(Abs(), act), AfterStages(env, s0))
        decreases Rank(act)
      {
        TurnAdvances(env, Stage(Abs(), act), AfterStages(env, s0));
        act := TakeTurn(act);
      }
      Finished(env, Stage(Abs(), act), AfterStages(env, s0));
      cycles := Inc(cycles);
      EnterDeepSleep();
    }

    /** `app_run`: up to `max` cycles, but a single one when the device really sleeps. */
    method Run(max: nat)
      modifies this, fsm
      ensures Abs() == Cycles(env, old(Abs()), if env.mode == Real && max > 0 then 1 else max)
    {
      ghost var s0 := Abs();
      for i := 0 to max
        invariant Abs() == Cycles(env, s0, i) && (i > 0 ==> env.mode != Real)
      {
        var cause := RunCycle();
        if env.mode == Real {
          break;
        }
      }
    }
  }

  /** What remains of a cycle from a stage on. */
  function Finish(e: Env, g: Stage): Stage
  {
    StreamStage(e, ConnectStage(e, KwsStage(e, g)))
  }

  ghost predicate Reaches(e: Env, g: Stage, end: Stage)
  {
    && Finish(e, g) == end
    && (g.act == StartKws ==> g.sys.fsm.state == ConfirmKws)
    && (g.act == StartConnect ==> g.sys.fsm.state == Connect)
    && (g.act == StartStream ==> g.sys.fsm.state == Stream)
  }

  lemma Ranks(e: Env, s: Sys)
    ensures Reaches(e, WakeStage(e, s), AfterStages(e, s))
  {}

  function Turn(e: Env, g: Stage): Stage
  {
    if g.act == StartKws then KwsStage(e, g)
    else if g.act == StartConnect then ConnectStage(e, g)
    else StreamStage(e, g)
  }

  /** A dispatched hook result leads to a strictly later action, and what remains is unchanged. */
  lemma TurnAdvances(e: Env, g: Stage, end: Stage)
    requires Reaches(e, g, end) && Rank(g.act) > 0
    ensures Rank(Turn(e, g).act) < Rank(g.act) && Reaches(e, Turn(e, g), end)
  {}

  lemma Finished(e: Env, g: Stage, end: Stage)
    requires Reaches(e, g, end) && Rank(g.act) == 0
    ensures g == end
  {}

  // ----- runs -----

  function Cycles(e: Env, s: Sys, n: nat): Sys
  {
    if n == 0 then s else OneCycle(e, Cycles(e, s, n - 1))
  }

  /** The states in which the reducer accepts a wake-up. */
  predicate AtRest(s: Sys)
  {
    s.fsm.state == Boot || s.fsm.state == Sleep || s.fsm.state == Error
  }

  /** The answers each hook is allowed to give. */
  predicate KwsLegal(ev: Event) { ev == KwsConfirmed || ev == KwsRejected || ev == EvError }
  predicate ConnectLegal(ev: Event) { ev == Connected || ev == ConnectFailed || ev == EvError }
  predicate StreamLegal(ev: Event) { ev == ServerClosed || ev == SessionTimeout || ev == EvError }

  /** Every hook consulted in this cycle answers within its contract. */
  predicate LegalCycle(e: Env, s: Sys)
  {
    var g1 := WakeStage(e, s);
    var g2 := KwsStage(e, g1);
    var g3 := ConnectStage(e, g2);
    && (g1.act == StartKws ==> KwsLegal(KwsEvent(e, g1.sys)))
    && (g2.act == StartConnect ==> ConnectLegal(ConnectEvent(e, g2.sys)))
    && (g3.act == StartStream ==> StreamLegal(StreamEvent(e, g3.sys)))
  }

  /** A cycle from rest ends asleep or in the error state exactly when every hook it consulted kept
      its contract; otherwise it ends inside the protocol. */
  lemma RestsIffLegal(e: Env, s: Sys)
    requires AtRest(s)
    ensures LegalCycle(e, s) <==> OneCycle(e, s).fsm.state in {Sleep, Error}
    ensures !LegalCycle(e, s) ==> OneCycle(e, s).fsm.state in {ConfirmKws, Connect, Stream}
  {}

  /** Off the resting states every later wake-up is ignored: the reducer never moves again and no
      hook is ever called, while cycles keep being counted. */
  lemma {:induction false} StuckForever(e: Env, s: Sys, n: nat)
    requires !AtRest(s)
    ensures var t := Cycles(e, s, n);
            && t.fsm == s.fsm && t.falseWakes == s.falseWakes
            && t.kwsCalls == s.kwsCalls && t.connectCalls == s.connectCalls && t.streamCalls == s.streamCalls
  {
    if n > 0 {
      StuckForever(e, s, n - 1);
    }
  }

  /** A hook that answers with the empty event leaves the very first cycle, and with it the device,
      in the middle of the protocol for good. */
  lemma BadHookSticks(n: nat)
    ensures var e := Env(Dryrun, NoSource, Hook(_ => EvNone), NoHook, NoHook);
            n >= 1 ==> Cycles(e, FRESH, n).fsm.state == ConfirmKws && !AtRest(Cycles(e, FRESH, n))
  {
    hide Cycles, OneCycle;
    var e := Env(Dryrun, NoSource, Hook(_ => EvNone), NoHook, NoHook);
    if n >= 1 {
      FirstCycle(e, n - 1);
      UnansweredCycle(e);
      StuckForever(e, OneCycle(e, FRESH), n - 1);
    }
  }

  lemma UnansweredCycle(e: Env)
    requires e.source.NoSource? && e.kws.Hook? && e.kws.result(0) == EvNone
    ensures OneCycle(e, FRESH).fsm.state == ConfirmKws
  {
    var g := WakeStage(e, FRESH);
    assert g.act == StartKws && g.sys.fsm.state == ConfirmKws;
    assert KwsStage(e, g).act == ActNone && KwsStage(e, g).sys.fsm == g.sys.fsm;
  }

  lemma {:induction false} FirstCycle(e: Env, n: nat)
    ensures Cycles(e, FRESH, n + 1) == Cycles(e, OneCycle(e, FRESH), n)
  {
    hide OneCycle;
    if n > 0 {
      FirstCycle(e, n - 1);
    }
  }

  /** The false-wake counter of the power controller is the reducer's reject counter, whatever the
      hooks answer. */
  lemma {:induction false} FalseWakesAreRejects(e: Env, n: nat)
    ensures Cycles(e, FRESH, n).falseWakes == Cycles(e, FRESH, n).fsm.rejects
  {
    if n > 0 {
      FalseWakesAreRejects(e, n - 1);
      FalseWakeStep(e, Cycles(e, FRESH, n - 1));
    }
  }

  lemma FalseWakeStep(e: Env, s: Sys)
    requires s.falseWakes == s.fsm.rejects
    ensures OneCycle(e, s).falseWakes == OneCycle(e, s).fsm.rejects
  {
    var g1 := WakeStage(e, s);
    Ranks(e, s);
    var g2 := KwsStage(e, g1);
    assert g2.sys.falseWakes == g2.sys.fsm.rejects;
    assert ConnectStage(e, g2).sys.fsm.rejects == g2.sys.fsm.rejects;
  }

  /** Sleeps are counted once per cycle unless the device stays awake. */
  lemma {:induction false} SleepsAreCycles(e: Env, n: nat)
    ensures var t := Cycles(e, FRESH, n);
            t.sleeps == (if e.mode == StayAwake then 0 else t.cycles) && t.cycles == n % WORD
  {
    hide AfterStages, Inc;
    if n > 0 {
      SleepsAreCycles(e, n - 1);
      KeepsCounters(e, Cycles(e, FRESH, n - 1));
      CountUp(n - 1);
    }
  }

  lemma CountUp(n: nat)
    ensures Inc(n % WORD) == (n + 1) % WORD
  {}

  lemma KeepsCounters(e: Env, s: Sys)
    ensures AfterStages(e, s).sys.cycles == s.cycles && AfterStages(e, s).sys.sleeps == s.sleeps
  {
    hide Next;
  }

  /** A cycle that goes straight back to sleep: a timer or unknown wake-up. */
  predicate Immediate(e: Env, s: Sys)
  {
    CauseOf(e, s) == Timer || CauseOf(e, s) == CauseUnknown
  }

  function Immediates(e: Env, n: nat): nat
  {
    if n == 0 then 0 else Immediates(e, n - 1) + if Immediate(e, Cycles(e, FRESH, n - 1)) then 1 else 0
  }

  /** A legal cycle has exactly one outcome: an immediate sleep, a rejection, a completed session
      or an error. */
  lemma OneOutcome(e: Env, s: Sys)
    requires AtRest(s) && LegalCycle(e, s)
    ensures var f, g := s.fsm, OneCycle(e, s).fsm;
            || (Immediate(e, s) && g.rejects == f.rejects && g.sessions == f.sessions && g.errors == f.errors)
            || (!Immediate(e, s) && g.rejects == Inc(f.rejects) && g.sessions == f.sessions && g.errors == f.errors)
            || (!Immediate(e, s) && g.rejects == f.rejects && g.sessions == Inc(f.sessions) && g.errors == f.errors)
            || (!Immediate(e, s) && g.rejects == f.rejects && g.sessions == f.sessions && g.errors == Inc(f.errors))
  {}

  /** What a cycle consults. A sound or a power-on asks for the wake word, a button does not; the
      connection is tried after a button or a confirmation, the stream after a connection. */
  predicate AsksKws(e: Env, s: Sys)
  {
    CauseOf(e, s) == SoundTrigger || CauseOf(e, s) == PowerOn
  }

  predicate AsksConnect(e: Env, s: Sys)
  {
    CauseOf(e, s) == Button || (AsksKws(e, s) && KwsEvent(e, s) == KwsConfirmed)
  }

  predicate AsksStream(e: Env, s: Sys)
  {
    AsksConnect(e, s) && ConnectEvent(e, s) == Connected
  }

  /** A cycle ends in an error for a failed connection and for a hard error of any consulted hook. */
  predicate Fails(e: Env, s: Sys)
  {
    || (AsksKws(e, s) && KwsEvent(e, s) == EvError)
    || (AsksConnect(e, s) && ConnectEvent(e, s) in {ConnectFailed, EvError})
    || (AsksStream(e, s) && StreamEvent(e, s) == EvError)
  }

  predicate Streams(e: Env, s: Sys)
  {
    AsksStream(e, s) && StreamEvent(e, s) in {ServerClosed, SessionTimeout}
  }

  function Plus(x: nat, b: bool): nat { if b then Inc(x) else x }

  /** One cycle from rest, for arbitrary hooks: which hooks are called, which counter each answer
      moves, and where the cycle ends. */
  lemma CycleTable(e: Env, s: Sys)
    requires AtRest(s)
    ensures var t := OneCycle(e, s);
            && t.kwsCalls == s.kwsCalls + (if AsksKws(e, s) && e.kws.Hook? then 1 else 0)
            && t.connectCalls == s.connectCalls + (if AsksConnect(e, s) && e.connect.Hook? then 1 else 0)
            && t.streamCalls == s.streamCalls + (if AsksStream(e, s) && e.stream.Hook? then 1 else 0)
            && t.fsm.lastCause == CauseOf(e, s)
            && t.fsm.confirms == Plus(s.fsm.confirms, AsksKws(e, s) && KwsEvent(e, s) == KwsConfirmed)
            && t.fsm.rejects == Plus(s.fsm.rejects, AsksKws(e, s) && KwsEvent(e, s) == KwsRejected)
            && t.fsm.sessions == Plus(s.fsm.sessions, Streams(e, s))
            && t.fsm.errors == Plus(s.fsm.errors, Fails(e, s))
            && (t.fsm.state == Error <==> Fails(e, s))
            && (t.fsm.state == Sleep <==>
                  Streams(e, s) || Immediate(e, s) || (AsksKws(e, s) && KwsEvent(e, s) == KwsRejected))
  {
    hide Inc;
    var g1 := WakeStage(e, s);
    var g2 := KwsStage(e, g1);
    var g3 := ConnectStage(e, g2);
    WakeTable(e, s);
    KwsTable(e, s, g1);
    ConnectTable(e, s, g2);
    StreamTable(e, s, g3);
  }

  lemma WakeTable(e: Env, s: Sys)
    requires AtRest(s)
    ensures var g := WakeStage(e, s);
            && g.sys == s.(fsm := s.fsm.(lastCause := CauseOf(e, s), state := g.sys.fsm.state), wakes := g.sys.wakes)
            && (AsksKws(e, s) ==> g.act == StartKws && g.sys.fsm.state == ConfirmKws)
            && (CauseOf(e, s) == Button ==> g.act == StartConnect && g.sys.fsm.state == Connect)
            && (Immediate(e, s) ==> g.act == EnterSleep && g.sys.fsm.state == Sleep)
  {}

  lemma KwsTable(e: Env, s: Sys, g: Stage)
    requires g.sys.kwsCalls == s.kwsCalls && (g.act == StartKws ==> g.sys.fsm.state == ConfirmKws)
    ensures var g', ev := KwsStage(e, g), KwsEvent(e, s);
            if g.act != StartKws then g' == g
            else
              && g'.sys.kwsCalls == s.kwsCalls + (if e.kws.Hook? then 1 else 0)
              && g'.sys == g.sys.(kwsCalls := g'.sys.kwsCalls, falseWakes := g'.sys.falseWakes,
                                  fsm := g.sys.fsm.(state := g'.sys.fsm.state,
                                    confirms := Plus(g.sys.fsm.confirms, ev == KwsConfirmed),
                                    rejects := Plus(g.sys.fsm.rejects, ev == KwsRejected),
                                    errors := Plus(g.sys.fsm.errors, ev == EvError)))
              && g'.act == (if ev == KwsConfirmed then StartConnect
                            else if ev in {KwsRejected, EvError} then EnterSleep else ActNone)
              && g'.sys.fsm.state == (if ev == KwsConfirmed then Connect else if ev == KwsRejected then Sleep
                                      else if ev == EvError then Error else ConfirmKws)
  {
    hide Inc;
  }

  lemma ConnectTable(e: Env, s: Sys, g: Stage)
    requires g.sys.connectCalls == s.connectCalls && (g.act == StartConnect ==> g.sys.fsm.state == Connect)
    ensures var g', ev := ConnectStage(e, g), ConnectEvent(e, s);
            if g.act != StartConnect then g' == g
            else
              && g'.sys.connectCalls == s.connectCalls + (if e.connect.Hook? then 1 else 0)
              && g'.sys == g.sys.(connectCalls := g'.sys.connectCalls,
                                  fsm := g.sys.fsm.(state := g'.sys.fsm.state,
                                    errors := Plus(g.sys.fsm.errors, ev in {ConnectFailed, EvError})))
              && g'.act == (if ev == Connected then StartStream
                            else if ev in {ConnectFailed, EvError} then EnterSleep else ActNone)
              && g'.sys.fsm.state == (if ev == Connected then Stream
                                      else if ev in {ConnectFailed, EvError} then Error else Connect)
  {
    hide Inc;
  }

  lemma StreamTable(e: Env, s: Sys, g: Stage)
    requires g.sys.streamCalls == s.streamCalls && (g.act == StartStream ==> g.sys.fsm.state == Stream)
    ensures var g', ev := StreamStage(e, g), StreamEvent(e, s);
            if g.act != StartStream then g' == g
            else
              && g'.sys.streamCalls == s.streamCalls + (if e.stream.Hook? then 1 else 0)
              && g'.sys == g.sys.(streamCalls := g'.sys.streamCalls,
                                  fsm := g.sys.fsm.(state := g'.sys.fsm.state,
                                    sessions := Plus(g.sys.fsm.sessions, ev in {ServerClosed, SessionTimeout}),
                                    errors := Plus(g.sys.fsm.errors, ev == EvError)))
              && g'.sys.fsm.state == (if ev in {ServerClosed, SessionTimeout} then Sleep
                                      else if ev == EvError then Error else Stream)
  {
    hide Inc;
  }

  /** A runner without hooks and without a wake source sees a power-on that is not confirmed. */
  lemma BareRunner(mode: Mode, s: Sys)
    requires AtRest(s)
    ensures var t := OneCycle(Env(mode, NoSource, NoHook, NoHook, NoHook), s);
            t.fsm.rejects == Inc(s.fsm.rejects) && t.fsm.state == Sleep && t.falseWakes == Inc(s.falseWakes)
  {
    hide Inc;
    var e := Env(mode, NoSource, NoHook, NoHook, NoHook);
    CycleTable(e, s);
    WakeTable(e, s);
  }

  /** Hooks that always keep their contracts. */
  ghost predicate Legal(e: Env)
  {
    && (e.kws.Hook? ==> forall n :: KwsLegal(e.kws.result(n)))
    && (e.connect.Hook? ==> forall n :: ConnectLegal(e.connect.result(n)))
    && (e.stream.Hook? ==> forall n :: StreamLegal(e.stream.result(n)))
  }

  lemma LegalEveryCycle(e: Env, s: Sys)
    requires Legal(e)
    ensures LegalCycle(e, s)
  {
    hide Next;
  }

  /** With legal hooks every cycle of every run ends at rest, and the cycles are accounted for:
      rejections, sessions, errors and immediate sleeps add up to them (modulo the counter width). */
  lemma {:induction false} Accounting(e: Env, n: nat)
    requires Legal(e)
    ensures var t := Cycles(e, FRESH, n);
            && AtRest(t) && (n > 0 ==> t.fsm.state != Boot)
            && t.cycles == (t.fsm.rejects + t.fsm.sessions + t.fsm.errors + Immediates(e, n)) % WORD
            && t.fsm.rejects < WORD && t.fsm.sessions < WORD && t.fsm.errors < WORD
  {
    hide OneCycle, LegalCycle, Immediate, Legal, Inc;
    if n > 0 {
      Accounting(e, n - 1);
      var s := Cycles(e, FRESH, n - 1);
      LegalEveryCycle(e, s);
      RestsIffLegal(e, s);
      CycleCounted(e, s);
      CountedOnce(e, s, Immediates(e, n - 1));
    }
  }

  /** One legal cycle moves exactly one of the four counts. */
  lemma CountedOnce(e: Env, s: Sys, immediates: nat)
    requires AtRest(s) && LegalCycle(e, s)
    requires s.fsm.rejects < WORD && s.fsm.sessions < WORD && s.fsm.errors < WORD
    requires s.cycles == (s.fsm.rejects + s.fsm.sessions + s.fsm.errors + immediates) % WORD
    ensures var g := OneCycle(e, s).fsm;
            && g.rejects < WORD && g.sessions < WORD && g.errors < WORD
            && Inc(s.cycles) == (g.rejects + g.sessions + g.errors
                                 + (immediates + if Immediate(e, s) then 1 else 0)) % WORD
  {
    hide OneCycle, LegalCycle, Immediate, Inc;
    var f, g := s.fsm, OneCycle(e, s).fsm;
    OneOutcome(e, s);
    IncStep(f.rejects);
    IncStep(f.sessions);
    IncStep(f.errors);
    AddOne(s.cycles, f.rejects + f.sessions + f.errors + immediates,
           g.rejects + g.sessions + g.errors + (immediates + if Immediate(e, s) then 1 else 0));
  }

  lemma IncStep(x: nat)
    requires x < WORD
    ensures Inc(x) == if x + 1 == WORD then 0 else x + 1
  {}

  lemma CycleCounted(e: Env, s: Sys)
    ensures OneCycle(e, s).cycles == Inc(s.cycles)
  {
    hide AfterStages;
    KeepsCounters(e, s);
  }

  /** Counting one more, when one of the summands is itself a wrapping counter. */
  lemma AddOne(c: nat, sum: nat, sum': nat)
    requires c == sum % WORD && (sum' == sum + 1 || sum' == sum + 1 - WORD)
    ensures Inc(c) == sum' % WORD
  {}
}
