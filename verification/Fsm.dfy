/** firmware/core/src/fsm.c: the application reducer. */
module Fsm {
  import opened FsmTypes

  const WORD: nat := 0x1_0000_0000

  /** A 32-bit counter. */
  function Inc(x: nat): nat { (x + 1) % WORD }

  datatype Data = Data(state: State, lastCause: Cause, confirms: nat, rejects: nat, sessions: nat, errors: nat)

  const INIT := Data(Boot, CauseUnknown, 0, 0, 0, 0)

  datatype Step = Step(data: Data, act: Action)

  function OnWake(f: Data, cause: Cause): Step
  {
    var g := f.(lastCause := cause);
    match cause
    case SoundTrigger => Step(g.(state := ConfirmKws), StartKws)
    case PowerOn => Step(g.(state := ConfirmKws), StartKws)
    case Button => Step(g.(state := Connect), StartConnect)
    case _ => Step(g.(state := Sleep), EnterSleep)
  }

  /** The reducer as a function; an event the state does not handle changes nothing. */
  function Next(f: Data, ev: Event, cause: Cause): Step
  {
    if ev == EvError then Step(f.(errors := Inc(f.errors), state := Error), EnterSleep)
    else match f.state
      case Boot => if ev == Woke then OnWake(f, cause) else Step(f, ActNone)
      case Sleep => if ev == Woke then OnWake(f, cause) else Step(f, ActNone)
      case Error => if ev == Woke then OnWake(f, cause) else Step(f, ActNone)
      case ConfirmKws =>
        if ev == KwsConfirmed then Step(f.(confirms := Inc(f.confirms), state := Connect), StartConnect)
        else if ev == KwsRejected then Step(f.(rejects := Inc(f.rejects), state := Sleep), EnterSleep)
        else Step(f, ActNone)
      case Connect =>
        if ev == Connected then Step(f.(state := Stream), StartStream)
        else if ev == ConnectFailed then Step(f.(errors := Inc(f.errors), state := Error), EnterSleep)
        else Step(f, ActNone)
      case Stream =>
        if ev == ServerClosed || ev == SessionTimeout
        then Step(f.(sessions := Inc(f.sessions), state := Sleep), EnterSleep)
        else Step(f, ActNone)
  }

  class Machine {
    var state: State
    var lastCause: Cause
    var confirms: nat
    var rejects: nat
    var sessions: nat
    var errors: nat

    ghost function Abs(): Data
      reads this
    {
      Data(state, lastCause, confirms, rejects, sessions, errors)
    }

    constructor ()
      ensures Abs() == INIT
      ensures state == Boot && lastCause == CauseUnknown && confirms == rejects == sessions == errors == 0
    {
      state, lastCause := Boot, CauseUnknown;
      confirms, rejects, sessions, errors := 0, 0, 0, 0;
    }

    method Wake(cause: Cause) returns (act: Action)
      modifies this
      ensures Step(Abs(), act) == OnWake(old(Abs()), cause)
    {
      lastCause := cause;
      if cause == SoundTrigger || cause == PowerOn {
        state := ConfirmKws;
        return StartKws;
      }
      if cause == Button {
        state := Connect;
        return StartConnect;
      }
      state := Sleep;
      return EnterSleep;
    }

    /** `fsm_dispatch`. */
    method Dispatch(ev: Event, cause: Cause) returns (act: Action)
      modifies this
      ensures Step(Abs(), act) == Next(old(Abs()), ev, cause)
    {
      if ev == EvError {
        errors := Inc(errors);
        state := Error;
        return EnterSleep;
      }
      if state == Boot || state == Sleep || state == Error {
        if ev == Woke {
          act := Wake(cause);
          return;
        }
      } else if state == ConfirmKws {
        if ev == KwsConfirmed {
          confirms := Inc(confirms);
          state := Connect;
          return StartConnect;
        }
        if ev == KwsRejected {
          rejects := Inc(rejects);
          state := Sleep;
          return EnterSleep;
        }
      } else if state == Connect {
        if ev == Connected {
          state := Stream;
          return StartStream;
        }
        if ev == ConnectFailed {
          errors := Inc(errors);
          state := Error;
          return EnterSleep;
        }
      } else {
        if ev == ServerClosed || ev == SessionTimeout {
          sessions := Inc(sessions);
          state := Sleep;
          return EnterSleep;
        }
      }
      return ActNone;
    }
  }
}
