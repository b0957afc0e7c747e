/** The enumerations of firmware/core/include/core/fsm.h and power.h. */
module FsmTypes {
  datatype State = Boot | ConfirmKws | Connect | Stream | Sleep | Error
  datatype Event = EvNone | Woke | KwsConfirmed | KwsRejected | Connected | ConnectFailed
                 | ServerClosed | SessionTimeout | EvError
  datatype Action = ActNone | StartKws | StartConnect | StartStream | EnterSleep
  datatype Cause = CauseUnknown | PowerOn | SoundTrigger | Button | Timer
  datatype Mode = StayAwake | Dryrun | Real
}
