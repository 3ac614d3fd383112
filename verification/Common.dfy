/** Types shared by the modules of the project. */
module Common {

  datatype Option<+T> = None | Some(value: T)

  /** `SleConnectState` (interfaces/def/nearlink_def_types.h). */
  datatype ConnState = Connecting | Connected | Disconnecting | Disconnected | Invalid
}
