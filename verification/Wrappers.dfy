/** Small datatypes shared by the other modules. */
module Wrappers {
  datatype Option<+T> = None | Some(value: T)

  /** What one remote command did and what its caller saw: a command can take effect although the
      caller is told that it failed (a timeout, a lost reply). */
  datatype Outcome = Done | DoneUnseen | NotDone
  {
    predicate Applied() { !NotDone? }
    predicate Reported() { Done? }
  }
}
