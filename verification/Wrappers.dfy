/** The datatypes shared by the other modules. */
module Wrappers {
  datatype Option<+T> = None | Some(value: T)

  /** A call's result as the Go code returns it: a value, or a non-nil error. */
  datatype Result<+T> = Success(value: T) | Failure

  /** Fate of a command: done and acknowledged, done but the reply lost, or not done. */
  datatype Reply = Answered | Lost | Rejected
}
