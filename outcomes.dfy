/** Failure-carrying values used in place of the exceptions the emulator throws. */
module Outcomes {

  datatype Option<+T> = None | Some(value: T)

  /** `Err` stands for a thrown exception; `error` says which one. */
  datatype Result<+T, +E> = Ok(value: T) | Err(error: E)
}
