/** Result-like datatypes shared by every module. */
module Common {
  datatype Option<+T> = None | Some(value: T)

  /** How a call that may panic ended. */
  datatype Outcome = Ok | Panicked
}
