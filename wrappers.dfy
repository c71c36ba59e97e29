/** Small failure-carrying datatypes shared by the model. */
module Wrappers {

  /** Python's `Optional[T]`: `None` or a present value. */
  datatype Option<+T> = None | Some(value: T)

  /** A Python exception that an operation raises to its caller, with its class and message. */
  datatype Exception = ValueError(message: string)

  /** The outcome of an operation that returns nothing or raises. */
  datatype Outcome = Done | Raised(error: Exception)
}
