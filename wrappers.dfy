/** Small failure-carrying datatypes shared by the modules of the model. */
module Wrappers {

  /** A value that may be missing: Python's `None` or a present value. */
  datatype Option<+T> = None | Some(value: T)

  /** The verdict of an operation that returns nothing on success. */
  datatype Outcome<+E> = Pass | Fail(error: E)
}
