/** Failure-carrying values shared by every module of the model.
    Python raises exceptions; the model returns them as values. */
module Wrappers {

  /** The exceptions the modelled code can raise. */
  datatype Error =
    | ZeroDivision     // `n / 0` or `n / rows` with rows = 0
    | AttributeError   // reading an attribute no `__init__` has set
    | TypeError        // a call with the wrong number of arguments
    | ValueError       // `int()` of a non-number, an empty random range, mismatched array lengths
    | AssertionFailed  // a failing `assert` statement
    | EmptyImage       // cv2.resize of an image with a zero dimension

  datatype Option<+T> = None | Some(value: T)

  datatype Result<+T> = Success(value: T) | Failure(error: Error)

  /** The outcome of an operation that only changes state. */
  datatype Outcome = Pass | Fail(error: Error)
}
