/** Option and Result, the model's replacement for Python's None and for exceptions. */
module Wrappers {

  /** A value that may be absent (Python's `None`). */
  datatype Option<+T> = None | Some(value: T) {

    /** Python's `x if x is not None else fallback`, as `generate_response` writes it. */
    function Otherwise(fallback: T): T {
      if Some? then value else fallback
    }
  }

  /** The outcome of a step that can fail with a reason of type E. */
  datatype Result<+R, +E> = Success(value: R) | Failure(error: E)
}
