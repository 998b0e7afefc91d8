/** Failure-carrying values shared by the modules of the model. */
module Wrappers {

  /** A value that may be absent (Python's None, or a numpy NaN where noted). */
  datatype Option<T> = None | Some(value: T)

  /** The Python exceptions the modelled code can raise. */
  datatype Error =
    | IndexError        // a numpy index outside [-n, n)
    | ZeroDivisionError // a Python int or float divided by zero
    | ValueError        // numpy shape mismatch or a negative pad width

  /** The outcome of a computation that may raise one of the errors above. */
  datatype Result<T> = Ok(value: T) | Err(error: Error)
}
