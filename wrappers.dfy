/** Results of a Python call that either returns or raises, shared by the plugin modules. */
module Wrappers {

  datatype Option<+T> = None | Some(value: T)

  /** A constructor call: the new object, or the exception it raised. */
  datatype Result<+R, +E> = Success(value: R) | Failure(error: E)

  /** A call run for its effect: it returns normally, or raises `error`. */
  datatype Outcome<+E> = Pass | Fail(error: E)
}
