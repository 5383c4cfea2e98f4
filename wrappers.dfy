// Optional values and results shared by every module of the model.
// A Java reference that may be null is an Option; a call that may throw is a Result.

module Wrappers {
  datatype Option<T> = None | Some(value: T)

  datatype Result<T, E> = Ok(value: T) | Err(error: E)

  /** The Java idiom `x != null ? x : fallback`. */
  function OrElse<T>(o: Option<T>, fallback: T): T
  {
    match o
    case Some(v) => v
    case None => fallback
  }
}
