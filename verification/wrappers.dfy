/** Option and Result types for values the service may lack and steps that may fail. */
module Wrappers {

  /** A value that may be absent (a missing calendar property, a search with no hit). */
  datatype Option<+T> = None | Some(value: T) {

    /** The carried value, or `default` when absent. */
    function GetOr(default: T): T
    {
      match this
      case Some(v) => v
      case None => default
    }
  }

  /** The outcome of a step that can raise: a value, or the reason it failed. */
  datatype Result<+R, +E> = Success(value: R) | Failure(error: E)
}
