/** Option and Result, the two failure-carrying shapes the model uses in place
    of JavaScript's `undefined`/`null` and of thrown database errors. */
module Wrappers {

  /** A value that may be absent: `undefined` or `null` in the source. */
  datatype Option<+T> = None | Some(value: T) {

    /** The wrapped value, or `default` when absent. */
    function GetOr(default: T): T {
      match this
      case Some(v) => v
      case None => default
    }
  }

  /** The outcome of a database statement: the new state, or the error the
      store raised. */
  datatype Result<+R, +E> = Ok(value: R) | Err(error: E)
}
