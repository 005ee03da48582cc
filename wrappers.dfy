/** Optional values and pass/fail outcomes, standing for Ruby's nil and raised errors. */
module Wrappers {

  /** A value that may be absent; `None` plays the part of Ruby's `nil`. */
  datatype Option<+T> = None | Some(value: T) {

    /** The carried value, or `default` when there is none. */
    function GetOr(default: T): T {
      match this
      case Some(v) => v
      case None => default
    }
  }

  /** The result of an operation that either completes or raises with a message. */
  datatype Outcome<+E> = Pass | Fail(error: E)
}
