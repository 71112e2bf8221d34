/** The optional value that stands for Kotlin's nullable types. */
module Wrappers {

  datatype Option<T> = None | Some(value: T) {

    /** The `?:` operator. */
    function GetOr(default: T): T {
      if Some? then value else default
    }
  }
}
