/** The optional value used throughout the model for Rust's `Option`. */
module Wrappers {
  datatype Option<T> = None | Some(value: T) {
    function UnwrapOr(default: T): T {
      if Some? then value else default
    }

    /** `Option::or`: the first of the two that holds a value. */
    function Or(other: Option<T>): Option<T> {
      if Some? then this else other
    }
  }
}
