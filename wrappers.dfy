/** Shared helper datatypes. */
module Wrappers {
  datatype Option<A> = None | Some(value: A)
}
