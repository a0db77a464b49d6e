/** A value that may be missing: JavaScript's `null`, an absent result, or an
    operation that threw. */
module Wrappers {
  datatype Option<+T> = None | Some(value: T)
}
