/** The Option type used wherever the server works with a value that may be
    absent: JavaScript's `null` / `undefined` in the original. */
module Wrappers {

  datatype Option<+T> = None | Some(value: T)
}
