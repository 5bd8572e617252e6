/** A value that may be missing. */
module Basics {

  datatype Option<+T> = None | Some(value: T)
}
