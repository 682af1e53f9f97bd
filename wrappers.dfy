/** A value that may be absent: stands for a dictionary key that may be missing. */
module Wrappers {

  datatype Option<+T> = None | Some(value: T)
}
