/** The optional value used wherever a stored column may be null. */
module Wrappers {
  datatype Option<+T> = None | Some(value: T)
}
