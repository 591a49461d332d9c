/** The optional value used wherever the tracker may or may not have something to return. */
module Wrappers {

  datatype Option<+T> = None | Some(value: T)
}
