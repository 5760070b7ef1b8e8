/** Small helper datatypes shared by the other modules. */
module Wrappers {

  /** A value that may be absent, such as an optional regex group. */
  datatype Option<+T> = None | Some(value: T)
}
