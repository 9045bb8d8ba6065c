/** Small helper datatype shared by the diagram modules. */
module Wrappers {

  /** A value that may be absent: a move that cannot be made yields None. */
  datatype Option<T> = None | Some(value: T)
}
