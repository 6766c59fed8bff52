/** Small helper types shared by the other modules. */
module Wrappers {

  /** The outcome of an operation that may yield nothing: a failed lock, an empty channel. */
  datatype Option<+T> = None | Some(value: T)
}
