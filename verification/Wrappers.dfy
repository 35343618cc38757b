/** The one result type every part of the model shares. */
module Wrappers {
  datatype Option<T> = None | Some(value: T)
}
