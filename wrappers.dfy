/** The optional value used for error paths throughout the model. */
module Wrappers {

  datatype Option<T> = None | Some(value: T)
}
