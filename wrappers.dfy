/** The optional value used for errors and tooltips throughout the model. */
module Wrappers {
  datatype Option<+T> = None | Some(value: T)
}
