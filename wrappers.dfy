/** The optional value that stands for JavaScript's `undefined` in the model. */
module Wrappers {

  datatype Option<+T> = None | Some(value: T)
}
