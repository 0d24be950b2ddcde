/** The optional-value type used wherever the source returns an `Option`. */
module Wrappers {

  datatype Option<+T> = None | Some(value: T)
}
