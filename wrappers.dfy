/** The optional-value datatype used where the source passes an optional argument. */
module Wrappers {

  datatype Option<+T> = None | Some(value: T)
}
