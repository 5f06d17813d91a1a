/** The optional-value datatype used for sensor readings and lookups. */
module Wrappers {

  datatype Option<+T> = None | Some(value: T)
}
