/** The optional value used for the nullable and optional fields of the packing interfaces. */
module Wrappers {
  datatype Option<+T> = None | Some(value: T)
}
