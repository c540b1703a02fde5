/** The optional value used where the source has a nil pointer, an unset
    variable or a nil error. */
module Wrappers {

  datatype Option<+T> = None | Some(value: T)
}
