/** The optional value used for "nothing printed" and "nothing to sort". */
module Wrappers {

  datatype Option<+T> = None | Some(value: T)
}
