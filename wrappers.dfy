/** The optional value used where the application gets back either a result or nothing. */
module Wrappers {

  datatype Option<+T> = None | Some(value: T)
}
