/** The optional value the application returns where Python returns None. */
module Wrappers {

  datatype Option<+T> = None | Some(value: T)
}
