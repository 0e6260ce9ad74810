/** The optional value the application writes as `null` or an object. */
module Wrappers {

  datatype Option<+T> = None | Some(value: T)
}
