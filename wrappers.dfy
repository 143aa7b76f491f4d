/** The optional value used for a record's document handle. */
module Wrappers {

  datatype Option<+T> = None | Some(value: T)
}
