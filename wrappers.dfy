/** The optional value used for nullable record fields, absent request fields and query results. */
module Wrappers {

  datatype Option<+T> = None | Some(value: T)
}
