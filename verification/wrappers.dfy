/** The usual optional value: a timer slot that may be empty, a field that may still be None. */
module Wrappers {

  datatype Option<+T> = None | Some(value: T)
}
