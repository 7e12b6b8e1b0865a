/** An optional value: a missing array key, an unset log entry. */
module Wrappers {

  datatype Option<+T> = None | Some(value: T)
}
