/** An optional value: a request that was or was not sent. */
module Wrappers {

  datatype Option<+T> = None | Some(value: T)
}
