/** An optional value: a cache that may be empty, an action that may produce nothing. */
module Wrappers {

  datatype Option<+T> = None | Some(value: T)
}
