/** The outcome of a parse that may fail, as an optional value. */
module Wrappers {

  datatype Option<+T> = None | Some(value: T)
}
