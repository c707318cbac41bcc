/** An optional value: a file that may be missing, a number that may not parse. */
module Wrappers {

  datatype Option<+T> = None | Some(value: T)
}
