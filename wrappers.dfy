/** Ruby's `nil`-or-value results, as an Option. */
module Wrappers {

  datatype Option<+T> = None | Some(value: T)

}
