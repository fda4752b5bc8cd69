/** The optional value that the source writes as `T | null` or `T | undefined`. */
module Wrappers {

  datatype Option<T> = None | Some(value: T)
}
