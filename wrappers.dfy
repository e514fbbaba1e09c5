/** The `T?` results of the source's queue polls (`poll()` returns null on an empty queue). */
module Wrappers {
  datatype Option<+T> = None | Some(value: T)
}
