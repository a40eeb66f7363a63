/** A value that may be missing: a null pointer, or a read the program makes
    outside its array. */
module Wrappers {
  datatype Option<T> = None | Some(value: T)
}
