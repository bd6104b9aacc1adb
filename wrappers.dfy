/** A value that may be absent: a child index of a leaf, a vacant root slot. */
module Wrappers {

  datatype Option<+T> = None | Some(value: T)
}
