/** An optional value: an attribute or element that may be absent from a page. */
module Wrappers {
  datatype Option<T> = None | Some(value: T)
}
