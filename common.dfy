/** The optional value returned by the lookups of every component. */
module Opt {
  datatype Option<T> = None | Some(value: T)
}
