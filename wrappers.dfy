/** The optional value used for the source's `null`-able globals and lookups. */
module Wrappers {

  datatype Option<+T> = None | Some(value: T)
}
