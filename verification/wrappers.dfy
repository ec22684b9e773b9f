/** The optional value used for lookups that may find nothing
    (the `npos` result of the string searches). */
module Wrappers {

  datatype Option<+T> = None | Some(value: T)

}
