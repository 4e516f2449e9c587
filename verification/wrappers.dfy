/** The optional value used across the model: a C pointer that may be NULL,
    a slot search that may find nothing, a parse that may fail. */
module Wrappers {

  datatype Option<+T> = None | Some(value: T)
}
