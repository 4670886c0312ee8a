/** The optional value a Python call may return: a value, or `None`. */
module Wrappers {

  datatype Option<+T> = None | Some(value: T)
}
