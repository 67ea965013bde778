/** The conventional optional value, used where the Python code has `None`. */
module Wrappers {

  datatype Option<+T> = None | Some(value: T)
}
