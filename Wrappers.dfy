/** An option type, used where the model returns "found" or "not found". */
module Wrappers {
  datatype Option<T> = None | Some(value: T)
}
