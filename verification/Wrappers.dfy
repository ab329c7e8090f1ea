/** Absence, as the rest of the model uses it. */
module Wrappers {

  datatype Option<+T> = None | Some(value: T)
}
