/** The optional value used across the model (std::optional, a missing row, a missing node). */
module Wrappers {
  datatype Option<+T> = None | Some(value: T)
}
