// Optional values, used where the C++ code returns std::optional, a bool plus an
// out-parameter, or throws an exception that the caller catches.
module Wrappers {
  datatype Option<+T> = None | Some(value: T)
}
