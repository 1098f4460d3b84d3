/** Failure-free optional values, used wherever the source has a pointer that may be null or a load that may fail. */
module Wrappers {
  datatype Option<+T> = None | Some(value: T)
}
