/** The absent-or-present wrapper used for the source's nullable references. */
module Wrappers {

  /** None stands for C#'s null. */
  datatype Option<+T> = None | Some(value: T)
}
