/** The absent-or-present value that stands for the service's `null` results. */
module Wrappers {

  datatype Option<+T> = None | Some(value: T)
}
