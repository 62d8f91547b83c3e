/** The optional-value datatype shared by the modules of this model. */
module Wrappers {

  /** A value that may be absent: JavaScript's `null` for the fields and locals that hold one. */
  datatype Option<+T> = None | Some(value: T)
}
