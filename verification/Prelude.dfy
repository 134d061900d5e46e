/** Datatypes shared by every model of the project. */
module Prelude {

  /** A value that may be absent. */
  datatype Option<+T> = None | Some(value: T)
}
