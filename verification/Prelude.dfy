/** Types shared by the whole project. */
module Prelude {

  /** An optional value: the source's `None` or a value. */
  datatype Option<+T> = None | Some(value: T)
}
