/** What every part of the project uses. */
module Wrappers {
  datatype Option<+T> = None | Some(value: T)
}
