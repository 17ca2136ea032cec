/** The absent-or-present value the engine returns (`T | null` in the source). */
module Wrappers {
  datatype Option<+T> = None | Some(value: T)
}
