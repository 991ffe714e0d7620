/** Small value wrappers shared by the game models. */
module Wrappers {
  /** An optional value: JavaScript's `undefined`/`null` results and Python's absent values. */
  datatype Option<+T> = None | Some(value: T)
}
