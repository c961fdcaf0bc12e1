/** Optional values and failure results, the Dafny counterparts of Swift's `Optional` and of a
    `throws` function's two ways of returning. */
module Outcomes {

  /** Swift's `T?`. */
  datatype Option<+T> = None | Some(value: T)

  /** The value of a throwing Swift function: it returns a value or throws an error. */
  datatype Result<+T, +E> = Success(value: T) | Failure(error: E)

  /** The value of a throwing Swift function that returns `Void`. */
  datatype Status<+E> = Pass | Fail(error: E)
}
