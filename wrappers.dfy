/** Result types shared by the sitemap modules. */
module Wrappers {

  datatype Option<+T> = None | Some(value: T)

  datatype Result<+R, +E> = Success(value: R) | Failure(error: E)

  /** The outcome of an operation that raises or returns normally. */
  datatype Outcome<+E> = Pass | Fail(error: E)
}
