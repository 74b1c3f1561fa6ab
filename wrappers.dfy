/** Optional values, outcomes and results shared by the model. */
module Wrappers {

  /** A value that may be absent: JavaScript's `undefined`/`null` on one side, a value on the other. */
  datatype Option<+T> = None | Some(value: T)

  /** Success, or a failure carrying an error value (a thrown error or a fatal abort). */
  datatype Outcome<+E> = Pass | Fail(error: E)

  /** Either a result or the error that prevented it. */
  datatype Result<+R, +E> = Success(value: R) | Failure(error: E)
}
