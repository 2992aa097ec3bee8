/** Failure-compatible wrappers: `Option` for JavaScript's `undefined`/`null`
    results and `Result` for constructors and services that throw. */
module Wrappers {

  datatype Option<+T> = None | Some(value: T)

  /** `Failure(msg)` stands for `throw new Error(msg)`. */
  datatype Result<+R> = Success(value: R) | Failure(error: string)
}
