/** Failure-carrying values shared by the storefront model: `Option` stands
    for JavaScript's `null`/`undefined`/`NaN` cases and `Result` for a call
    that can throw. */
module Wrappers {

  datatype Option<+T> = None | Some(value: T)

  datatype Result<+T, +E> = Success(value: T) | Failure(error: E)
}
