/** Option, Result and Outcome, the failure-carrying shapes the model uses
    for Rust's `Option<T>`, `anyhow::Result<T>` and `anyhow::Result<()>`. */
module Wrappers {

  datatype Option<+T> = None | Some(value: T)

  datatype Result<+T, +E> = Success(value: T) | Failure(error: E)

  datatype Outcome<+E> = Pass | Fail(error: E)
}
