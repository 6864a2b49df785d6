/** Option and Result values used across the model in place of Rust's
    `Option<T>` and `Result<T, E>`. Errors are carried as text, the way
    the program formats them with `anyhow!`/`format!`. */
module Wrappers {

  datatype Option<+T> = None | Some(value: T)

  datatype Result<+T> = Ok(value: T) | Err(error: string)

  /** The outcome of an operation that returns `Result<()>`. */
  datatype Outcome = Pass | Fail(error: string)
}
