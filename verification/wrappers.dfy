/** Rust's `Option<T>`, and the `anyhow::Result<T>` the updater returns.
    `Result` supports Dafny's `:-`, which plays the part of Rust's `?`: an
    `Err` is handed back to the caller unchanged. */
module Wrappers {

  datatype Option<+T> = None | Some(value: T)

  /** `Ok` carries the value; `Err` carries the reason the block must be abandoned. */
  datatype Result<+T, +E> = Ok(value: T) | Err(error: E) {

    predicate IsFailure() {
      Err?
    }

    function PropagateFailure<U>(): Result<U, E>
      requires Err?
    {
      Err(error)
    }

    function Extract(): T
      requires Ok?
    {
      value
    }
  }
}
