/** Failure-compatible result types shared by every stage of the front end. */
module Wrappers {

  datatype Option<+T> = None | Some(value: T)

  /** The success-or-error value each Rust `Result` of the front end becomes;
      `:-` plays the role of Rust's `?` operator. */
  datatype Result<+T, +E> = Ok(value: T) | Err(error: E) {

    predicate IsFailure() {
      Err?
    }

    function PropagateFailure<U>(): Result<U, E>
      requires Err?
    {
      Err(error)
    }

    function Extract(): T
      requires Ok?
    {
      value
    }
  }
}
