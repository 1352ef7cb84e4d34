/** The success-or-error outcome shared by every fallible operation of the calculator. */
module Results {

  /** Either a value or the error that prevented computing it. */
  datatype Result<+T, +E> = Ok(value: T) | Err(error: E) {

    /** `:-` stops at an `Err` and hands it on. */
    predicate IsFailure() {
      Err?
    }

    /** The same error, as the outcome of the enclosing function, like Rust's `?`. */
    function PropagateFailure<U>(): Result<U, E>
      requires Err?
    {
      Err(error)
    }

    /** What `:-` binds when the outcome is `Ok`. */
    function Extract(): T
      requires Ok?
    {
      value
    }
  }
}
