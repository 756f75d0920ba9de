/** Optional values and computations that may fail, shared by the other modules. */
module Results {
  datatype Option<+T> = None | Some(value: T)

  /** Failure-compatible, so that generator methods can use `:-` where the source lets an exception pass. */
  datatype Result<+T, +E> = Ok(value: T) | Err(error: E) {
    predicate IsFailure() {
      Err?
    }

    function PropagateFailure<U>(): Result<U, E>
      requires Err?
    {
      Err(error)
    }

    function Extract(): T
      requires Ok?
    {
      value
    }
  }
}
