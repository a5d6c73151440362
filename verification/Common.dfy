/** Optional values and the outcome of an operation that may raise. */
module Common {

  datatype Option<+T> = None | Some(value: T)

  /** `Err` stands for a raised exception. */
  datatype Result<+T> = Ok(value: T) | Err(message: string) {
    predicate IsFailure() {
      Err?
    }

    function PropagateFailure<U>(): Result<U>
      requires Err?
    {
      Err(message)
    }

    function Extract(): T
      requires Ok?
    {
      value
    }
  }
}
