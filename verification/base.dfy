/** Failure-compatible wrappers used throughout the model. The C program aborts the whole
    process on its first error; the model returns an `Err` instead and every caller passes
    it on unchanged, so an `Err` reaching the top stands for "the process exited with status 1". */
module Base {

  datatype Option<+T> = None | Some(value: T)

  datatype Result<+T, +E> = Ok(value: T) | Err(error: E) {
    predicate IsFailure() { Err? }

    function PropagateFailure<U>(): Result<U, E>
      requires Err?
    {
      Err(error)
    }

    function Extract(): T
      requires Ok?
    {
      value
    }
  }
}
