/**
 * The two wrappers the model uses for absent values and for the errors the
 * JavaScript code throws (a thrown `Error` or `TypeError` becomes `Err` with
 * its message).
 */
module Results {

  datatype Option<+T> = None | Some(value: T)

  datatype Result<+T> = Ok(value: T) | Err(error: string) {

    predicate IsFailure() {
      Err?
    }

    function PropagateFailure<U>(): Result<U>
      requires Err?
    {
      Err(error)
    }

    function Extract(): T
      requires Ok?
    {
      value
    }
  }
}
