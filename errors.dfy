/** The Python exceptions that the evaluation pipeline raises, catches or lets through,
    and the failure-compatible result type that carries them. */
module Errors {

  /** The exceptions that can leave deepchem/utils/evaluate.py. */
  datatype PyError =
    | ValueError(message: string)
    | KeyError(key: string)
    | IndexError
    | TypeError(message: string)
    | NameError(name: string)

  /** Either the value a Python expression evaluates to, or the exception it raises. */
  datatype Result<+T> = Ok(value: T) | Err(error: PyError) {

    predicate IsFailure() {
      Err?
    }

    function PropagateFailure<U>(): Result<U>
      requires Err?
    {
      Err(error)
    }

    function Extract(): T
      requires Ok?
    {
      value
    }
  }

  datatype Option<+T> = None | Some(value: T)

  /** True when a library call raised ValueError, the one exception the evaluator catches. */
  predicate RaisesValueError<T>(r: Result<T>) {
    r.Err? && r.error.ValueError?
  }
}
