/** Python exceptions of the modelled code become error values; a dynamically typed
    right operand becomes a small sum type. Every other module imports this one. */
module Outcomes {

  /** The exceptions the modelled operations raise. */
  datatype Error = TypeError | ValueError | ZeroDivisionError | AttributeError

  /** The result of an operation that may raise. */
  datatype Result<+T> = Ok(value: T) | Err(error: Error) {
    predicate IsFailure() { Err? }

    function PropagateFailure<U>(): Result<U>
      requires Err?
    {
      Err(error)
    }

    function Extract(): T
      requires Ok?
    {
      value
    }
  }

  /** A Python value that may be None. */
  datatype Option<+T> = None | Some(value: T)

  /** The right operand of a Python operator: an instance of the class the operator
      expects, a number (`int` or `float`), or a value of any other type. */
  datatype Operand<+T> = Obj(obj: T) | Num(x: real) | Other
}
