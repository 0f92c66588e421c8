/** Option, error kinds and a failure-compatible Result shared by the lexer and the evaluator. */
module Wrappers {

  datatype Option<+T> = None | Some(value: T)

  /** The two error kinds the core raises, plus the failures of the C++ host
      (library exceptions, non-finite floating point) that the model does not follow. */
  datatype Error =
    | LexError(message: string)   // a ParserException ("[Parse Error] ...")
    | EvalError(message: string)  // an InterpreterException ("[Interpret Error] ...")
    | HostError(message: string)  // std::stold/std::stoll exceptions, division by zero

  datatype Result<+T> = Success(value: T) | Failure(error: Error) {
    predicate IsFailure() {
      Failure?
    }

    function PropagateFailure<U>(): Result<U>
      requires Failure?
    {
      Failure(error)
    }

    function Extract(): T
      requires Success?
    {
      value
    }
  }
}
