/** Operator descriptors: what an operator does, how tightly it binds and how many operands it takes. */
module Operators {

  /** An `unsigned char`. */
  newtype byte = x: int | 0 <= x < 256

  datatype OperatorType = Subtraction | Addition | Multiplication | Division | Equals | Assign

  datatype Operator = Operator(kind: OperatorType, precedence: byte, arguments: byte)

  /** The largest `unsigned char`, the precedence of the unary operators. */
  const MAX_PRECEDENCE: byte := 255
}
