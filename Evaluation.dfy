/** The second half of Interpreter::Solve: the postfix tokens are reduced on a
    stack of objects, with names resolved in, and assigned to, the global scope.
    Here the global scope is its table of bindings, `Env`; the interpreter class
    performs the same reduction on a `Scope` object. */
module Evaluation {
  import opened Wrappers
  import opened Tokens
  import opened Operators
  import opened Scopes
  import opened ShuntingYard
  import opened Numerals

  /** The bindings of the global scope, which has no parent. */
  type Env = map<string, Object>

  /** Which alternative of the `Object` variant a value holds. */
  datatype Tag = NumericTag | BooleanTag | StringTag | SymbolTag

  function TagOf(o: Object): Tag {
    match o
    case Numeric(_) => NumericTag
    case Boolean(_) => BooleanTag
    case String(_) => StringTag
    case Symbol(_) => SymbolTag
  }

  /** The value an argument stands for: a symbol bound in the scope stands for
      its binding, anything else for itself. Only one level is followed. */
  function Resolved(arg: Object, env: Env): Object {
    if arg.Symbol? && arg.name in env then env[arg.name] else arg
  }

  /** A symbol the scope does not bind. */
  predicate Unbound(arg: Object, env: Env) {
    arg.Symbol? && arg.name !in env
  }

  /** `unwrap_value`: the argument, or the binding of the symbol it is, when that
      holds the wanted alternative; `error` when it holds another one. */
  function Unwrap(arg: Object, tag: Tag, env: Env, error: string): (r: Result<Object>)
    ensures r.Success? <==> !Unbound(arg, env) && TagOf(Resolved(arg, env)) == tag
    ensures r.Success? ==> r.value == Resolved(arg, env)
    ensures r.Failure? && Unbound(arg, env) ==> r.error == EvalError("Unexpected symbol: " + arg.name)
    ensures r.Failure? && !Unbound(arg, env) ==> r.error == EvalError(error)
  {
    if arg.Symbol? then
      if arg.name in env then
        if TagOf(env[arg.name]) == tag then Success(env[arg.name]) else Failure(EvalError(error))
      else Failure(EvalError("Unexpected symbol: " + arg.name))
    else if TagOf(arg) == tag then Success(arg)
    else Failure(EvalError(error))
  }

  /** The error `unwrap_value` raises when it fails: an unbound name is reported
      by name, anything else with the caller's message. */
  function UnwrapError(arg: Object, env: Env, error: string): Error {
    if Unbound(arg, env) then EvalError("Unexpected symbol: " + arg.name) else EvalError(error)
  }

  /** An argument that is a number or a name bound to one. */
  predicate NumberHeld(arg: Object, env: Env) {
    !Unbound(arg, env) && Resolved(arg, env).Numeric?
  }

  const ArithmeticError := "You must have numeric values to perform arithmetic operations"

  /** The value of an arithmetic operator on two numbers; the source divides
      `long double`s, where a zero divisor gives an infinity or NaN, which the
      model does not represent. */
  function Arithmetic(kind: OperatorType, lhs: real, rhs: real): (r: Result<real>)
    requires kind != Equals && kind != Assign
    ensures r.Failure? <==> kind == Division && rhs == 0.0
    ensures kind == Addition ==> r == Success(lhs + rhs)
    ensures kind == Multiplication ==> r == Success(lhs * rhs)
    ensures r.Success? && kind == Subtraction ==> r.value + rhs == lhs
    ensures r.Success? && kind == Division ==> r.value * rhs == lhs
    ensures r.Failure? ==> r.error == HostError("Division by zero")
  {
    if kind == Subtraction then Success(lhs - rhs)
    else if kind == Addition then Success(lhs + rhs)
    else if kind == Multiplication then Success(lhs * rhs)
    else
      assert kind.Division?;
      if rhs == 0.0 then Failure(HostError("Division by zero")) else Success(lhs / rhs)
  }

  /** A unary operator (case 1 of the switch): negates, or keeps, a number,
      possibly held by a variable. */
  function ApplyUnary(kind: OperatorType, arg: Object, env: Env): (r: Result<Object>)
    ensures r.Success? <==> NumberHeld(arg, env)
    ensures r.Success? ==>
      var x := Resolved(arg, env).number;
      r.value == if kind == Subtraction then Numeric(-x) else if kind == Addition then Numeric(x) else Numeric(0.0)
    ensures r.Failure? ==> r.error == UnwrapError(arg, env, "Can't apply unary operator to the non-numeric value")
  {
    var n :- Unwrap(arg, NumericTag, env, "Can't apply unary operator to the non-numeric value");
    match kind
    case Subtraction => Success(Numeric(-n.number))
    case Addition => Success(Numeric(n.number))
    case _ => Success(Numeric(0.0))
  }

  /** A string on the left only concatenates, and only with a string, possibly
      held by a variable, on the right. */
  function Concatenate(kind: OperatorType, lhs: string, rhs: Object, env: Env): (r: Result<Object>)
    ensures r.Success? <==> kind == Addition && !Unbound(rhs, env) && Resolved(rhs, env).String?
    ensures r.Success? ==> r.value == String(lhs + Resolved(rhs, env).text)
    ensures r.Failure? ==>
      r.error == if kind != Addition then EvalError("Can perform only concatenation (+) with strings: " + lhs)
                 else UnwrapError(rhs, env, "Can only concatenate a string with another string: " + lhs)
  {
    if kind != Addition then Failure(EvalError("Can perform only concatenation (+) with strings: " + lhs))
    else
      var r :- Unwrap(rhs, StringTag, env, "Can only concatenate a string with another string: " + lhs);
      Success(String(lhs + r.text))
  }

  /** Equality compares two numbers or two Booleans given literally: variables
      are not looked up, so comparing two symbols always fails. */
  function Compare(lhs: Object, rhs: Object): (r: Result<Object>)
    requires !lhs.String?
    ensures r.Success? <==> TagOf(lhs) == TagOf(rhs) && (lhs.Numeric? || lhs.Boolean?)
    ensures r.Success? ==> r.value == Boolean(lhs == rhs)
    ensures r.Failure? ==>
      r.error == EvalError(if TagOf(lhs) != TagOf(rhs) then "Can't compare values of different types"
                           else "Can't compare 2 values")
  {
    if TagOf(lhs) != TagOf(rhs) then Failure(EvalError("Can't compare values of different types"))
    else if lhs.Numeric? then Success(Boolean(lhs.number == rhs.number))
    else if lhs.Boolean? then Success(Boolean(lhs.truth == rhs.truth))
    else Failure(EvalError("Can't compare 2 values"))
  }

  /** The arithmetic operators need two numbers, each possibly held by a
      variable, and a divisor other than zero; the left operand is checked
      before the right one. */
  function Calculate(kind: OperatorType, lhs: Object, rhs: Object, env: Env): (r: Result<Object>)
    requires kind != Equals && kind != Assign
    ensures r.Success? <==> NumberHeld(lhs, env) && NumberHeld(rhs, env) &&
                            !(kind == Division && Resolved(rhs, env).number == 0.0)
    ensures r.Success? ==>
      r.value == Numeric(Arithmetic(kind, Resolved(lhs, env).number, Resolved(rhs, env).number).value)
    ensures r.Failure? ==>
      r.error == if !NumberHeld(lhs, env) then UnwrapError(lhs, env, ArithmeticError)
                 else if !NumberHeld(rhs, env) then UnwrapError(rhs, env, ArithmeticError)
                 else HostError("Division by zero")
  {
    var l :- Unwrap(lhs, NumericTag, env, ArithmeticError);
    var r :- Unwrap(rhs, NumericTag, env, ArithmeticError);
    var v :- Arithmetic(kind, l.number, r.number);
    Success(Numeric(v))
  }

  /** One operator applied to its arguments, the right operand first
      (`args[0]` is the top of the stack). Yields the object pushed and the
      bindings afterwards: only an assignment, which binds a symbol on the left
      to the right operand as it is, changes them. */
  function Apply(op: Operators.Operator, args: seq<Object>, env: Env): (r: Result<(Object, Env)>)
    requires |args| == op.arguments as int
    ensures op.arguments == 1 ==> r == Lift(ApplyUnary(op.kind, args[0], env), env)
    ensures op.arguments == 2 && args[1].String? ==>
      r == Lift(Concatenate(op.kind, args[1].text, args[0], env), env)
    ensures op.arguments == 2 && !args[1].String? && op.kind == Equals ==>
      r == Lift(Compare(args[1], args[0]), env)
    ensures op.arguments == 2 && !args[1].String? && op.kind == Assign ==>
      (r.Success? <==> args[1].Symbol?)
    ensures op.arguments == 2 && !args[1].String? && op.kind == Assign && r.Success? ==>
      r.value == (args[0], env[args[1].name := args[0]])
    ensures op.arguments == 2 && !args[1].String? && op.kind == Assign && r.Failure? ==>
      r.error == EvalError("Can't create a variable with an invalid name")
    ensures op.arguments == 2 && !args[1].String? && op.kind != Equals && op.kind != Assign ==>
      r == Lift(Calculate(op.kind, args[1], args[0], env), env)
    // Only a binary assignment changes the bindings.
    ensures r.Success? && !(op.arguments == 2 && op.kind == Assign) ==> r.value.1 == env
  {
    if op.arguments == 1 then
      Lift(ApplyUnary(op.kind, args[0], env), env)
    else if op.arguments == 2 then
      var lhs, rhs := args[1], args[0];
      if lhs.String? then Lift(Concatenate(op.kind, lhs.text, rhs, env), env)
      else if op.kind == Equals then Lift(Compare(lhs, rhs), env)
      else if op.kind == Assign then
        if !lhs.Symbol? then Failure(EvalError("Can't create a variable with an invalid name"))
        else Success((rhs, env[lhs.name := rhs]))
      else Lift(Calculate(op.kind, lhs, rhs, env), env)
    else
      Success((Numeric(0.0), env))
  }

  /** An object computed without touching the bindings, paired with them. */
  function Lift(r: Result<Object>, env: Env): (p: Result<(Object, Env)>)
    ensures p.Success? <==> r.Success?
    ensures p.Success? ==> p.value == (r.value, env)
    ensures p.Failure? ==> p.error == r.error
  {
    if r.Success? then Success((r.value, env)) else Failure(r.error)
  }

  /** The objects an operator of arity `n` takes from the stack, top first. */
  function TakeArguments(stack: seq<Object>, n: nat): (args: seq<Object>)
    requires n <= |stack|
    ensures |args| == n
    ensures forall k :: 0 <= k < n ==> args[k] == stack[|stack| - 1 - k]
  {
    if n == 0 then [] else [stack[|stack| - 1]] + TakeArguments(stack[..|stack| - 1], n - 1)
  }

  /** The object a literal token stands for. */
  function Literal(t: Token): Result<Object>
    requires t.kind in {LiteralNumericBase10, LiteralNumericBase16, LiteralNumericBase2, LiteralBoolean, LiteralString, TokenKind.Symbol}
  {
    match t.kind
    case LiteralNumericBase10 => var v :- ParseDecimal(t.text); Success(Numeric(v))
    case LiteralNumericBase16 => var v :- ParseInteger(t.text, 16); Success(Numeric(v as real))
    case LiteralNumericBase2 => var v :- ParseInteger(t.text, 2); Success(Numeric(v as real))
    case LiteralBoolean => Success(Boolean(t.text == "true"))
    case LiteralString => Success(String(t.text))
    case Symbol => Success(Object.Symbol(t.text))
  }

  /** One token of the second loop of Interpreter::Solve. Keywords call the
      statement handlers, which do nothing; other kinds are skipped. */
  function ReduceStep(stack: seq<Object>, t: Token, env: Env): Result<(seq<Object>, Env)> {
    if t.kind in {LiteralNumericBase10, LiteralNumericBase16, LiteralNumericBase2, LiteralBoolean, LiteralString, TokenKind.Symbol} then
      var o :- Literal(t);
      Success((stack + [o], env))
    else if t.kind == TokenKind.Operator then
      var op := OperatorOf(t.text);
      if |stack| < op.arguments as int then Failure(EvalError("Not enough arguments for the operator: " + t.text))
      else
        var pushed :- Apply(op, TakeArguments(stack, op.arguments as int), env);
        Success((stack[..|stack| - op.arguments as int] + [pushed.0], pushed.1))
    else Success((stack, env))
  }

  /** The rest of the second loop from token `i`: the final stack, or the error,
      with the bindings as they are when the loop ends or stops. */
  function ReduceFrom(output: seq<Token>, i: nat, stack: seq<Object>, env: Env): (Result<seq<Object>>, Env)
    requires i <= |output|
    decreases |output| - i, 1
  {
    if i == |output| then (Success(stack), env)
    else ReduceAfter(output, i, ReduceStep(stack, output[i], env), env)
  }

  /** The loop after token `i` gave `step`: stop on an error, or go on from token `i + 1`. */
  function ReduceAfter(output: seq<Token>, i: nat, step: Result<(seq<Object>, Env)>, env: Env): (Result<seq<Object>>, Env)
    requires i < |output|
    decreases |output| - i, 0
  {
    if step.Failure? then (Failure(step.error), env)
    else ReduceFrom(output, i + 1, step.value.0, step.value.1)
  }

  /** Interpreter::Solve on a line of tokens: the top of the final stack, if any,
      and the bindings afterwards. */
  function Evaluate(tokens: seq<Token>, env: Env): (Result<Option<Object>>, Env) {
    var postfix := Reorder(tokens);
    if postfix.Failure? then (Failure(postfix.error), env)
    else
      var (r, env') := ReduceFrom(postfix.value, 0, [], env);
      if r.Failure? then (Failure(r.error), env')
      else (Success(if |r.value| == 0 then Option.None else Option.Some(r.value[|r.value| - 1])), env')
  }
}
