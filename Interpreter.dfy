/** The interpreter object: the global scope, and Interpreter::Solve, which runs
    the shunting-yard loop and then the postfix reduction on a line of tokens.
    Both loops are proved against the specification functions Reorder and
    ReduceFrom, so Solve computes exactly Evaluate. */
module Interpreters {
  import opened Wrappers
  import opened Tokens
  import Operators
  import opened Scopes
  import opened ShuntingYard
  import opened Evaluation

  /** Popping one operator from the back of the holding stack does not change
      where the popping loop ends. */
  lemma PopOperatorsNext(holding: seq<Token>, output: seq<Token>, prec: int)
    requires |holding| > 0 && Poppable(holding[|holding| - 1], prec)
    ensures PopOperators(holding, output, prec) == PopOperators(holding[..|holding| - 1], output + [holding[|holding| - 1]], prec)
  {
    var init, last := holding[..|holding| - 1], holding[|holding| - 1];
    var k := PopPoint(init, prec);
    assert PopPoint(holding, prec) == k;
    assert holding[..k] == init[..k];
    assert Reversed(holding[k..]) == [last] + Reversed(init[k..]) by {
      assert holding[k..] == init[k..] + [last];
      ReversedSnoc(init[k..], last);
    }
    assert output + Reversed(holding[k..]) == (output + [last]) + Reversed(init[k..]);
  }

  /** The popping loop stops when the back cannot be popped. */
  lemma PopOperatorsDone(holding: seq<Token>, output: seq<Token>, prec: int)
    requires |holding| == 0 || !Poppable(holding[|holding| - 1], prec)
    ensures PopOperators(holding, output, prec) == (holding, output)
  {
    assert holding[..|holding|] == holding;
    assert output + Reversed([]) == output;
  }

  /** Moving one token that is not an open parenthesis does not change where the
      loop of a closing parenthesis ends. */
  lemma PopToOpenNext(holding: seq<Token>, output: seq<Token>)
    requires |holding| > 0 && holding[|holding| - 1].kind != ParenthesisOpen
    ensures PopToOpen(holding, output) == PopToOpen(holding[..|holding| - 1], output + [holding[|holding| - 1]])
  {
    var init, last := holding[..|holding| - 1], holding[|holding| - 1];
    assert OpenIndex(holding) == OpenIndex(init);
    var open := OpenIndex(holding);
    if open.Some? {
      var j := open.value;
      assert holding[..j] == init[..j];
      assert holding[j + 1..] == init[j + 1..] + [last];
      ReversedSnoc(init[j + 1..], last);
      assert output + Reversed(holding[j + 1..]) == (output + [last]) + Reversed(init[j + 1..]);
    }
  }

  /** At an open parenthesis, the loop of a closing parenthesis only drops it. */
  lemma PopToOpenAtOpen(holding: seq<Token>, output: seq<Token>)
    requires |holding| > 0 && holding[|holding| - 1].kind == ParenthesisOpen
    ensures PopToOpen(holding, output) == Success((holding[..|holding| - 1], output))
  {
    assert holding[|holding|..] == [];
    assert output + Reversed([]) == output;
  }

  /** The global scope has no parent, so a lookup reads its own table. */
  lemma GlobalLookup(chain: Chain, name: string)
    requires |chain| == 1
    ensures Lookup(chain, name) == (if name in chain[0] then Some(chain[0][name]) else Option.None)
  {
    assert chain[1..] == [];
  }

  /** Interpreter: the global scope is its only state. */
  class Interpreter {
    /** m_GlobalScope. */
    const globals: Scope

    ghost predicate Valid() {
      globals.Valid() && globals.parent == null
    }

    /** Interpreter::Interpreter: an empty global scope. */
    constructor ()
      ensures Valid() && fresh(globals) && globals.values == map[]
    {
      globals := new Scope(null);
    }

    /** The `unwrap_value` lambda: the argument, or the binding the global scope
        holds for the symbol it is, when that has the wanted alternative. */
    method UnwrapValue(arg: Object, tag: Tag, error: string) returns (r: Result<Object>)
      requires Valid()
      ensures r == Unwrap(arg, tag, globals.values, error)
    {
      if arg.Symbol? {
        var variable := globals.Get(arg.name);
        GlobalLookup(globals.Chain(), arg.name);
        if variable.Some? {
          if TagOf(variable.value) != tag {
            return Failure(EvalError(error));
          }
          return Success(variable.value);
        }
        return Failure(EvalError("Unexpected symbol: " + arg.name));
      }
      if TagOf(arg) != tag {
        return Failure(EvalError(error));
      }
      return Success(arg);
    }

    /** The switch on the operator's arity and type; only an assignment writes
        to the global scope. */
    method Operate(op: Operators.Operator, args: seq<Object>) returns (r: Result<Object>)
      requires Valid() && |args| == op.arguments as int
      modifies globals
      ensures Valid()
      ensures Apply(op, args, old(globals.values)).Failure? ==>
        r == Failure(Apply(op, args, old(globals.values)).error) && globals.values == old(globals.values)
      ensures Apply(op, args, old(globals.values)).Success? ==>
        r == Success(Apply(op, args, old(globals.values)).value.0) && globals.values == Apply(op, args, old(globals.values)).value.1
    {
      if op.arguments == 1 {
        var number :- UnwrapValue(args[0], NumericTag, "Can't apply unary operator to the non-numeric value");
        if op.kind == Operators.Subtraction {
          r := Success(Numeric(-number.number));
        } else if op.kind == Operators.Addition {
          r := Success(Numeric(number.number));
        } else {
          r := Success(Numeric(0.0));
        }
      } else if op.arguments == 2 {
        if args[1].String? {
          var lhs := args[1].text;
          if op.kind != Operators.Addition {
            return Failure(EvalError("Can perform only concatenation (+) with strings: " + lhs));
          }
          var rhs :- UnwrapValue(args[0], StringTag, "Can only concatenate a string with another string: " + lhs);
          r := Success(String(lhs + rhs.text));
        } else if op.kind == Operators.Equals {
          if TagOf(args[1]) != TagOf(args[0]) {
            return Failure(EvalError("Can't compare values of different types"));
          }
          if args[1].Numeric? {
            r := Success(Boolean(args[1].number == args[0].number));
          } else if args[1].Boolean? {
            r := Success(Boolean(args[1].truth == args[0].truth));
          } else {
            return Failure(EvalError("Can't compare 2 values"));
          }
        } else if op.kind == Operators.Assign {
          if !args[1].Symbol? {
            return Failure(EvalError("Can't create a variable with an invalid name"));
          }
          globals.Assign(args[1].name, args[0]);
          r := Success(args[0]);
        } else {
          var lhs :- UnwrapValue(args[1], NumericTag, ArithmeticError);
          var rhs :- UnwrapValue(args[0], NumericTag, ArithmeticError);
          var v :- Arithmetic(op.kind, lhs.number, rhs.number);
          r := Success(Numeric(v));
        }
      } else {
        r := Success(Numeric(0.0));
      }
    }

    /** Interpreter::ParseIf, ParseWhile and ParseFor: the statement handlers,
        which leave the stack as it is. */
    method ParseIf(solving: seq<Object>) returns (solving': seq<Object>)
      ensures solving' == solving
    {
      solving' := solving;
    }

    method ParseWhile(solving: seq<Object>) returns (solving': seq<Object>)
      ensures solving' == solving
    {
      solving' := solving;
    }

    method ParseFor(solving: seq<Object>) returns (solving': seq<Object>)
      ensures solving' == solving
    {
      solving' := solving;
    }

    /** Interpreter::Solve: the top of the final stack, if any, with the
        bindings of the global scope updated by the assignments on the line. */
    method Solve(tokens: seq<Token>) returns (r: Result<Option<Object>>)
      requires Valid()
      modifies globals
      ensures Valid()
      ensures (r, globals.values) == Evaluate(tokens, old(globals.values))
    {
      var postfix := ToPostfix(tokens);
      if postfix.Failure? {
        return Failure(postfix.error);
      }
      var output := postfix.value;
      var solving: seq<Object> := [];
      var i := 0;
      while i < |output|
        invariant Valid() && i <= |output|
        invariant ReduceFrom(output, i, solving, globals.values) == ReduceFrom(output, 0, [], old(globals.values))
      {
        var token := output[i];
        ghost var env := globals.values;
        ghost var step := ReduceStep(solving, token, env);
        if token.kind in {LiteralNumericBase10, LiteralNumericBase16, LiteralNumericBase2, LiteralBoolean, LiteralString, TokenKind.Symbol} {
          var value := Literal(token);
          if value.Failure? {
            return Failure(value.error);
          }
          solving := solving + [value.value];
        } else if token.kind == TokenKind.Operator {
          var op := OperatorOf(token.text);
          if |solving| < op.arguments as int {
            return Failure(EvalError("Not enough arguments for the operator: " + token.text));
          }
          var arguments := TakeFromBack(solving, op.arguments as int);
          solving := solving[..|solving| - op.arguments as int];
          var value := Operate(op, arguments);
          if value.Failure? {
            return Failure(value.error);
          }
          solving := solving + [value.value];
        } else if token.kind == Keyword {
          // Every keyword maps to a value-initialised record, whose type picks
          // the handler; Keyword.hpp is not part of this model, so the first
          // handler stands for all three, which leave the stack alone.
          solving := ParseIf(solving);
        }
        assert step == Success((solving, globals.values));
        i := i + 1;
      }
      if |solving| > 0 {
        return Success(Option.Some(solving[|solving| - 1]));
      }
      return Success(Option.None);
    }
  }

  /** The loop saving an operator's arguments: the `n` objects at the back of
      the stack, the back first. */
  method TakeFromBack(solving: seq<Object>, n: nat) returns (arguments: seq<Object>)
    requires n <= |solving|
    ensures arguments == TakeArguments(solving, n)
  {
    arguments := [];
    var rest := solving;
    while |arguments| < n
      invariant |arguments| <= n && rest == solving[..|solving| - |arguments|]
      invariant forall k :: 0 <= k < |arguments| ==> arguments[k] == solving[|solving| - 1 - k]
    {
      arguments := arguments + [rest[|rest| - 1]];
      rest := rest[..|rest| - 1];
    }
  }

  /** The first loop of Interpreter::Solve and the draining of the holding
      stack at its end: the postfix order of the tokens, or the failure of a
      closing parenthesis without an opening one. */
  method ToPostfix(tokens: seq<Token>) returns (r: Result<seq<Token>>)
    ensures r == Reorder(tokens)
  {
    var holding: seq<Token> := [];
    var output: seq<Token> := [];
    var prev := Blank;
    var i := 0;
    while i < |tokens|
      invariant i <= |tokens|
      invariant ShuntFrom(tokens, i, Shunt(holding, output, prev)) == ShuntFrom(tokens, 0, Initial)
    {
      var token := tokens[i];
      ghost var s := Shunt(holding, output, prev);
      if IsOperand(token.kind) {
        output := output + [token];
      } else if token.kind == Operator {
        var prec := Precedence(token.text);
        if (token.text == "+" || token.text == "-") && !EndsOperand(prev.kind) {
          token := token.(text := "u" + token.text);
        }
        while |holding| > 0 && holding[|holding| - 1].kind != ParenthesisOpen && prec <= Precedence(holding[|holding| - 1].text)
          invariant PopOperators(holding, output, prec) == PopOperators(s.holding, s.output, prec)
        {
          PopOperatorsNext(holding, output, prec);
          output := output + [holding[|holding| - 1]];
          holding := holding[..|holding| - 1];
        }
        PopOperatorsDone(holding, output, prec);
        holding := holding + [token];
      } else if token.kind == ParenthesisOpen {
        holding := holding + [token];
      } else if token.kind == ParenthesisClose {
        while |holding| > 0 && holding[|holding| - 1].kind != ParenthesisOpen
          invariant PopToOpen(holding, output) == PopToOpen(s.holding, s.output)
        {
          PopToOpenNext(holding, output);
          output := output + [holding[|holding| - 1]];
          holding := holding[..|holding| - 1];
        }
        if |holding| == 0 {
          return Failure(HostError("No open parenthesis on the holding stack"));
        }
        PopToOpenAtOpen(holding, output);
        holding := holding[..|holding| - 1];
      }
      assert ShuntStep(s, tokens[i]) == Success(Shunt(holding, output, token));
      prev := token;
      i := i + 1;
    }
    assert ShuntFrom(tokens, 0, Initial) == Success(Shunt(holding, output, prev));
    while |holding| > 0
      invariant Reorder(tokens) == Success(output + Reversed(holding))
    {
      assert output + Reversed(holding) == (output + [holding[|holding| - 1]]) + Reversed(holding[..|holding| - 1]);
      output := output + [holding[|holding| - 1]];
      holding := holding[..|holding| - 1];
    }
    assert output + Reversed(holding) == output;
    return Success(output);
  }
}
