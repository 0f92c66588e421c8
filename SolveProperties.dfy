/** What Interpreter::Solve does with the common shapes of a line, for any
    operands and operators: precedence, associativity, parentheses, the unary
    signs, assignment, and the failure of a sign after a binary operator. */
module SolveProperties {
  import opened Wrappers
  import opened Tokens
  import Operators
  import opened Scopes
  import opened ShuntingYard
  import opened Evaluation

  /** A token that goes straight to the output and after which '+' and '-'
      are binary: a numeric literal, a string literal or a name. */
  predicate IsTerm(t: Token) {
    IsOperand(t.kind) && EndsOperand(t.kind)
  }

  /** A term that stands for the number `x`: a numeric literal of that value,
      or a name the global scope binds to it. */
  predicate Denotes(t: Token, env: Env, x: real) {
    IsTerm(t) && Literal(t).Success? && !Literal(t).value.String? &&
    !Unbound(Literal(t).value, env) && Resolved(Literal(t).value, env) == Numeric(x)
  }

  /** A binary operator that computes on numbers: '-', '+', '*' or '/'. */
  predicate IsArithmetic(o: Token) {
    o.kind == Operator && OperatorOf(o.text).arguments == 2 &&
    OperatorOf(o.text).kind != Operators.Equals && OperatorOf(o.text).kind != Operators.Assign
  }

  /** The value an arithmetic operator gives its two operands. */
  function Calc(o: Token, lhs: real, rhs: real): Result<real>
    requires IsArithmetic(o)
  {
    Arithmetic(OperatorOf(o.text).kind, lhs, rhs)
  }

  /** The arithmetic operators are exactly the four spellings of the table. */
  lemma ArithmeticSpellings(o: Token)
    requires o.kind == Operator
    ensures IsArithmetic(o) <==> o.text == "-" || o.text == "+" || o.text == "*" || o.text == "/"
  {
    LexerProperties.OperatorTableKeys(o.text);
  }

  // The first loop, one token at a time.

  /** An operand goes to the output. */
  lemma OperandTo(ts: seq<Token>, i: nat, s: Shunt, output: seq<Token>)
    requires i < |ts| && IsOperand(ts[i].kind) && output == s.output + [ts[i]]
    ensures ShuntFrom(ts, i, s) == ShuntFrom(ts, i + 1, Shunt(s.holding, output, ts[i]))
  {
    assert ShuntStep(s, ts[i]) == Success(Shunt(s.holding, output, ts[i]));
  }

  /** An operator after an operand pops what binds at least as tightly, then waits. */
  lemma BinaryTo(ts: seq<Token>, i: nat, s: Shunt, k: nat, holding: seq<Token>, output: seq<Token>)
    requires i < |ts| && ts[i].kind == Operator && EndsOperand(s.prev.kind)
    requires k == PopPoint(s.holding, Precedence(ts[i].text))
    requires holding == s.holding[..k] + [ts[i]] && output == s.output + Reversed(s.holding[k..])
    ensures ShuntFrom(ts, i, s) == ShuntFrom(ts, i + 1, Shunt(holding, output, ts[i]))
  {
    assert Unary(s.prev, ts[i]) == ts[i];
    assert ShuntStep(s, ts[i]) == Success(Shunt(holding, output, ts[i]));
  }

  /** ... and so does an operator followed by its right operand. */
  lemma InfixTo(ts: seq<Token>, i: nat, s: Shunt, k: nat, holding: seq<Token>, popped: seq<Token>, output: seq<Token>)
    requires i + 1 < |ts| && ts[i].kind == Operator && EndsOperand(s.prev.kind) && IsOperand(ts[i + 1].kind)
    requires k == PopPoint(s.holding, Precedence(ts[i].text))
    requires holding == s.holding[..k] + [ts[i]] && popped == s.output + Reversed(s.holding[k..])
    requires output == popped + [ts[i + 1]]
    ensures ShuntFrom(ts, i, s) == ShuntFrom(ts, i + 2, Shunt(holding, output, ts[i + 1]))
  {
    BinaryTo(ts, i, s, k, holding, popped);
    OperandTo(ts, i + 1, Shunt(holding, popped, ts[i]), output);
  }

  /** A sign where no operand ends is renamed to its unary form, but pops with
      the precedence of the sign as written. */
  lemma SignTo(ts: seq<Token>, i: nat, s: Shunt, k: nat, u: Token, holding: seq<Token>, output: seq<Token>)
    requires i < |ts| && ts[i].kind == Operator && (ts[i].text == "-" || ts[i].text == "+")
    requires !EndsOperand(s.prev.kind) && u == ts[i].(text := "u" + ts[i].text)
    requires k == PopPoint(s.holding, Precedence(ts[i].text))
    requires holding == s.holding[..k] + [u] && output == s.output + Reversed(s.holding[k..])
    ensures ShuntFrom(ts, i, s) == ShuntFrom(ts, i + 1, Shunt(holding, output, u))
  {
    assert Unary(s.prev, ts[i]) == u;
    assert ShuntStep(s, ts[i]) == Success(Shunt(holding, output, u));
  }

  lemma OpenTo(ts: seq<Token>, i: nat, s: Shunt, holding: seq<Token>)
    requires i < |ts| && ts[i].kind == ParenthesisOpen && holding == s.holding + [ts[i]]
    ensures ShuntFrom(ts, i, s) == ShuntFrom(ts, i + 1, Shunt(holding, s.output, ts[i]))
  {
    assert ShuntStep(s, ts[i]) == Success(Shunt(holding, s.output, ts[i]));
  }

  /** A closing parenthesis moves everything above the nearest open one to the output. */
  lemma CloseTo(ts: seq<Token>, i: nat, s: Shunt, k: nat, output: seq<Token>)
    requires i < |ts| && ts[i].kind == ParenthesisClose && OpenIndex(s.holding) == Option.Some(k)
    requires output == s.output + Reversed(s.holding[k + 1..])
    ensures ShuntFrom(ts, i, s) == ShuntFrom(ts, i + 1, Shunt(s.holding[..k], output, ts[i]))
  {
    assert ShuntStep(s, ts[i]) == Success(Shunt(s.holding[..k], output, ts[i]));
  }

  /** The loop reached `s` at the end of the line: the postfix line is its
      output followed by its holding stack, top first. */
  lemma ReorderEnd(ts: seq<Token>, s: Shunt, postfix: seq<Token>)
    requires ShuntFrom(ts, 0, Initial) == ShuntFrom(ts, |ts|, s)
    requires postfix == s.output + Reversed(s.holding)
    ensures Reorder(ts) == Success(postfix)
  {
  }

  /** `x o1 y`: the operator waits on the holding stack behind its two operands. */
  lemma InfixStart(ts: seq<Token>, x: Token, o1: Token, y: Token)
    requires |ts| >= 3 && ts[0] == x && ts[1] == o1 && ts[2] == y
    requires IsTerm(x) && IsTerm(y) && o1.kind == Operator
    ensures ShuntFrom(ts, 0, Initial) == ShuntFrom(ts, 3, Shunt([o1], [x, y], y))
  {
    OperandTo(ts, 0, Initial, [x]);
    InfixTo(ts, 1, Shunt([], [x], x), 0, [o1], [x], [x, y]);
  }

  // The shapes of a line, in postfix order.

  /** `x o y` is written `x y o`. */
  lemma InfixReorders(x: Token, o: Token, y: Token)
    requires IsTerm(x) && IsTerm(y) && o.kind == Operator
    ensures Reorder([x, o, y]) == Success([x, y, o])
  {
    InfixStart([x, o, y], x, o, y);
    ReorderEnd([x, o, y], Shunt([o], [x, y], y), [x, y, o]);
  }

  /** `x o1 y o2 z` groups as `x o1 (y o2 z)` when `o2` binds more tightly than `o1` ... */
  lemma TighterGroupsRight(x: Token, o1: Token, y: Token, o2: Token, z: Token)
    requires IsTerm(x) && IsTerm(y) && IsTerm(z) && o1.kind == Operator && o2.kind == Operator
    requires Precedence(o1.text) < Precedence(o2.text)
    ensures Reorder([x, o1, y, o2, z]) == Success([x, y, z, o2, o1])
  {
    var ts := [x, o1, y, o2, z];
    InfixStart(ts, x, o1, y);
    InfixTo(ts, 3, Shunt([o1], [x, y], y), 1, [o1, o2], [x, y], [x, y, z]);
    assert Reversed([o1, o2]) == [o2, o1];
    ReorderEnd(ts, Shunt([o1, o2], [x, y, z], z), [x, y, z, o2, o1]);
  }

  /** ... and as `(x o1 y) o2 z` otherwise: operators of equal precedence
      associate to the left. */
  lemma LooserGroupsLeft(x: Token, o1: Token, y: Token, o2: Token, z: Token)
    requires IsTerm(x) && IsTerm(y) && IsTerm(z) && o1.kind == Operator && o2.kind == Operator
    requires Precedence(o1.text) >= Precedence(o2.text)
    ensures Reorder([x, o1, y, o2, z]) == Success([x, y, o1, z, o2])
  {
    var ts := [x, o1, y, o2, z];
    InfixStart(ts, x, o1, y);
    InfixTo(ts, 3, Shunt([o1], [x, y], y), 0, [o2], [x, y, o1], [x, y, o1, z]);
    ReorderEnd(ts, Shunt([o2], [x, y, o1, z], z), [x, y, o1, z, o2]);
  }

  /** `( x o1 y ) o2 z` groups as `(x o1 y) o2 z` whatever the precedences. */
  lemma ParenthesesGroupFirst(p: Token, x: Token, o1: Token, y: Token, q: Token, o2: Token, z: Token)
    requires p.kind == ParenthesisOpen && q.kind == ParenthesisClose
    requires IsTerm(x) && IsTerm(y) && IsTerm(z) && o1.kind == Operator && o2.kind == Operator
    ensures Reorder([p, x, o1, y, q, o2, z]) == Success([x, y, o1, z, o2])
  {
    var ts := [p, x, o1, y, q, o2, z];
    InsideParentheses(ts, p, x, o1, y);
    AfterParentheses(ts, p, x, o1, y, q, o2, z);
    ReorderEnd(ts, Shunt([o2], [x, y, o1, z], z), [x, y, o1, z, o2]);
  }

  /** The closing parenthesis releases `o1`; `o2` then waits behind `z`. */
  lemma AfterParentheses(ts: seq<Token>, p: Token, x: Token, o1: Token, y: Token, q: Token, o2: Token, z: Token)
    requires |ts| == 7 && ts[4] == q && ts[5] == o2 && ts[6] == z
    requires p.kind == ParenthesisOpen && q.kind == ParenthesisClose
    requires IsTerm(z) && o1.kind == Operator && o2.kind == Operator
    ensures ShuntFrom(ts, 4, Shunt([p, o1], [x, y], y)) == ShuntFrom(ts, 7, Shunt([o2], [x, y, o1, z], z))
  {
    CloseTo(ts, 4, Shunt([p, o1], [x, y], y), 0, [x, y, o1]);
    InfixTo(ts, 5, Shunt([], [x, y, o1], q), 0, [o2], [x, y, o1], [x, y, o1, z]);
  }

  lemma InsideParentheses(ts: seq<Token>, p: Token, x: Token, o1: Token, y: Token)
    requires |ts| >= 4 && ts[0] == p && ts[1] == x && ts[2] == o1 && ts[3] == y
    requires p.kind == ParenthesisOpen && IsTerm(x) && IsTerm(y) && o1.kind == Operator
    ensures ShuntFrom(ts, 0, Initial) == ShuntFrom(ts, 4, Shunt([p, o1], [x, y], y))
  {
    OpenThenOperand(ts, p, x);
    InfixTo(ts, 2, Shunt([p], [x], x), 1, [p, o1], [x], [x, y]);
  }

  lemma OpenThenOperand(ts: seq<Token>, p: Token, x: Token)
    requires |ts| >= 2 && ts[0] == p && ts[1] == x && p.kind == ParenthesisOpen && IsTerm(x)
    ensures ShuntFrom(ts, 0, Initial) == ShuntFrom(ts, 2, Shunt([p], [x], x))
  {
    OpenTo(ts, 0, Initial, [p]);
    OperandTo(ts, 1, Shunt([p], [], p), [x]);
  }

  /** A holding stack of one operator that yields to `prec` is emptied. */
  lemma PopsOne(t: Token, prec: int)
    requires Poppable(t, prec)
    ensures PopPoint([t], prec) == 0 && [t][..0] == [] && Reversed([t][0..]) == [t]
  {
    assert [t][..0] == [];
    assert [t][0..] == [t];
  }

  /** A term then a binary operator: the term is output, the operator held. */
  lemma OperandThenBinary(ts: seq<Token>, x: Token, o: Token)
    requires |ts| > 2 && ts[0] == x && ts[1] == o && IsTerm(x) && o.kind == Operator
    ensures ShuntFrom(ts, 0, Initial) == ShuntFrom(ts, 2, Shunt([o], [x], o))
  {
    OperandTo(ts, 0, Initial, [x]);
    BinaryTo(ts, 1, Shunt([], [x], x), 0, [o], [x]);
  }

  /** A sign, after which everything held is popped, then a term. */
  lemma SignThenOperand(ts: seq<Token>, i: nat, s: Shunt, u: Token, output: seq<Token>)
    requires i + 1 < |ts| && ts[i].kind == Operator && (ts[i].text == "-" || ts[i].text == "+")
    requires !EndsOperand(s.prev.kind) && u == ts[i].(text := "u" + ts[i].text)
    requires PopPoint(s.holding, Precedence(ts[i].text)) == 0 && s.holding[..0] == []
    requires IsTerm(ts[i + 1]) && output == s.output + Reversed(s.holding[0..]) + [ts[i + 1]]
    ensures ShuntFrom(ts, i, s) == ShuntFrom(ts, i + 2, Shunt([u], output, ts[i + 1]))
  {
    SignTo(ts, i, s, 0, u, [u], s.output + Reversed(s.holding[0..]));
    OperandTo(ts, i + 1, Shunt([u], s.output + Reversed(s.holding[0..]), u), output);
  }

  /** A sign and a term opening a line: the renamed sign is held, the term output. */
  lemma LeadingSignStart(ts: seq<Token>, u: Token)
    requires |ts| > 1 && ts[0].kind == Operator && (ts[0].text == "-" || ts[0].text == "+")
    requires u == ts[0].(text := "u" + ts[0].text) && IsTerm(ts[1])
    ensures ShuntFrom(ts, 0, Initial) == ShuntFrom(ts, 2, Shunt([u], [ts[1]], ts[1]))
  {
    SignThenOperand(ts, 0, Initial, u, [ts[1]]);
  }

  /** A held unary sign is popped by any operator that follows its operand. */
  lemma SignYieldsTo(m: Token, u: Token, o: Token)
    requires m.kind == Operator && (m.text == "-" || m.text == "+") && u == m.(text := "u" + m.text)
    ensures Poppable(u, Precedence(o.text))
  {
    SignSpelling(m.text);
  }

  lemma ReversedOne(t: Token)
    ensures Reversed([t]) == [t]
  {
  }

  /** A sign at the start of a line is unary and binds more tightly than any
      binary operator: `- x o y` is `(-x) o y`. */
  lemma LeadingSignBindsFirst(m: Token, x: Token, o: Token, y: Token)
    requires m.kind == Operator && (m.text == "-" || m.text == "+")
    requires IsTerm(x) && IsTerm(y) && o.kind == Operator
    ensures Reorder([m, x, o, y]) == Success([x, m.(text := "u" + m.text), y, o])
  {
    var ts := [m, x, o, y];
    var u := m.(text := "u" + m.text);
    LeadingSignStart(ts, u);
    SignYieldsTo(m, u, o);
    PopsOne(u, Precedence(o.text));
    InfixTo(ts, 2, Shunt([u], [x], x), 0, [o], [x, u], [x, u, y]);
    ReversedOne(o);
    ReorderEnd(ts, Shunt([o], [x, u, y], y), [x, u, y, o]);
  }

  /** A sign after a binary operator is unary, but it pops with the precedence
      of the binary '-' or '+': an operator binding at least as tightly leaves
      the holding stack before its right operand is read. */
  lemma SignAfterOperatorReorders(x: Token, o: Token, m: Token, y: Token)
    requires IsTerm(x) && IsTerm(y) && o.kind == Operator
    requires m.kind == Operator && (m.text == "-" || m.text == "+")
    requires Precedence(m.text) <= Precedence(o.text)
    ensures Reorder([x, o, m, y]) == Success([x, o, y, m.(text := "u" + m.text)])
  {
    var ts := [x, o, m, y];
    var u := m.(text := "u" + m.text);
    OperandThenBinary(ts, x, o);
    PopsOne(o, Precedence(m.text));
    SignThenOperand(ts, 2, Shunt([o], [x], o), u, [x, o, y]);
    ReorderEnd(ts, Shunt([u], [x, o, y], y), [x, o, y, u]);
  }

  // The second loop, one token at a time.

  /** A literal or a name is pushed as the object it stands for. */
  lemma PushTo(out: seq<Token>, i: nat, stack: seq<Object>, env: Env, o: Object, stack': seq<Object>)
    requires i < |out| && IsTerm(out[i]) && Literal(out[i]) == Success(o) && stack' == stack + [o]
    ensures ReduceFrom(out, i, stack, env) == ReduceFrom(out, i + 1, stack', env)
  {
    assert ReduceStep(stack, out[i], env) == Success((stack', env));
  }

  /** A term that denotes a number is pushed as its literal object. */
  lemma PushDenoted(out: seq<Token>, i: nat, stack: seq<Object>, env: Env, x: real, stack': seq<Object>)
    requires i < |out| && Denotes(out[i], env, x) && stack' == stack + [Literal(out[i]).value]
    ensures ReduceFrom(out, i, stack, env) == ReduceFrom(out, i + 1, stack', env)
  {
    PushTo(out, i, stack, env, Literal(out[i]).value, stack');
  }

  /** An operator replaces its arguments by the object it yields. */
  lemma ApplyTo(out: seq<Token>, i: nat, stack: seq<Object>, env: Env, r: Object, env': Env, stack': seq<Object>)
    requires i < |out| && out[i].kind == Operator
    requires var n := OperatorOf(out[i].text).arguments as int;
      n <= |stack| && stack' == stack[..|stack| - n] + [r] &&
      Apply(OperatorOf(out[i].text), TakeArguments(stack, n), env) == Success((r, env'))
    ensures ReduceFrom(out, i, stack, env) == ReduceFrom(out, i + 1, stack', env')
  {
    assert ReduceStep(stack, out[i], env) == Success((stack', env'));
  }

  /** An arithmetic operator replaces two numbers by the value it computes. */
  lemma CalcTo(out: seq<Token>, i: nat, stack: seq<Object>, env: Env, below: seq<Object>,
               lhs: Object, rhs: Object, x: real, y: real, v: real, stack': seq<Object>)
    requires i < |out| && IsArithmetic(out[i]) && stack == below + [lhs, rhs] && stack' == below + [Numeric(v)]
    requires !lhs.String? && !Unbound(lhs, env) && Resolved(lhs, env) == Numeric(x)
    requires !Unbound(rhs, env) && Resolved(rhs, env) == Numeric(y)
    requires Calc(out[i], x, y) == Success(v)
    ensures ReduceFrom(out, i, stack, env) == ReduceFrom(out, i + 1, stack', env)
  {
    assert TakeArguments(stack, 2) == [rhs, lhs];
    assert stack[..|stack| - 2] == below;
    ApplyTo(out, i, stack, env, Numeric(v), env, stack');
  }

  /** The loop ends with one object on the stack: the line evaluates to it. */
  lemma EvaluatesTo(ts: seq<Token>, out: seq<Token>, env: Env, o: Object, env': Env)
    requires Reorder(ts) == Success(out)
    requires ReduceFrom(out, 0, [], env) == ReduceFrom(out, |out|, [o], env')
    ensures Evaluate(ts, env) == (Success(Option.Some(o)), env')
  {
  }

  /** Two terms then an arithmetic operator leave the value it computes on
      top of whatever was below. */
  lemma ReducesPair(out: seq<Token>, i: nat, below: seq<Object>, env: Env, x: real, y: real, w: real, stack': seq<Object>)
    requires i + 2 < |out| && Denotes(out[i], env, x) && Denotes(out[i + 1], env, y)
    requires IsArithmetic(out[i + 2]) && Calc(out[i + 2], x, y) == Success(w) && stack' == below + [Numeric(w)]
    ensures ReduceFrom(out, i, below, env) == ReduceFrom(out, i + 3, stack', env)
  {
    var a, b := Literal(out[i]).value, Literal(out[i + 1]).value;
    PushDenoted(out, i, below, env, x, below + [a]);
    PushDenoted(out, i + 1, below + [a], env, y, below + [a, b]);
    CalcTo(out, i + 2, below + [a, b], env, below, a, b, x, y, w, stack');
  }

  /** `x y z o2 o1` computes `x o1 (y o2 z)`. */
  lemma ReducesRight(out: seq<Token>, env: Env, x: real, y: real, z: real, w: real, v: real)
    requires |out| == 5 && Denotes(out[0], env, x) && Denotes(out[1], env, y) && Denotes(out[2], env, z)
    requires IsArithmetic(out[3]) && IsArithmetic(out[4])
    requires Calc(out[3], y, z) == Success(w) && Calc(out[4], x, w) == Success(v)
    ensures ReduceFrom(out, 0, [], env) == ReduceFrom(out, 5, [Numeric(v)], env)
  {
    var a := Literal(out[0]).value;
    PushDenoted(out, 0, [], env, x, [a]);
    ReducesPair(out, 1, [a], env, y, z, w, [a, Numeric(w)]);
    CalcTo(out, 4, [a, Numeric(w)], env, [], a, Numeric(w), x, w, v, [Numeric(v)]);
  }

  /** `x y o1 z o2` computes `(x o1 y) o2 z`. */
  lemma ReducesLeft(out: seq<Token>, env: Env, x: real, y: real, z: real, w: real, v: real)
    requires |out| == 5 && Denotes(out[0], env, x) && Denotes(out[1], env, y) && Denotes(out[3], env, z)
    requires IsArithmetic(out[2]) && IsArithmetic(out[4])
    requires Calc(out[2], x, y) == Success(w) && Calc(out[4], w, z) == Success(v)
    ensures ReduceFrom(out, 0, [], env) == ReduceFrom(out, 5, [Numeric(v)], env)
  {
    var c := Literal(out[3]).value;
    ReducesPair(out, 0, [], env, x, y, w, [Numeric(w)]);
    PushDenoted(out, 3, [Numeric(w)], env, z, [Numeric(w), c]);
    CalcTo(out, 4, [Numeric(w), c], env, [], Numeric(w), c, w, z, v, [Numeric(v)]);
  }

  // Whole lines.

  /** A term on its own evaluates to the object it stands for; a name is not
      looked up. */
  lemma TermEvaluates(t: Token, env: Env)
    requires IsTerm(t) && Literal(t).Success?
    ensures Evaluate([t], env) == (Success(Option.Some(Literal(t).value)), env)
  {
    OperandTo([t], 0, Initial, [t]);
    ReorderEnd([t], Shunt([], [t], t), [t]);
    PushTo([t], 0, [], env, Literal(t).value, [Literal(t).value]);
  }

  /** `x o1 y o2 z` with `o2` binding more tightly computes `x o1 (y o2 z)`. */
  lemma TighterEvaluatesRight(x: Token, o1: Token, y: Token, o2: Token, z: Token, env: Env,
                              a: real, b: real, c: real, w: real, v: real)
    requires Denotes(x, env, a) && Denotes(y, env, b) && Denotes(z, env, c)
    requires IsArithmetic(o1) && IsArithmetic(o2) && Precedence(o1.text) < Precedence(o2.text)
    requires Calc(o2, b, c) == Success(w) && Calc(o1, a, w) == Success(v)
    ensures Evaluate([x, o1, y, o2, z], env) == (Success(Option.Some(Numeric(v))), env)
  {
    TighterGroupsRight(x, o1, y, o2, z);
    ReducesRight([x, y, z, o2, o1], env, a, b, c, w, v);
    EvaluatesTo([x, o1, y, o2, z], [x, y, z, o2, o1], env, Numeric(v), env);
  }

  /** `x o1 y o2 z` with `o1` binding at least as tightly computes `(x o1 y) o2 z`. */
  lemma LooserEvaluatesLeft(x: Token, o1: Token, y: Token, o2: Token, z: Token, env: Env,
                            a: real, b: real, c: real, w: real, v: real)
    requires Denotes(x, env, a) && Denotes(y, env, b) && Denotes(z, env, c)
    requires IsArithmetic(o1) && IsArithmetic(o2) && Precedence(o1.text) >= Precedence(o2.text)
    requires Calc(o1, a, b) == Success(w) && Calc(o2, w, c) == Success(v)
    ensures Evaluate([x, o1, y, o2, z], env) == (Success(Option.Some(Numeric(v))), env)
  {
    LooserGroupsLeft(x, o1, y, o2, z);
    ReducesLeft([x, y, o1, z, o2], env, a, b, c, w, v);
    EvaluatesTo([x, o1, y, o2, z], [x, y, o1, z, o2], env, Numeric(v), env);
  }

  /** `( x o1 y ) o2 z` computes `(x o1 y) o2 z` whatever the precedences. */
  lemma ParenthesesEvaluateFirst(p: Token, x: Token, o1: Token, y: Token, q: Token, o2: Token, z: Token, env: Env,
                                 a: real, b: real, c: real, w: real, v: real)
    requires p.kind == ParenthesisOpen && q.kind == ParenthesisClose
    requires Denotes(x, env, a) && Denotes(y, env, b) && Denotes(z, env, c)
    requires IsArithmetic(o1) && IsArithmetic(o2)
    requires Calc(o1, a, b) == Success(w) && Calc(o2, w, c) == Success(v)
    ensures Evaluate([p, x, o1, y, q, o2, z], env) == (Success(Option.Some(Numeric(v))), env)
  {
    ParenthesesGroupFirst(p, x, o1, y, q, o2, z);
    ReducesLeft([x, y, o1, z, o2], env, a, b, c, w, v);
    EvaluatesTo([p, x, o1, y, q, o2, z], [x, y, o1, z, o2], env, Numeric(v), env);
  }

  /** The value of a unary sign. */
  function Signed(m: Token, a: real): real {
    if m.text == "-" then -a else a
  }

  /** `- x o y` computes `(-x) o y`, and `+ x o y` computes `x o y`. */
  lemma LeadingSignEvaluates(m: Token, x: Token, o: Token, y: Token, env: Env, a: real, b: real, v: real)
    requires m.kind == Operator && (m.text == "-" || m.text == "+")
    requires Denotes(x, env, a) && Denotes(y, env, b) && IsArithmetic(o)
    requires Calc(o, Signed(m, a), b) == Success(v)
    ensures Evaluate([m, x, o, y], env) == (Success(Option.Some(Numeric(v))), env)
  {
    var u := m.(text := "u" + m.text);
    LeadingSignBindsFirst(m, x, o, y);
    SignSpelling(m.text);
    ReducesSigned([x, u, y, o], env, a, b, Signed(m, a), v);
    EvaluatesTo([m, x, o, y], [x, u, y, o], env, Numeric(v), env);
  }

  /** The renamed spelling of a sign keeps which sign it is. */
  lemma SignSpelling(sign: string)
    requires sign == "-" || sign == "+"
    ensures ("u" + sign == "u-") == (sign == "-")
    ensures "u" + sign == "u-" || "u" + sign == "u+"
  {
    if sign == "-" {
      assert "u" + sign == "u-";
    } else {
      assert "u" + sign == "u+";
      assert ("u" + sign)[1] != "u-"[1];
    }
  }

  /** `x u y o` computes `(u x) o y` for a unary sign `u`. */
  lemma ReducesSigned(out: seq<Token>, env: Env, a: real, b: real, s: real, v: real)
    requires |out| == 4 && Denotes(out[0], env, a) && Denotes(out[2], env, b) && IsArithmetic(out[3])
    requires out[1].kind == Operator && (out[1].text == "u-" || out[1].text == "u+")
    requires s == (if out[1].text == "u-" then -a else a) && Calc(out[3], s, b) == Success(v)
    ensures ReduceFrom(out, 0, [], env) == ReduceFrom(out, 4, [Numeric(v)], env)
  {
    var xo, yo := Literal(out[0]).value, Literal(out[2]).value;
    PushDenoted(out, 0, [], env, a, [xo]);
    SignApplies(out, 1, env, xo, a, s);
    PushDenoted(out, 2, [Numeric(s)], env, b, [Numeric(s), yo]);
    CalcTo(out, 3, [Numeric(s), yo], env, [], Numeric(s), yo, s, b, v, [Numeric(v)]);
  }

  /** A unary sign replaces a number by its signed value. */
  lemma SignApplies(out: seq<Token>, i: nat, env: Env, arg: Object, a: real, s: real)
    requires i < |out| && out[i].kind == Operator && (out[i].text == "u-" || out[i].text == "u+")
    requires !Unbound(arg, env) && Resolved(arg, env) == Numeric(a)
    requires s == (if out[i].text == "u-" then -a else a)
    ensures ReduceFrom(out, i, [arg], env) == ReduceFrom(out, i + 1, [Numeric(s)], env)
  {
    var op := OperatorOf(out[i].text);
    assert op.arguments == 1 && (op.kind == Operators.Subtraction <==> out[i].text == "u-");
    assert op.kind == Operators.Subtraction || op.kind == Operators.Addition;
    assert TakeArguments([arg], 1) == [arg];
    ApplyTo(out, i, [arg], env, Numeric(s), env, [Numeric(s)]);
  }

  /** `x o - y` with a binary `o` binding at least as tightly as the sign fails:
      `o` is reached with only `x` on the stack. */
  lemma SignAfterOperatorFails(x: Token, o: Token, m: Token, y: Token, env: Env)
    requires IsTerm(x) && Literal(x).Success? && IsTerm(y)
    requires o.kind == Operator && OperatorOf(o.text).arguments == 2
    requires m.kind == Operator && (m.text == "-" || m.text == "+")
    requires Precedence(m.text) <= Precedence(o.text)
    ensures Evaluate([x, o, m, y], env) == (Failure(EvalError("Not enough arguments for the operator: " + o.text)), env)
  {
    var out := [x, o, y, m.(text := "u" + m.text)];
    SignAfterOperatorReorders(x, o, m, y);
    var xo := Literal(x).value;
    PushTo(out, 0, [], env, xo, [xo]);
    assert ReduceStep([xo], out[1], env) == Failure(EvalError("Not enough arguments for the operator: " + o.text));
  }

  /** `v = e` binds the name `v` in the global scope to the object `e` stands
      for, unresolved, and yields that object. */
  lemma AssignmentBinds(n: Token, e: Token, eq: Token, env: Env)
    requires n.kind == TokenKind.Symbol && eq == Token(Operator, "=") && IsTerm(e) && Literal(e).Success?
    ensures Evaluate([n, eq, e], env) == (Success(Option.Some(Literal(e).value)), env[n.text := Literal(e).value])
  {
    var out := [n, e, eq];
    var nv, ev := Object.Symbol(n.text), Literal(e).value;
    InfixReorders(n, eq, e);
    PushTo(out, 0, [], env, nv, [nv]);
    PushTo(out, 1, [nv], env, ev, [nv, ev]);
    assert OperatorOf("=") == Operators.Operator(Operators.Assign, 0, 2);
    assert TakeArguments([nv, ev], 2) == [ev, nv];
    ApplyTo(out, 2, [nv, ev], env, ev, env[n.text := ev], [ev]);
    EvaluatesTo([n, eq, e], out, env, ev, env[n.text := ev]);
  }
}
