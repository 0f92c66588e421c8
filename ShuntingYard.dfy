/** The first half of Interpreter::Solve: Dijkstra's shunting-yard algorithm,
    which reorders infix tokens into postfix order. The holding and output
    deques are sequences whose back is the last element. */
module ShuntingYard {
  import opened Wrappers
  import opened Tokens
  import Operators
  import opened Parser
  import opened LexerProperties

  /** `Parser::s_Operators[text]`: a spelling missing from the table is inserted
      with a value-initialised entry, which is what the lookup then returns. */
  function OperatorOf(text: string): Operators.Operator {
    if text in OperatorTable then OperatorTable[text] else Operators.Operator(Operators.Subtraction, 0, 0)
  }

  function Precedence(text: string): int {
    OperatorOf(text).precedence as int
  }

  /** Token kinds that go straight to the output. */
  predicate IsOperand(k: TokenKind) {
    k == LiteralNumericBase10 || k == LiteralNumericBase16 || k == LiteralNumericBase2 ||
    k == LiteralString || k == LiteralBoolean || k == Keyword || k == Symbol
  }

  /** The kinds after which '+' and '-' are binary (the `excluded` list). */
  predicate EndsOperand(k: TokenKind) {
    k == LiteralNumericBase16 || k == LiteralNumericBase10 || k == LiteralNumericBase2 ||
    k == LiteralString || k == Symbol || k == ParenthesisClose
  }

  /** A '+' or '-' that does not follow an operand is renamed to its unary form. */
  function Unary(prev: Token, t: Token): (u: Token)
    ensures u.kind == t.kind
    ensures u != t <==> (t.text == "+" || t.text == "-") && !EndsOperand(prev.kind)
    ensures u != t ==> u.text == "u" + t.text && Precedence(u.text) == Operators.MAX_PRECEDENCE as int
  {
    if (t.text == "+" || t.text == "-") && !EndsOperand(prev.kind) then
      var u := t.(text := "u" + t.text);
      assert u.text != t.text by { assert |u.text| == |t.text| + 1; }
      assert u.text == "u+" || u.text == "u-";
      u
    else t
  }

  datatype Shunt = Shunt(holding: seq<Token>, output: seq<Token>, prev: Token)

  function Reversed(s: seq<Token>): (r: seq<Token>)
    ensures |r| == |s|
    ensures forall j :: 0 <= j < |s| ==> r[j] == s[|s| - 1 - j]
  {
    if |s| == 0 then [] else [s[|s| - 1]] + Reversed(s[..|s| - 1])
  }

  /** Whether the loop popping operators takes `t` from the holding stack when
      the incoming operator has precedence `prec`. */
  predicate Poppable(t: Token, prec: int) {
    t.kind != ParenthesisOpen && prec <= Precedence(t.text)
  }

  /** Where the popping stops: everything above this index is popped. */
  function PopPoint(holding: seq<Token>, prec: int): (k: nat)
    ensures k <= |holding|
    ensures forall j :: k <= j < |holding| ==> Poppable(holding[j], prec)
    ensures k > 0 ==> !Poppable(holding[k - 1], prec)
  {
    if |holding| > 0 && Poppable(holding[|holding| - 1], prec) then PopPoint(holding[..|holding| - 1], prec)
    else |holding|
  }

  /** Moves operators from the back of the holding stack to the output while the
      back is not an open parenthesis and binds at least as tightly as `prec`. */
  function PopOperators(holding: seq<Token>, output: seq<Token>, prec: int): (seq<Token>, seq<Token>) {
    var k := PopPoint(holding, prec);
    (holding[..k], output + Reversed(holding[k..]))
  }

  /** The index of the nearest open parenthesis in the holding stack, if any. */
  function OpenIndex(holding: seq<Token>): (r: Option<nat>)
    ensures r.None? ==> forall j :: 0 <= j < |holding| ==> holding[j].kind != ParenthesisOpen
    ensures r.Some? ==> r.value < |holding| && holding[r.value].kind == ParenthesisOpen
    ensures r.Some? ==> forall j :: r.value < j < |holding| ==> holding[j].kind != ParenthesisOpen
  {
    if |holding| == 0 then Option.None
    else if holding[|holding| - 1].kind == ParenthesisOpen then Option.Some(|holding| - 1)
    else OpenIndex(holding[..|holding| - 1])
  }

  /** Moves tokens from the holding stack to the output down to the nearest open
      parenthesis, which is discarded. The source reads past the front of an
      empty deque when there is none; the model fails instead. */
  function PopToOpen(holding: seq<Token>, output: seq<Token>): Result<(seq<Token>, seq<Token>)> {
    var open := OpenIndex(holding);
    if open.None? then Failure(HostError("No open parenthesis on the holding stack"))
    else Success((holding[..open.value], output + Reversed(holding[open.value + 1..])))
  }

  lemma ReversedSnoc(s: seq<Token>, t: Token)
    ensures Reversed(s + [t]) == [t] + Reversed(s)
  {
    assert (s + [t])[..|s|] == s;
  }

  /** One token of the first loop of Interpreter::Solve. */
  function ShuntStep(s: Shunt, t: Token): Result<Shunt> {
    if IsOperand(t.kind) then Success(Shunt(s.holding, s.output + [t], t))
    else if t.kind == Operator then
      var popped := PopOperators(s.holding, s.output, Precedence(t.text));
      var u := Unary(s.prev, t);
      Success(Shunt(popped.0 + [u], popped.1, u))
    else if t.kind == ParenthesisOpen then Success(Shunt(s.holding + [t], s.output, t))
    else if t.kind == ParenthesisClose then
      var popped :- PopToOpen(s.holding, s.output);
      Success(Shunt(popped.0, popped.1, t))
    else Success(s.(prev := t))
  }

  /** The rest of the first loop from token `i`. */
  function ShuntFrom(tokens: seq<Token>, i: nat, s: Shunt): Result<Shunt>
    requires i <= |tokens|
    decreases |tokens| - i, 1
  {
    if i == |tokens| then Success(s)
    else ShuntAfter(tokens, i, ShuntStep(s, tokens[i]))
  }

  /** The loop after token `i` gave `step`: stop on an error, or go on from token `i + 1`. */
  function ShuntAfter(tokens: seq<Token>, i: nat, step: Result<Shunt>): Result<Shunt>
    requires i < |tokens|
    decreases |tokens| - i, 0
  {
    if step.Failure? then Failure(step.error) else ShuntFrom(tokens, i + 1, step.value)
  }

  const Initial := Shunt([], [], Blank)

  /** The postfix sequence: the output, then the holding stack drained from its back. */
  function Reorder(tokens: seq<Token>): Result<seq<Token>> {
    var s :- ShuntFrom(tokens, 0, Initial);
    Success(s.output + Reversed(s.holding))
  }

  /** The tokens of `ts` whose kind satisfies `p`, in order. */
  function Keep(ts: seq<Token>, p: TokenKind -> bool): (r: seq<Token>)
    ensures |r| <= |ts|
    ensures forall j :: 0 <= j < |r| ==> p(r[j].kind)
  {
    if |ts| == 0 then []
    else Keep(ts[..|ts| - 1], p) + (if p(ts[|ts| - 1].kind) then [ts[|ts| - 1]] else [])
  }

  predicate IsOperatorKind(k: TokenKind) { k == Operator }
  predicate IsOpenKind(k: TokenKind) { k == ParenthesisOpen }
  predicate IsCloseKind(k: TokenKind) { k == ParenthesisClose }

  lemma {:induction false} KeepAppend(a: seq<Token>, b: seq<Token>, p: TokenKind -> bool)
    ensures Keep(a + b, p) == Keep(a, p) + Keep(b, p)
    decreases |b|
  {
    if |b| > 0 {
      assert (a + b)[..|a + b| - 1] == a + b[..|b| - 1];
      KeepAppend(a, b[..|b| - 1], p);
    } else {
      assert a + b == a;
    }
  }

  lemma {:induction false} KeepNone(ts: seq<Token>, p: TokenKind -> bool)
    requires forall j :: 0 <= j < |ts| ==> !p(ts[j].kind)
    ensures Keep(ts, p) == []
  {
    if |ts| > 0 {
      KeepNone(ts[..|ts| - 1], p);
    }
  }

  /** Every kept token is a token of `ts`. */
  lemma {:induction false} KeepFrom(ts: seq<Token>, p: TokenKind -> bool, k: nat)
    requires k < |Keep(ts, p)|
    ensures exists j :: 0 <= j < |ts| && ts[j] == Keep(ts, p)[k]
  {
    var init := ts[..|ts| - 1];
    if k < |Keep(init, p)| {
      KeepFrom(init, p, k);
      var j :| 0 <= j < |init| && init[j] == Keep(init, p)[k];
      assert ts[j] == init[j];
    } else {
      assert Keep(ts, p)[k] == ts[|ts| - 1];
    }
  }

  /** Reversing does not change how many tokens of a kind there are. */
  lemma {:induction false} CountReversed(ts: seq<Token>, p: TokenKind -> bool)
    ensures |Keep(Reversed(ts), p)| == |Keep(ts, p)|
  {
    if |ts| > 0 {
      var last, init := ts[|ts| - 1], ts[..|ts| - 1];
      assert Reversed(ts) == [last] + Reversed(init);
      KeepAppend([last], Reversed(init), p);
      CountReversed(init, p);
      assert Keep([last], p) == Keep([], p) + (if p(last.kind) then [last] else []);
    }
  }

  /** Between open parentheses the holding stack rises strictly in precedence. */
  predicate Ascending(holding: seq<Token>) {
    forall j :: 0 <= j < |holding| - 1 && holding[j].kind == Operator && holding[j + 1].kind == Operator ==>
      Precedence(holding[j].text) < Precedence(holding[j + 1].text)
  }

  /** The shape of every state the first loop reaches: the holding stack holds
      operators and open parentheses only, in ascending order, and the output
      holds no parenthesis. */
  predicate Shaped(s: Shunt) {
    (forall j :: 0 <= j < |s.holding| ==> s.holding[j].kind == Operator || s.holding[j].kind == ParenthesisOpen) &&
    (forall j :: 0 <= j < |s.output| ==> s.output[j].kind != ParenthesisOpen && s.output[j].kind != ParenthesisClose) &&
    Ascending(s.holding)
  }

  /** How a state relates to the tokens read so far: the operands are in the
      output in their original order, every operator is in the output or on the
      holding stack, and the holding stack has as many open parentheses as the
      tokens read leave unclosed. */
  predicate Relates(read: seq<Token>, s: Shunt) {
    Keep(s.output, IsOperand) == Keep(read, IsOperand) &&
    |Keep(s.output, IsOperatorKind)| + |Keep(s.holding, IsOperatorKind)| == |Keep(read, IsOperatorKind)| &&
    |Keep(s.holding, IsOpenKind)| == Net(read)
  }

  /** Moving the top of the holding stack, from index `k` up, to the output in
      reverse order keeps the operands where they are ... */
  lemma MoveTopOperands(holding: seq<Token>, output: seq<Token>, k: nat)
    requires k <= |holding|
    requires forall j :: k <= j < |holding| ==> !IsOperand(holding[j].kind)
    ensures Keep(output + Reversed(holding[k..]), IsOperand) == Keep(output, IsOperand)
  {
    var top := holding[k..];
    KeepAppend(output, Reversed(top), IsOperand);
    KeepNone(Reversed(top), IsOperand);
  }

  /** ... keeps the number of operators ... */
  lemma MoveTopOperators(holding: seq<Token>, output: seq<Token>, k: nat)
    requires k <= |holding|
    ensures |Keep(output + Reversed(holding[k..]), IsOperatorKind)| + |Keep(holding[..k], IsOperatorKind)| ==
      |Keep(output, IsOperatorKind)| + |Keep(holding, IsOperatorKind)|
  {
    var top := holding[k..];
    assert holding == holding[..k] + top;
    KeepAppend(holding[..k], top, IsOperatorKind);
    KeepAppend(output, Reversed(top), IsOperatorKind);
    CountReversed(top, IsOperatorKind);
  }

  /** ... and leaves every open parenthesis on the stack. */
  lemma MoveTopOpens(holding: seq<Token>, k: nat)
    requires k <= |holding|
    requires forall j :: k <= j < |holding| ==> holding[j].kind != ParenthesisOpen
    ensures Keep(holding[..k], IsOpenKind) == Keep(holding, IsOpenKind)
  {
    var top := holding[k..];
    assert holding == holding[..k] + top;
    KeepAppend(holding[..k], top, IsOpenKind);
    KeepNone(top, IsOpenKind);
  }

  /** Reading one more token. */
  lemma ReadOne(read: seq<Token>, t: Token, p: TokenKind -> bool)
    ensures Keep(read + [t], p) == Keep(read, p) + (if p(t.kind) then [t] else [])
    ensures Net(read + [t]) == Net(read) + NetOf(t)
  {
    assert (read + [t])[..|read|] == read;
  }

  lemma OperandStep(read: seq<Token>, s: Shunt, t: Token)
    requires Shaped(s) && Relates(read, s) && IsOperand(t.kind)
    ensures ShuntStep(s, t).Success?
    ensures Shaped(ShuntStep(s, t).value) && Relates(read + [t], ShuntStep(s, t).value)
  {
    var s' := ShuntStep(s, t).value;
    ReadOne(read, t, IsOperand);
    ReadOne(read, t, IsOperatorKind);
    ReadOne(s.output, t, IsOperand);
    ReadOne(s.output, t, IsOperatorKind);
  }

  lemma OperatorStep(read: seq<Token>, s: Shunt, t: Token)
    requires Shaped(s) && Relates(read, s) && t.kind == Operator
    ensures ShuntStep(s, t).Success?
    ensures Shaped(ShuntStep(s, t).value) && Relates(read + [t], ShuntStep(s, t).value)
  {
    OperatorStepRelates(read, s, t);
    OperatorStepShaped(s, t);
  }

  lemma OperatorStepRelates(read: seq<Token>, s: Shunt, t: Token)
    requires Shaped(s) && Relates(read, s) && t.kind == Operator
    ensures ShuntStep(s, t).Success? && Relates(read + [t], ShuntStep(s, t).value)
  {
    var prec := Precedence(t.text);
    var k := PopPoint(s.holding, prec);
    var u := Unary(s.prev, t);
    var o := s.output + Reversed(s.holding[k..]);
    assert ShuntStep(s, t) == Success(Shunt(s.holding[..k] + [u], o, u));
    PoppedAreOperators(s, prec);
    MoveTopOperands(s.holding, s.output, k);
    MoveTopOperators(s.holding, s.output, k);
    MoveTopOpens(s.holding, k);
    PushedRelates(read, s, t, k, u, o);
  }

  lemma PushedRelates(read: seq<Token>, s: Shunt, t: Token, k: nat, u: Token, o: seq<Token>)
    requires Relates(read, s) && t.kind == Operator && u.kind == Operator && k <= |s.holding|
    requires Keep(o, IsOperand) == Keep(s.output, IsOperand)
    requires |Keep(o, IsOperatorKind)| + |Keep(s.holding[..k], IsOperatorKind)| ==
      |Keep(s.output, IsOperatorKind)| + |Keep(s.holding, IsOperatorKind)|
    requires Keep(s.holding[..k], IsOpenKind) == Keep(s.holding, IsOpenKind)
    ensures Relates(read + [t], Shunt(s.holding[..k] + [u], o, u))
  {
    ReadOne(read, t, IsOperand);
    ReadOne(read, t, IsOperatorKind);
    ReadOne(s.holding[..k], u, IsOperatorKind);
    ReadOne(s.holding[..k], u, IsOpenKind);
  }

  lemma OperatorStepShaped(s: Shunt, t: Token)
    requires Shaped(s) && t.kind == Operator
    ensures Shaped(ShuntStep(s, t).value)
  {
    var prec := Precedence(t.text);
    var k := PopPoint(s.holding, prec);
    var u := Unary(s.prev, t);
    var popped := PopOperators(s.holding, s.output, prec);
    assert ShuntStep(s, t).value == Shunt(s.holding[..k] + [u], popped.1, u);
    AscendingPush(s.holding, k, prec, u);
    PushedShape(s, k, u, prec);
  }

  /** Pushing an operator that binds at least as tightly as `prec` after popping
      for `prec` keeps the stack ascending. */
  lemma AscendingPush(holding: seq<Token>, k: nat, prec: int, u: Token)
    requires Ascending(holding) && k == PopPoint(holding, prec)
    requires Precedence(u.text) >= prec
    ensures Ascending(holding[..k] + [u])
  {
    var h := holding[..k] + [u];
    forall j | 0 <= j < |h| - 1 && h[j].kind == Operator && h[j + 1].kind == Operator
      ensures Precedence(h[j].text) < Precedence(h[j + 1].text)
    {
      assert h[j] == holding[j];
      if j + 1 < k {
        assert h[j + 1] == holding[j + 1];
      }
    }
  }

  lemma PushedShape(s: Shunt, k: nat, u: Token, prec: int)
    requires Shaped(s) && k == PopPoint(s.holding, prec) && u.kind == Operator
    requires Ascending(s.holding[..k] + [u])
    ensures Shaped(Shunt(s.holding[..k] + [u], PopOperators(s.holding, s.output, prec).1, u))
  {
    PoppedAreOperators(s, prec);
    MovedShape(s.output, s.holding, k);
  }

  /** Everything the popping takes is an operator. */
  lemma PoppedAreOperators(s: Shunt, prec: int)
    requires Shaped(s)
    ensures forall j :: PopPoint(s.holding, prec) <= j < |s.holding| ==> s.holding[j].kind == Operator
  {
    var k := PopPoint(s.holding, prec);
    forall j | k <= j < |s.holding| ensures s.holding[j].kind == Operator {
      assert Poppable(s.holding[j], prec);
    }
  }

  /** Operators moved to an output without parentheses leave it without parentheses. */
  lemma MovedShape(output: seq<Token>, holding: seq<Token>, k: nat)
    requires k <= |holding|
    requires forall j :: 0 <= j < |output| ==> output[j].kind != ParenthesisOpen && output[j].kind != ParenthesisClose
    requires forall j :: k <= j < |holding| ==> holding[j].kind == Operator
    ensures var o := output + Reversed(holding[k..]);
      forall j :: 0 <= j < |o| ==> o[j].kind != ParenthesisOpen && o[j].kind != ParenthesisClose
  {
    var top := holding[k..];
    var o := output + Reversed(top);
    forall j | 0 <= j < |o| ensures o[j].kind != ParenthesisOpen && o[j].kind != ParenthesisClose {
      if j >= |output| {
        assert o[j] == Reversed(top)[j - |output|] == top[|top| - 1 - (j - |output|)];
      }
    }
  }

  lemma OpenStep(read: seq<Token>, s: Shunt, t: Token)
    requires Shaped(s) && Relates(read, s) && t.kind == ParenthesisOpen
    ensures ShuntStep(s, t).Success?
    ensures Shaped(ShuntStep(s, t).value) && Relates(read + [t], ShuntStep(s, t).value)
  {
    ReadOne(read, t, IsOperand);
    ReadOne(read, t, IsOperatorKind);
    ReadOne(s.holding, t, IsOperatorKind);
    ReadOne(s.holding, t, IsOpenKind);
    var h := s.holding + [t];
    assert forall j :: 0 <= j < |s.holding| ==> h[j] == s.holding[j];
  }

  lemma CloseStep(read: seq<Token>, s: Shunt, t: Token)
    requires Shaped(s) && Relates(read, s) && t.kind == ParenthesisClose
    ensures ShuntStep(s, t).Failure? <==> Net(read) == 0
    ensures ShuntStep(s, t).Success? ==>
      Shaped(ShuntStep(s, t).value) && Relates(read + [t], ShuntStep(s, t).value)
  {
    if OpenIndex(s.holding).None? {
      CloseUnopened(read, s, t);
    } else {
      CloseOpened(read, s, t);
    }
  }

  /** A closing parenthesis with no open one on the stack: nothing was left unclosed. */
  lemma CloseUnopened(read: seq<Token>, s: Shunt, t: Token)
    requires Relates(read, s) && t.kind == ParenthesisClose && OpenIndex(s.holding).None?
    ensures ShuntStep(s, t).Failure? && Net(read) == 0
  {
    KeepNone(s.holding, IsOpenKind);
  }

  /** A closing parenthesis with an open one on the stack closes it. */
  lemma CloseOpened(read: seq<Token>, s: Shunt, t: Token)
    requires Shaped(s) && Relates(read, s) && t.kind == ParenthesisClose && OpenIndex(s.holding).Some?
    ensures ShuntStep(s, t).Success? && Net(read) > 0
    ensures Shaped(ShuntStep(s, t).value) && Relates(read + [t], ShuntStep(s, t).value)
  {
    PopToOpenFacts(s, t);
    var (h, o) := PopToOpen(s.holding, s.output).value;
    CloseStepValue(s, t, h, o);
    ClosedRelates(read, s, t, h, o);
  }

  lemma CloseStepValue(s: Shunt, t: Token, h: seq<Token>, o: seq<Token>)
    requires t.kind == ParenthesisClose && PopToOpen(s.holding, s.output) == Success((h, o))
    ensures ShuntStep(s, t) == Success(Shunt(h, o, t))
  {
  }

  lemma ClosedRelates(read: seq<Token>, s: Shunt, t: Token, h: seq<Token>, o: seq<Token>)
    requires Relates(read, s) && t.kind == ParenthesisClose
    requires Keep(o, IsOperand) == Keep(s.output, IsOperand)
    requires |Keep(o, IsOperatorKind)| + |Keep(h, IsOperatorKind)| ==
      |Keep(s.output, IsOperatorKind)| + |Keep(s.holding, IsOperatorKind)|
    requires |Keep(h, IsOpenKind)| + 1 == |Keep(s.holding, IsOpenKind)|
    ensures Net(read) > 0 && Relates(read + [t], Shunt(h, o, t))
  {
    ReadOne(read, t, IsOperand);
    ReadOne(read, t, IsOperatorKind);
  }

  /** What popping down to the nearest open parenthesis does to a reachable state. */
  lemma PopToOpenFacts(s: Shunt, prev: Token)
    requires Shaped(s) && OpenIndex(s.holding).Some?
    ensures PopToOpen(s.holding, s.output).Success?
    ensures var (h, o) := PopToOpen(s.holding, s.output).value;
      Shaped(Shunt(h, o, prev)) &&
      Keep(o, IsOperand) == Keep(s.output, IsOperand) &&
      |Keep(o, IsOperatorKind)| + |Keep(h, IsOperatorKind)| ==
        |Keep(s.output, IsOperatorKind)| + |Keep(s.holding, IsOperatorKind)| &&
      |Keep(h, IsOpenKind)| + 1 == |Keep(s.holding, IsOpenKind)|
  {
    var k := OpenIndex(s.holding).value;
    var h := s.holding;
    forall j | k + 1 <= j < |h| ensures h[j].kind == Operator {
    }
    MoveTopOperands(h, s.output, k + 1);
    MoveTopOperators(h, s.output, k + 1);
    MoveTopOpens(h, k + 1);
    MovedShape(s.output, h, k + 1);
    DropOpen(h, k);
    PrefixShaped(h, k, s.output + Reversed(h[k + 1..]), prev);
  }

  /** Dropping the open parenthesis at index `k` from the top of `h[..k+1]`. */
  lemma DropOpen(h: seq<Token>, k: nat)
    requires k < |h| && h[k].kind == ParenthesisOpen
    ensures Keep(h[..k + 1], IsOperatorKind) == Keep(h[..k], IsOperatorKind)
    ensures |Keep(h[..k + 1], IsOpenKind)| == |Keep(h[..k], IsOpenKind)| + 1
  {
    assert h[..k + 1][..k] == h[..k];
  }

  lemma PrefixShaped(h: seq<Token>, k: nat, o: seq<Token>, prev: Token)
    requires k <= |h|
    requires forall j :: 0 <= j < |h| ==> h[j].kind == Operator || h[j].kind == ParenthesisOpen
    requires Ascending(h)
    requires forall j :: 0 <= j < |o| ==> o[j].kind != ParenthesisOpen && o[j].kind != ParenthesisClose
    ensures Shaped(Shunt(h[..k], o, prev))
  {
    assert forall j :: 0 <= j < k ==> h[..k][j] == h[j];
  }

  lemma KeepLast(ts: seq<Token>, p: TokenKind -> bool)
    requires |ts| > 0
    ensures Keep(ts, p) == Keep(ts[..|ts| - 1], p) + (if p(ts[|ts| - 1].kind) then [ts[|ts| - 1]] else [])
  {
  }

  lemma OtherStep(read: seq<Token>, s: Shunt, t: Token)
    requires Shaped(s) && Relates(read, s)
    requires !IsOperand(t.kind) && t.kind != Operator && t.kind != ParenthesisOpen && t.kind != ParenthesisClose
    ensures ShuntStep(s, t) == Success(s.(prev := t))
    ensures Relates(read + [t], s.(prev := t))
  {
    ReadOne(read, t, IsOperand);
    ReadOne(read, t, IsOperatorKind);
  }

  /** One iteration of the first loop keeps the shape and the relation to the
      tokens read, and fails exactly when the token closes a bracket that was
      never opened. */
  lemma ShuntStepKeeps(read: seq<Token>, s: Shunt, t: Token)
    requires Shaped(s) && Relates(read, s)
    ensures ShuntStep(s, t).Failure? <==> Net(read + [t]) < 0
    ensures ShuntStep(s, t).Success? ==>
      Shaped(ShuntStep(s, t).value) && Relates(read + [t], ShuntStep(s, t).value)
  {
    ReadOne(read, t, IsOpenKind);
    if IsOperand(t.kind) {
      OperandStep(read, s, t);
    } else if t.kind == Operator {
      OperatorStep(read, s, t);
    } else if t.kind == ParenthesisOpen {
      OpenStep(read, s, t);
    } else if t.kind == ParenthesisClose {
      CloseStep(read, s, t);
    } else {
      OtherStep(read, s, t);
    }
  }

  /** The step on token `i`, stated about the prefix up to and including it. */
  lemma ShuntStepAt(tokens: seq<Token>, i: nat, s: Shunt)
    requires i < |tokens| && Shaped(s) && Relates(tokens[..i], s)
    ensures ShuntStep(s, tokens[i]).Failure? <==> Net(tokens[..i + 1]) < 0
    ensures ShuntStep(s, tokens[i]).Success? ==>
      Shaped(ShuntStep(s, tokens[i]).value) && Relates(tokens[..i + 1], ShuntStep(s, tokens[i]).value)
  {
    assert tokens[..i + 1] == tokens[..i] + [tokens[i]];
    ShuntStepKeeps(tokens[..i], s, tokens[i]);
  }

  /** No prefix of `tokens` longer than `i` closes more brackets than it opens. */
  predicate PrefixesBalanced(tokens: seq<Token>, i: nat) {
    forall m :: i < m <= |tokens| ==> Net(tokens[..m]) >= 0
  }

  lemma PrefixesBalancedNext(tokens: seq<Token>, i: nat)
    requires i < |tokens|
    ensures PrefixesBalanced(tokens, i) <==> Net(tokens[..i + 1]) >= 0 && PrefixesBalanced(tokens, i + 1)
  {
  }

  /** The rest of the first loop succeeds exactly when no prefix of the tokens
      closes more brackets than it opens ... */
  lemma {:induction false} ShuntFromFails(tokens: seq<Token>, i: nat, s: Shunt)
    requires i <= |tokens| && Shaped(s) && Relates(tokens[..i], s)
    ensures ShuntFrom(tokens, i, s).Success? <==> PrefixesBalanced(tokens, i)
    decreases |tokens| - i
  {
    if i < |tokens| {
      ShuntStepAt(tokens, i, s);
      PrefixesBalancedNext(tokens, i);
      match ShuntStep(s, tokens[i])
      case Failure(_) =>
      case Success(s') =>
        ShuntFromFails(tokens, i + 1, s');
    }
  }

  /** ... and then ends in a state related to all the tokens. */
  lemma {:induction false} ShuntFromKeeps(tokens: seq<Token>, i: nat, s: Shunt)
    requires i <= |tokens| && Shaped(s) && Relates(tokens[..i], s)
    ensures ShuntFrom(tokens, i, s).Success? ==>
      Shaped(ShuntFrom(tokens, i, s).value) && Relates(tokens, ShuntFrom(tokens, i, s).value)
    decreases |tokens| - i
  {
    if i == |tokens| {
      assert tokens[..i] == tokens;
    } else {
      ShuntStepAt(tokens, i, s);
      match ShuntStep(s, tokens[i])
      case Failure(_) =>
      case Success(s') =>
        ShuntFromKeeps(tokens, i + 1, s');
    }
  }

  /** Keep finds nothing exactly when no token has the kind. */
  lemma {:induction false} KeepEmpty(ts: seq<Token>, p: TokenKind -> bool)
    ensures Keep(ts, p) == [] <==> forall j :: 0 <= j < |ts| ==> !p(ts[j].kind)
  {
    if |ts| > 0 {
      KeepEmpty(ts[..|ts| - 1], p);
      assert forall j :: 0 <= j < |ts| - 1 ==> ts[..|ts| - 1][j] == ts[j];
    }
  }

  /** Draining the holding stack of a reachable state onto its output keeps
      the operands and operators ... */
  lemma DrainKeeps(s: Shunt)
    requires Shaped(s)
    ensures var r := s.output + Reversed(s.holding);
      Keep(r, IsOperand) == Keep(s.output, IsOperand) &&
      |Keep(r, IsOperatorKind)| == |Keep(s.output, IsOperatorKind)| + |Keep(s.holding, IsOperatorKind)|
  {
    var h := s.holding;
    assert h[0..] == h && h[..0] == [];
    MoveTopOperands(h, s.output, 0);
    MoveTopOperators(h, s.output, 0);
  }

  /** ... and leaves no closing parenthesis and the open ones of the stack. */
  lemma DrainBrackets(s: Shunt)
    requires Shaped(s)
    ensures var r := s.output + Reversed(s.holding);
      Keep(r, IsCloseKind) == [] && |Keep(r, IsOpenKind)| == |Keep(s.holding, IsOpenKind)|
  {
    var h := s.holding;
    KeepAppend(s.output, Reversed(h), IsOpenKind);
    KeepAppend(s.output, Reversed(h), IsCloseKind);
    CountReversed(h, IsOpenKind);
    KeepEmpty(s.output, IsOpenKind);
    KeepEmpty(s.output, IsCloseKind);
    KeepEmpty(Reversed(h), IsCloseKind);
  }

  lemma FromStart(tokens: seq<Token>, s: Shunt)
    requires s.holding == [] && s.output == []
    ensures ShuntFrom(tokens, 0, s).Success? <==> PrefixesBalanced(tokens, 0)
    ensures ShuntFrom(tokens, 0, s).Success? ==>
      var r := ShuntFrom(tokens, 0, s).value.output + Reversed(ShuntFrom(tokens, 0, s).value.holding);
      Keep(r, IsOperand) == Keep(tokens, IsOperand) &&
      |Keep(r, IsOperatorKind)| == |Keep(tokens, IsOperatorKind)| &&
      Keep(r, IsCloseKind) == [] &&
      |Keep(r, IsOpenKind)| == Net(tokens)
  {
    assert tokens[..0] == [];
    ShuntFromFails(tokens, 0, s);
    ShuntFromKeeps(tokens, 0, s);
    if ShuntFrom(tokens, 0, s).Success? {
      DrainKeeps(ShuntFrom(tokens, 0, s).value);
      DrainBrackets(ShuntFrom(tokens, 0, s).value);
    }
  }

  /** Reordering fails exactly when some prefix of the tokens closes a bracket
      it has not opened. */
  lemma ReorderFailsIffUnopenedClose(tokens: seq<Token>)
    ensures Reorder(tokens).Success? <==> PrefixesBalanced(tokens, 0)
  {
    FromStart(tokens, Initial);
  }

  /** The postfix sequence holds the operands in their original order, as many
      operators as the input, no closing parenthesis, and one opening
      parenthesis for each bracket the input leaves open. */
  lemma ReorderKeepsTokens(tokens: seq<Token>)
    requires Reorder(tokens).Success?
    ensures Keep(Reorder(tokens).value, IsOperand) == Keep(tokens, IsOperand)
    ensures |Keep(Reorder(tokens).value, IsOperatorKind)| == |Keep(tokens, IsOperatorKind)|
    ensures Keep(Reorder(tokens).value, IsCloseKind) == []
    ensures |Keep(Reorder(tokens).value, IsOpenKind)| == Net(tokens)
  {
    FromStart(tokens, Initial);
  }

  /** An operator with the unary rename undone: "u-" and "u+" are spelled "-" and "+". */
  function Plain(t: Token): Token {
    if t.text == "u-" then t.(text := "-") else if t.text == "u+" then t.(text := "+") else t
  }

  /** The operators of `ts`, counted with multiplicity, with the unary rename undone. */
  function OperatorsOf(ts: seq<Token>): multiset<Token> {
    if |ts| == 0 then multiset{}
    else OperatorsOf(ts[..|ts| - 1]) + (if ts[|ts| - 1].kind == Operator then multiset{Plain(ts[|ts| - 1])} else multiset{})
  }

  lemma {:induction false} OperatorsOfAppend(a: seq<Token>, b: seq<Token>)
    ensures OperatorsOf(a + b) == OperatorsOf(a) + OperatorsOf(b)
    decreases |b|
  {
    if |b| > 0 {
      assert (a + b)[..|a + b| - 1] == a + b[..|b| - 1];
      OperatorsOfAppend(a, b[..|b| - 1]);
    } else {
      assert a + b == a;
    }
  }

  lemma {:induction false} OperatorsOfReversed(ts: seq<Token>)
    ensures OperatorsOf(Reversed(ts)) == OperatorsOf(ts)
  {
    if |ts| > 0 {
      var last, init := ts[|ts| - 1], ts[..|ts| - 1];
      assert Reversed(ts) == [last] + Reversed(init);
      OperatorsOfAppend([last], Reversed(init));
      OperatorsOfReversed(init);
      assert [last][..0] == [];
    }
  }

  /** Renaming a sign to its unary form does not change its plain spelling. */
  lemma PlainUnary(prev: Token, t: Token)
    ensures Plain(Unary(prev, t)) == Plain(t)
  {
    if Unary(prev, t) != t {
      if t.text == "-" {
        assert Unary(prev, t).text == "u-";
      } else {
        assert Unary(prev, t).text == "u+";
      }
    }
  }

  /** Moving the top of the holding stack to the output keeps every operator. */
  lemma MoveTopKeepsOperators(holding: seq<Token>, output: seq<Token>, k: nat)
    requires k <= |holding|
    ensures OperatorsOf(output + Reversed(holding[k..])) + OperatorsOf(holding[..k]) ==
      OperatorsOf(output) + OperatorsOf(holding)
  {
    assert holding == holding[..k] + holding[k..];
    OperatorsOfAppend(holding[..k], holding[k..]);
    OperatorsOfAppend(output, Reversed(holding[k..]));
    OperatorsOfReversed(holding[k..]);
  }

  /** The operators of a state: those already output and those still held. */
  predicate OperatorsKept(read: seq<Token>, s: Shunt) {
    OperatorsOf(s.output) + OperatorsOf(s.holding) == OperatorsOf(read)
  }

  lemma OperatorsOfSingle(t: Token)
    ensures OperatorsOf([t]) == if t.kind == Operator then multiset{Plain(t)} else multiset{}
  {
    assert [t][..0] == [];
  }

  /** A sign renamed to its unary form counts as the sign it was read as. */
  lemma UnaryKeepsOperator(prev: Token, t: Token)
    requires t.kind == Operator
    ensures OperatorsOf([Unary(prev, t)]) == OperatorsOf([t])
  {
    PlainUnary(prev, t);
    OperatorsOfSingle(t);
    OperatorsOfSingle(Unary(prev, t));
  }

  lemma OperatorStepKeepsOperators(read: seq<Token>, s: Shunt, t: Token)
    requires OperatorsKept(read, s) && t.kind == Operator
    ensures OperatorsKept(read + [t], ShuntStep(s, t).value)
  {
    var k := PopPoint(s.holding, Precedence(t.text));
    var u := Unary(s.prev, t);
    var h, o := s.holding[..k], s.output + Reversed(s.holding[k..]);
    assert ShuntStep(s, t).value == Shunt(h + [u], o, u);
    MoveTopKeepsOperators(s.holding, s.output, k);
    UnaryKeepsOperator(s.prev, t);
    OperatorsOfAppend(read, [t]);
    OperatorsOfAppend(h, [u]);
  }

  /** Dropping the nearest open parenthesis and moving what lies above it to
      the output keeps every operator. */
  lemma DropOpenKeepsOperators(holding: seq<Token>, output: seq<Token>, k: nat)
    requires k < |holding| && holding[k].kind != Operator
    ensures OperatorsOf(output + Reversed(holding[k + 1..])) + OperatorsOf(holding[..k]) ==
      OperatorsOf(output) + OperatorsOf(holding)
  {
    MoveTopKeepsOperators(holding, output, k + 1);
    NonOperatorAdds(holding[..k + 1], k);
    assert holding[..k + 1][..k] == holding[..k];
  }

  /** A last token that is no operator adds nothing to the count. */
  lemma NonOperatorAdds(ts: seq<Token>, k: nat)
    requires k + 1 == |ts| && ts[k].kind != Operator
    ensures OperatorsOf(ts) == OperatorsOf(ts[..k])
  {
  }

  lemma CloseStepKeepsOperators(read: seq<Token>, s: Shunt, t: Token)
    requires OperatorsKept(read, s) && t.kind == ParenthesisClose && ShuntStep(s, t).Success?
    ensures OperatorsKept(read + [t], ShuntStep(s, t).value)
  {
    var k := OpenIndex(s.holding).value;
    var h, o := s.holding[..k], s.output + Reversed(s.holding[k + 1..]);
    assert ShuntStep(s, t).value == Shunt(h, o, t);
    DropOpenKeepsOperators(s.holding, s.output, k);
    OperatorsOfAppend(read, [t]);
    OperatorsOfSingle(t);
    assert OperatorsOf(o) + OperatorsOf(h) == OperatorsOf(read + [t]);
  }

  lemma OtherStepKeepsOperators(read: seq<Token>, s: Shunt, t: Token)
    requires OperatorsKept(read, s) && t.kind != Operator && t.kind != ParenthesisClose
    ensures OperatorsKept(read + [t], ShuntStep(s, t).value)
  {
    OperatorsOfSingle(t);
    OperatorsOfAppend(read, [t]);
    if IsOperand(t.kind) {
      OperatorsOfAppend(s.output, [t]);
    } else if t.kind == ParenthesisOpen {
      OperatorsOfAppend(s.holding, [t]);
    }
  }

  /** Every iteration of the first loop keeps every operator read, in the
      output or on the holding stack. */
  lemma ShuntStepKeepsOperators(read: seq<Token>, s: Shunt, t: Token)
    requires OperatorsKept(read, s) && ShuntStep(s, t).Success?
    ensures OperatorsKept(read + [t], ShuntStep(s, t).value)
  {
    if t.kind == Operator {
      OperatorStepKeepsOperators(read, s, t);
    } else if t.kind == ParenthesisClose {
      CloseStepKeepsOperators(read, s, t);
    } else {
      OtherStepKeepsOperators(read, s, t);
    }
  }

  lemma {:induction false} ShuntFromKeepsOperators(tokens: seq<Token>, i: nat, s: Shunt)
    requires i <= |tokens| && OperatorsKept(tokens[..i], s)
    ensures ShuntFrom(tokens, i, s).Success? ==> OperatorsKept(tokens, ShuntFrom(tokens, i, s).value)
    decreases |tokens| - i
  {
    if i == |tokens| {
      assert tokens[..i] == tokens;
    } else if ShuntStep(s, tokens[i]).Success? {
      assert tokens[..i + 1] == tokens[..i] + [tokens[i]];
      ShuntStepKeepsOperators(tokens[..i], s, tokens[i]);
      ShuntFromKeepsOperators(tokens, i + 1, ShuntStep(s, tokens[i]).value);
    }
  }

  /** The postfix sequence holds exactly the operators of the input, each as
      often as there, once the unary rename is undone. */
  lemma ReorderKeepsOperators(tokens: seq<Token>)
    requires Reorder(tokens).Success?
    ensures OperatorsOf(Reorder(tokens).value) == OperatorsOf(tokens)
  {
    assert tokens[..0] == [];
    ShuntFromKeepsOperators(tokens, 0, Initial);
    var s := ShuntFrom(tokens, 0, Initial).value;
    OperatorsOfAppend(s.output, Reversed(s.holding));
    OperatorsOfReversed(s.holding);
  }

  /** The tokens of a lexed line reorder into postfix without any parenthesis. */
  lemma LexedLineReordersWithoutBrackets(input: string)
    requires Lex(input).Success? && Reorder(Lex(input).value).Success?
    ensures var r := Reorder(Lex(input).value).value;
      forall j :: 0 <= j < |r| ==> r[j].kind != ParenthesisOpen && r[j].kind != ParenthesisClose
  {
    var r := Reorder(Lex(input).value).value;
    LexProducesWellFormedTokens(input);
    ReorderKeepsTokens(Lex(input).value);
    KeepEmpty(r, IsOpenKind);
    KeepEmpty(r, IsCloseKind);
  }
}
