/** The lexer: a two-level state machine that turns a line of text into tokens,
    and the static operator and keyword tables. */
module Parser {
  import opened Wrappers
  import opened Guard
  import opened Tokens
  import Operators

  /** Parser::s_Operators: spelling to type, precedence and arity; "u-" and "u+"
      are the unary forms the evaluator renames "-" and "+" to. */
  const OperatorTable: map<string, Operators.Operator> := map[
    "=" := Operators.Operator(Operators.Assign, 0, 2),
    "==" := Operators.Operator(Operators.Equals, 1, 2),
    "-" := Operators.Operator(Operators.Subtraction, 2, 2),
    "+" := Operators.Operator(Operators.Addition, 2, 2),
    "*" := Operators.Operator(Operators.Multiplication, 3, 2),
    "/" := Operators.Operator(Operators.Division, 3, 2),
    "u-" := Operators.Operator(Operators.Subtraction, Operators.MAX_PRECEDENCE, 1),
    "u+" := Operators.Operator(Operators.Addition, Operators.MAX_PRECEDENCE, 1)
  ]

  /** The names of Parser::s_Keywords (the Keyword records they map to are not part of this model). */
  const Keywords: set<string> := {"if", "while", "for"}

  /** Parser::State, without the base-8 state that no transition reaches. */
  datatype State =
    | NewToken
    | CompleteToken
    | InNumericBaseUnknown
    | InNumericBase16
    | InNumericBase10
    | InNumericBase2
    | InString
    | InOperator
    | InSymbol

  /** Steps that consume no character go from a per-kind state to CompleteToken and
      from CompleteToken to NewToken, so this rank falls on each of them. */
  function Rank(s: State): nat {
    match s
    case NewToken => 0
    case CompleteToken => 1
    case _ => 2
  }

  /** The lexer's variables between two iterations: the current state, the token
      being collected, the two balance counters and the tokens emitted so far. */
  datatype Lexer = Lexer(state: State, token: Token, parentheses: int, quotes: int, tokens: seq<Token>)

  const Start := Lexer(NewToken, Blank, 0, 0, [])

  /** One iteration either moves on (consuming the character or not) or throws. */
  datatype Transition = Next(lexer: Lexer, advance: bool) | Stop(error: Error)

  /** The StartToken lambda: set the kind, maybe push the character, pick the next state. */
  function StartToken(l: Lexer, kind: TokenKind, next: State, c: char, push: bool): Lexer {
    l.(token := Token(kind, if push then l.token.text + [c] else l.token.text), state := next)
  }

  /** The AppendChar lambda, without the advance (which the transition records). */
  function AppendChar(l: Lexer, next: State, c: char): Lexer {
    l.(token := l.token.(text := l.token.text + [c]), state := next)
  }

  /** A finished symbol becomes a keyword or a Boolean literal when its text says so. */
  function Reclassify(t: Token): Token {
    if t.text in Keywords then t.(kind := Keyword)
    else if t.text == "true" || t.text == "false" then t.(kind := LiteralBoolean)
    else t
  }

  /** First-character analysis: whitespace is skipped, otherwise the classes are
      tried in a fixed order and the first that admits `c` opens a token. */
  function StartState(l: Lexer, c: char): Transition {
    if IsWhitespace(c) then Next(l, true)
    else if IsDigit(c) then
      if c == '0' then Next(StartToken(l, LiteralNumericBaseUnknown, InNumericBaseUnknown, c, false), true)
      else Next(StartToken(l, LiteralNumericBase10, InNumericBase10, c, true), true)
    else if IsOperator(c) then Next(StartToken(l, Operator, InOperator, c, true), true)
    else if IsQuote(c) then
      Next(StartToken(l, LiteralString, InString, c, false).(quotes := l.quotes + 1), true)
    else if IsSymbol(c) then Next(StartToken(l, Symbol, InSymbol, c, true), true)
    else if IsOpen(c) then
      Next(StartToken(l, ParenthesisOpen, CompleteToken, c, true).(parentheses := l.parentheses + 1), true)
    else if IsClose(c) then
      Next(StartToken(l, ParenthesisClose, CompleteToken, c, true).(parentheses := l.parentheses - 1), true)
    else if c == ',' then Next(StartToken(l, Comma, CompleteToken, c, true), true)
    else if c == ';' then Next(StartToken(l, Semicolon, CompleteToken, c, true), true)
    else Stop(LexError("Unexpected character: " + [c]))
  }

  /** A numeric literal continues while `digit` admits the character; a symbol
      character glued to it is an error; anything else completes it. */
  function NumberState(l: Lexer, c: char, digit: bool): Transition {
    if digit then Next(AppendChar(l, l.state, c), true)
    else if IsSymbol(c) then Stop(LexError("Invalid numeric literal or symbol"))
    else Next(l.(state := CompleteToken), false)
  }

  /** After a leading '0' the next character must be a base prefix. */
  function PrefixState(l: Lexer, c: char): Transition {
    if IsPrefix(c) then
      if c == 'x' || c == 'X' then
        Next(l.(token := l.token.(kind := LiteralNumericBase16), state := InNumericBase16), true)
      else if c == 'b' || c == 'B' then
        Next(l.(token := l.token.(kind := LiteralNumericBase2), state := InNumericBase2), true)
      else
        Next(l, true)
    else Stop(LexError("Unknown prefix for numeric literal"))
  }

  /** Inside a string every character but a quote is text; a quote of either kind ends it. */
  function StringState(l: Lexer, c: char): Transition {
    if IsQuote(c) then Next(l.(quotes := l.quotes - 1, state := CompleteToken), true)
    else Next(AppendChar(l, InString, c), true)
  }

  /** Greedy longest match against the operator table. */
  function OperatorState(l: Lexer, c: char): Transition {
    if IsOperator(c) then
      if l.token.text + [c] in OperatorTable then Next(AppendChar(l, InOperator, c), true)
      else if l.token.text in OperatorTable then Next(l.(state := CompleteToken), false)
      else Next(AppendChar(l, InOperator, c), true)
    else if l.token.text in OperatorTable then Next(l.(state := CompleteToken), false)
    else Stop(LexError("Invalid operator was found: " + l.token.text))
  }

  /** A symbol continues over symbol characters and digits; the first other
      character completes it, after reclassification. */
  function SymbolState(l: Lexer, c: char): Transition {
    if IsSymbol(c) || IsDigit(c) then Next(AppendChar(l, InSymbol, c), true)
    else Next(l.(token := Reclassify(l.token), state := CompleteToken), false)
  }

  /** Emits the collected token and resets the buffer, without consuming `c`. */
  function CompleteState(l: Lexer): Transition {
    Next(Lexer(NewToken, Blank, l.parentheses, l.quotes, l.tokens + [l.token]), false)
  }

  /** One iteration of the lexer's loop on the character `c`. */
  function Step(l: Lexer, c: char): (r: Transition)
    ensures r.Next? && !r.advance ==> Rank(r.lexer.state) < Rank(l.state)
  {
    match l.state
    case NewToken => StartState(l, c)
    case InNumericBase10 => NumberState(l, c, IsDigit(c))
    case InNumericBaseUnknown => PrefixState(l, c)
    case InNumericBase16 => NumberState(l, c, IsHexDigit(c))
    case InNumericBase2 => NumberState(l, c, IsHexDigit(c))
    case InString => StringState(l, c)
    case InOperator => OperatorState(l, c)
    case InSymbol => SymbolState(l, c)
    case CompleteToken => CompleteState(l)
  }

  /** Runs the loop from position `i` to the end of the input. */
  function Scan(input: string, i: nat, l: Lexer): Result<Lexer>
    requires i <= |input|
    decreases |input| - i, Rank(l.state)
  {
    if i == |input| then Success(l)
    else
      match Step(l, input[i])
      case Stop(e) => Failure(e)
      case Next(l', advance) => if advance then Scan(input, i + 1, l') else Scan(input, i, l')
  }

  /** The tokens emitted once the input is exhausted: the partial token is kept only if it has text. */
  function Emitted(l: Lexer): seq<Token> {
    if |l.token.text| > 0 then l.tokens + [l.token] else l.tokens
  }

  /** The checks after the loop. */
  function Finish(l: Lexer): Result<seq<Token>> {
    if l.parentheses != 0 then Failure(LexError("Parentheses were not balanced"))
    else if l.quotes != 0 then Failure(LexError("Quotes were not balanced"))
    else Success(Emitted(l))
  }

  /** What Parser::Tokenise appends to an empty token vector, or the error it throws. */
  function Lex(input: string): Result<seq<Token>> {
    var l :- Scan(input, 0, Start);
    Finish(l)
  }

  /** Parser::Tokenise: the loop over the input. Each iteration runs the case of
      the current state (Step) and writes its outcome back into the loop's
      variables; a step that does not consume leaves `i` where it is. */
  method Tokenise(input: string) returns (r: Result<seq<Token>>)
    ensures r == Lex(input)
  {
    var state := NewToken;
    var token := Blank;
    var parentheses, quotes := 0, 0;
    var tokens: seq<Token> := [];
    var i := 0;
    while i < |input|
      invariant i <= |input|
      invariant Scan(input, i, Lexer(state, token, parentheses, quotes, tokens)) == Scan(input, 0, Start)
      decreases |input| - i, Rank(state)
    {
      match Step(Lexer(state, token, parentheses, quotes, tokens), input[i]) {
        case Stop(e) =>
          return Failure(e);
        case Next(l, advance) =>
          state, token, parentheses, quotes, tokens := l.state, l.token, l.parentheses, l.quotes, l.tokens;
          if advance {
            i := i + 1;
          }
      }
    }

    if parentheses != 0 {
      return Failure(LexError("Parentheses were not balanced"));
    }
    if quotes != 0 {
      return Failure(LexError("Quotes were not balanced"));
    }
    if |token.text| > 0 {
      tokens := tokens + [token];
    }
    return Success(tokens);
  }
}
