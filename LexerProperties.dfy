/** What every run of the lexer guarantees about the tokens it emits. */
module LexerProperties {
  import opened Wrappers
  import opened Guard
  import opened Tokens
  import opened Parser

  /** The spellings an operator token can have: the binary entries of the operator table. */
  predicate IsBinarySpelling(s: string) {
    s == "=" || s == "==" || s == "-" || s == "+" || s == "*" || s == "/"
  }

  predicate AllChars(s: string, p: char -> bool) {
    forall k :: 0 <= k < |s| ==> p(s[k])
  }

  predicate SymbolText(s: string) {
    |s| > 0 && !IsDigit(s[0]) && AllChars(s, IsSymbol)
  }

  /** The shape of each kind of token the lexer emits. */
  predicate WellFormed(t: Token) {
    match t.kind
    case None => false
    case LiteralNumericBaseUnknown => false
    case LiteralNumericBase10 => |t.text| > 0 && t.text[0] != '0' && AllChars(t.text, IsDigit)
    case LiteralNumericBase16 => AllChars(t.text, IsHexDigit)
    case LiteralNumericBase2 => AllChars(t.text, IsHexDigit)
    case LiteralString => !exists k :: 0 <= k < |t.text| && IsQuote(t.text[k])
    case LiteralBoolean => t.text == "true" || t.text == "false"
    case Keyword => t.text in Keywords
    case Symbol => SymbolText(t.text)
    case Operator => IsBinarySpelling(t.text)
    case ParenthesisOpen => |t.text| == 1 && IsOpen(t.text[0])
    case ParenthesisClose => |t.text| == 1 && IsClose(t.text[0])
    case Comma => t.text == ","
    case Semicolon => t.text == ";"
  }

  predicate AllWellFormed(ts: seq<Token>) {
    forall k {:trigger WellFormed(ts[k])} :: 0 <= k < |ts| ==> WellFormed(ts[k])
  }

  /** The bracket balance of one token and of a token sequence. */
  function NetOf(t: Token): int {
    if t.kind == ParenthesisOpen then 1 else if t.kind == ParenthesisClose then -1 else 0
  }

  function Net(ts: seq<Token>): int {
    if |ts| == 0 then 0 else Net(ts[..|ts| - 1]) + NetOf(ts[|ts| - 1])
  }

  /** The partial token each state holds. */
  predicate Holds(l: Lexer) {
    match l.state
    case NewToken => l.token == Blank
    case CompleteToken => WellFormed(l.token)
    case InNumericBaseUnknown => l.token == Token(LiteralNumericBaseUnknown, "")
    case InNumericBase10 => l.token.kind == LiteralNumericBase10 && WellFormed(l.token)
    case InNumericBase16 => l.token.kind == LiteralNumericBase16 && WellFormed(l.token)
    case InNumericBase2 => l.token.kind == LiteralNumericBase2 && WellFormed(l.token)
    case InString => l.token.kind == LiteralString && WellFormed(l.token)
    case InOperator => l.token.kind == Operator && WellFormed(l.token)
    case InSymbol => l.token.kind == Symbol && SymbolText(l.token.text)
  }

  /** What holds between any two iterations of the lexer's loop. */
  predicate Inv(l: Lexer) {
    AllWellFormed(l.tokens) &&
    Holds(l) &&
    l.parentheses == Net(l.tokens) + NetOf(l.token) &&
    (l.state == InString ==> l.quotes == 1) &&
    (l.state != InString ==> l.quotes == 0)
  }

  lemma NetAppend(ts: seq<Token>, t: Token)
    ensures Net(ts + [t]) == Net(ts) + NetOf(t)
  {
    assert (ts + [t])[..|ts|] == ts;
  }

  lemma StartStatePreservesInv(l: Lexer, c: char, l': Lexer)
    requires Inv(l) && l.state == NewToken
    requires StartState(l, c).Next? && StartState(l, c).lexer == l'
    ensures Inv(l')
  {
    ClassesAreDisjoint(c);
    NumericClassesAreSymbolClass(c);
    if IsWhitespace(c) {
    } else if c == '0' {
      StartZeroInv(l, c);
    } else if IsDigit(c) {
      StartDecimalInv(l, c);
    } else if IsOperator(c) {
      StartOperatorInv(l, c);
    } else if IsQuote(c) {
      StartQuoteInv(l, c);
    } else if IsSymbol(c) {
      StartSymbolInv(l, c);
    } else if IsOpen(c) {
      StartOpenInv(l, c);
    } else if IsClose(c) {
      StartCloseInv(l, c);
    } else if c == ',' {
      StartCommaInv(l, c);
    } else {
      assert c == ';';
      StartSemicolonInv(l, c);
    }
  }

  // One lemma per character class that opens a token: the class determines
  // the token, the next state and the change to the counters.

  lemma StartZeroInv(l: Lexer, c: char)
    requires Inv(l) && l.state == NewToken && c == '0'
    ensures StartState(l, c).Next? && Inv(StartState(l, c).lexer)
  {
    ClassesAreDisjoint(c);
    NumericClassesAreSymbolClass(c);
    var p := l.parentheses;
    assert StartState(l, c).lexer == Lexer(InNumericBaseUnknown, Token(LiteralNumericBaseUnknown, ""), p, 0, l.tokens);
    OpenedInv(l, Token(LiteralNumericBaseUnknown, ""), InNumericBaseUnknown, 0, 0);
  }

  lemma StartDecimalInv(l: Lexer, c: char)
    requires Inv(l) && l.state == NewToken && IsDigit(c) && c != '0'
    ensures StartState(l, c).Next? && Inv(StartState(l, c).lexer)
  {
    ClassesAreDisjoint(c);
    NumericClassesAreSymbolClass(c);
    var p := l.parentheses;
    assert Blank.text + [c] == [c];
    assert StartState(l, c).lexer == Lexer(InNumericBase10, Token(LiteralNumericBase10, [c]), p, 0, l.tokens);
    OpenedInv(l, Token(LiteralNumericBase10, [c]), InNumericBase10, 0, 0);
  }

  lemma StartOperatorInv(l: Lexer, c: char)
    requires Inv(l) && l.state == NewToken && IsOperator(c)
    ensures StartState(l, c).Next? && Inv(StartState(l, c).lexer)
  {
    ClassesAreDisjoint(c);
    NumericClassesAreSymbolClass(c);
    var p := l.parentheses;
    assert Blank.text + [c] == [c];
    assert StartState(l, c).lexer == Lexer(InOperator, Token(Operator, [c]), p, 0, l.tokens);
    OpenedInv(l, Token(Operator, [c]), InOperator, 0, 0);
  }

  lemma StartQuoteInv(l: Lexer, c: char)
    requires Inv(l) && l.state == NewToken && IsQuote(c)
    ensures StartState(l, c).Next? && Inv(StartState(l, c).lexer)
  {
    ClassesAreDisjoint(c);
    NumericClassesAreSymbolClass(c);
    var p := l.parentheses;
    assert StartState(l, c).lexer == Lexer(InString, Token(LiteralString, ""), p, 1, l.tokens);
    OpenedInv(l, Token(LiteralString, ""), InString, 0, 1);
  }

  lemma StartSymbolInv(l: Lexer, c: char)
    requires Inv(l) && l.state == NewToken && IsSymbol(c) && !IsDigit(c)
    ensures StartState(l, c).Next? && Inv(StartState(l, c).lexer)
  {
    ClassesAreDisjoint(c);
    NumericClassesAreSymbolClass(c);
    var p := l.parentheses;
    assert Blank.text + [c] == [c];
    assert StartState(l, c).lexer == Lexer(InSymbol, Token(Symbol, [c]), p, 0, l.tokens);
    OpenedInv(l, Token(Symbol, [c]), InSymbol, 0, 0);
  }

  lemma StartOpenInv(l: Lexer, c: char)
    requires Inv(l) && l.state == NewToken && IsOpen(c)
    ensures StartState(l, c).Next? && Inv(StartState(l, c).lexer)
  {
    ClassesAreDisjoint(c);
    NumericClassesAreSymbolClass(c);
    var p := l.parentheses;
    assert Blank.text + [c] == [c];
    assert StartState(l, c).lexer == Lexer(CompleteToken, Token(ParenthesisOpen, [c]), p + 1, 0, l.tokens);
    OpenedInv(l, Token(ParenthesisOpen, [c]), CompleteToken, 1, 0);
  }

  lemma StartCloseInv(l: Lexer, c: char)
    requires Inv(l) && l.state == NewToken && IsClose(c)
    ensures StartState(l, c).Next? && Inv(StartState(l, c).lexer)
  {
    ClassesAreDisjoint(c);
    NumericClassesAreSymbolClass(c);
    var p := l.parentheses;
    assert Blank.text + [c] == [c];
    assert StartState(l, c).lexer == Lexer(CompleteToken, Token(ParenthesisClose, [c]), p - 1, 0, l.tokens);
    OpenedInv(l, Token(ParenthesisClose, [c]), CompleteToken, -1, 0);
  }

  lemma StartCommaInv(l: Lexer, c: char)
    requires Inv(l) && l.state == NewToken && c == ','
    ensures StartState(l, c).Next? && Inv(StartState(l, c).lexer)
  {
    ClassesAreDisjoint(c);
    NumericClassesAreSymbolClass(c);
    var p := l.parentheses;
    assert Blank.text + [c] == [c];
    assert StartState(l, c).lexer == Lexer(CompleteToken, Token(Comma, [c]), p, 0, l.tokens);
    OpenedInv(l, Token(Comma, [c]), CompleteToken, 0, 0);
  }

  lemma StartSemicolonInv(l: Lexer, c: char)
    requires Inv(l) && l.state == NewToken && c == ';'
    ensures StartState(l, c).Next? && Inv(StartState(l, c).lexer)
  {
    ClassesAreDisjoint(c);
    NumericClassesAreSymbolClass(c);
    var p := l.parentheses;
    assert Blank.text + [c] == [c];
    assert StartState(l, c).lexer == Lexer(CompleteToken, Token(Semicolon, [c]), p, 0, l.tokens);
    OpenedInv(l, Token(Semicolon, [c]), CompleteToken, 0, 0);
  }

  /** Opening a token whose shape suits the next state keeps the invariant. */
  lemma OpenedInv(l: Lexer, t: Token, next: State, dp: int, quotes: int)
    requires Inv(l) && l.state == NewToken
    requires Holds(Lexer(next, t, 0, 0, [])) && NetOf(t) == dp
    requires quotes == if next == InString then 1 else 0
    ensures Inv(Lexer(next, t, l.parentheses + dp, quotes, l.tokens))
  {
  }

  /** The operator table holds the binary spellings and the two unary names. */
  lemma OperatorTableKeys(s: string)
    ensures s in OperatorTable <==> IsBinarySpelling(s) || s == "u-" || s == "u+"
  {
  }

  /** The only operator spelling that extends another is "==". */
  lemma ExtendSpelling(s: string, c: char)
    requires IsBinarySpelling(s)
    ensures s + [c] in OperatorTable <==> s == "=" && c == '='
  {
    OperatorTableKeys(s + [c]);
    if s + [c] == "==" {
      assert s == (s + [c])[..1];
    }
    assert s + [c] != "u-" && s + [c] != "u+" by {
      if |s| == 1 {
        assert (s + [c])[0] == s[0];
      }
    }
  }

  lemma OperatorStatePreservesInv(l: Lexer, c: char)
    requires Inv(l) && l.state == InOperator
    ensures OperatorState(l, c).Next? ==> Inv(OperatorState(l, c).lexer)
  {
    assert IsBinarySpelling(l.token.text);
    OperatorTableKeys(l.token.text);
    ExtendSpelling(l.token.text, c);
    if IsOperator(c) && l.token.text + [c] in OperatorTable {
      OperatorExtends(l, c, OperatorState(l, c).lexer);
    } else {
      assert OperatorState(l, c) == Next(l.(state := CompleteToken), false);
    }
  }

  /** "=" followed by '=' grows into "==". */
  lemma OperatorExtends(l: Lexer, c: char, l': Lexer)
    requires Inv(l) && l.state == InOperator && l.token.text == "=" && c == '='
    requires l' == AppendChar(l, InOperator, c)
    ensures Inv(l')
  {
    assert l'.token.text == "==";
  }

  lemma CompleteStatePreservesInv(l: Lexer)
    requires Inv(l) && l.state == CompleteToken
    ensures Inv(CompleteState(l).lexer)
  {
    NetAppend(l.tokens, l.token);
  }

  lemma NumberStatePreservesInv(l: Lexer, c: char, digit: bool)
    requires Inv(l) && l.state in {InNumericBase10, InNumericBase16, InNumericBase2}
    requires l.state == InNumericBase10 ==> digit == IsDigit(c)
    requires l.state != InNumericBase10 ==> digit == IsHexDigit(c)
    ensures NumberState(l, c, digit).Next? ==> Inv(NumberState(l, c, digit).lexer)
  {
    if digit {
      DigitExtends(l, c);
    } else if !IsSymbol(c) {
      assert NumberState(l, c, digit).lexer == l.(state := CompleteToken);
    }
  }

  /** Appending an accepted digit keeps a numeric token well formed. */
  lemma DigitExtends(l: Lexer, c: char)
    requires Inv(l) && l.state in {InNumericBase10, InNumericBase16, InNumericBase2}
    requires l.state == InNumericBase10 ==> IsDigit(c)
    requires l.state != InNumericBase10 ==> IsHexDigit(c)
    ensures Inv(AppendChar(l, l.state, c))
  {
    var l' := AppendChar(l, l.state, c);
    var s := l.token.text;
    assert l'.token.text == s + [c];
    assert forall k :: 0 <= k < |s| ==> (s + [c])[k] == s[k];
    if l.state == InNumericBase10 {
      assert (s + [c])[0] == s[0];
    }
  }

  lemma SymbolStatePreservesInv(l: Lexer, c: char)
    requires Inv(l) && l.state == InSymbol
    ensures Inv(SymbolState(l, c).lexer)
  {
    NumericClassesAreSymbolClass(c);
    if IsSymbol(c) {
      SymbolExtends(l, c);
    } else {
      SymbolCompletes(l);
    }
  }

  /** A symbol character or a digit lengthens the symbol. */
  lemma SymbolExtends(l: Lexer, c: char)
    requires Inv(l) && l.state == InSymbol && IsSymbol(c)
    ensures Inv(AppendChar(l, InSymbol, c))
  {
    var s := l.token.text;
    assert forall k :: 0 <= k < |s| ==> (s + [c])[k] == s[k];
  }

  /** A finished symbol is well formed whatever it is reclassified as. */
  lemma SymbolCompletes(l: Lexer)
    requires Inv(l) && l.state == InSymbol
    ensures Inv(l.(token := Reclassify(l.token), state := CompleteToken))
  {
  }

  /** Every iteration keeps the invariant. */
  lemma StepPreservesInv(l: Lexer, c: char)
    requires Inv(l)
    ensures Step(l, c).Next? ==> Inv(Step(l, c).lexer)
  {
    match l.state
    case NewToken =>
      if Step(l, c).Next? {
        StartStatePreservesInv(l, c, Step(l, c).lexer);
      }
    case InNumericBase10 => NumberStatePreservesInv(l, c, IsDigit(c));
    case InNumericBase16 => NumberStatePreservesInv(l, c, IsHexDigit(c));
    case InNumericBase2 => NumberStatePreservesInv(l, c, IsHexDigit(c));
    case InOperator => OperatorStatePreservesInv(l, c);
    case InSymbol => SymbolStatePreservesInv(l, c);
    case CompleteToken => CompleteStatePreservesInv(l);
    case InNumericBaseUnknown => PrefixStatePreservesInv(l, c);
    case InString => StringStatePreservesInv(l, c);
  }

  lemma PrefixStatePreservesInv(l: Lexer, c: char)
    requires Inv(l) && l.state == InNumericBaseUnknown
    ensures PrefixState(l, c).Next? ==> Inv(PrefixState(l, c).lexer)
  {
    if c == 'x' {
      PrefixedInv(l, LiteralNumericBase16, InNumericBase16);
    } else if c == 'b' {
      PrefixedInv(l, LiteralNumericBase2, InNumericBase2);
    }
  }

  /** A base prefix turns the empty literal of unknown base into an empty
      literal of that base. */
  lemma PrefixedInv(l: Lexer, kind: TokenKind, state: State)
    requires Inv(l) && l.state == InNumericBaseUnknown
    requires (kind, state) in {(LiteralNumericBase16, InNumericBase16), (LiteralNumericBase2, InNumericBase2)}
    ensures Inv(l.(token := l.token.(kind := kind), state := state))
  {
    var l' := l.(token := l.token.(kind := kind), state := state);
    assert l'.token == Token(kind, "");
    assert WellFormed(l'.token);
  }

  lemma StringStatePreservesInv(l: Lexer, c: char)
    requires Inv(l) && l.state == InString
    ensures Inv(StringState(l, c).lexer)
  {
    var s := l.token.text;
    if !IsQuote(c) {
      assert forall k :: 0 <= k < |s| ==> (s + [c])[k] == s[k];
    }
  }

  /** A whole scan keeps the invariant. */
  lemma {:induction false} ScanPreservesInv(input: string, i: nat, l: Lexer)
    requires i <= |input| && Inv(l)
    ensures Scan(input, i, l).Success? ==> Inv(Scan(input, i, l).value)
    decreases |input| - i, Rank(l.state)
  {
    if i < |input| {
      StepPreservesInv(l, input[i]);
      match Step(l, input[i])
      case Stop(_) =>
      case Next(l', advance) =>
        if advance {
          ScanPreservesInv(input, i + 1, l');
        } else {
          ScanPreservesInv(input, i, l');
        }
    }
  }

  /** The tokens left at the end of a scan carry its bracket balance. */
  lemma EmittedNet(l: Lexer)
    requires Inv(l)
    ensures AllWellFormed(Emitted(l))
    ensures Net(Emitted(l)) == l.parentheses
  {
    if |l.token.text| > 0 {
      HeldTokenWellFormed(l);
      NetAppend(l.tokens, l.token);
    } else {
      EmptyTokenIsNotBracket(l);
    }
  }

  lemma HeldTokenWellFormed(l: Lexer)
    requires Holds(l) && |l.token.text| > 0
    ensures WellFormed(l.token)
  {
  }

  lemma EmptyTokenIsNotBracket(l: Lexer)
    requires Holds(l) && |l.token.text| == 0
    ensures NetOf(l.token) == 0
  {
  }

  /** A lexer with nothing scanned yet, as the lexer starts. */
  predicate Fresh(l: Lexer) {
    l.state == NewToken && l.token == Blank && l.tokens == [] && l.parentheses == 0 && l.quotes == 0
  }

  lemma FreshInv(l: Lexer)
    requires Fresh(l)
    ensures Inv(l)
  {
  }

  /** Every scan from a fresh lexer that succeeds ends in a state that keeps the invariant. */
  lemma FreshScansKeepInv(l: Lexer)
    requires Fresh(l)
    ensures forall input: string {:trigger Scan(input, 0, l)} ::
      Scan(input, 0, l).Success? ==> Inv(Scan(input, 0, l).value)
  {
    FreshInv(l);
    ScansKeepInv(l);
  }

  lemma ScansKeepInv(l: Lexer)
    requires Inv(l)
    ensures forall input: string {:trigger Scan(input, 0, l)} ::
      Scan(input, 0, l).Success? ==> Inv(Scan(input, 0, l).value)
  {
    forall input: string
      ensures Scan(input, 0, l).Success? ==> Inv(Scan(input, 0, l).value)
    {
      ScanPreservesInv(input, 0, l);
    }
  }

  /** What a scan from a fresh lexer leaves for the checks after the loop. */
  lemma ScanOutcome(input: string, l: Lexer)
    requires Fresh(l)
    ensures Scan(input, 0, l).Success? ==>
      var e := Scan(input, 0, l).value;
      AllWellFormed(Emitted(e)) && Net(Emitted(e)) == e.parentheses &&
      e.quotes == (if e.state == InString then 1 else 0)
  {
    FreshScansKeepInv(l);
    if Scan(input, 0, l).Success? {
      EmittedNet(Scan(input, 0, l).value);
    }
  }

  lemma ScanThenFinish(input: string, l: Lexer)
    requires Fresh(l)
    ensures var r := Scan(input, 0, l);
      r.Success? ==> Finish(r.value).Success? ==>
      AllWellFormed(Finish(r.value).value) && Net(Finish(r.value).value) == 0
  {
    ScanOutcome(input, l);
  }

  /** The same, for a scan from the lexer's initial state. */
  lemma StartThenFinish(input: string)
    ensures var r := Scan(input, 0, Start);
      r.Success? ==> Finish(r.value).Success? ==>
      AllWellFormed(Finish(r.value).value) && Net(Finish(r.value).value) == 0
  {
    ScanThenFinish(input, Start);
  }

  lemma LexUnfold(input: string)
    ensures Lex(input) ==
      if Scan(input, 0, Start).Success? then Finish(Scan(input, 0, Start).value)
      else Failure(Scan(input, 0, Start).error)
  {
  }

  /** Every token the lexer emits is well formed, and the brackets among them balance. */
  lemma LexProducesWellFormedTokens(input: string)
    ensures Lex(input).Success? ==> AllWellFormed(Lex(input).value) && Net(Lex(input).value) == 0
  {
    StartThenFinish(input);
    LexUnfold(input);
  }

  /** Once the characters are scanned, the bracket check fails exactly when the
      emitted tokens open and close unequally many brackets. */
  lemma BracketCheckIffUnbalanced(input: string)
    requires Scan(input, 0, Start).Success?
    ensures Lex(input) == Failure(LexError("Parentheses were not balanced"))
        <==> Net(Emitted(Scan(input, 0, Start).value)) != 0
  {
    LexUnfold(input);
    ScanOutcome(input, Start);
  }

  /** ... and the quote check fails exactly when the scan ends inside a string. */
  lemma QuoteCheckIffOpenString(input: string)
    requires Scan(input, 0, Start).Success?
    requires Net(Emitted(Scan(input, 0, Start).value)) == 0
    ensures Lex(input) == Failure(LexError("Quotes were not balanced"))
        <==> Scan(input, 0, Start).value.state == InString
  {
    LexUnfold(input);
    ScanOutcome(input, Start);
  }

  /** Scanning does not depend on what precedes the position it starts from. */
  lemma {:induction false} ScanShift(p: string, s: string, j: nat, l: Lexer)
    requires j <= |s|
    ensures Scan(p + s, |p| + j, l) == Scan(s, j, l)
    decreases |s| - j, Rank(l.state)
  {
    if j < |s| {
      assert (p + s)[|p| + j] == s[j];
      match Step(l, s[j])
      case Stop(_) =>
      case Next(l', advance) =>
        if advance {
          ScanShift(p, s, j + 1, l');
        } else {
          ScanShift(p, s, j, l');
        }
    }
  }

  /** Between tokens, whitespace is consumed without effect. */
  lemma {:induction false} SkipWhitespace(input: string, k: nat, n: nat, l: Lexer)
    requires k <= n <= |input| && l.state == NewToken
    requires forall m :: k <= m < n ==> IsWhitespace(input[m])
    ensures Scan(input, k, l) == Scan(input, n, l)
    decreases n - k
  {
    if k < n {
      assert Step(l, input[k]) == Next(l, true);
      SkipWhitespace(input, k + 1, n, l);
    }
  }

  /** Leading whitespace never changes the result of the lexer. */
  lemma LeadingWhitespaceIgnored(w: string, s: string)
    requires forall m :: 0 <= m < |w| ==> IsWhitespace(w[m])
    ensures Lex(w + s) == Lex(s)
  {
    SkipWhitespace(w + s, 0, |w|, Start);
    ScanShift(w, s, 0, Start);
    LexUnfold(w + s);
    LexUnfold(s);
  }
}
