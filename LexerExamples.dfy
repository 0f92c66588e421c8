/** Worked inputs of the lexer, each evaluated from the definition step by step. */
module LexerExamples {
  import opened Wrappers
  import opened Tokens
  import opened Parser
  import LexerProperties

  /** Brackets are counted, not matched: a closer before its opener passes. */
  lemma CloseBeforeOpenPasses()
    ensures Lex(")(") == Success([Token(ParenthesisClose, ")"), Token(ParenthesisOpen, "(")])
  {
    var s := ")(";
    var close, open := Token(ParenthesisClose, ")"), Token(ParenthesisOpen, "(");
    var l1 := Lexer(CompleteToken, close, -1, 0, []);
    var l2 := Lexer(NewToken, Blank, -1, 0, [close]);
    var l3 := Lexer(CompleteToken, open, 0, 0, [close]);
    assert Step(Start, s[0]) == Next(l1, true);
    assert Step(l1, s[1]) == Next(l2, false);
    assert Step(l2, s[1]) == Next(l3, true);
    assert Scan(s, 0, Start) == Scan(s, 1, l1) == Scan(s, 1, l2) == Scan(s, 2, l3) == Success(l3);
    assert Emitted(l3) == [close, open];
    assert Finish(l3) == Success([close, open]);
    assert Lex(s) == Finish(l3);
  }

  /** The operator match is greedy: "==" is one token. */
  lemma DoubleEqualsIsOneToken()
    ensures Lex("==") == Success([Token(Operator, "==")])
  {
    var s := "==";
    var l1 := Lexer(InOperator, Token(Operator, "="), 0, 0, []);
    var l2 := Lexer(InOperator, Token(Operator, "=="), 0, 0, []);
    assert Step(Start, s[0]) == Next(l1, true);
    assert l1.token.text + [s[1]] == "==";
    assert Step(l1, s[1]) == Next(l2, true);
    assert Scan(s, 0, Start) == Scan(s, 1, l1) == Scan(s, 2, l2) == Success(l2);
    assert Emitted(l2) == [Token(Operator, "==")];
    assert Lex(s) == Finish(l2);
  }

  /** "--" is not an operator, so it splits into two minus signs. */
  lemma DoubleMinusIsTwoTokens()
    ensures Lex("--") == Success([Token(Operator, "-"), Token(Operator, "-")])
  {
    var s := "--";
    var minus := Token(Operator, "-");
    var l1 := Lexer(InOperator, minus, 0, 0, []);
    var l2 := Lexer(CompleteToken, minus, 0, 0, []);
    var l3 := Lexer(NewToken, Blank, 0, 0, [minus]);
    var l4 := Lexer(InOperator, minus, 0, 0, [minus]);
    assert Step(Start, s[0]) == Next(l1, true);
    MinusDoesNotExtend(l1, s[1]);
    assert Step(l2, s[1]) == Next(l3, false);
    assert Step(l3, s[1]) == Next(l4, true);
    assert Scan(s, 0, Start) == Scan(s, 1, l1) == Scan(s, 1, l2) == Scan(s, 1, l3) == Scan(s, 2, l4) == Success(l4);
    assert Emitted(l4) == [minus, minus];
    assert Lex(s) == Finish(l4);
  }

  lemma MinusDoesNotExtend(l: Lexer, c: char)
    requires l.state == InOperator && l.token == Token(Operator, "-") && c == '-'
    ensures Step(l, c) == Next(l.(state := CompleteToken), false)
  {
    assert l.token.text + [c] == "--";
    LexerProperties.OperatorTableKeys("--");
    assert "--" != "==" && "--" != "u-";
    assert "-" in OperatorTable;
  }

  /** The "0x" prefix selects base 16 and is not part of the token's text. */
  lemma HexLiteral()
    ensures Lex("0x1F") == Success([Token(LiteralNumericBase16, "1F")])
  {
    var s := "0x1F";
    var l1 := Lexer(InNumericBaseUnknown, Token(LiteralNumericBaseUnknown, ""), 0, 0, []);
    var l2 := Lexer(InNumericBase16, Token(LiteralNumericBase16, ""), 0, 0, []);
    var l3 := Lexer(InNumericBase16, Token(LiteralNumericBase16, "1"), 0, 0, []);
    var l4 := Lexer(InNumericBase16, Token(LiteralNumericBase16, "1F"), 0, 0, []);
    assert Step(Start, s[0]) == Next(l1, true);
    assert Step(l1, s[1]) == Next(l2, true);
    assert Step(l2, s[2]) == Next(l3, true);
    assert Step(l3, s[3]) == Next(l4, true);
    assert Scan(s, 0, Start) == Scan(s, 1, l1) == Scan(s, 2, l2) == Scan(s, 3, l3) == Scan(s, 4, l4) == Success(l4);
    assert Emitted(l4) == [Token(LiteralNumericBase16, "1F")];
    assert Lex(s) == Finish(l4);
  }

  /** The prefix table is lower case only, so "0X1" is rejected. */
  lemma UpperCasePrefixRejected()
    ensures Lex("0X1") == Failure(LexError("Unknown prefix for numeric literal"))
  {
    var s := "0X1";
    var l1 := Lexer(InNumericBaseUnknown, Token(LiteralNumericBaseUnknown, ""), 0, 0, []);
    assert Step(Start, s[0]) == Next(l1, true);
    assert Step(l1, s[1]) == Stop(LexError("Unknown prefix for numeric literal"));
    assert Scan(s, 0, Start) == Scan(s, 1, l1);
  }

  /** A lone "0" starts a literal whose '0' is never stored, so nothing is emitted. */
  lemma LoneZeroEmitsNothing()
    ensures Lex("0") == Success([])
  {
    var s := "0";
    var l1 := Lexer(InNumericBaseUnknown, Token(LiteralNumericBaseUnknown, ""), 0, 0, []);
    assert Step(Start, s[0]) == Next(l1, true);
    assert Scan(s, 0, Start) == Scan(s, 1, l1) == Success(l1);
    assert Lex(s) == Finish(l1);
  }

  /** A symbol is reclassified only when a character follows it: "true" at the
      very end stays a symbol, "true " becomes a Boolean literal. */
  lemma TrueAtEndStaysSymbol()
    ensures Lex("true") == Success([Token(Symbol, "true")])
  {
    var s := "true";
    var l1 := Lexer(InSymbol, Token(Symbol, "t"), 0, 0, []);
    var l2 := Lexer(InSymbol, Token(Symbol, "tr"), 0, 0, []);
    var l3 := Lexer(InSymbol, Token(Symbol, "tru"), 0, 0, []);
    var l4 := Lexer(InSymbol, Token(Symbol, "true"), 0, 0, []);
    assert Step(Start, s[0]) == Next(l1, true);
    assert Step(l1, s[1]) == Next(l2, true);
    assert Step(l2, s[2]) == Next(l3, true);
    assert Step(l3, s[3]) == Next(l4, true);
    assert Scan(s, 0, Start) == Scan(s, 1, l1) == Scan(s, 2, l2) == Scan(s, 3, l3) == Scan(s, 4, l4) == Success(l4);
    assert Emitted(l4) == [Token(Symbol, "true")];
    assert Lex(s) == Finish(l4);
  }

  lemma TrueFollowedBySpaceIsBoolean()
    ensures Lex("true ") == Success([Token(LiteralBoolean, "true")])
  {
    var s := "true ";
    var l1 := Lexer(InSymbol, Token(Symbol, "t"), 0, 0, []);
    var l2 := Lexer(InSymbol, Token(Symbol, "tr"), 0, 0, []);
    var l3 := Lexer(InSymbol, Token(Symbol, "tru"), 0, 0, []);
    var l4 := Lexer(InSymbol, Token(Symbol, "true"), 0, 0, []);
    var l5 := Lexer(CompleteToken, Token(LiteralBoolean, "true"), 0, 0, []);
    var l6 := Lexer(NewToken, Blank, 0, 0, [Token(LiteralBoolean, "true")]);
    assert Step(Start, s[0]) == Next(l1, true);
    assert Step(l1, s[1]) == Next(l2, true);
    assert Step(l2, s[2]) == Next(l3, true);
    assert Step(l3, s[3]) == Next(l4, true);
    assert Step(l4, s[4]) == Next(l5, false);
    assert Step(l5, s[4]) == Next(l6, false);
    assert Step(l6, s[4]) == Next(l6, true);
    assert Scan(s, 0, Start) == Scan(s, 1, l1) == Scan(s, 2, l2) == Scan(s, 3, l3) == Scan(s, 4, l4);
    assert Scan(s, 4, l4) == Scan(s, 4, l5) == Scan(s, 4, l6) == Scan(s, 5, l6) == Success(l6);
    assert Lex(s) == Finish(l6);
  }

  /** Letters glued to a number are rejected. */
  lemma DigitsThenLettersRejected()
    ensures Lex("1a") == Failure(LexError("Invalid numeric literal or symbol"))
  {
    var s := "1a";
    var l1 := Lexer(InNumericBase10, Token(LiteralNumericBase10, "1"), 0, 0, []);
    assert Step(Start, s[0]) == Next(l1, true);
    assert Step(l1, s[1]) == Stop(LexError("Invalid numeric literal or symbol"));
    assert Scan(s, 0, Start) == Scan(s, 1, l1);
  }

  /** A string left open fails the quote check. */
  lemma UnterminatedStringRejected()
    ensures Lex("'a") == Failure(LexError("Quotes were not balanced"))
  {
    var s := "'a";
    var l1 := Lexer(InString, Token(LiteralString, ""), 0, 1, []);
    var l2 := Lexer(InString, Token(LiteralString, "a"), 0, 1, []);
    assert Step(Start, s[0]) == Next(l1, true);
    assert Step(l1, s[1]) == Next(l2, true);
    assert Scan(s, 0, Start) == Scan(s, 1, l1) == Scan(s, 2, l2) == Success(l2);
    assert Lex(s) == Finish(l2);
  }

  /** A character outside every class stops the lexer. */
  lemma UnexpectedCharacterRejected()
    ensures Lex("#") == Failure(LexError("Unexpected character: #"))
  {
    var s := "#";
    assert "Unexpected character: " + [s[0]] == "Unexpected character: #";
    assert Step(Start, s[0]) == Stop(LexError("Unexpected character: #"));
  }
}
