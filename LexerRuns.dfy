/** What the lexer makes of whole families of inputs: each kind of token runs
    over the characters its state accepts, and the character after it either
    ends it or is rejected. */
module LexerRuns {
  import opened Wrappers
  import opened Guard
  import opened Tokens
  import opened Parser
  import opened LexerProperties

  /** The lexer resumed on `rest` from a fresh token, after emitting `tokens`
      with every bracket closed and no string open. */
  function LexAfter(tokens: seq<Token>, rest: string): Result<seq<Token>> {
    var l :- Scan(rest, 0, Lexer(NewToken, Blank, 0, 0, tokens));
    Finish(l)
  }

  /** The characters a state appends to the token it collects. */
  predicate Appends(s: State, c: char) {
    match s
    case InString => !IsQuote(c)
    case InSymbol => IsSymbol(c) || IsDigit(c)
    case InNumericBase10 => IsDigit(c)
    case InNumericBase16 => IsHexDigit(c)
    case InNumericBase2 => IsHexDigit(c)
    case _ => false
  }

  predicate NoQuote(s: string) {
    forall k :: 0 <= k < |s| ==> !IsQuote(s[k])
  }

  /** The text of a base-10 literal: a digit other than '0' first, then digits. */
  predicate DecimalText(s: string) {
    |s| > 0 && s[0] != '0' && AllChars(s, IsDigit)
  }

  function Extended(l: Lexer, s: string): Lexer {
    l.(token := l.token.(text := l.token.text + s))
  }

  lemma AppendsStep(l: Lexer, c: char)
    requires Appends(l.state, c)
    ensures Step(l, c) == Next(Extended(l, [c]), true)
  {
  }

  /** A state runs over every character it appends, collecting them in order. */
  lemma {:induction false} ScanRun(input: string, i: nat, j: nat, l: Lexer)
    requires i <= j <= |input|
    requires forall m :: i <= m < j ==> Appends(l.state, input[m])
    ensures Scan(input, i, l) == Scan(input, j, Extended(l, input[i..j]))
    decreases j - i
  {
    if i == j {
      assert l.token.text + input[i..j] == l.token.text;
    } else {
      AppendsStep(l, input[i]);
      ScanRun(input, i + 1, j, Extended(l, [input[i]]));
      assert l.token.text + [input[i]] + input[i + 1..j] == l.token.text + input[i..j];
    }
  }

  /** A completed token is emitted before the next character is looked at. */
  lemma CompleteResumes(input: string, i: nat, t: Token, tokens: seq<Token>)
    requires i < |input|
    ensures Scan(input, i, Lexer(CompleteToken, t, 0, 0, tokens)) ==
      Scan(input, i, Lexer(NewToken, Blank, 0, 0, tokens + [t]))
  {
  }

  /** Whitespace after the last token is skipped, and the emitted tokens are the result. */
  lemma WhitespaceTail(tokens: seq<Token>, w: string)
    requires forall m :: 0 <= m < |w| ==> IsWhitespace(w[m])
    ensures LexAfter(tokens, w) == Success(tokens)
  {
    var l := Lexer(NewToken, Blank, 0, 0, tokens);
    SkipWhitespace(w, 0, |w|, l);
  }

  // Strings

  lemma StringScan(q: char, s: string, q': char, rest: string)
    requires IsQuote(q) && IsQuote(q') && NoQuote(s)
    ensures Scan([q] + s + [q'] + rest, 0, Start) ==
      Scan(rest, 0, Lexer(CompleteToken, Token(LiteralString, s), 0, 0, []))
  {
    var p := [q] + s + [q'];
    var input := p + rest;
    ClassesAreDisjoint(q);
    NumericClassesAreSymbolClass(q);
    var l1 := Lexer(InString, Token(LiteralString, ""), 0, 1, []);
    assert Step(Start, input[0]) == Next(l1, true);
    forall m | 1 <= m < |s| + 1
      ensures Appends(l1.state, input[m])
    {
      assert input[m] == s[m - 1];
    }
    ScanRun(input, 1, |s| + 1, l1);
    assert input[1..|s| + 1] == s;
    var l2 := Lexer(InString, Token(LiteralString, s), 0, 1, []);
    assert Extended(l1, s) == l2;
    var l3 := Lexer(CompleteToken, Token(LiteralString, s), 0, 0, []);
    assert Step(l2, input[|s| + 1]) == Next(l3, true);
    ScanShift(p, rest, 0, l3);
  }

  /** A quoted string that ends the input is its text between the quotes,
      emitted only when that text is not empty. */
  lemma StringLiteralText(q: char, s: string, q': char)
    requires IsQuote(q) && IsQuote(q') && NoQuote(s)
    ensures Lex([q] + s + [q']) == Success(if s == [] then [] else [Token(LiteralString, s)])
  {
    StringScan(q, s, q', []);
    assert [q] + s + [q'] + [] == [q] + s + [q'];
    var l := Lexer(CompleteToken, Token(LiteralString, s), 0, 0, []);
    assert Scan([], 0, l) == Success(l);
    assert [] + [l.token] == [l.token];
    assert Emitted(l) == if s == [] then [] else [Token(LiteralString, s)];
    LexUnfold([q] + s + [q']);
  }

  /** A quoted string followed by more input is emitted, even when empty, and
      the lexer goes on with the rest as from a fresh start. */
  lemma StringLiteralThen(q: char, s: string, q': char, rest: string)
    requires IsQuote(q) && IsQuote(q') && NoQuote(s) && |rest| > 0
    ensures Lex([q] + s + [q'] + rest) == LexAfter([Token(LiteralString, s)], rest)
  {
    StringScan(q, s, q', rest);
    CompleteResumes(rest, 0, Token(LiteralString, s), []);
    assert [] + [Token(LiteralString, s)] == [Token(LiteralString, s)];
    LexUnfold([q] + s + [q'] + rest);
  }

  // Symbols, keywords and Boolean literals

  lemma SymbolScan(s: string, rest: string)
    requires SymbolText(s)
    ensures Scan(s + rest, 0, Start) == Scan(s + rest, |s|, Lexer(InSymbol, Token(Symbol, s), 0, 0, []))
  {
    var input := s + rest;
    ClassesAreDisjoint(s[0]);
    var l1 := Lexer(InSymbol, Token(Symbol, [s[0]]), 0, 0, []);
    assert Step(Start, input[0]) == Next(l1, true);
    forall m | 1 <= m < |s|
      ensures Appends(l1.state, input[m])
    {
      assert input[m] == s[m];
    }
    ScanRun(input, 1, |s|, l1);
    assert [s[0]] + input[1..|s|] == s;
  }

  /** A symbol that ends the input is emitted as a symbol, whatever its text:
      it is never reclassified. */
  lemma SymbolAtEnd(s: string)
    requires SymbolText(s)
    ensures Lex(s) == Success([Token(Symbol, s)])
  {
    SymbolScan(s, []);
    assert s + [] == s;
    var l := Lexer(InSymbol, Token(Symbol, s), 0, 0, []);
    assert Scan(s, |s|, l) == Success(l);
    assert Scan(s, 0, Start) == Success(l);
    assert Emitted(l) == [Token(Symbol, s)];
    LexUnfold(s);
  }

  /** A symbol ended by any character that is neither a symbol character nor a
      digit is reclassified, emitted, and the lexer goes on from that character. */
  lemma SymbolThen(s: string, rest: string)
    requires SymbolText(s) && |rest| > 0 && !IsSymbol(rest[0]) && !IsDigit(rest[0])
    ensures Lex(s + rest) == LexAfter([Reclassify(Token(Symbol, s))], rest)
  {
    var input := s + rest;
    SymbolScan(s, rest);
    var l := Lexer(InSymbol, Token(Symbol, s), 0, 0, []);
    var t := Reclassify(Token(Symbol, s));
    assert input[|s|] == rest[0];
    assert Step(l, input[|s|]) == Next(Lexer(CompleteToken, t, 0, 0, []), false);
    ScanShift(s, rest, 0, Lexer(CompleteToken, t, 0, 0, []));
    CompleteResumes(rest, 0, t, []);
    assert [] + [t] == [t];
    assert Scan(input, |s|, l) == Scan(input, |s|, Lexer(CompleteToken, t, 0, 0, []));
    assert Scan(input, 0, Start) == Scan(rest, 0, Lexer(NewToken, Blank, 0, 0, [t]));
    LexUnfold(input);
  }

  /** A symbol followed by whitespace becomes a keyword, a Boolean literal or
      stays a symbol, as its text says. */
  lemma SymbolThenWhitespace(s: string, w: string)
    requires SymbolText(s) && |w| > 0 && forall m :: 0 <= m < |w| ==> IsWhitespace(w[m])
    ensures Lex(s + w) == Success([Reclassify(Token(Symbol, s))])
  {
    ClassesAreDisjoint(w[0]);
    SymbolThen(s, w);
    WhitespaceTail([Reclassify(Token(Symbol, s))], w);
  }

  /** "if", "while" and "for" followed by whitespace are keywords. */
  lemma KeywordLexes(k: string, w: string)
    requires k in Keywords && |w| > 0 && forall m :: 0 <= m < |w| ==> IsWhitespace(w[m])
    ensures Lex(k + w) == Success([Token(Keyword, k)])
  {
    assert SymbolText(k);
    SymbolThenWhitespace(k, w);
  }

  /** "true" and "false" followed by whitespace are Boolean literals. */
  lemma BooleanLexes(b: string, w: string)
    requires (b == "true" || b == "false") && |w| > 0 && forall m :: 0 <= m < |w| ==> IsWhitespace(w[m])
    ensures Lex(b + w) == Success([Token(LiteralBoolean, b)])
  {
    assert SymbolText(b);
    SymbolThenWhitespace(b, w);
  }

  // Base-10 literals

  lemma DecimalScan(ds: string, rest: string)
    requires DecimalText(ds)
    ensures Scan(ds + rest, 0, Start) ==
      Scan(ds + rest, |ds|, Lexer(InNumericBase10, Token(LiteralNumericBase10, ds), 0, 0, []))
  {
    var input := ds + rest;
    ClassesAreDisjoint(ds[0]);
    NumericClassesAreSymbolClass(ds[0]);
    var l1 := Lexer(InNumericBase10, Token(LiteralNumericBase10, [ds[0]]), 0, 0, []);
    assert Step(Start, input[0]) == Next(l1, true);
    forall m | 1 <= m < |ds|
      ensures Appends(l1.state, input[m])
    {
      assert input[m] == ds[m];
    }
    ScanRun(input, 1, |ds|, l1);
    assert [ds[0]] + input[1..|ds|] == ds;
  }

  /** Digits that end the input are one base-10 literal. */
  lemma DecimalAtEnd(ds: string)
    requires DecimalText(ds)
    ensures Lex(ds) == Success([Token(LiteralNumericBase10, ds)])
  {
    DecimalScan(ds, []);
    assert ds + [] == ds;
    var l := Lexer(InNumericBase10, Token(LiteralNumericBase10, ds), 0, 0, []);
    assert Scan(ds, |ds|, l) == Success(l);
    assert Emitted(l) == [Token(LiteralNumericBase10, ds)];
    LexUnfold(ds);
  }

  /** A base-10 literal ended by a character outside the symbol class is
      emitted, and the lexer goes on from that character. */
  lemma DecimalThen(ds: string, rest: string)
    requires DecimalText(ds) && |rest| > 0 && !IsSymbol(rest[0])
    ensures Lex(ds + rest) == LexAfter([Token(LiteralNumericBase10, ds)], rest)
  {
    var input := ds + rest;
    var t := Token(LiteralNumericBase10, ds);
    DecimalScan(ds, rest);
    NumericClassesAreSymbolClass(rest[0]);
    assert input[|ds|] == rest[0];
    assert Step(Lexer(InNumericBase10, t, 0, 0, []), input[|ds|]) == Next(Lexer(CompleteToken, t, 0, 0, []), false);
    ScanShift(ds, rest, 0, Lexer(CompleteToken, t, 0, 0, []));
    CompleteResumes(rest, 0, t, []);
    assert [] + [t] == [t];
    assert Scan(input, 0, Start) == Scan(rest, 0, Lexer(NewToken, Blank, 0, 0, [t]));
    LexUnfold(input);
  }

  /** A symbol character glued to a base-10 literal is rejected. */
  lemma DecimalThenSymbolRejected(ds: string, rest: string)
    requires DecimalText(ds) && |rest| > 0 && IsSymbol(rest[0]) && !IsDigit(rest[0])
    ensures Lex(ds + rest) == Failure(LexError("Invalid numeric literal or symbol"))
  {
    var input := ds + rest;
    DecimalScan(ds, rest);
    assert input[|ds|] == rest[0];
    LexUnfold(input);
  }

  // Literals after a leading '0'

  /** The state after a leading '0': its digit is not stored. */
  const AfterZero := Lexer(InNumericBaseUnknown, Token(LiteralNumericBaseUnknown, ""), 0, 0, [])

  lemma ZeroScan(rest: string)
    ensures Scan("0" + rest, 0, Start) == Scan(rest, 0, AfterZero)
  {
    assert ("0" + rest)[0] == '0';
    assert Step(Start, '0') == Next(AfterZero, true);
    ScanShift("0", rest, 0, AfterZero);
  }

  /** The literal kind and state a base prefix selects. */
  function PrefixKind(p: char): TokenKind {
    if p == 'x' then LiteralNumericBase16 else LiteralNumericBase2
  }

  function PrefixedState(p: char): State {
    if p == 'x' then InNumericBase16 else InNumericBase2
  }

  lemma PrefixedScan(p: char, ds: string, rest: string)
    requires (p == 'x' || p == 'b') && AllChars(ds, IsHexDigit)
    ensures Scan("0" + ([p] + ds + rest), 0, Start) ==
      Scan([p] + ds + rest, |ds| + 1, Lexer(PrefixedState(p), Token(PrefixKind(p), ds), 0, 0, []))
  {
    var input := [p] + ds + rest;
    ZeroScan(input);
    var l1 := Lexer(PrefixedState(p), Token(PrefixKind(p), ""), 0, 0, []);
    assert Step(AfterZero, input[0]) == Next(l1, true);
    forall m | 1 <= m < |ds| + 1
      ensures Appends(l1.state, input[m])
    {
      assert input[m] == ds[m - 1];
    }
    ScanRun(input, 1, |ds| + 1, l1);
    assert input[1..|ds| + 1] == ds;
    assert Extended(l1, ds) == Lexer(PrefixedState(p), Token(PrefixKind(p), ds), 0, 0, []);
  }

  /** "0x" and "0b" followed by hex digits that end the input are one literal of
      that base whose text is the digits without the prefix, emitted only when
      there are digits. */
  lemma PrefixedAtEnd(p: char, ds: string)
    requires (p == 'x' || p == 'b') && AllChars(ds, IsHexDigit)
    ensures Lex("0" + ([p] + ds)) == Success(if ds == [] then [] else [Token(PrefixKind(p), ds)])
  {
    PrefixedScan(p, ds, []);
    assert [p] + ds + [] == [p] + ds;
    var l := Lexer(PrefixedState(p), Token(PrefixKind(p), ds), 0, 0, []);
    assert Scan([p] + ds, |ds| + 1, l) == Success(l);
    assert [] + [l.token] == [l.token];
    assert Emitted(l) == if ds == [] then [] else [Token(PrefixKind(p), ds)];
    LexUnfold("0" + ([p] + ds));
  }

  /** A symbol character that is not a hex digit, glued to a "0x" or "0b"
      literal, is rejected. */
  lemma PrefixedThenSymbolRejected(p: char, ds: string, rest: string)
    requires (p == 'x' || p == 'b') && AllChars(ds, IsHexDigit)
    requires |rest| > 0 && IsSymbol(rest[0]) && !IsHexDigit(rest[0])
    ensures Lex("0" + ([p] + ds + rest)) == Failure(LexError("Invalid numeric literal or symbol"))
  {
    var input := [p] + ds + rest;
    PrefixedScan(p, ds, rest);
    assert input[|ds| + 1] == rest[0];
    LexUnfold("0" + input);
  }

  /** An 'o' after a leading '0' is consumed and changes nothing: the literal
      stays of unknown base, as if the 'o' were not there. */
  lemma OctalPrefixSkipped(s: string)
    ensures Lex("0" + (['o'] + s)) == Lex("0" + s)
  {
    ZeroScan(['o'] + s);
    ZeroScan(s);
    assert Step(AfterZero, 'o') == Next(AfterZero, true);
    assert (['o'] + s)[0] == 'o';
    ScanShift(['o'], s, 0, AfterZero);
    LexUnfold("0" + (['o'] + s));
    LexUnfold("0" + s);
  }

  /** After a leading '0', any character but a lower-case prefix letter is rejected. */
  lemma ZeroThenNonPrefixRejected(c: char, rest: string)
    requires !IsPrefix(c)
    ensures Lex("0" + ([c] + rest)) == Failure(LexError("Unknown prefix for numeric literal"))
  {
    ZeroScan([c] + rest);
    assert ([c] + rest)[0] == c;
    LexUnfold("0" + ([c] + rest));
  }

  // Characters of no class

  /** A character that no class of the start state admits stops the lexer at
      once, whatever follows it. */
  lemma UnexpectedCharacterRejected(c: char, rest: string)
    requires !IsWhitespace(c) && !IsDigit(c) && !IsOperator(c) && !IsQuote(c) && !IsSymbol(c)
    requires !IsOpen(c) && !IsClose(c) && c != ',' && c != ';'
    ensures Lex([c] + rest) == Failure(LexError("Unexpected character: " + [c]))
  {
    assert ([c] + rest)[0] == c;
    assert Step(Start, c) == Stop(LexError("Unexpected character: " + [c]));
  }
}
