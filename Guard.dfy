/** The character-class tables of the lexer: 256-entry boolean tables built from
    the characters they admit, and the membership tests that query them. */
module Guard {

  const TableSize := 256

  /** The table `Create(available)` returns: entry `i` says whether the character
      with code `i` occurs in `available`. */
  function Table(available: string): (table: seq<bool>)
    ensures |table| == TableSize
  {
    seq(TableSize, i requires 0 <= i < TableSize => (i as char) in available)
  }

  /** Builds a table the way the source does: start from all-false and set the
      entry of every character of `available`. The source indexes by `char`, so a
      character outside the table is undefined behaviour there; here it is excluded. */
  method Create(available: string) returns (chars: seq<bool>)
    requires forall k :: 0 <= k < |available| ==> available[k] as int < TableSize
    ensures |chars| == TableSize
    ensures forall c: char :: c as int < TableSize ==> (chars[c as int] <==> c in available)
  {
    var table := new bool[TableSize](_ => false);
    for k := 0 to |available|
      invariant forall i :: 0 <= i < TableSize ==> (table[i] <==> (i as char) in available[..k])
    {
      table[available[k] as int] := true;
      assert available[..k + 1] == available[..k] + [available[k]];
    }
    assert available[..|available|] == available;
    chars := table[..];
    forall c: char | c as int < TableSize
      ensures chars[c as int] <==> c in available
    {
      assert (c as int) as char == c;
    }
  }

  /** Whether `c` belongs to the class a table describes; characters outside the
      256 entries belong to no class. */
  predicate Has(table: seq<bool>, c: char)
    requires |table| == TableSize
  {
    c as int < TableSize && table[c as int]
  }

  const DigitChars := ".0123456789"
  const HexDigitChars := "0123456789ABCDEFabcdef"
  const PrefixChars := "xob"
  const WhitespaceChars := " \t\n\r\U{000B}"
  // The source's symbol string, written in keyboard-row pieces so that membership
  // in it can be reasoned about piece by piece.
  const LowerRows := "qwertyuiop" + "asdfghjkl" + "zxcvbnm"
  const UpperRows := "QWERTYUIOP" + "ASDFGHJKL" + "ZXCVBNM"
  const SymbolChars := LowerRows + UpperRows + "0123456789" + "_."
  const OperatorChars := "+-*/="
  const OpenChars := "([{"
  const CloseChars := ")]}"
  const QuoteChars := "'\""

  const Digits := Table(DigitChars)
  const HexDigits := Table(HexDigitChars)
  const Prefixes := Table(PrefixChars)
  const Whitespaces := Table(WhitespaceChars)
  const Symbols := Table(SymbolChars)
  const Operators := Table(OperatorChars)
  const ParenthesesOpen := Table(OpenChars)
  const ParenthesesClose := Table(CloseChars)
  const Quotes := Table(QuoteChars)

  lemma HasTable(available: string, c: char)
    ensures Has(Table(available), c) <==> (c as int < TableSize && c in available)
  {
    if c as int < TableSize {
      assert (c as int) as char == c;
    }
  }

  // The membership tests the lexer uses, one per table, written as character ranges;
  // TablesAgreeWithTests ties each one to the table built from its string.

  predicate IsDigit(c: char) {
    c == '.' || '0' <= c <= '9'
  }

  predicate IsHexDigit(c: char) {
    '0' <= c <= '9' || 'A' <= c <= 'F' || 'a' <= c <= 'f'
  }

  predicate IsPrefix(c: char) {
    c == 'x' || c == 'o' || c == 'b'
  }

  predicate IsWhitespace(c: char) {
    c == ' ' || c == '\t' || c == '\n' || c == '\r' || c == '\U{000B}'
  }

  predicate IsSymbol(c: char) {
    'a' <= c <= 'z' || 'A' <= c <= 'Z' || '0' <= c <= '9' || c == '_' || c == '.'
  }

  predicate IsOperator(c: char) {
    c == '+' || c == '-' || c == '*' || c == '/' || c == '='
  }

  predicate IsOpen(c: char) {
    c == '(' || c == '[' || c == '{'
  }

  predicate IsClose(c: char) {
    c == ')' || c == ']' || c == '}'
  }

  predicate IsQuote(c: char) {
    c == '\'' || c == '"'
  }

  // Each table answers exactly what its membership test answers, for every character.

  lemma DigitsTable(c: char)
    ensures Has(Digits, c) <==> IsDigit(c)
  {
    HasTable(DigitChars, c);
  }

  lemma HexDigitsTable(c: char)
    ensures Has(HexDigits, c) <==> IsHexDigit(c)
  {
    HasTable(HexDigitChars, c);
  }

  /** Only the lower-case prefix letters are in the table: "0X1F" and "0B1" are rejected. */
  lemma PrefixesTable(c: char)
    ensures Has(Prefixes, c) <==> IsPrefix(c)
    ensures !Has(Prefixes, 'X') && !Has(Prefixes, 'B') && !Has(Prefixes, 'O')
  {
    HasTable(PrefixChars, c);
    HasTable(PrefixChars, 'X');
    HasTable(PrefixChars, 'B');
    HasTable(PrefixChars, 'O');
  }

  lemma WhitespacesTable(c: char)
    ensures Has(Whitespaces, c) <==> IsWhitespace(c)
  {
    HasTable(WhitespaceChars, c);
  }

  lemma SymbolsTable(c: char)
    ensures Has(Symbols, c) <==> IsSymbol(c)
  {
    HasTable(SymbolChars, c);
    assert c in SymbolChars <==> c in LowerRows || c in UpperRows || c in "0123456789" || c in "_.";
    LowerRowsAreLetters(c);
    UpperRowsAreLetters(c);
  }

  lemma LowerRowsAreLetters(c: char)
    ensures c in LowerRows <==> 'a' <= c <= 'z'
  {
    assert c in LowerRows <==> c in "qwertyuiop" || c in "asdfghjkl" || c in "zxcvbnm";
  }

  lemma UpperRowsAreLetters(c: char)
    ensures c in UpperRows <==> 'A' <= c <= 'Z'
  {
    assert c in UpperRows <==> c in "QWERTYUIOP" || c in "ASDFGHJKL" || c in "ZXCVBNM";
  }

  lemma OperatorsTable(c: char)
    ensures Has(Operators, c) <==> IsOperator(c)
  {
    HasTable(OperatorChars, c);
  }

  lemma BracketsTable(c: char)
    ensures Has(ParenthesesOpen, c) <==> IsOpen(c)
    ensures Has(ParenthesesClose, c) <==> IsClose(c)
  {
    HasTable(OpenChars, c);
    HasTable(CloseChars, c);
  }

  lemma QuotesTable(c: char)
    ensures Has(Quotes, c) <==> IsQuote(c)
  {
    HasTable(QuoteChars, c);
  }

  /** Every digit, hex digit and prefix character is also a symbol character. */
  lemma NumericClassesAreSymbolClass(c: char)
    ensures IsDigit(c) ==> IsSymbol(c)
    ensures IsHexDigit(c) ==> IsSymbol(c)
    ensures IsPrefix(c) ==> IsSymbol(c)
  {
  }

  /**
   * The classes the lexer tests in its start state never overlap, so the order of
   * its tests only matters between digits, operators and symbols.
   */
  lemma ClassesAreDisjoint(c: char)
    ensures IsWhitespace(c) || IsOperator(c) || IsQuote(c) || IsOpen(c) || IsClose(c) ==> !IsSymbol(c)
    ensures IsWhitespace(c) ==> !IsOperator(c) && !IsQuote(c) && !IsOpen(c) && !IsClose(c)
    ensures IsOperator(c) ==> !IsQuote(c) && !IsOpen(c) && !IsClose(c)
    ensures IsQuote(c) ==> !IsOpen(c) && !IsClose(c)
    ensures IsOpen(c) ==> !IsClose(c)
  {
  }
}
