/** Tokens: a kind and the literal text the lexer collected for it. */
module Tokens {

  /** The kinds of Token::Type, in the source's order. `LiteralNumericBaseUnknown`
      is transient: the lexer uses it while it waits for a base prefix. */
  datatype TokenKind =
    | None
    | LiteralNumericBaseUnknown
    | LiteralNumericBase16
    | LiteralNumericBase10
    | LiteralNumericBase2
    | LiteralString
    | LiteralBoolean
    | Keyword
    | Symbol
    | Comma
    | Semicolon
    | Operator
    | ParenthesisOpen
    | ParenthesisClose

  /** A token is an immutable value; its constructor stores the kind and the text as given. */
  datatype Token = Token(kind: TokenKind, text: string)

  /** A default-constructed token: no kind, no text. */
  const Blank := Token(None, "")

  /** The kinds ToString gives a tag to; the other three fall through the switch. */
  predicate Tagged(kind: TokenKind) {
    !(kind.None? || kind.LiteralNumericBaseUnknown? || kind.LiteralBoolean?)
  }

  const TagWidth := 23

  /** The column-aligned tag ToString puts before the text (empty for untagged kinds). */
  function Tag(kind: TokenKind): (tag: string)
    ensures Tagged(kind) <==> tag != []
    ensures Tagged(kind) ==> |tag| == TagWidth && tag[0] == '['
  {
    match kind
    case LiteralNumericBase16 => "[Literal, Numeric 16 ] "
    case LiteralNumericBase10 => "[Literal, Numeric 10 ] "
    case LiteralNumericBase2 => "[Literal, Numeric 2  ] "
    case LiteralString => "[Literal, String     ] "
    case Keyword => "[Keyword             ] "
    case Symbol => "[Symbol              ] "
    case Comma => "[Comma               ] "
    case Semicolon => "[Semicolon           ] "
    case Operator => "[Operator            ] "
    case ParenthesisOpen => "[Parenthesis, Open   ] "
    case ParenthesisClose => "[Parenthesis, Close  ] "
    case _ => ""
  }

  /** The printable form of a token: its tag, then its text unchanged. */
  function ToString(t: Token): (r: string)
    ensures |r| >= |t.text| && r[|r| - |t.text|..] == t.text
    ensures !Tagged(t.kind) ==> r == t.text
    ensures Tagged(t.kind) ==> |r| == TagWidth + |t.text| && r[..TagWidth] == Tag(t.kind)
  {
    Tag(t.kind) + t.text
  }

  /** Different tagged kinds get different tags. */
  lemma TagsAreDistinct(a: TokenKind, b: TokenKind)
    requires Tagged(a) && Tagged(b) && a != b
    ensures Tag(a) != Tag(b)
  {
  }

  /** Since all tags have one width and differ, the printed form of a tagged token
      determines the token: ToString loses nothing. */
  lemma ToStringIsInjective(a: Token, b: Token)
    requires Tagged(a.kind) && Tagged(b.kind)
    requires ToString(a) == ToString(b)
    ensures a == b
  {
    var s := ToString(a);
    assert Tag(a.kind) == s[..TagWidth] == Tag(b.kind);
    if a.kind != b.kind {
      TagsAreDistinct(a.kind, b.kind);
    }
    assert a.text == s[TagWidth..] == b.text;
  }
}
