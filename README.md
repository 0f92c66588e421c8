# defLang front end: lexer, scopes and evaluator

This project models the core of defLang, a small expression language written in
C++. A line of text goes through three stages:

- **Lexer.** `Parser::Tokenise` runs a two-level state machine over the
  characters. The character classes come from the `guard` tables, and the
  operators are matched greedily against `Parser::s_Operators`. The result is a
  sequence of `Token`s, or a `ParserException`.
- **Evaluator.** `Interpreter::Solve` reorders the tokens into postfix order
  with Dijkstra's shunting-yard algorithm, using a holding stack and an output
  queue. It then reduces the postfix sequence on a stack of `Object`s
  (numbers, Booleans, strings and symbols).
- **Scopes.** Names are resolved in, and assigned to, the interpreter's global
  `Scope`. That scope lives as long as the interpreter, so a binding made on one
  line is visible on the next.

How the source's forms map to Dafny:

- `Parser::Tokenise` is an imperative loop. It becomes the method
  `Parser.Tokenise`, proved equal to the specification function `Parser.Lex`.
  Each loop iteration is one `Parser.Step`.
- `Interpreter::Solve` becomes the method `Interpreters.Interpreter.Solve`.
  - Its first loop, with the drain at the end, is proved equal to
    `ShuntingYard.Reorder`.
  - Its second loop is proved equal to `Evaluation.ReduceFrom`.
  - Together these make `Solve` equal to `Evaluation.Evaluate`, applied to the
    bindings of the global scope.
- `Scope` is a class. Its parent link is constant, and its table of bindings
  is a `map` field that `Assign` updates. It is specified through the chain of
  tables from the scope up to the root.
- `guard::Create` is a loop that fills a 256-entry array. It becomes the
  method `Guard.Create`, proved to fill exactly the entries of the function
  `Guard.Table`. The tables themselves are constants defined with `Table`.
  The lexer tests a character through range predicates such as
  `Guard.IsDigit`, and a lemma per table proves each predicate equal to table
  membership.

What is proved about the three stages:

- **Lexer:**
  - Every emitted token is well formed, and the brackets balance.
  - The bracket and quote checks fail exactly in the stated cases.
  - Leading whitespace is irrelevant.
  - For every input of each shape: the text of a string literal is exactly
    what lies between its quotes; a symbol is reclassified as a keyword or a
    Boolean literal only when a character follows it; a symbol character
    glued to a number is rejected; the `0o` prefix is skipped; a character
    of no class is rejected as unexpected.
- **Shunting yard:**
  - The reordering keeps the operands in order. It keeps every operator,
    each as often as in the input, once a renamed `u-` or `u+` is read as the
    sign it was.
  - It removes the brackets.
  - It fails exactly when a prefix of the line closes a bracket it never
    opened.
- **Whole lines:** what `Solve` computes for the common shapes of a line, for
  any operands:
  - precedence, left associativity and parentheses;
  - leading signs, and the failure of a sign after a binary operator;
  - assignment.

Numbers are modelled as exact rationals (`real`) rather than as the source's
`long double`. `std::stold` and `std::stoll` are modelled as exact folds over the
longest prefix of digits they accept.

Where the written description of the language and the code disagree, the
model follows the code:

- Only the lower-case prefixes `0x`, `0o` and `0b` exist. `0X1F` is rejected
  (`LexerExamples.UpperCasePrefixRejected`).
- A sign after a binary operator is renamed to its unary form. Its precedence
  is looked up before that rename, as a binary `-` or `+`. So `3 - -5` and
  `3 * -5` fail with "Not enough arguments for the operator"
  (`SolveProperties.SignAfterOperatorFails`).
- `==` with a string on the left takes the concatenation branch and fails.
- Comparing two variables fails, because `==` does not look names up.
- An assignment stores the right operand unresolved: `b = a` binds `b` to the
  symbol `a`, not to `a`'s value.
- A line that ends in a name yields the symbol, not its value
  (`SolveProperties.TermEvaluates`).

## Model

| member | source | states |
|---|---|---|
| Guard.Create | Guard.hpp:10-18 | the 256 entries are true exactly for the characters of the argument string, all others false |
| Guard.HasTable | Guard.hpp:10-18 | a character is in a table's class exactly when it is below 256 and occurs in the string the table was built from |
| Guard.DigitsTable | Guard.hpp:20 | `Digits` holds the ten decimal digits and '.' |
| Guard.HexDigitsTable | Guard.hpp:21 | `HexDigits` holds the decimal digits and a-f in both cases |
| Guard.PrefixesTable | Guard.hpp:24 | `Prefixes` is exactly 'x', 'o', 'b'; upper-case 'X', 'B', 'O' are not prefixes |
| Guard.WhitespacesTable | Guard.hpp:25 | `Whitespaces` is space, tab, newline, carriage return and vertical tab |
| Guard.SymbolsTable | Guard.hpp:26 | `Symbols` is the ASCII letters, the digits, '_' and '.' |
| Guard.OperatorsTable | Guard.hpp:27 | `Operators` is exactly + - * / = |
| Guard.BracketsTable | Guard.hpp:28-29 | the opening brackets are ( [ { and the closing ones ) ] } |
| Guard.QuotesTable | Guard.hpp:30 | the quotes are ' and " |
| Guard.NumericClassesAreSymbolClass | Guard.hpp:20-26 | every digit, hex digit and prefix character is a symbol character |
| Guard.ClassesAreDisjoint | Guard.hpp:25-30 | whitespace, operators, quotes, opening and closing brackets are pairwise disjoint and disjoint from the symbol class |
| Tokens.Tag | Token.cpp:14-27 | the eleven listed kinds get a 23-character tag starting with '['; None, the unknown-base literal and Boolean literals get none |
| Tokens.ToString | Token.cpp:10-30 | the result is the tag followed by the token's text unchanged, so it always ends with the text |
| Tokens.TagsAreDistinct | Token.cpp:16-26 | different tagged kinds have different tags |
| Tokens.ToStringIsInjective | Token.cpp:10-30 | two tagged tokens that print the same are the same token |
| Parser.Step | Parser.cpp:40-272 | one loop iteration; an iteration that consumes no character lowers the state rank, which bounds the loop |
| Parser.Tokenise | Parser.cpp:10-283 | the loop, the balance checks and the final drain compute exactly `Lex(input)` |
| LexerProperties.OperatorTableKeys | Parser.cpp:285-297 | the operator table's keys are = == - + * / and the unary names u- u+ |
| LexerProperties.ExtendSpelling | Parser.cpp:198-233 | the only operator spelling that a character extends into another is "=" into "==" |
| LexerProperties.StepPreservesInv | Parser.cpp:40-272 | every iteration keeps the lexer invariant: the partial token matches the state, and emitted tokens are well formed and carry the bracket count |
| LexerProperties.ScanPreservesInv | Parser.cpp:40-272 | the whole loop keeps the invariant |
| LexerProperties.LexProducesWellFormedTokens | Parser.cpp:10-283 | every emitted token has the shape of its kind (operators are table keys, numbers hold only their digits, symbols only symbol characters) and the brackets balance |
| LexerProperties.BracketCheckIffUnbalanced | Parser.cpp:274-275 | after the scan, the bracket check fails exactly when the net count of openers minus closers is not zero |
| LexerProperties.QuoteCheckIffOpenString | Parser.cpp:276-278 | with the brackets balanced, the quote check fails exactly when the scan ends inside a string |
| LexerProperties.ScanShift | Parser.cpp:40-272 | scanning from a position does not depend on the characters before it |
| LexerProperties.SkipWhitespace | Parser.cpp:44-52 | whitespace between tokens is skipped without effect |
| LexerProperties.LeadingWhitespaceIgnored | Parser.cpp:44-52 | whitespace before a line does not change its tokens or its error |
| LexerRuns.ScanRun | Parser.cpp:110-256 | a numeric, string or symbol state runs over every character it accepts and appends exactly those characters, in order, to the token |
| LexerRuns.WhitespaceTail | Parser.cpp:44-52 | whitespace after the last token leaves the tokens emitted so far as the result |
| LexerRuns.StringLiteralText | Parser.cpp:183-196 | a quoted string that ends the line is one string literal whose text is exactly the characters between the quotes, dropped when empty |
| LexerRuns.StringLiteralThen | Parser.cpp:183-196 | a quoted string followed by more input is emitted even when empty, and lexing goes on from the next character as from a fresh start |
| LexerRuns.SymbolAtEnd | Parser.cpp:235-256 | a symbol that ends the line is emitted as a symbol, whatever its text |
| LexerRuns.SymbolThen | Parser.cpp:235-256 | a symbol followed by a character that is neither a symbol character nor a digit is reclassified and emitted, and lexing goes on from that character |
| LexerRuns.SymbolThenWhitespace | Parser.cpp:235-256 | a symbol followed by whitespace is a keyword, a Boolean literal or a symbol, as its text says |
| LexerRuns.KeywordLexes | Parser.cpp:242-246 | "if", "while" and "for" followed by whitespace are keyword tokens |
| LexerRuns.BooleanLexes | Parser.cpp:247-251 | "true" and "false" followed by whitespace are Boolean literals |
| LexerRuns.DecimalAtEnd | Parser.cpp:110-124 | digits and dots starting with a non-zero digit or a dot, ending the line, are one base-10 literal with that text |
| LexerRuns.DecimalThen | Parser.cpp:110-124 | a base-10 literal followed by a character outside the symbol class is emitted, and lexing goes on from that character |
| LexerRuns.DecimalThenSymbolRejected | Parser.cpp:110-124 | a base-10 literal followed by a symbol character that is not a digit fails with "Invalid numeric literal or symbol" |
| LexerRuns.PrefixedAtEnd | Parser.cpp:126-181 | "0x" or "0b" followed by hex digits ending the line is one literal of that base whose text is the digits without the prefix, dropped when there are none |
| LexerRuns.PrefixedThenSymbolRejected | Parser.cpp:150-181 | a "0x" or "0b" literal followed by a symbol character that is not a hex digit fails with "Invalid numeric literal or symbol" |
| LexerRuns.OctalPrefixSkipped | Parser.cpp:126-148 | an 'o' after a leading '0' is consumed and leaves the literal of unknown base, so "0o" + s lexes as "0" + s |
| LexerRuns.ZeroThenNonPrefixRejected | Parser.cpp:126-148 | after a leading '0', any character other than 'x', 'o' or 'b' fails with "Unknown prefix for numeric literal" |
| LexerRuns.UnexpectedCharacterRejected | Parser.cpp:99-100 | for every character in none of the start state's classes and any following input, lexing fails with "Unexpected character: " followed by that character |
| LexerExamples.CloseBeforeOpenPasses | Parser.cpp:80-91 | brackets are counted, not matched: ")(" lexes |
| LexerExamples.DoubleEqualsIsOneToken | Parser.cpp:198-233 | greedy matching makes "==" one token |
| LexerExamples.DoubleMinusIsTwoTokens | Parser.cpp:198-233 | "--" is not a key, so it is two "-" tokens |
| LexerExamples.HexLiteral | Parser.cpp:126-165 | "0x1F" is a base-16 literal with text "1F"; neither '0' nor 'x' is kept |
| LexerExamples.UpperCasePrefixRejected | Parser.cpp:126-148 | "0X1" fails with "Unknown prefix for numeric literal" |
| LexerExamples.LoneZeroEmitsNothing | Parser.cpp:58-59 | a lone "0" leaves an empty token, which is not emitted |
| LexerExamples.TrueAtEndStaysSymbol | Parser.cpp:235-256 | a symbol ending the input is not reclassified |
| LexerExamples.TrueFollowedBySpaceIsBoolean | Parser.cpp:235-256 | "true" followed by a space becomes a Boolean literal |
| LexerExamples.DigitsThenLettersRejected | Parser.cpp:110-124 | a letter directly after a base-10 literal fails with "Invalid numeric literal or symbol" |
| LexerExamples.UnterminatedStringRejected | Parser.cpp:276-278 | an unterminated string fails with "Quotes were not balanced" |
| LexerExamples.UnexpectedCharacterRejected | Parser.cpp:99-100 | "#" fails with "Unexpected character: #" |
| Scopes.Scope.constructor | Scope.cpp:5-7 | a new scope has no bindings of its own and sees its parent's chain behind it |
| Scopes.Scope.Get | Scope.cpp:30-47 | the result is the binding of the innermost scope that binds the name, or none |
| Scopes.Scope.Assign | Scope.cpp:9-28 | the chain afterwards is `AssignChain` of the chain before |
| Scopes.Owner | Scope.cpp:11-27 | the scope an assignment lands in is the innermost that binds the name, or the root |
| Scopes.AssignChangesOnlyOwner | Scope.cpp:27 | an assignment changes exactly one scope, the owner, and only at that name |
| Scopes.LookupNoneIffUnbound | Scope.cpp:32-43 | a lookup finds nothing exactly when no scope binds the name |
| Scopes.LookupFindsInnermost | Scope.cpp:30-47 | a lookup returns the binding of the innermost scope binding the name (inner shadows outer) |
| Scopes.LookupAfterAssign | Scope.cpp:9-47 | after `Assign(n, v)`, `Get(n)` returns `v` |
| Scopes.LookupOtherAfterAssign | Scope.cpp:9-47 | an assignment does not change the lookup of any other name |
| Scopes.AssignIdempotent | Scope.cpp:9-28 | assigning the same value twice is the same as assigning it once |
| Scopes.NewNameGoesToOutermost | Scope.cpp:11-23 | a name no scope binds is created in the root |
| Numerals.PrefixLength | Interpreter.cpp:107-109 | the conversions read the longest prefix of digits of the base |
| Numerals.ParseInteger | Interpreter.cpp:108-109 | stoll succeeds exactly when the digit prefix is non-empty and its value fits a signed 64-bit integer, and then yields that value |
| Numerals.Fixed | Interpreter.cpp:107 | stold needs an integer part or a fraction part, and yields at least the integer part |
| Numerals.FixedValue | Interpreter.cpp:107 | "whole.fraction" is worth the integer all its digits spell divided by ten to the number of fraction digits, which lies below the whole part plus one |
| Numerals.ValueOfAppend | Interpreter.cpp:107-109 | appending digits multiplies the value of the leading ones by the base to the number of digits appended, and adds their value |
| Numerals.ValueOfBound | Interpreter.cpp:107-109 | a string of k digits is worth less than the base to the k |
| Numerals.ValueOfDigits | Interpreter.cpp:108-109 | reading back the digits of a value gives the value |
| Numerals.ParseIntegerOfDigits | Interpreter.cpp:108-109 | stoll reads the digits of any representable value, whatever non-digit follows |
| Numerals.ParseDecimalOfDigits | Interpreter.cpp:107 | stold reads "whole.fraction" as whole plus the fraction, whatever non-digit follows |
| Numerals.ParseDecimalOfWhole | Interpreter.cpp:107 | stold reads a digit string without a dot as the integer it spells |
| ShuntingYard.Unary | Interpreter.cpp:37-53 | '+' or '-' is renamed to "u+"/"u-" exactly when the previous token is not a numeric or string literal, a symbol or ')'; the renamed operator has precedence 255 |
| ShuntingYard.PopPoint | Interpreter.cpp:55-64 | the popping stops below the topmost token that is an open parenthesis or binds less tightly than the incoming operator, and everything above it is popped |
| ShuntingYard.OpenIndex | Interpreter.cpp:72-84 | the nearest open parenthesis on the holding stack, or none when there is none |
| ShuntingYard.ReorderFailsIffUnopenedClose | Interpreter.cpp:18-96 | the first loop fails exactly when some prefix of the line closes more brackets than it opens |
| ShuntingYard.ReorderKeepsTokens | Interpreter.cpp:18-96 | the postfix sequence keeps the operands in their original order and as many operators as the input; it holds no ')' and one '(' per bracket left open |
| ShuntingYard.ReorderKeepsOperators | Interpreter.cpp:18-96 | the postfix sequence holds exactly the input's operators as a multiset, once "u-" and "u+" are read as the "-" and "+" they were renamed from |
| ShuntingYard.ShuntFromFails | Interpreter.cpp:18-89 | from any reachable state the loop fails exactly when a later prefix closes an unopened bracket |
| ShuntingYard.ShuntFromKeeps | Interpreter.cpp:18-89 | every state the loop reaches holds only operators and '(' on the holding stack, strictly rising in precedence between brackets, and none in the output |
| ShuntingYard.LexedLineReordersWithoutBrackets | Interpreter.cpp:18-96 | the postfix form of a lexed line holds no parenthesis at all |
| Evaluation.Unwrap | Interpreter.cpp:156-189 | a symbol is replaced by its binding (one level) and a literal is kept; an unbound symbol fails with "Unexpected symbol: " and the name, a wrong alternative with the given error |
| Evaluation.Arithmetic | Interpreter.cpp:275-281 | addition and multiplication give the sum and the product; subtraction and division invert them; only division by zero fails, with "Division by zero" |
| Evaluation.ApplyUnary | Interpreter.cpp:195-206 | a unary sign succeeds exactly when its operand is a number, given or held by a variable; "u-" negates it and "u+" keeps it; otherwise the error is "Unexpected symbol: " and the name for an unbound name, else "Can't apply unary operator to the non-numeric value" |
| Evaluation.Concatenate | Interpreter.cpp:212-224 | a string on the left succeeds exactly with `+` and a string, given or held by a variable, on the right, and yields the two texts joined; any other operator fails with "Can perform only concatenation (+) with strings: " and the left text, any other right operand with "Can only concatenate a string with another string: " and the left text, or with "Unexpected symbol: " for an unbound name |
| Evaluation.Compare | Interpreter.cpp:229-253 | `==` succeeds exactly on two numbers or two Booleans given literally, and yields whether they are equal; operands of different kinds fail with "Can't compare values of different types", two symbols with "Can't compare 2 values" |
| Evaluation.Calculate | Interpreter.cpp:270-282 | arithmetic succeeds exactly when both operands are numbers, given or held by variables, and the divisor of a division is not zero; it yields `Arithmetic` of the two; the left operand's error is reported before the right one's, and "Division by zero" last |
| Evaluation.Apply | Interpreter.cpp:193-289 | one argument goes to `ApplyUnary`, a string on the left to `Concatenate`, `==` to `Compare`, the other binary operators to `Calculate`, with the same outcome and error; `=` succeeds exactly when its left operand is a symbol, binds it to the right operand as it is and yields that operand, and otherwise fails with "Can't create a variable with an invalid name"; only `=` changes the bindings |
| Evaluation.TakeArguments | Interpreter.cpp:140-150 | the arguments are the top `n` objects of the stack, the top first |
| Interpreters.Interpreter.constructor | Interpreter.cpp:5-7 | a new interpreter has an empty, parentless global scope |
| Interpreters.Interpreter.UnwrapValue | Interpreter.cpp:156-189 | looks the symbol up in the global scope and agrees with `Unwrap` |
| Interpreters.Interpreter.Operate | Interpreter.cpp:193-289 | yields the object and the new global bindings that `Apply` specifies, and leaves the scope unchanged on failure |
| Interpreters.Interpreter.ParseIf | Interpreter.cpp:309-311 | leaves the stack unchanged |
| Interpreters.Interpreter.ParseWhile | Interpreter.cpp:313-315 | leaves the stack unchanged |
| Interpreters.Interpreter.ParseFor | Interpreter.cpp:317-319 | leaves the stack unchanged |
| Interpreters.TakeFromBack | Interpreter.cpp:140-150 | the saved arguments are `TakeArguments` of the stack |
| Interpreters.ToPostfix | Interpreter.cpp:13-96 | the first loop and the drain compute exactly `Reorder(tokens)` |
| Interpreters.PopOperatorsNext | Interpreter.cpp:57-61 | each pass of the popping loop keeps where it ends |
| Interpreters.PopToOpenNext | Interpreter.cpp:75-79 | each pass of the loop of ')' keeps where it ends |
| Interpreters.Interpreter.Solve | Interpreter.cpp:9-307 | the result and the global bindings afterwards are exactly `Evaluate(tokens, bindings before)` |
| SolveProperties.ArithmeticSpellings | Parser.cpp:285-297 | the binary arithmetic operators are exactly - + * / |
| SolveProperties.InfixReorders | Interpreter.cpp:18-96 | `x o y` becomes `x y o` |
| SolveProperties.TighterGroupsRight | Interpreter.cpp:55-64 | `x o1 y o2 z` with o2 binding more tightly becomes `x y z o2 o1` |
| SolveProperties.LooserGroupsLeft | Interpreter.cpp:55-64 | with o1 binding at least as tightly it becomes `x y o1 z o2`: equal precedence is left-associative |
| SolveProperties.ParenthesesGroupFirst | Interpreter.cpp:68-84 | `(x o1 y) o2 z` becomes `x y o1 z o2`, whatever the precedences |
| SolveProperties.LeadingSignBindsFirst | Interpreter.cpp:37-64 | a leading sign becomes a unary operator applied to the first operand: `- x o y` becomes `x u- y o` |
| SolveProperties.SignAfterOperatorReorders | Interpreter.cpp:34-64 | in `x o - y` the sign, looked up at binary precedence, pops `o` before the second operand arrives: `x o y u-` |
| SolveProperties.TermEvaluates | Interpreter.cpp:103-306 | a single term yields the object it stands for; a name is not looked up |
| SolveProperties.TighterEvaluatesRight | Interpreter.cpp:9-307 | `x o1 y o2 z` with o2 tighter computes `x o1 (y o2 z)` |
| SolveProperties.LooserEvaluatesLeft | Interpreter.cpp:9-307 | with o1 at least as tight it computes `(x o1 y) o2 z` (so 8 - 3 - 2 is 3) |
| SolveProperties.ParenthesesEvaluateFirst | Interpreter.cpp:9-307 | `(x o1 y) o2 z` computes `(x o1 y) o2 z` |
| SolveProperties.LeadingSignEvaluates | Interpreter.cpp:9-307 | `- x o y` computes `(-x) o y`, and `+ x o y` computes `x o y` |
| SolveProperties.SignAfterOperatorFails | Interpreter.cpp:140-144 | `x o - y` fails with "Not enough arguments for the operator: " and o, leaving the bindings unchanged |
| SolveProperties.AssignmentBinds | Interpreter.cpp:256-267 | `v = e` binds `v` to the object `e` stands for, unresolved, and yields it |

## Left out

- The console loop of Source.cpp and the trace that `Solve` prints of the postfix sequence (Interpreter.cpp:98-101) are output only.
- The exception classes are replaced by a `Result` with `LexError` for a `ParserException` and `EvalError` for an `InterpreterException`. Their message prefixes are not modelled.
- The lexer appends to a caller's vector; the model starts from an empty one, and when the lexer throws the tokens it had already appended are not returned.
- Numbers are exact rationals, with no `long double` rounding, infinities or NaN. Division by zero gives a `HostError` where the source gives an infinity or NaN.
- `std::stoll` and `std::stold` raise library exceptions, which become a `HostError`. The lexer never passes them signs, exponents or whitespace, and their handling of those is not modelled.
- The base-2 lexer state accepts every hex digit, so the text of a base-2 literal can hold other characters: "0b0b1" gives the text "0b1", and "0b12" the text "12". The model reads such text with `std::stoll`'s pre-C23 behaviour, the longest prefix of 0s and 1s. A C library that accepts a "0b" prefix in base 2 (C23) would read "0b1" as 1; that behaviour is not modelled.
- A lookup of an unknown spelling in `s_Operators` or `s_Keywords` inserts a value-initialised entry. The model returns that entry but does not add it to the table, so later lexing is unaffected.
- Keyword.hpp is not part of this model. Which handler the value-initialised keyword record selects is therefore unknown. `Solve` calls `ParseIf`, and all three handlers leave the stack unchanged.
- A ')' with no '(' on the holding stack reads past the front of an empty deque in the source, which is undefined behaviour. The model fails with a `HostError` instead.
- The source reads bytes. A byte from 0x80 to 0xFF is a negative `char`, which indexes the guard tables out of range: undefined behaviour, inside a string as well as outside. The model reads characters, and puts every character outside ASCII in no class. Outside a string the lexer rejects such a character with "Unexpected character: "; inside a string it keeps it as text.
- `OctDigits`, `BinDigits` and the base-8 lexer state are declared but unused, so they are not modelled.
- The holding, output and solving deques are modelled as sequences whose last element is the back.
