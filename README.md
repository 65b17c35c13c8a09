# A verified model of the LexerDemo lexer

LexerDemo is a hand-written lexer for a small arithmetic-expression grammar.
A `Lexer` is built from one input line. Its `tokenize` method makes one
left-to-right pass and returns a list of tokens:

- a run of digits is a `NUMBER`;
- a letter or `_`, followed by letters, digits or `_`, is an `IDENTIFIER`;
- one of `+ - * /` is an `OPERATOR`;
- one of `( )` is a `PARENTHESIS`;
- whitespace is skipped;
- an `EOF` token with an empty value is appended at the end.

Any other character raises a lexical error. The lexer keeps a cursor `pos`
and the character under it, `currentChar`. It uses `'\0'` as the
end-of-input sentinel.

The Dafny project has six modules:

- `Chars` (chars.dfy) stands in for the `java.lang.Character` predicates
  the lexer calls.
- `Tokens` (tokens.dfy) holds `TokenType`, `Token`, the error type
  `LexError` and `Result`.
- `LexSpec` (lexspec.dfy) is a pure, recursive reference lexer.
  `ScanFrom(input, pos)` gives the lexemes a pass from `pos` produces, each
  lexeme being a token together with its start offset. `TokenizeFrom`
  appends the end-of-input token. `Lex(input)` is what constructing a
  `Lexer` and calling `tokenize` returns.
- `LexerDemo` (lexer.dfy) holds the `Lexer` class. It has an immutable
  `input`, the mutable `pos` and `currentChar`, and one method for each Java
  method. Each method is proved against `LexSpec`, and `Tokenize` is proved
  equal to `TokenizeFrom`. `LexLine` is the construct-then-tokenize
  sequence from the main program, proved equal to `Lex`.
- `LexProps` (lexprops.dfy) holds the properties of the reference lexer and
  the step lemmas that carry the `Tokenize` loop invariant.
- `LexExamples` (examples_lex.dfy) works through concrete lines.

Two quirks of the code are kept as they are:

- **An empty line fails.** The constructor reads the first character, which
  is out of bounds on an empty line. The `Lexer` constructor therefore
  requires a non-empty input, and `Lex("")` is `Err(EmptyInput)`. One might
  expect an empty line to give only the end-of-input token; the code throws
  instead, and the model follows the code.
- **NUL ends the input.** Each loop stops at `'\0'`, so a NUL character
  inside the line silently ends the scan. `ScanEnd(input, pos)` is the first
  NUL at or after `pos`, or the end of the input. `Visible(input)` is the
  part of the line before it.

## Model

| member | source | states |
|---|---|---|
| LexerDemo.Lexer.constructor | LexerDemo.java:33-37 | needs a non-empty input (the first character is read); sets pos to 0 and currentChar to the first character; the cursor invariant holds |
| LexerDemo.Lexer.Advance | LexerDemo.java:39-46 | pos grows by exactly one, and currentChar becomes the character at the new pos, or NUL once pos is at or past the end |
| LexerDemo.Lexer.SkipWhitespace | LexerDemo.java:48-52 | the cursor ends at the end of the maximal whitespace run (stopping at NUL); it moves at least one character when started on whitespace; the cursor invariant is kept |
| LexerDemo.Lexer.Number | LexerDemo.java:54-61 | returns a NUMBER token whose value is exactly the input text from the old cursor to the end of the maximal digit run, and the cursor ends at that run's end; it advances when started on a digit |
| LexerDemo.Lexer.Identifier | LexerDemo.java:63-70 | returns an IDENTIFIER token whose value is exactly the maximal run of letters, digits and underscores at the cursor; the cursor ends at that run's end; it advances when started on such a character |
| LexerDemo.Lexer.Operator | LexerDemo.java:72-76 | returns an OPERATOR token holding exactly the old current character, and advances by one |
| LexerDemo.Lexer.Parenthesis | LexerDemo.java:78-82 | returns a PARENTHESIS token holding exactly the old current character, and advances by one |
| LexerDemo.Lexer.Tokenize | LexerDemo.java:84-119 | the result equals the reference lexer's from the starting cursor; on success the cursor rests on the sentinel at the first NUL or the end, and on failure the error names the character under the cursor and its offset; each iteration strictly increases pos |
| LexerDemo.LexLine | LexerDemo.java:128-130 | constructing a Lexer on a line and tokenizing gives exactly Lex(line), including the failure on an empty line |
| LexSpec.RunEnd | LexerDemo.java:48-70 | the end of the maximal run of a character class from pos: every character before it is in the class and is not NUL, and the character at it is NUL, outside the class, or past the end |
| LexSpec.ScanFrom | LexerDemo.java:87-115 | the lexemes one pass from pos emits, trying whitespace, digit, identifier start, operator and parenthesis in that order; a failure is always an Unexpected error at an offset at or after pos, naming the input's character there, which no rule accepts |
| LexSpec.TokenizeFrom | LexerDemo.java:84-118 | the scanned tokens followed by the end-of-input token: a successful result is non-empty and ends with EOF; a failure is always an Unexpected error at an offset at or after pos |
| LexSpec.Lex | LexerDemo.java:33-37 | construct then tokenize: the result is the EmptyInput failure exactly when the line is empty; a successful result ends with EOF |
| LexProps.CharAtSentinel | LexerDemo.java:41-45 | the cursor character (LexSpec.CharAt) is NUL exactly when pos is past the end or on a NUL of the input; otherwise it is the input's character at pos |
| LexProps.ScanEndShift | LexerDemo.java:87 | moving over non-NUL characters does not move the point where scanning stops |
| LexProps.ScanSegmented | LexerDemo.java:87-115 | a successful scan from pos splits the input into well-formed lexemes: each value is the input text at its offset; lexemes are ordered and do not overlap; all lie between pos and the first NUL |
| LexProps.ScanJoin | LexerDemo.java:84-118 | the values a successful scan from pos emits, concatenated, are the characters from pos to the first NUL with the whitespace removed |
| LexProps.ScanFailsAtFirstRejected | LexerDemo.java:113-114 | a failed scan from pos reports an unexpected character that is rejected by every rule, with its offset; nothing before it, back to pos, is rejected; it lies before the first NUL |
| LexProps.ScanOkAcceptsAll | LexerDemo.java:87-115 | a successful scan from pos met no rejected character before the first NUL |
| LexProps.LexSegmented | LexerDemo.java:93-110 | on success the tokens are those of a segmentation of the line into maximal digit runs, maximal identifier runs, and single operators and parentheses, followed by EOF |
| LexProps.LexEofLast | LexerDemo.java:87-118 | on success the list is non-empty, its last token is EOF with value "", and no earlier token is EOF |
| LexProps.LexTokenShapes | LexerDemo.java:54-82 | on success every token before EOF is a non-empty digit run, a non-empty identifier starting with a letter or underscore, or exactly one operator or parenthesis character |
| LexProps.LexNoWhitespace | LexerDemo.java:48-52 | no whitespace character appears in any token value |
| LexProps.LexJoin | LexerDemo.java:84-118 | on success the token values concatenated in order equal the line before its first NUL with its whitespace removed: nothing lost, duplicated or reordered |
| LexProps.VisibleWithoutNul | LexerDemo.java:42 | a line without NUL is wholly visible to the scan |
| LexProps.LexSucceedsIff | LexerDemo.java:33-115 | the lexer succeeds if and only if the line is non-empty and has no rejected character before its first NUL |
| LexProps.LexFailure | LexerDemo.java:36-114 | a failure is EmptyInput exactly when the line is empty; otherwise it names the first rejected character before the first NUL, with its offset |
| LexExamples.SumScan | LexerDemo.java:87-110 | the scan of "3 + 4" is the lexemes 3, + and 4 at offsets 0, 2 and 4: the spaces are skipped |
| LexExamples.SumWithSpaces | LexerDemo.java:84-118 | "3 + 4" gives Number 3, Operator +, Number 4, EOF |
| LexExamples.ParenScan | LexerDemo.java:98-110 | the scan of "(x)" is the lexemes (, x and ) at offsets 0, 1 and 2 |
| LexExamples.Parenthesised | LexerDemo.java:108-110 | "(x)" gives Parenthesis (, Identifier x, Parenthesis ), EOF |
| LexExamples.EmptyLine | LexerDemo.java:36 | the empty line fails with EmptyInput |
| LexExamples.Ampersand | LexerDemo.java:113-114 | "3 & 4" fails at '&', offset 2 |
| LexExamples.DigitsThenLetter | LexerDemo.java:93-100 | "12a" gives Number 12, Identifier a, EOF: the digit run stops at the letter |
| LexExamples.UnderscoreIdentifier | LexerDemo.java:63-70 | "_foo_2bar" is one identifier |
| LexExamples.NulEndsScan | LexerDemo.java:87 | "7", NUL, "&" gives Number 7, EOF: the scan stops at the NUL and never reaches the '&' |

## Left out

- `LexerDemo.main` (console input and output, and the try/catch/finally
  around them) is not modelled. Only its construct-then-tokenize sequence
  is, as `LexLine`.
- `Token.toString` only formats a token for display, so it is not modelled.
- The Java exception types and the message text are not modelled. A
  lexical error is the value `Unexpected(ch, pos)`. The out-of-bounds read
  on an empty line is the value `EmptyInput`.
- `Character.isDigit`, `isLetter` and `isLetterOrDigit` are limited to
  ASCII. Java also accepts non-ASCII letters and digits, but the model
  rejects them. `Character.isWhitespace` is modelled exactly, for every
  Unicode scalar value, under the Unicode tables of Java 9 and later (under
  Java 8, U+180E is whitespace too, and the model says it is not).
- Java `char` is a UTF-16 code unit, while Dafny `char` is a Unicode scalar
  value. A character outside the Basic Multilingual Plane is one character
  here, but two surrogates in Java. Either way it is rejected.
- `pos` is unbounded. A Java `int` cannot overflow here, because a `String`
  is shorter than 2^31 characters.
- `StringBuilder` and `ArrayList` are modelled as sequences that are
  appended to.
- The `if … continue` chain in `tokenize` is written as an `if … else if`
  chain. Each branch ends the iteration, so the two behave the same.
- There is no general lemma that whitespace between tokens does not change
  the result. It is not true of every line (`1 2` and `12` differ), and
  `LexJoin` states the general fact that whitespace is never part of a
  token.
