/** The lexer's values: token kinds, tokens, and the outcome of a scan. */
module Tokens {

  /** The TokenType enum. */
  datatype TokenType = Number | Identifier | Operator | Parenthesis | Eof

  /** A token: its kind and the exact text it matched (empty for Eof). */
  datatype Token = Token(kind: TokenType, value: string)

  /** The end-of-input token appended after a successful scan. */
  const EofToken := Token(Eof, "")

  /** Why a scan produced no token list. EmptyInput stands for the
      out-of-bounds read of the first character that the constructor makes
      on an empty line; Unexpected is the lexical error raised on a
      character no rule accepts, with the offset where it was met. */
  datatype LexError = EmptyInput | Unexpected(ch: char, pos: nat)

  datatype Result<T> = Ok(value: T) | Err(error: LexError)
}
