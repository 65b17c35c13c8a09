/** The Lexer class: an immutable input, a cursor offset and the character
    under the cursor, updated in place as the scan moves right. Every method
    is proved against the reference lexer of module LexSpec. */
module LexerDemo {
  import opened Chars
  import opened Tokens
  import opened LexSpec
  import LexProps

  class Lexer {
    const input: seq<char>
    var pos: nat
    var currentChar: char

    /** The cursor invariant: currentChar is the character at pos, or the
        NUL sentinel once pos is past the end. */
    ghost predicate Cursor()
      reads this
    {
      currentChar == CharAt(input, pos)
    }

    /** The cursor invariant, with the cursor inside or just past the input. */
    ghost predicate Valid()
      reads this
    {
      Cursor() && pos <= |input|
    }

    /** Reading the first character is out of bounds on an empty input, so
        the constructor needs at least one character. */
    constructor (input: seq<char>)
      requires |input| > 0
      ensures Valid()
      ensures this.input == input && pos == 0 && currentChar == input[0]
    {
      this.input := input;
      pos := 0;
      currentChar := input[0];
    }

    /** Moves the cursor one character to the right. */
    method Advance()
      requires Cursor()
      modifies this
      ensures Cursor() && pos == old(pos) + 1
    {
      pos := pos + 1;
      if pos >= |input| {
        currentChar := '\0';
      } else {
        currentChar := input[pos];
      }
    }

    /** Moves the cursor past the run of whitespace under it. */
    method SkipWhitespace()
      requires Valid()
      modifies this
      ensures Valid() && pos == RunEnd(input, old(pos), IsWhitespace)
      ensures old(currentChar) != '\0' && IsWhitespace(old(currentChar)) ==> pos > old(pos)
    {
      while currentChar != '\0' && IsWhitespace(currentChar)
        invariant Valid() && old(pos) <= pos
        invariant RunEnd(input, pos, IsWhitespace) == RunEnd(input, old(pos), IsWhitespace)
        decreases |input| - pos
      {
        Advance();
      }
    }

    /** Consumes the run of digits under the cursor and returns it as a
        number token (with an empty value when there is no digit). */
    method Number() returns (t: Token)
      requires Valid()
      modifies this
      ensures Valid() && pos == RunEnd(input, old(pos), IsDigit)
      ensures t == Token(TokenType.Number, input[old(pos)..pos])
      ensures old(currentChar) != '\0' && IsDigit(old(currentChar)) ==> pos > old(pos)
    {
      var result: string := [];
      while currentChar != '\0' && IsDigit(currentChar)
        invariant Valid() && old(pos) <= pos
        invariant RunEnd(input, pos, IsDigit) == RunEnd(input, old(pos), IsDigit)
        invariant result == input[old(pos)..pos]
        decreases |input| - pos
      {
        result := result + [currentChar];
        Advance();
      }
      t := Token(TokenType.Number, result);
    }

    /** Consumes the run of letters, digits and underscores under the cursor
        and returns it as an identifier token. */
    method Identifier() returns (t: Token)
      requires Valid()
      modifies this
      ensures Valid() && pos == RunEnd(input, old(pos), IsIdentPart)
      ensures t == Token(TokenType.Identifier, input[old(pos)..pos])
      ensures old(currentChar) != '\0' && IsIdentPart(old(currentChar)) ==> pos > old(pos)
    {
      var result: string := [];
      while currentChar != '\0' && (IsLetterOrDigit(currentChar) || currentChar == '_')
        invariant Valid() && old(pos) <= pos
        invariant RunEnd(input, pos, IsIdentPart) == RunEnd(input, old(pos), IsIdentPart)
        invariant result == input[old(pos)..pos]
        decreases |input| - pos
      {
        result := result + [currentChar];
        Advance();
      }
      t := Token(TokenType.Identifier, result);
    }

    /** Consumes the character under the cursor as an operator token. */
    method Operator() returns (t: Token)
      requires Cursor()
      modifies this
      ensures Cursor() && pos == old(pos) + 1
      ensures t == Token(TokenType.Operator, [old(currentChar)])
    {
      var op := currentChar;
      Advance();
      t := Token(TokenType.Operator, [op]);
    }

    /** Consumes the character under the cursor as a parenthesis token. */
    method Parenthesis() returns (t: Token)
      requires Cursor()
      modifies this
      ensures Cursor() && pos == old(pos) + 1
      ensures t == Token(TokenType.Parenthesis, [old(currentChar)])
    {
      var paren := currentChar;
      Advance();
      t := Token(TokenType.Parenthesis, [paren]);
    }

    /** Scans from the cursor to the sentinel. On success the cursor rests on
        the sentinel and the tokens end with the end-of-input token; on a
        rejected character the cursor stays on it and no token is returned. */
    method Tokenize() returns (r: Result<seq<Token>>)
      requires Valid()
      modifies this
      ensures Valid()
      ensures r == TokenizeFrom(input, old(pos))
      ensures r.Ok? ==> pos == ScanEnd(input, old(pos)) && currentChar == '\0'
      ensures r.Err? ==> r.error == Unexpected(currentChar, pos)
    {
      var tokens: seq<Token> := [];
      ghost var done: seq<Lexeme> := [];
      LexProps.ScannedStart(input, pos);
      while currentChar != '\0'
        invariant Valid()
        invariant LexProps.ScannedUpTo(input, old(pos), done, pos)
        invariant tokens == TokensOf(done)
        decreases |input| - pos
      {
        ghost var start := pos;
        if IsWhitespace(currentChar) {
          SkipWhitespace();
          LexProps.WhitespaceStep(input, old(pos), done, start, pos);
        } else if IsDigit(currentChar) {
          var t := Number();
          LexProps.NumberStep(input, old(pos), done, start, t, pos);
          tokens, done := tokens + [t], done + [Lexeme(t, start)];
        } else if IsLetter(currentChar) || currentChar == '_' {
          var t := Identifier();
          LexProps.IdentifierStep(input, old(pos), done, start, t, pos);
          tokens, done := tokens + [t], done + [Lexeme(t, start)];
        } else if IsOperatorChar(currentChar) {
          var t := Operator();
          LexProps.SingleStep(input, old(pos), done, start, t);
          tokens, done := tokens + [t], done + [Lexeme(t, start)];
        } else if IsParenChar(currentChar) {
          var t := Parenthesis();
          LexProps.SingleStep(input, old(pos), done, start, t);
          tokens, done := tokens + [t], done + [Lexeme(t, start)];
        } else {
          LexProps.RejectedStep(input, old(pos), done, pos);
          return Err(Unexpected(currentChar, pos));
        }
      }
      LexProps.ScannedEnd(input, old(pos), done, pos);
      tokens := tokens + [EofToken];
      return Ok(tokens);
    }
  }

  /** The main program's use of the lexer on one line: construct a Lexer
      (which fails on an empty line) and call tokenize. */
  method LexLine(line: seq<char>) returns (r: Result<seq<Token>>)
    ensures r == Lex(line)
  {
    if |line| == 0 {
      return Err(EmptyInput);
    }
    var lexer := new Lexer(line);
    r := lexer.Tokenize();
  }
}
