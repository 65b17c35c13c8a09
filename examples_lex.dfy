/** Concrete runs of the reference lexer on a few lines, each followed step
    by step as the tokenize loop takes it. */
module LexExamples {
  import opened Chars
  import opened Tokens
  import opened LexSpec
  import opened LexProps

  /** The scan of "3 + 4": the lexemes 3, + and 4 at offsets 0, 2 and 4. */
  lemma SumScan()
    ensures ScanFrom("3 + 4", 0) == Ok([Lexeme(Token(Number, "3"), 0), Lexeme(Token(Operator, "+"), 2), Lexeme(Token(Number, "4"), 4)])
  {
    var s := "3 + 4";
    var three, plus, four := Token(Number, "3"), Token(Operator, "+"), Token(Number, "4");
    var d0: seq<Lexeme> := [];
    ScannedStart(s, 0);
    assert RunEnd(s, 0, IsDigit) == 1 && s[0..1] == [s[0]] == "3";
    NumberStep(s, 0, d0, 0, three, 1);
    var d1 := d0 + [Lexeme(three, 0)];
    assert RunEnd(s, 1, IsWhitespace) == 2;
    WhitespaceStep(s, 0, d1, 1, 2);
    SingleStep(s, 0, d1, 2, plus);
    var d2 := d1 + [Lexeme(plus, 2)];
    assert RunEnd(s, 3, IsWhitespace) == 4;
    WhitespaceStep(s, 0, d2, 3, 4);
    assert RunEnd(s, 4, IsDigit) == 5 && s[4..5] == [s[4]] == "4";
    NumberStep(s, 0, d2, 4, four, 5);
    var d3 := d2 + [Lexeme(four, 4)];
    ScannedEnd(s, 0, d3, 5);
    assert d3 == [Lexeme(three, 0), Lexeme(plus, 2), Lexeme(four, 4)];
  }

  /** "3 + 4" is a number, an operator and a number. */
  lemma SumWithSpaces()
    ensures Lex("3 + 4") == Ok([Token(Number, "3"), Token(Operator, "+"), Token(Number, "4"), EofToken])
  {
    SumScan();
    var ls := [Lexeme(Token(Number, "3"), 0), Lexeme(Token(Operator, "+"), 2), Lexeme(Token(Number, "4"), 4)];
    assert TokensOf(ls) == [Token(Number, "3"), Token(Operator, "+"), Token(Number, "4")];
    assert TokenizeFrom("3 + 4", 0) == Ok(TokensOf(ls) + [EofToken]);
    assert TokensOf(ls) + [EofToken] == [Token(Number, "3"), Token(Operator, "+"), Token(Number, "4"), EofToken];
  }

  /** The scan of "(x)": the lexemes (, x and ) at offsets 0, 1 and 2. */
  lemma ParenScan()
    ensures ScanFrom("(x)", 0) == Ok([Lexeme(Token(Parenthesis, "("), 0), Lexeme(Token(Identifier, "x"), 1), Lexeme(Token(Parenthesis, ")"), 2)])
  {
    var s := "(x)";
    var open, x, close := Token(Parenthesis, "("), Token(Identifier, "x"), Token(Parenthesis, ")");
    var d0: seq<Lexeme> := [];
    ScannedStart(s, 0);
    SingleStep(s, 0, d0, 0, open);
    var d1 := d0 + [Lexeme(open, 0)];
    assert RunEnd(s, 1, IsIdentPart) == 2 && s[1..2] == [s[1]] == "x";
    IdentifierStep(s, 0, d1, 1, x, 2);
    var d2 := d1 + [Lexeme(x, 1)];
    SingleStep(s, 0, d2, 2, close);
    var d3 := d2 + [Lexeme(close, 2)];
    ScannedEnd(s, 0, d3, 3);
    assert d3 == [Lexeme(open, 0), Lexeme(x, 1), Lexeme(close, 2)];
  }

  /** "(x)": each parenthesis is a token of its own. */
  lemma Parenthesised()
    ensures Lex("(x)") == Ok([Token(Parenthesis, "("), Token(Identifier, "x"), Token(Parenthesis, ")"), EofToken])
  {
    ParenScan();
    var ls := [Lexeme(Token(Parenthesis, "("), 0), Lexeme(Token(Identifier, "x"), 1), Lexeme(Token(Parenthesis, ")"), 2)];
    assert TokensOf(ls) == [Token(Parenthesis, "("), Token(Identifier, "x"), Token(Parenthesis, ")")];
    assert TokenizeFrom("(x)", 0) == Ok(TokensOf(ls) + [EofToken]);
    assert TokensOf(ls) + [EofToken] == [Token(Parenthesis, "("), Token(Identifier, "x"), Token(Parenthesis, ")"), EofToken];
  }

  /** An empty line fails before any scanning: the constructor reads the
      first character. */
  lemma EmptyLine()
    ensures Lex("") == Err(EmptyInput)
  {
  }

  /** "3 & 4" fails at the ampersand, offset 2, without emitting a token. */
  lemma Ampersand()
    ensures Lex("3 & 4") == Err(Unexpected('&', 2))
  {
    var s := "3 & 4";
    VisibleWithoutNul(s);
    LexSucceedsIff(s);
    assert IsRejected(s[2]);
    var err := Lex(s).error;
    LexFailure(s, err);
    assert !IsRejected(s[0]) && !IsRejected(s[1]);
  }

  /** "12a" splits at the class boundary: the digit run, then the
      identifier. */
  lemma DigitsThenLetter()
    ensures Lex("12a") == Ok([Token(Number, "12"), Token(Identifier, "a"), EofToken])
  {
    var s := "12a";
    var twelve, a := Token(Number, "12"), Token(Identifier, "a");
    var d0: seq<Lexeme> := [];
    ScannedStart(s, 0);
    assert RunEnd(s, 1, IsDigit) == 2;
    assert RunEnd(s, 0, IsDigit) == 2 && s[0..2] == [s[0], s[1]] == "12";
    NumberStep(s, 0, d0, 0, twelve, 2);
    var d1 := d0 + [Lexeme(twelve, 0)];
    assert RunEnd(s, 2, IsIdentPart) == 3 && s[2..3] == [s[2]] == "a";
    IdentifierStep(s, 0, d1, 2, a, 3);
    var d2 := d1 + [Lexeme(a, 2)];
    ScannedEnd(s, 0, d2, 3);
    assert TokensOf(d0) == [];
    assert TokensOf(d2) + [EofToken] == [twelve, a, EofToken];
  }

  /** "_foo_2bar" is one identifier: underscores and digits continue it. */
  lemma UnderscoreIdentifier()
    ensures Lex("_foo_2bar") == Ok([Token(Identifier, "_foo_2bar"), EofToken])
  {
    var s := "_foo_2bar";
    ScannedStart(s, 0);
    assert RunEnd(s, 8, IsIdentPart) == 9;
    assert RunEnd(s, 7, IsIdentPart) == 9;
    assert RunEnd(s, 6, IsIdentPart) == 9;
    assert RunEnd(s, 5, IsIdentPart) == 9;
    assert RunEnd(s, 4, IsIdentPart) == 9;
    assert RunEnd(s, 3, IsIdentPart) == 9;
    assert RunEnd(s, 2, IsIdentPart) == 9;
    assert RunEnd(s, 1, IsIdentPart) == 9;
    assert RunEnd(s, 0, IsIdentPart) == 9 && s[0..9] == s;
    var d0: seq<Lexeme> := [];
    IdentifierStep(s, 0, d0, 0, Token(Identifier, s), 9);
    ScannedEnd(s, 0, d0 + [Lexeme(Token(Identifier, s), 0)], 9);
    assert TokensOf(d0) == [];
    assert TokensOf(d0 + [Lexeme(Token(Identifier, s), 0)]) + [EofToken] == [Token(Identifier, s), EofToken];
  }

  /** A NUL ends the scan early: what follows it is never looked at, even a
      character the lexer would reject. */
  lemma NulEndsScan()
    ensures Lex("7\0&") == Ok([Token(Number, "7"), EofToken])
  {
    var s := "7\0&";
    ScannedStart(s, 0);
    var d0: seq<Lexeme> := [];
    assert RunEnd(s, 0, IsDigit) == 1 && s[0..1] == [s[0]] == "7";
    NumberStep(s, 0, d0, 0, Token(Number, "7"), 1);
    assert CharAt(s, 1) == '\0';
    ScannedEnd(s, 0, d0 + [Lexeme(Token(Number, "7"), 0)], 1);
    assert TokensOf(d0) == [];
    assert TokensOf(d0 + [Lexeme(Token(Number, "7"), 0)]) + [EofToken] == [Token(Number, "7"), EofToken];
  }
}
