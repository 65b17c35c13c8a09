/** The reference lexer: a pure, recursive description of what one pass of
    the Lexer class computes from a given offset of its input. It works on
    lexemes (a token together with the offset where its text starts) so that
    the properties of the token stream can be stated against the input. */
module LexSpec {
  import opened Chars
  import opened Tokens

  /** What the cursor shows at offset pos: the input's character there, or
      the NUL sentinel once pos is past the end. */
  function CharAt(input: seq<char>, pos: nat): char {
    if pos < |input| then input[pos] else '\0'
  }

  /** A character that may start an identifier. */
  predicate IsIdentStart(c: char) {
    IsLetter(c) || c == '_'
  }

  /** A character that may continue an identifier. */
  predicate IsIdentPart(c: char) {
    IsLetterOrDigit(c) || c == '_'
  }

  /** A character of the operator set: plus, minus, star, slash. */
  predicate IsOperatorChar(c: char) {
    c == '+' || c == '-' || c == '*' || c == '/'
  }

  /** A character of the parenthesis set: opening or closing parenthesis. */
  predicate IsParenChar(c: char) {
    c == '(' || c == ')'
  }

  /** A character that no branch of tokenize accepts. */
  predicate IsRejected(c: char) {
    !IsWhitespace(c) && !IsDigit(c) && !IsIdentStart(c)
    && !IsOperatorChar(c) && !IsParenChar(c)
  }

  /** Every character belongs to the run used to find the sentinel. */
  predicate AnyChar(c: char) {
    true
  }

  /** The end of the maximal run of characters satisfying inRun that starts
      at pos, stopping as the lexer's loops do at the NUL sentinel. */
  function RunEnd(input: seq<char>, pos: nat, inRun: char -> bool): (e: nat)
    requires pos <= |input|
    ensures pos <= e <= |input|
    ensures forall j :: pos <= j < e ==> input[j] != '\0' && inRun(input[j])
    ensures e == |input| || input[e] == '\0' || !inRun(input[e])
    decreases |input| - pos
  {
    var c := CharAt(input, pos);
    if c != '\0' && inRun(c) then RunEnd(input, pos + 1, inRun) else pos
  }

  /** Where a scan started at pos stops: the first NUL at or after pos, or
      the end of the input. */
  function ScanEnd(input: seq<char>, pos: nat): nat
    requires pos <= |input|
  {
    RunEnd(input, pos, AnyChar)
  }

  /** A token together with the offset of its first character. */
  datatype Lexeme = Lexeme(token: Token, start: nat) {
    function End(): nat {
      start + |token.value|
    }
  }

  /** Puts the lexemes ls in front of a successful rest of a scan. */
  function Prepend(ls: seq<Lexeme>, r: Result<seq<Lexeme>>): Result<seq<Lexeme>> {
    match r
    case Ok(rest) => Ok(ls + rest)
    case Err(e) => Err(e)
  }

  /** The lexemes a pass started at pos produces before it meets the
      sentinel, or the lexical error at the first rejected character.
      The branches are tried in the order of tokenize: whitespace, digit,
      identifier start, operator, parenthesis. */
  function ScanFrom(input: seq<char>, pos: nat): (r: Result<seq<Lexeme>>)
    requires pos <= |input|
    ensures r.Err? ==>
      (r.error.Unexpected? && pos <= r.error.pos < |input|
       && r.error.ch == input[r.error.pos] && IsRejected(r.error.ch))
    decreases |input| - pos
  {
    var c := CharAt(input, pos);
    if c == '\0' then
      Ok([])
    else if IsWhitespace(c) then
      ScanFrom(input, RunEnd(input, pos, IsWhitespace))
    else if IsDigit(c) then
      var e := RunEnd(input, pos, IsDigit);
      Prepend([Lexeme(Token(Number, input[pos..e]), pos)], ScanFrom(input, e))
    else if IsIdentStart(c) then
      var e := RunEnd(input, pos, IsIdentPart);
      Prepend([Lexeme(Token(Identifier, input[pos..e]), pos)], ScanFrom(input, e))
    else if IsOperatorChar(c) then
      Prepend([Lexeme(Token(Operator, [c]), pos)], ScanFrom(input, pos + 1))
    else if IsParenChar(c) then
      Prepend([Lexeme(Token(Parenthesis, [c]), pos)], ScanFrom(input, pos + 1))
    else
      Err(Unexpected(c, pos))
  }

  /** The tokens of a sequence of lexemes, in order. */
  function TokensOf(ls: seq<Lexeme>): seq<Token> {
    seq(|ls|, i requires 0 <= i < |ls| => ls[i].token)
  }

  /** What tokenize returns when it is entered with the cursor at pos: the
      scanned tokens followed by the end-of-input token. */
  function TokenizeFrom(input: seq<char>, pos: nat): (r: Result<seq<Token>>)
    requires pos <= |input|
    ensures r.Ok? ==>
      (|r.value| > 0 && r.value[|r.value| - 1] == EofToken)
    ensures r.Err? ==> r.error.Unexpected? && pos <= r.error.pos < |input|
  {
    match ScanFrom(input, pos)
    case Ok(ls) => Ok(TokensOf(ls) + [EofToken])
    case Err(e) => Err(e)
  }

  /** Constructing a Lexer on input and calling tokenize: an empty input
      fails in the constructor, any other starts scanning at offset 0. */
  function Lex(input: seq<char>): (r: Result<seq<Token>>)
    ensures r == Err(EmptyInput) <==> |input| == 0
    ensures r.Ok? ==> |r.value| > 0 && r.value[|r.value| - 1] == EofToken
  {
    if |input| == 0 then Err(EmptyInput) else TokenizeFrom(input, 0)
  }

  /** The characters of s in order, whitespace left out. */
  function StripWhitespace(s: seq<char>): seq<char> {
    if s == [] then []
    else (if IsWhitespace(s[0]) then [] else [s[0]]) + StripWhitespace(s[1..])
  }

  /** What a scan of input can see: everything before the first NUL. */
  function Visible(input: seq<char>): seq<char> {
    input[..ScanEnd(input, 0)]
  }

  /** The values of the tokens ts, concatenated in order. */
  function Join(ts: seq<Token>): string {
    if ts == [] then [] else ts[0].value + Join(ts[1..])
  }
}
