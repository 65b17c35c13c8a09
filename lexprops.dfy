/** Properties of the reference lexer: where the scan stops, the shape and
    order of the tokens it emits, that it loses no visible character, and
    exactly when it fails. */
module LexProps {
  import opened Chars
  import opened Tokens
  import opened LexSpec

  /** A lexeme as the rules of tokenize emit it: its value is the input text
      at its offset, and that text is a maximal digit run, a maximal
      identifier run, or one operator or parenthesis character. */
  predicate WellFormed(input: seq<char>, l: Lexeme) {
    l.start < l.End() <= |input| && input[l.start..l.End()] == l.token.value &&
    match l.token.kind
    case Number =>
      (forall j :: l.start <= j < l.End() ==> IsDigit(input[j]))
      && (l.End() == |input| || !IsDigit(input[l.End()]))
    case Identifier =>
      IsIdentStart(input[l.start])
      && (forall j :: l.start <= j < l.End() ==> IsIdentPart(input[j]))
      && (l.End() == |input| || !IsIdentPart(input[l.End()]))
    case Operator => l.End() == l.start + 1 && IsOperatorChar(input[l.start])
    case Parenthesis => l.End() == l.start + 1 && IsParenChar(input[l.start])
    case Eof => false
  }

  /** The lexemes ls are well formed, lie between pos and the sentinel, and
      follow each other left to right without overlapping. */
  predicate Segmented(input: seq<char>, pos: nat, ls: seq<Lexeme>)
    requires pos <= |input|
  {
    (forall i :: 0 <= i < |ls| ==>
      WellFormed(input, ls[i]) && pos <= ls[i].start && ls[i].End() <= ScanEnd(input, pos))
    && (forall i, j :: 0 <= i < j < |ls| ==> ls[i].End() <= ls[j].start)
  }

  /** The cursor shows NUL exactly when it is past the end or on a NUL of
      the input; otherwise it shows the input's character at pos. */
  lemma CharAtSentinel(input: seq<char>, pos: nat)
    ensures CharAt(input, pos) == '\0' <==> (pos >= |input| || input[pos] == '\0')
    ensures CharAt(input, pos) != '\0' ==> pos < |input| && CharAt(input, pos) == input[pos]
  {
  }

  /** Moving over characters that are not NUL does not move the sentinel. */
  lemma {:induction false} ScanEndShift(input: seq<char>, pos: nat, k: nat)
    requires pos <= k <= |input|
    requires forall j :: pos <= j < k ==> input[j] != '\0'
    ensures ScanEnd(input, pos) == ScanEnd(input, k)
    decreases k - pos
  {
    if pos < k {
      assert CharAt(input, pos) == input[pos];
      ScanEndShift(input, pos + 1, k);
    }
  }

  /** The state of the tokenize loop after moving from s0 to pos: the
      lexemes done so far followed by what a scan from pos produces is the
      scan from s0, and no NUL lies between s0 and pos. */
  predicate ScannedUpTo(input: seq<char>, s0: nat, done: seq<Lexeme>, pos: nat) {
    s0 <= pos <= |input|
    && ScanFrom(input, s0) == Prepend(done, ScanFrom(input, pos))
    && ScanEnd(input, s0) == ScanEnd(input, pos)
  }

  /** The loop state on entry. */
  lemma ScannedStart(input: seq<char>, s0: nat)
    requires s0 <= |input|
    ensures ScannedUpTo(input, s0, [], s0)
  {
    match ScanFrom(input, s0)
    case Ok(ls) => assert [] + ls == ls;
    case Err(_) =>
  }

  /** On the sentinel the scan from s0 is exactly the lexemes done, and
      tokenize returns their tokens followed by the end-of-input token. */
  lemma ScannedEnd(input: seq<char>, s0: nat, done: seq<Lexeme>, pos: nat)
    requires ScannedUpTo(input, s0, done, pos) && CharAt(input, pos) == '\0'
    ensures ScanFrom(input, s0) == Ok(done) && pos == ScanEnd(input, s0)
    ensures TokenizeFrom(input, s0) == Ok(TokensOf(done) + [EofToken])
  {
    assert done + [] == done;
  }

  /** On a rejected character the scan from s0 fails there. */
  lemma RejectedStep(input: seq<char>, s0: nat, done: seq<Lexeme>, pos: nat)
    requires ScannedUpTo(input, s0, done, pos)
    requires CharAt(input, pos) != '\0' && IsRejected(CharAt(input, pos))
    ensures TokenizeFrom(input, s0) == Err(Unexpected(CharAt(input, pos), pos))
  {
  }

  /** Skipping the whitespace run from start to pos keeps the loop state. */
  lemma WhitespaceStep(input: seq<char>, s0: nat, done: seq<Lexeme>, start: nat, pos: nat)
    requires ScannedUpTo(input, s0, done, start)
    requires CharAt(input, start) != '\0' && IsWhitespace(CharAt(input, start))
    requires pos == RunEnd(input, start, IsWhitespace)
    ensures ScannedUpTo(input, s0, done, pos)
  {
    ScanEndShift(input, start, pos);
  }

  /** Consuming the digit run from start to pos as the number token t adds
      its lexeme to the loop state. */
  lemma NumberStep(input: seq<char>, s0: nat, done: seq<Lexeme>, start: nat, t: Token, pos: nat)
    requires ScannedUpTo(input, s0, done, start)
    requires CharAt(input, start) != '\0' && !IsWhitespace(CharAt(input, start)) && IsDigit(CharAt(input, start))
    requires pos == RunEnd(input, start, IsDigit) && t == Token(Number, input[start..pos])
    ensures ScannedUpTo(input, s0, done + [Lexeme(t, start)], pos)
    ensures TokensOf(done + [Lexeme(t, start)]) == TokensOf(done) + [t]
  {
    ScanEndShift(input, start, pos);
    PrependAssoc(done, [Lexeme(t, start)], ScanFrom(input, pos));
  }

  /** Consuming the identifier run from start to pos as the identifier
      token t adds its lexeme to the loop state. */
  lemma IdentifierStep(input: seq<char>, s0: nat, done: seq<Lexeme>, start: nat, t: Token, pos: nat)
    requires ScannedUpTo(input, s0, done, start)
    requires CharAt(input, start) != '\0' && !IsWhitespace(CharAt(input, start)) && !IsDigit(CharAt(input, start))
    requires IsIdentStart(CharAt(input, start))
    requires pos == RunEnd(input, start, IsIdentPart) && t == Token(Identifier, input[start..pos])
    ensures ScannedUpTo(input, s0, done + [Lexeme(t, start)], pos)
    ensures TokensOf(done + [Lexeme(t, start)]) == TokensOf(done) + [t]
  {
    ScanEndShift(input, start, pos);
    PrependAssoc(done, [Lexeme(t, start)], ScanFrom(input, pos));
  }

  /** Consuming an operator or a parenthesis at start as the one-character
      token t adds its lexeme to the loop state. */
  lemma SingleStep(input: seq<char>, s0: nat, done: seq<Lexeme>, start: nat, t: Token)
    requires ScannedUpTo(input, s0, done, start)
    requires CharAt(input, start) != '\0' && !IsWhitespace(CharAt(input, start)) && !IsDigit(CharAt(input, start))
    requires !IsIdentStart(CharAt(input, start))
    requires IsOperatorChar(CharAt(input, start)) || IsParenChar(CharAt(input, start))
    requires t == Token(if IsOperatorChar(CharAt(input, start)) then Operator else Parenthesis, [CharAt(input, start)])
    ensures ScannedUpTo(input, s0, done + [Lexeme(t, start)], start + 1)
    ensures TokensOf(done + [Lexeme(t, start)]) == TokensOf(done) + [t]
  {
    ScanEndShift(input, start, start + 1);
    PrependAssoc(done, [Lexeme(t, start)], ScanFrom(input, start + 1));
  }

  /** Prepending in two steps is prepending the concatenation. */
  lemma PrependAssoc(a: seq<Lexeme>, b: seq<Lexeme>, r: Result<seq<Lexeme>>)
    ensures Prepend(a, Prepend(b, r)) == Prepend(a + b, r)
  {
    match r
    case Ok(rest) => assert a + (b + rest) == (a + b) + rest;
    case Err(_) =>
  }

  /** A well-formed lexeme ending at e, put in front of a segmentation from
      e, gives a segmentation from its own start. */
  lemma ConsSegmented(input: seq<char>, l: Lexeme, rest: seq<Lexeme>)
    requires WellFormed(input, l)
    requires forall j :: l.start <= j < l.End() ==> input[j] != '\0'
    requires Segmented(input, l.End(), rest)
    ensures Segmented(input, l.start, [l] + rest)
  {
    ScanEndShift(input, l.start, l.End());
    var ls := [l] + rest;
    forall i, j | 0 <= i < j < |ls| ensures ls[i].End() <= ls[j].start {
      if i > 0 {
        assert ls[i] == rest[i - 1] && ls[j] == rest[j - 1];
      } else {
        assert ls[j] == rest[j - 1];
      }
    }
  }

  /** Every successful scan is a segmentation of the input into well-formed
      lexemes: numbers and identifiers are maximal runs, operators and
      parentheses single characters. */
  lemma {:induction false} ScanSegmented(input: seq<char>, pos: nat, ls: seq<Lexeme>)
    requires pos <= |input| && ScanFrom(input, pos) == Ok(ls)
    ensures Segmented(input, pos, ls)
    decreases |input| - pos
  {
    var c := CharAt(input, pos);
    if c == '\0' {
    } else if IsWhitespace(c) {
      var e := RunEnd(input, pos, IsWhitespace);
      ScanSegmented(input, e, ls);
      ScanEndShift(input, pos, e);
    } else if IsDigit(c) || IsIdentStart(c) || IsOperatorChar(c) || IsParenChar(c) {
      var e :=
        if IsDigit(c) then RunEnd(input, pos, IsDigit)
        else if IsIdentStart(c) then RunEnd(input, pos, IsIdentPart)
        else pos + 1;
      var kind :=
        if IsDigit(c) then Number
        else if IsIdentStart(c) then Identifier
        else if IsOperatorChar(c) then Operator
        else Parenthesis;
      var l := Lexeme(Token(kind, input[pos..e]), pos);
      assert e == pos + 1 ==> input[pos..e] == [c];
      assert ScanFrom(input, pos) == Prepend([l], ScanFrom(input, e));
      var rest := ScanFrom(input, e).value;
      ScanSegmented(input, e, rest);
      ConsSegmented(input, l, rest);
    }
  }

  // ---------------------------------------------------------------------
  // Nothing is lost, duplicated or reordered

  lemma {:induction false} StripAppend(a: seq<char>, b: seq<char>)
    ensures StripWhitespace(a + b) == StripWhitespace(a) + StripWhitespace(b)
  {
    if a == [] {
      assert a + b == b;
    } else {
      assert (a + b)[1..] == a[1..] + b;
      StripAppend(a[1..], b);
    }
  }

  lemma {:induction false} StripNone(s: seq<char>)
    requires forall k :: 0 <= k < |s| ==> !IsWhitespace(s[k])
    ensures StripWhitespace(s) == s
  {
    if s != [] {
      StripNone(s[1..]);
    }
  }

  lemma {:induction false} StripAll(s: seq<char>)
    requires forall k :: 0 <= k < |s| ==> IsWhitespace(s[k])
    ensures StripWhitespace(s) == []
  {
    if s != [] {
      StripAll(s[1..]);
    }
  }

  lemma TokensOfCons(l: Lexeme, rest: seq<Lexeme>)
    ensures TokensOf([l] + rest) == [l.token] + TokensOf(rest)
  {
  }

  /** Skipping the whitespace from pos to e adds nothing to the join. */
  lemma JoinSkip(input: seq<char>, pos: nat, e: nat, end: nat, rest: string)
    requires pos <= e <= end <= |input|
    requires forall j :: pos <= j < e ==> IsWhitespace(input[j])
    requires rest == StripWhitespace(input[e..end])
    ensures rest == StripWhitespace(input[pos..end])
  {
    assert input[pos..end] == input[pos..e] + input[e..end];
    StripAppend(input[pos..e], input[e..end]);
    StripAll(input[pos..e]);
  }

  /** Emitting the text from pos to e, which holds no whitespace, puts it in
      front of the join. */
  lemma JoinEmit(input: seq<char>, pos: nat, e: nat, end: nat, l: Lexeme, rest: seq<Lexeme>)
    requires pos <= e <= end <= |input|
    requires forall j :: pos <= j < e ==> !IsWhitespace(input[j])
    requires l.token.value == input[pos..e]
    requires Join(TokensOf(rest)) == StripWhitespace(input[e..end])
    ensures Join(TokensOf([l] + rest)) == StripWhitespace(input[pos..end])
  {
    TokensOfCons(l, rest);
    assert ([l.token] + TokensOf(rest))[1..] == TokensOf(rest);
    assert input[pos..end] == input[pos..e] + input[e..end];
    StripAppend(input[pos..e], input[e..end]);
    StripNone(input[pos..e]);
  }

  /** The values of the tokens a scan from pos emits, concatenated, are the
      characters from pos up to the sentinel with the whitespace left out. */
  lemma {:induction false} ScanJoin(input: seq<char>, pos: nat, ls: seq<Lexeme>)
    requires pos <= |input| && ScanFrom(input, pos) == Ok(ls)
    ensures Join(TokensOf(ls)) == StripWhitespace(input[pos..ScanEnd(input, pos)])
    decreases |input| - pos
  {
    var c := CharAt(input, pos);
    if c == '\0' {
      assert ScanEnd(input, pos) == pos;
      assert TokensOf(ls) == [];
    } else if IsWhitespace(c) {
      var e := RunEnd(input, pos, IsWhitespace);
      ScanJoin(input, e, ls);
      ScanEndShift(input, pos, e);
      JoinSkip(input, pos, e, ScanEnd(input, pos), Join(TokensOf(ls)));
    } else if IsDigit(c) || IsIdentStart(c) || IsOperatorChar(c) || IsParenChar(c) {
      var e :=
        if IsDigit(c) then RunEnd(input, pos, IsDigit)
        else if IsIdentStart(c) then RunEnd(input, pos, IsIdentPart)
        else pos + 1;
      var kind :=
        if IsDigit(c) then Number
        else if IsIdentStart(c) then Identifier
        else if IsOperatorChar(c) then Operator
        else Parenthesis;
      var l := Lexeme(Token(kind, input[pos..e]), pos);
      assert e == pos + 1 ==> input[pos..e] == [c];
      assert ScanFrom(input, pos) == Prepend([l], ScanFrom(input, e));
      var rest := ScanFrom(input, e).value;
      ScanJoin(input, e, rest);
      ScanEndShift(input, pos, e);
      JoinEmit(input, pos, e, ScanEnd(input, pos), l, rest);
    }
  }

  // ---------------------------------------------------------------------
  // When the scan fails

  /** A failed scan from pos fails at the first rejected character before
      the sentinel, and reports that character and its offset. */
  lemma {:induction false} ScanFailsAtFirstRejected(input: seq<char>, pos: nat, err: LexError)
    requires pos <= |input| && ScanFrom(input, pos) == Err(err)
    ensures err.Unexpected? && pos <= err.pos < ScanEnd(input, pos)
    ensures err.ch == input[err.pos] && IsRejected(err.ch)
    ensures forall q :: pos <= q < err.pos ==> !IsRejected(input[q])
    decreases |input| - pos
  {
    var c := CharAt(input, pos);
    if IsWhitespace(c) || IsDigit(c) || IsIdentStart(c) || IsOperatorChar(c) || IsParenChar(c) {
      var e :=
        if IsWhitespace(c) then RunEnd(input, pos, IsWhitespace)
        else if IsDigit(c) then RunEnd(input, pos, IsDigit)
        else if IsIdentStart(c) then RunEnd(input, pos, IsIdentPart)
        else pos + 1;
      assert ScanFrom(input, e) == Err(err);
      ScanFailsAtFirstRejected(input, e, err);
      ScanEndShift(input, pos, e);
    } else {
      assert ScanEnd(input, pos) == ScanEnd(input, pos + 1);
    }
  }

  /** A successful scan from pos saw no rejected character before the
      sentinel. */
  lemma {:induction false} ScanOkAcceptsAll(input: seq<char>, pos: nat, ls: seq<Lexeme>)
    requires pos <= |input| && ScanFrom(input, pos) == Ok(ls)
    ensures forall q :: pos <= q < ScanEnd(input, pos) ==> !IsRejected(input[q])
    decreases |input| - pos
  {
    var c := CharAt(input, pos);
    if c == '\0' {
      assert ScanEnd(input, pos) == pos;
    } else if IsWhitespace(c) || IsDigit(c) || IsIdentStart(c) || IsOperatorChar(c) || IsParenChar(c) {
      var e :=
        if IsWhitespace(c) then RunEnd(input, pos, IsWhitespace)
        else if IsDigit(c) then RunEnd(input, pos, IsDigit)
        else if IsIdentStart(c) then RunEnd(input, pos, IsIdentPart)
        else pos + 1;
      var rest := ScanFrom(input, e).value;
      ScanOkAcceptsAll(input, e, rest);
      ScanEndShift(input, pos, e);
    }
  }

  // ---------------------------------------------------------------------
  // The lexer on a whole line

  /** The shape an emitted token's value has, by kind. */
  predicate ValueShape(t: Token) {
    var v := t.value;
    match t.kind
    case Number => |v| > 0 && forall k :: 0 <= k < |v| ==> IsDigit(v[k])
    case Identifier =>
      |v| > 0 && IsIdentStart(v[0]) && forall k :: 0 <= k < |v| ==> IsIdentPart(v[k])
    case Operator => |v| == 1 && IsOperatorChar(v[0])
    case Parenthesis => |v| == 1 && IsParenChar(v[0])
    case Eof => false
  }

  /** A successful lexer run is a segmentation of the line: its tokens are
      those of well-formed, ordered lexemes followed by the end-of-input
      token. Numbers and identifiers are maximal runs. */
  lemma LexSegmented(input: seq<char>)
    requires Lex(input).Ok?
    ensures |input| > 0 && ScanFrom(input, 0).Ok?
    ensures Lex(input).value == TokensOf(ScanFrom(input, 0).value) + [EofToken]
    ensures Segmented(input, 0, ScanFrom(input, 0).value)
  {
    ScanSegmented(input, 0, ScanFrom(input, 0).value);
  }

  /** On success the last token is the end-of-input token with an empty
      value, and no earlier token is an end-of-input token. */
  lemma LexEofLast(input: seq<char>, ts: seq<Token>)
    requires Lex(input) == Ok(ts)
    ensures |ts| > 0 && ts[|ts| - 1] == Token(Eof, "")
    ensures forall i :: 0 <= i < |ts| - 1 ==> ts[i].kind != Eof
  {
    LexSegmented(input);
    var ls := ScanFrom(input, 0).value;
    forall i | 0 <= i < |ts| - 1 ensures ts[i].kind != Eof {
      assert ts[i] == ls[i].token && WellFormed(input, ls[i]);
    }
  }

  /** On success every token before the end-of-input token is a non-empty
      digit run, an identifier starting with a letter or underscore, or one
      operator or parenthesis character. */
  lemma LexTokenShapes(input: seq<char>, ts: seq<Token>)
    requires Lex(input) == Ok(ts)
    ensures forall i :: 0 <= i < |ts| - 1 ==> ValueShape(ts[i])
  {
    LexSegmented(input);
    var ls := ScanFrom(input, 0).value;
    forall i | 0 <= i < |ts| - 1 ensures ValueShape(ts[i]) {
      var l := ls[i];
      assert ts[i] == l.token && WellFormed(input, l);
      var v := l.token.value;
      assert forall k :: 0 <= k < |v| ==> v[k] == input[l.start + k];
    }
  }

  /** No whitespace character is part of any token value. */
  lemma LexNoWhitespace(input: seq<char>, ts: seq<Token>)
    requires Lex(input) == Ok(ts)
    ensures forall i, k :: 0 <= i < |ts| && 0 <= k < |ts[i].value| ==> !IsWhitespace(ts[i].value[k])
  {
    LexTokenShapes(input, ts);
    LexEofLast(input, ts);
  }

  /** On success the token values, concatenated in order, are the visible
      part of the line with its whitespace left out. */
  lemma LexJoin(input: seq<char>, ts: seq<Token>)
    requires Lex(input) == Ok(ts)
    ensures Join(ts) == StripWhitespace(Visible(input))
  {
    LexSegmented(input);
    var ls := ScanFrom(input, 0).value;
    ScanJoin(input, 0, ls);
    JoinAppend(TokensOf(ls), [EofToken]);
    assert Join([EofToken]) == [];
  }

  lemma {:induction false} JoinAppend(a: seq<Token>, b: seq<Token>)
    ensures Join(a + b) == Join(a) + Join(b)
  {
    if a == [] {
      assert a + b == b;
    } else {
      assert (a + b)[1..] == a[1..] + b;
      JoinAppend(a[1..], b);
    }
  }

  /** Without a NUL character the whole line is visible. */
  lemma {:induction false} VisibleWithoutNul(input: seq<char>)
    requires forall j :: 0 <= j < |input| ==> input[j] != '\0'
    ensures Visible(input) == input
  {
    ScanEndShift(input, 0, |input|);
  }

  /** The lexer succeeds exactly on a non-empty line that has no rejected
      character before its first NUL. */
  lemma LexSucceedsIff(input: seq<char>)
    ensures Lex(input).Ok? <==>
      |input| > 0 && forall q :: 0 <= q < ScanEnd(input, 0) ==> !IsRejected(input[q])
  {
    if |input| > 0 {
      match ScanFrom(input, 0)
      case Ok(ls) => ScanOkAcceptsAll(input, 0, ls);
      case Err(e) => ScanFailsAtFirstRejected(input, 0, e);
    }
  }

  /** A failed lexer run is the empty line, or reports the first rejected
      character before the first NUL, with its offset. */
  lemma LexFailure(input: seq<char>, err: LexError)
    requires Lex(input) == Err(err)
    ensures err == EmptyInput <==> |input| == 0
    ensures err.Unexpected? ==>
      err.pos < ScanEnd(input, 0) && err.ch == input[err.pos] && IsRejected(err.ch)
      && forall q :: 0 <= q < err.pos ==> !IsRejected(input[q])
  {
    if |input| > 0 {
      ScanFailsAtFirstRejected(input, 0, err);
    }
  }
}
