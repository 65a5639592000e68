/** What the token stream of `Lex` looks like, for every input: each token's literal is the
    text it was cut from, tokens come in input order without overlapping, string literals sit
    between quotes, nothing starts at white space, the stream ends with EOF or with the
    illegal-operator error, and no bracket token is ever produced. */
module LexerLemmas {
  import opened Util
  import opened Token
  import opened LexerSpec

  /** How much input a token covers before the next token can start. */
  function Span(t: Token): nat {
    if t.kind == ILLEGAL || t.lit == [] then 1 else |t.lit|
  }

  /** The diagnostic the lexer sends for a character it cannot start a token with. */
  function Diagnostic(c: char): string {
    (if c == '^' then "illegal operator: " else "lexer: invalid token ") + QuoteRune(c)
  }

  /** One token, checked against the input it came from. */
  predicate TokenOk(input: string, t: Token) {
    t.pos <= |input| &&
    t.kind != LBRACKET && t.kind != RBRACKET &&
    // the literal is the text at the token's position
    (t.kind != ILLEGAL ==> t.pos + |t.lit| <= |input| && input[t.pos..t.pos + |t.lit|] == t.lit) &&
    // an error token carries the diagnostic for the character at its position
    (t.kind == ILLEGAL ==> t.pos < |input| && t.lit == Diagnostic(input[t.pos])) &&
    // a string literal is the quote-free text between two quotes
    (t.kind == STRING ==>
      0 < t.pos && input[t.pos - 1] == '"' && t.pos + |t.lit| < |input| &&
      input[t.pos + |t.lit|] == '"' && '"' !in t.lit) &&
    // only string contents may start with white space
    (t.kind != STRING && t.pos < |input| ==> !IsSpace(input[t.pos])) &&
    // EOF is the end of the input or an embedded NUL
    (t.kind == EOF ==> (t.lit == "" && t.pos == |input|) || t.lit == [0 as char])
  }

  /** Consecutive tokens do not overlap. */
  predicate Ordered(toks: seq<Token>) {
    forall i :: 0 <= i < |toks| - 1 ==> toks[i].pos + Span(toks[i]) <= toks[i + 1].pos
  }

  /** The shape of everything the state machine emits from offset p on. */
  predicate Good(input: string, p: nat, sc: Scan) {
    (forall i :: 0 <= i < |sc.tokens| ==> p <= sc.tokens[i].pos && TokenOk(input, sc.tokens[i])) &&
    Ordered(sc.tokens) &&
    (forall i :: 0 <= i < |sc.tokens| && sc.tokens[i].kind == EOF ==> i == |sc.tokens| - 1 && !sc.hangs) &&
    (!sc.hangs ==> |sc.tokens| > 0 && sc.tokens[|sc.tokens| - 1].kind in {EOF, ILLEGAL})
  }

  lemma PrependGood(input: string, p: nat, t: Token, q: nat, rest: Scan)
    requires Good(input, q, rest) && TokenOk(input, t)
    requires p <= t.pos && t.pos + Span(t) <= q && t.kind != EOF
    ensures Good(input, p, Prepend(t, rest))
  {
    var all := Prepend(t, rest).tokens;
    assert all == [t] + rest.tokens;
    forall i | 0 <= i < |all| - 1
      ensures all[i].pos + Span(all[i]) <= all[i + 1].pos
    {
      if i > 0 {
        assert all[i] == rest.tokens[i - 1] && all[i + 1] == rest.tokens[i];
      }
    }
  }

  /** A stream of one final token. */
  lemma LastGood(input: string, p: nat, t: Token)
    requires TokenOk(input, t) && p <= t.pos && t.kind in {EOF, ILLEGAL}
    ensures Good(input, p, Scan([t], false))
  {
  }

  lemma {:induction false} ScanExpressionGood(input: string, p: nat)
    requires p <= |input|
    ensures Good(input, p, ScanExpression(input, p))
    decreases |input| - p, 3
  {
    if p == |input| {
      assert input[p..p] == "";
      LastGood(input, p, Token(EOF, "", p));
    } else {
      var r := input[p];
      if IsSpace(r) {
        ScanSpaceGood(input, p);
      } else if IsOperator(r) || IsLetter(r) || r == '"' {
        ScanWordGood(input, p);
      } else if DelimiterKind(r) != EOF {
        ScanDelimiterGood(input, p);
      } else if r == 0 as char {
        assert input[p..p + 1] == [r];
        assert ScanExpression(input, p) == Scan([Token(EOF, input[p..p + 1], p)], false);
        LastGood(input, p, Token(EOF, input[p..p + 1], p));
      } else if IsNumber(r) {
        assert ScanExpression(input, p) == ScanNumber(input, p);
        ScanNumberGood(input, p);
      } else {
        ScanInvalidGood(input, p);
      }
    }
  }

  /** White space is skipped. */
  lemma {:induction false} ScanSpaceGood(input: string, p: nat)
    requires p < |input| && IsSpace(input[p])
    ensures Good(input, p, ScanExpression(input, p))
    decreases |input| - p, 1
  {
    assert ScanExpression(input, p) == ScanExpression(input, p + 1);
    ScanExpressionGood(input, p + 1);
  }

  /** The states entered from `lexExpression` without emitting: operator, identifier, string. */
  lemma {:induction false} ScanWordGood(input: string, p: nat)
    requires p < |input| && !IsSpace(input[p])
    requires IsOperator(input[p]) || IsLetter(input[p]) || input[p] == '"'
    ensures Good(input, p, ScanExpression(input, p))
    decreases |input| - p, 2
  {
    var r := input[p];
    if IsOperator(r) {
      assert ScanExpression(input, p) == ScanOperator(input, p);
      ScanOperatorGood(input, p);
    } else if IsLetter(r) {
      assert ScanExpression(input, p) == ScanIdentifier(input, p);
      ScanIdentifierGood(input, p);
    } else {
      assert ScanExpression(input, p) == ScanString(input, p + 1, p + 1);
      ScanStringGood(input, p + 1, p + 1);
    }
  }

  /** A one-character delimiter, then the rest. */
  lemma {:induction false} ScanDelimiterGood(input: string, p: nat)
    requires p < |input| && DelimiterKind(input[p]) != EOF
    requires !IsSpace(input[p]) && !IsOperator(input[p]) && !IsLetter(input[p]) && input[p] != '"'
    ensures Good(input, p, ScanExpression(input, p))
    decreases |input| - p, 1
  {
    var t := Token(DelimiterKind(input[p]), input[p..p + 1], p);
    assert ScanExpression(input, p) == Prepend(t, ScanExpression(input, p + 1));
    ScanExpressionGood(input, p + 1);
    DelimiterTokenOk(input, p);
    PrependGood(input, p, t, p + 1, ScanExpression(input, p + 1));
  }

  /** A character no token starts with, then the rest. */
  lemma {:induction false} ScanInvalidGood(input: string, p: nat)
    requires p < |input| && DelimiterKind(input[p]) == EOF && input[p] != 0 as char
    requires !IsSpace(input[p]) && !IsOperator(input[p]) && !IsLetter(input[p]) && input[p] != '"'
    requires !IsNumber(input[p])
    ensures Good(input, p, ScanExpression(input, p))
    decreases |input| - p, 1
  {
    var t := Token(ILLEGAL, "lexer: invalid token " + QuoteRune(input[p]), p);
    assert ScanExpression(input, p) == Prepend(t, ScanExpression(input, p + 1));
    ScanExpressionGood(input, p + 1);
    InvalidTokenOk(input, p);
    PrependGood(input, p, t, p + 1, ScanExpression(input, p + 1));
  }

  lemma DelimiterTokenOk(input: string, p: nat)
    requires p < |input| && DelimiterKind(input[p]) != EOF
    ensures TokenOk(input, Token(DelimiterKind(input[p]), input[p..p + 1], p))
  {
  }

  lemma InvalidTokenOk(input: string, p: nat)
    requires p < |input| && input[p] != '^'
    requires !IsSpace(input[p]) && !IsOperator(input[p]) && !IsLetter(input[p]) && input[p] != '"'
    ensures TokenOk(input, Token(ILLEGAL, "lexer: invalid token " + QuoteRune(input[p]), p))
  {
  }

  lemma {:induction false} ScanOperatorGood(input: string, p: nat)
    requires p < |input| && IsOperator(input[p])
    ensures Good(input, p, ScanOperator(input, p))
    decreases |input| - p, 1
  {
    var r := input[p];
    if SingleOperator(r) == ILLEGAL {
      LastGood(input, p, Token(ILLEGAL, "illegal operator: " + QuoteRune(r), p));
    } else if HasDouble(r) && DoubleOperator(r, RuneAt(input, p + 1)) != ILLEGAL {
      ScanDoubleOperatorGood(input, p);
    } else {
      ScanSingleOperatorGood(input, p);
    }
  }

  /** A two-character operator, then the rest. */
  lemma {:induction false} ScanDoubleOperatorGood(input: string, p: nat)
    requires p < |input| && IsOperator(input[p]) && SingleOperator(input[p]) != ILLEGAL
    requires HasDouble(input[p]) && DoubleOperator(input[p], RuneAt(input, p + 1)) != ILLEGAL
    ensures Good(input, p, ScanOperator(input, p))
    decreases |input| - p, 0
  {
    var r := input[p];
    assert p + 1 < |input|;
    var k := DoubleOperator(r, input[p + 1]);
    var t := Token(k, input[p..p + 2], p);
    assert ScanOperator(input, p) == Prepend(t, ScanExpression(input, p + 2));
    OperatorKinds(r, input[p + 1]);
    ScanExpressionGood(input, p + 2);
    OperatorTokenOk(input, p, p + 2, k);
    PrependGood(input, p, t, p + 2, ScanExpression(input, p + 2));
  }

  /** A one-character operator, then the rest. */
  lemma {:induction false} ScanSingleOperatorGood(input: string, p: nat)
    requires p < |input| && IsOperator(input[p]) && SingleOperator(input[p]) != ILLEGAL
    requires !(HasDouble(input[p]) && DoubleOperator(input[p], RuneAt(input, p + 1)) != ILLEGAL)
    ensures Good(input, p, ScanOperator(input, p))
    decreases |input| - p, 0
  {
    var r := input[p];
    var k := SingleOperator(r);
    var t := Token(k, input[p..p + 1], p);
    assert ScanOperator(input, p) == Prepend(t, ScanExpression(input, p + 1));
    OperatorKinds(r, r);
    ScanExpressionGood(input, p + 1);
    OperatorTokenOk(input, p, p + 1, k);
    PrependGood(input, p, t, p + 1, ScanExpression(input, p + 1));
  }

  /** Operator kinds are never strings, brackets or the end of input. */
  lemma OperatorKinds(c: char, d: char)
    ensures SingleOperator(c) !in {STRING, EOF, LBRACKET, RBRACKET}
    ensures DoubleOperator(c, d) !in {STRING, EOF, LBRACKET, RBRACKET}
  {
  }

  lemma {:induction false} ScanIdentifierGood(input: string, p: nat)
    requires p < |input| && IsLetter(input[p])
    ensures Good(input, p, ScanIdentifier(input, p))
    decreases |input| - p, 0
  {
    var e := AcceptRunAt(input, p, IdentChars);
    ScanExpressionGood(input, e);
    PrependGood(input, p, Token(LookupIdent(input[p..e]), input[p..e], p), e, ScanExpression(input, e));
  }

  lemma {:induction false} ScanNumberGood(input: string, p: nat)
    requires p < |input| && IsNumber(input[p])
    ensures Good(input, p, ScanNumber(input, p))
    decreases |input| - p, 0
  {
    var e := NumberEnd(input, p);
    ScanExpressionGood(input, e);
    PrependGood(input, p, Token(INT, input[p..e], p), e, ScanExpression(input, e));
  }

  lemma StringTokenOk(input: string, s: nat, q: nat)
    requires 0 < s <= q < |input| && input[s - 1] == '"' && input[q] == '"'
    requires forall k :: s <= k < q ==> input[k] != '"'
    ensures TokenOk(input, Token(STRING, input[s..q], s))
  {
    var lit := input[s..q];
    forall i | 0 <= i < |lit| ensures lit[i] != '"' {
      assert lit[i] == input[s + i];
    }
  }

  lemma OperatorTokenOk(input: string, p: nat, e: nat, k: Kind)
    requires p < e <= |input| && IsOperator(input[p])
    requires k !in {ILLEGAL, STRING, EOF, LBRACKET, RBRACKET}
    ensures TokenOk(input, Token(k, input[p..e], p))
  {
  }

  lemma {:induction false} ScanStringGood(input: string, s: nat, q: nat)
    requires 0 < s <= q <= |input| && input[s - 1] == '"'
    requires forall k :: s <= k < q ==> input[k] != '"'
    ensures Good(input, s, ScanString(input, s, q))
    decreases |input| - q, 1
  {
    if q == |input| {
      assert ScanString(input, s, q) == Scan([], true);
    } else if input[q] == '"' {
      StringCloseGood(input, s, q);
    } else {
      assert ScanString(input, s, q) == ScanString(input, s, q + 1);
      ScanStringGood(input, s, q + 1);
    }
  }

  /** The closing quote: the string token, then the rest. */
  lemma {:induction false} StringCloseGood(input: string, s: nat, q: nat)
    requires 0 < s <= q < |input| && input[s - 1] == '"' && input[q] == '"'
    requires forall k :: s <= k < q ==> input[k] != '"'
    ensures Good(input, s, ScanString(input, s, q))
    decreases |input| - q, 0
  {
    var t := Token(STRING, input[s..q], s);
    assert ScanString(input, s, q) == Prepend(t, ScanExpression(input, q + 1));
    ScanExpressionGood(input, q + 1);
    StringTokenOk(input, s, q);
    PrependGood(input, s, t, q + 1, ScanExpression(input, q + 1));
  }

  /** The whole token stream of an input has the shape `Good` describes. */
  lemma TokenizeGood(input: string)
    ensures Good(input, 0, Tokenize(input))
  {
    ScanExpressionGood(input, 0);
  }

  // One step of the state machine at a time, for the examples below.

  lemma EndStep(input: string, p: nat)
    requires p == |input|
    ensures ScanExpression(input, p) == Scan([Token(EOF, "", p)], false)
  {
  }

  lemma DelimiterStep(input: string, p: nat, c: char)
    requires p < |input| && input[p] == c && DelimiterKind(c) != EOF
    ensures ScanExpression(input, p) == Prepend(Token(DelimiterKind(c), [c], p), ScanExpression(input, p + 1))
  {
    DelimiterClass(c);
    assert input[p..p + 1] == [c];
  }

  /** A delimiter is not white space and starts no other kind of token. */
  lemma DelimiterClass(c: char)
    requires DelimiterKind(c) != EOF
    ensures !IsSpace(c) && !IsOperator(c) && !IsLetter(c) && c != '"'
  {
  }

  lemma OperatorStep(input: string, p: nat, c: char)
    requires p < |input| && input[p] == c && IsOperator(c) && SingleOperator(c) != ILLEGAL
    requires DoubleOperator(c, RuneAt(input, p + 1)) == ILLEGAL
    ensures ScanExpression(input, p) == Prepend(Token(SingleOperator(c), [c], p), ScanExpression(input, p + 1))
  {
    assert input[p..p + 1] == [c];
  }

  /** The last three tokens of the lexer test's input. */
  lemma DelimitersFrom6(s: string)
    requires s == "=+(){},;"
    ensures ScanExpression(s, 6) == Scan([Token(COMMA, ",", 6), Token(SEMICOLON, ";", 7), Token(EOF, "", 8)], false)
  {
    EndStep(s, 8);
    DelimiterStep(s, 7, ';');
    DelimiterStep(s, 6, ',');
  }

  /** The last six tokens of the lexer test's input. */
  lemma DelimitersFrom3(s: string)
    requires s == "=+(){},;"
    ensures ScanExpression(s, 3) == Scan([
      Token(RPAREN, ")", 3), Token(LBRACE, "{", 4), Token(RBRACE, "}", 5), Token(COMMA, ",", 6),
      Token(SEMICOLON, ";", 7), Token(EOF, "", 8)], false)
  {
    DelimitersFrom6(s);
    DelimiterStep(s, 5, '}');
    DelimiterStep(s, 4, '{');
    DelimiterStep(s, 3, ')');
  }

  /** The two operators at the start of the lexer test's input. */
  lemma OperatorsFrom0(s: string)
    requires s == "=+(){},;"
    ensures ScanExpression(s, 0) == Prepend(Token(ASSIGN, "=", 0), Prepend(Token(PLUS, "+", 1), ScanExpression(s, 2)))
  {
    assert s[0] == '=' && s[1] == '+' && s[2] == '(';
    OperatorStep(s, 1, '+');
    OperatorStep(s, 0, '=');
  }

  /** The delimiter and operator sequence of the lexer's own test. */
  lemma DelimitersExample(s: string)
    requires s == "=+(){},;"
    ensures Tokenize(s) == Scan([
      Token(ASSIGN, "=", 0), Token(PLUS, "+", 1), Token(LPAREN, "(", 2), Token(RPAREN, ")", 3),
      Token(LBRACE, "{", 4), Token(RBRACE, "}", 5), Token(COMMA, ",", 6), Token(SEMICOLON, ";", 7),
      Token(EOF, "", 8)], false)
  {
    DelimitersFrom3(s);
    assert s[2] == '(';
    DelimiterStep(s, 2, '(');
    OperatorsFrom0(s);
  }

  /** A two-character operator is taken whole: the lookahead is consumed with it. */
  lemma DoubleOperatorStep(input: string, p: nat)
    requires p + 1 < |input| && DoubleOperator(input[p], input[p + 1]) != ILLEGAL
    ensures ScanExpression(input, p) == Prepend(Token(DoubleOperator(input[p], input[p + 1]), input[p..p + 2], p), ScanExpression(input, p + 2))
  {
  }

  /** `^` is an operator character without an operator: one error token, and lexing stops. */
  lemma CaretStops(input: string, p: nat)
    requires p < |input| && input[p] == '^'
    ensures ScanExpression(input, p) == Scan([Token(ILLEGAL, "illegal operator: " + QuoteRune('^'), p)], false)
  {
  }

  /** Every character `lexExpression` does not recognise gives one error token naming it,
      and lexing goes on after it. `[` and `]` are such characters. */
  lemma InvalidContinues(input: string, p: nat)
    requires p < |input| && Unrecognised(input[p])
    ensures ScanExpression(input, p) == Prepend(Token(ILLEGAL, "lexer: invalid token " + QuoteRune(input[p]), p), ScanExpression(input, p + 1))
    ensures Unrecognised('[') && Unrecognised(']')
  {
  }

  /** White space is skipped without a token. */
  lemma SpaceSkipped(input: string, p: nat)
    requires p < |input| && IsSpace(input[p])
    ensures ScanExpression(input, p) == ScanExpression(input, p + 1)
  {
  }

  /** A fraction belongs to the number: `1.5` is one INT token. */
  lemma FractionExample(s: string)
    requires s == "1.5"
    ensures Tokenize(s) == Scan([Token(INT, "1.5", 0), Token(EOF, "", 3)], false)
  {
    FractionEnd(s);
    assert s[0] == '1' && IsNumber(s[0]);
    assert Tokenize(s) == ScanNumber(s, 0);
    assert s[0..3] == "1.5";
    assert ScanNumber(s, 0) == Prepend(Token(INT, "1.5", 0), ScanExpression(s, 3));
    EndStep(s, 3);
  }

  /** The number text of `1.5` runs through the fraction. */
  lemma FractionEnd(s: string)
    requires s == "1.5"
    ensures NumberEnd(s, 0) == 3
  {
    assert AcceptAt(s, 0, Signs) == 0 && AcceptAt(s, 0, Zero) == 0;
    assert AcceptRunAt(s, 0, DecDigits) == 1 by {
      assert AcceptRunAt(s, 1, DecDigits) == 1;
    }
    assert AcceptAt(s, 1, Dot) == 2;
    assert AcceptRunAt(s, 2, DecDigits) == 3;
    assert AcceptAt(s, 3, ExpMark) == 3;
  }
}
