/** Reference semantics of the lexer: one function per state function of the Go state
    machine (`lexExpression`, `lexOperator`, `lexIdentifier`, `lexNumber`, `lexString`), each
    giving every token the machine emits from that state on. The imperative `Lexer` class is
    proved to emit exactly these tokens; the lemmas here state what the token stream is. */
module LexerSpec {
  import opened Util
  import opened Token

  /** The tokens the state machine emits, and whether it then stops (`hangs == false`)
      or spins forever in `lexString` on an unterminated string (`hangs == true`). */
  datatype Scan = Scan(tokens: seq<Token>, hangs: bool)

  /** A scan that stops ends with EOF or with an error token that stops the machine. */
  predicate Terminated(sc: Scan) {
    !sc.hangs ==> sc.tokens != [] && sc.tokens[|sc.tokens| - 1].kind in {EOF, ILLEGAL}
  }

  function Prepend(t: Token, s: Scan): Scan {
    Scan([t] + s.tokens, s.hangs)
  }

  // Character classes, restricted to ASCII.

  predicate IsSpace(c: char) {
    c == ' ' || c == '\t' || c == '\n' || c == '\r'
  }

  predicate IsOperator(c: char) {
    c == '+' || c == '-' || c == '*' || c == '/' || c == '^' ||
    c == '=' || c == '!' || c == '<' || c == '>'
  }

  predicate IsLetter(c: char) {
    c == '_' || ('a' <= c <= 'z') || ('A' <= c <= 'Z')
  }

  predicate IsDigit(c: char) {
    '0' <= c <= '9'
  }

  predicate IsNumber(c: char) {
    c == '+' || c == '-' || IsDigit(c)
  }

  /** The `valid` strings the lexer passes to `accept` and `acceptRun`. */
  datatype CharSet = Signs | Zero | HexMark | DecDigits | HexDigits | Dot | ExpMark | IdentChars

  /** `strings.IndexRune(valid, c) >= 0` for each of those strings. */
  predicate InSet(c: char, valid: CharSet) {
    match valid
    case Signs => c == '+' || c == '-'
    case Zero => c == '0'
    case HexMark => c == 'x' || c == 'X'
    case DecDigits => IsDigit(c)
    case HexDigits => IsDigit(c) || ('a' <= c <= 'f') || ('A' <= c <= 'F')
    case Dot => c == '.'
    case ExpMark => c == 'e' || c == 'E'
    case IdentChars => IsLetter(c) || IsDigit(c)
  }

  /** The kind of a one-character delimiter, or EOF for characters that are not one. */
  function DelimiterKind(c: char): Kind {
    if c == ';' then SEMICOLON
    else if c == '(' then LPAREN
    else if c == ')' then RPAREN
    else if c == ',' then COMMA
    else if c == '{' then LBRACE
    else if c == '}' then RBRACE
    else EOF
  }

  /** The rune `next()` returns at offset q: the character, or 0 at the end of input. */
  function RuneAt(input: string, q: nat): char {
    if q < |input| then input[q] else 0 as char
  }

  /** Where `accept(valid)` leaves the cursor when called at q. */
  function AcceptAt(input: string, q: nat, valid: CharSet): (r: nat)
    requires q <= |input|
    ensures q <= r <= |input|
  {
    if q < |input| && InSet(input[q], valid) then q + 1 else q
  }

  /** Where `acceptRun(valid)` leaves the cursor when called at q. */
  function AcceptRunAt(input: string, q: nat, valid: CharSet): (r: nat)
    requires q <= |input|
    ensures q <= r <= |input|
    ensures r == |input| || !InSet(input[r], valid)
    ensures forall k :: q <= k < r ==> InSet(input[k], valid)
    decreases |input| - q
  {
    if q < |input| && InSet(input[q], valid) then AcceptRunAt(input, q + 1, valid) else q
  }

  /** End of the text `lexNumber` consumes from p: sign, `0x` prefix, digits, fraction,
      exponent. */
  function NumberEnd(input: string, p: nat): (e: nat)
    requires p <= |input|
    ensures p <= e <= |input|
    ensures p < |input| && IsNumber(input[p]) ==> p < e
  {
    var q1 := AcceptAt(input, p, Signs);
    var q0 := AcceptAt(input, q1, Zero);
    var q2 := if q0 > q1 then AcceptAt(input, q0, HexMark) else q1;
    var digits := if q0 > q1 && q2 > q0 then HexDigits else DecDigits;
    var q3 := AcceptRunAt(input, q2, digits);
    var q4 := if AcceptAt(input, q3, Dot) > q3 then AcceptRunAt(input, q3 + 1, digits) else q3;
    if AcceptAt(input, q4, ExpMark) > q4 then
      AcceptAt(input, AcceptAt(input, q4 + 1, Signs), DecDigits)
    else q4
  }

  /** The characters that fall through every case of `lexExpression` to its error: not
      white space, an operator, a letter, a quote, a delimiter, the NUL rune or a number
      character. Among them are `[` and `]`, which the lexer has no case for. The letter and
      digit classes are ASCII, so this matches Go only for ASCII characters. */
  predicate Unrecognised(c: char) {
    !IsSpace(c) && !IsOperator(c) && !IsLetter(c) && c != '"' && DelimiterKind(c) == EOF &&
    c != 0 as char && !IsNumber(c)
  }

  /** The tokens emitted from state `lexExpression` with the cursor at p (`start == pos`). */
  function ScanExpression(input: string, p: nat): (r: Scan)
    requires p <= |input|
    ensures Terminated(r)
    ensures r.tokens != [] ==> p <= r.tokens[0].pos
    decreases |input| - p, 1
  {
    if p == |input| then Scan([Token(EOF, "", p)], false)
    else
      var r := input[p];
      if IsSpace(r) then ScanExpression(input, p + 1)
      else if IsOperator(r) then ScanOperator(input, p)
      else if IsLetter(r) then ScanIdentifier(input, p)
      else if r == '"' then ScanString(input, p + 1, p + 1)
      else if DelimiterKind(r) != EOF then
        Prepend(Token(DelimiterKind(r), input[p..p + 1], p), ScanExpression(input, p + 1))
      else if r == 0 as char then Scan([Token(EOF, input[p..p + 1], p)], false)
      else if IsNumber(r) then ScanNumber(input, p)
      else Prepend(Token(ILLEGAL, "lexer: invalid token " + QuoteRune(r), p), ScanExpression(input, p + 1))
  }

  /** The one-character operator kind, or ILLEGAL for `^`. */
  function SingleOperator(c: char): Kind {
    if c == '+' then PLUS
    else if c == '-' then MINUS
    else if c == '*' then ASTERISK
    else if c == '/' then SLASH
    else if c == '=' then ASSIGN
    else if c == '!' then BANG
    else if c == '<' then LT
    else if c == '>' then GT
    else ILLEGAL
  }

  /** The operators whose case in `lexOperator` reads one more character. */
  predicate HasDouble(c: char) {
    c == '*' || c == '=' || c == '!' || c == '<' || c == '>'
  }

  /** The two-character operator made of c followed by d, or ILLEGAL when there is none. */
  function DoubleOperator(c: char, d: char): Kind {
    if c == '*' && d == '*' then POWER
    else if c == '=' && d == '=' then EQ
    else if c == '!' && d == '=' then NOT_EQ
    else if c == '<' && d == '=' then LT_EQ
    else if c == '>' && d == '=' then GT_EQ
    else ILLEGAL
  }

  /** The tokens emitted from state `lexOperator` at p. */
  function ScanOperator(input: string, p: nat): (r: Scan)
    requires p < |input| && IsOperator(input[p])
    ensures Terminated(r) && r.tokens != [] && r.tokens[0].pos == p
    ensures r.tokens[0].kind == ILLEGAL <==> input[p] == '^'
    decreases |input| - p, 0
  {
    var r := input[p];
    if SingleOperator(r) == ILLEGAL then
      Scan([Token(ILLEGAL, "illegal operator: " + QuoteRune(r), p)], false)
    else if HasDouble(r) && DoubleOperator(r, RuneAt(input, p + 1)) != ILLEGAL then
      Prepend(Token(DoubleOperator(r, input[p + 1]), input[p..p + 2], p), ScanExpression(input, p + 2))
    else
      Prepend(Token(SingleOperator(r), input[p..p + 1], p), ScanExpression(input, p + 1))
  }

  /** The tokens emitted from state `lexIdentifier` at p. */
  function ScanIdentifier(input: string, p: nat): (r: Scan)
    requires p < |input| && IsLetter(input[p])
    ensures Terminated(r) && r.tokens != [] && r.tokens[0].pos == p
    ensures var w := r.tokens[0].lit; var e := p + |w|;
      0 < |w| && e <= |input| && w == input[p..e] && r.tokens[0].kind == LookupIdent(w) &&
      (forall k :: p <= k < e ==> InSet(input[k], IdentChars)) &&
      (e == |input| || !InSet(input[e], IdentChars))
    decreases |input| - p, 0
  {
    var e := AcceptRunAt(input, p, IdentChars);
    Prepend(Token(LookupIdent(input[p..e]), input[p..e], p), ScanExpression(input, e))
  }

  /** The tokens emitted from state `lexNumber` at p. */
  function ScanNumber(input: string, p: nat): (r: Scan)
    requires p < |input| && IsNumber(input[p])
    ensures Terminated(r) && r.tokens != [] && r.tokens[0].pos == p && r.tokens[0].kind == INT
    ensures var n := r.tokens[0].lit; 0 < |n| && p + |n| <= |input| && n == input[p..p + |n|]
    decreases |input| - p, 0
  {
    var e := NumberEnd(input, p);
    Prepend(Token(INT, input[p..e], p), ScanExpression(input, e))
  }

  /** The tokens emitted from state `lexString` with `start == s` (just after the opening
      quote) and `pos == q`. At the end of input `next` no longer advances and the Go
      state machine loops forever. */
  function ScanString(input: string, s: nat, q: nat): (r: Scan)
    requires s <= q <= |input|
    ensures Terminated(r)
    ensures r.tokens == [] <==> forall k :: q <= k < |input| ==> input[k] != '"'
    ensures r.tokens == [] ==> r.hangs
    ensures r.tokens != [] ==> var t := r.tokens[0]; var c := s + |t.lit|;
      t.kind == STRING && t.pos == s && q <= c < |input| && t.lit == input[s..c] && input[c] == '"' &&
      forall k :: q <= k < c ==> input[k] != '"'
    decreases |input| - q, 0
  {
    if q == |input| then Scan([], true)
    else if input[q] == '"' then Prepend(Token(STRING, input[s..q], s), ScanExpression(input, q + 1))
    else ScanString(input, s, q + 1)
  }

  /** `Lex(in)`: everything the token channel delivers before it is closed. */
  function Tokenize(input: string): (r: Scan)
    ensures Terminated(r)
    ensures input == [] ==> r == Scan([Token(EOF, "", 0)], false)
  {
    ScanExpression(input, 0)
  }
}
