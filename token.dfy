/** Tokens: the closed set of token kinds, the `Token{Typ, Lit, Pos}` record, the kind
    name table used in parser diagnostics and `Token.String`. */
module Token {
  import opened Util

  /** Every kind that the lexer and parser bodies reference. EOF is the zero value. */
  datatype Kind =
    | EOF | ILLEGAL
    | IDENT | INT | STRING
    | ASSIGN | PLUS | MINUS | BANG | ASTERISK | SLASH | POWER
    | EQ | NOT_EQ | LT | GT | LT_EQ | GT_EQ
    | COMMA | SEMICOLON
    | LPAREN | RPAREN | LBRACE | RBRACE | LBRACKET | RBRACKET
    | FUNCTION | LET | TRUE | FALSE | IF | ELSE | RETURN

  /** `Token{Typ, Lit, Pos}`: kind, literal text and byte offset of the text in the input. */
  datatype Token = Token(kind: Kind, lit: string, pos: nat)

  /** The zero `Token`, which is what a receive from the closed token channel yields. */
  const Zero: Token := Token(EOF, "", 0)

  /** `TokenType.String`: a lookup in `typemap`. Kinds the table does not list map to the
      empty string, as a Go map lookup of a missing key does. */
  function KindName(k: Kind): (r: string)
    ensures r != "" <==> Named(k)
  {
    match k
    case EOF => "EOF"
    case ILLEGAL => "ILLEGAL"
    case IDENT => "IDENT"
    case INT => "INT"
    case ASSIGN => "ASSIGN"
    case PLUS => "PLUS"
    case COMMA => "COMMA"
    case SEMICOLON => "SEMICOLON"
    case LPAREN => "LPAREN"
    case RPAREN => "RPAREN"
    case LBRACE => "LBRACE"
    case RBRACE => "RBRACE"
    case FUNCTION => "FUNCTION"
    case LET => "LET"
    case _ => ""
  }

  /** The kinds that have an entry in `typemap`. */
  predicate Named(k: Kind) {
    k in {EOF, ILLEGAL, IDENT, INT, ASSIGN, PLUS, COMMA, SEMICOLON,
          LPAREN, RPAREN, LBRACE, RBRACE, FUNCTION, LET}
  }

  /** The keyword table: identifiers that are reserved words get their keyword kind. */
  function LookupIdent(s: string): (k: Kind)
    ensures k in {IDENT, FUNCTION, LET, TRUE, FALSE, IF, ELSE, RETURN}
    ensures k == IDENT <==> s !in {"fn", "let", "true", "false", "if", "else", "return"}
  {
    if s == "fn" then FUNCTION
    else if s == "let" then LET
    else if s == "true" then TRUE
    else if s == "false" then FALSE
    else if s == "if" then IF
    else if s == "else" then ELSE
    else if s == "return" then RETURN
    else IDENT
  }

  // Go quoting (`%q`, `strconv.Quote`, `strconv.QuoteRune`) for ASCII text.

  function HexDigit(d: nat): char
    requires d < 16
  {
    "0123456789abcdef"[d]
  }

  /** True for the ASCII characters Go prints unescaped inside a quoted literal. */
  predicate Printable(c: char) {
    ' ' <= c && c != 127 as char
  }

  /** The escape sequence for one character inside a literal quoted with `q`. */
  function Escape(c: char, q: char): (r: string)
    ensures |r| >= 1
    ensures Printable(c) && c != q && c != '\\' ==> r == [c]
  {
    if c == q || c == '\\' then ['\\', c]
    else if Printable(c) then [c]
    else if c == 7 as char then "\\a"
    else if c == 8 as char then "\\b"
    else if c == 12 as char then "\\f"
    else if c == '\n' then "\\n"
    else if c == '\r' then "\\r"
    else if c == '\t' then "\\t"
    else if c == 11 as char then "\\v"
    else if c < 128 as char then ['\\', 'x', HexDigit(c as nat / 16), HexDigit(c as nat % 16)]
    else [c]
  }

  function EscapeAll(s: string, q: char): string {
    if s == [] then "" else Escape(s[0], q) + EscapeAll(s[1..], q)
  }

  /** `strconv.Quote`: the text between double quotes, escaped. */
  function Quote(s: string): (r: string)
    ensures |r| >= 2 && r[0] == '"' && r[|r| - 1] == '"'
    ensures Plain(s) ==> r == "\"" + s + "\""
  {
    if Plain(s) then EscapeAllPlain(s); "\"" + EscapeAll(s, '"') + "\""
    else "\"" + EscapeAll(s, '"') + "\""
  }

  /** `strconv.QuoteRune`: the character between single quotes, escaped. */
  function QuoteRune(c: char): (r: string)
    ensures |r| >= 3 && r[0] == '\'' && r[|r| - 1] == '\''
    ensures Printable(c) && c != '\'' && c != '\\' ==> r == ['\'', c, '\'']
  {
    "'" + Escape(c, '\'') + "'"
  }

  /** Text that `%q` reproduces verbatim between the quotes. */
  predicate Plain(s: string) {
    forall i :: 0 <= i < |s| ==> Printable(s[i]) && s[i] != '"' && s[i] != '\\'
  }

  lemma {:induction false} EscapeAllPlain(s: string)
    requires Plain(s)
    ensures EscapeAll(s, '"') == s
  {
    if s != [] {
      EscapeAllPlain(s[1..]);
    }
  }

  /** `Token.String`: an ILLEGAL token prints its message verbatim; a literal longer than
      ten bytes prints as the quoted first ten characters followed by `...`; any other
      literal prints quoted in full. */
  function TokenString(t: Token): (r: string)
    ensures t.kind == ILLEGAL ==> r == t.lit
    ensures t.kind != ILLEGAL ==> |r| >= 2 && r[0] == '"'
    ensures t.kind != ILLEGAL && Utf8Len(t.lit) <= 10 ==> r == Quote(t.lit)
  {
    if t.kind == ILLEGAL then t.lit
    else if Utf8Len(t.lit) > 10 then
      Quote(t.lit[..if |t.lit| < 10 then |t.lit| else 10]) + "..."
    else Quote(t.lit)
  }

  /** Distinct kinds in the table have distinct names, so a diagnostic tells them apart. */
  lemma NamesDistinct(j: Kind, k: Kind)
    requires Named(j) && Named(k) && j != k
    ensures KindName(j) != KindName(k)
  {
  }

  /** A literal of at most ten bytes that needs no escaping prints between double quotes. */
  lemma ShortLiteralString(t: Token)
    requires t.kind != ILLEGAL && Utf8Len(t.lit) <= 10 && Plain(t.lit)
    ensures TokenString(t) == "\"" + t.lit + "\""
  {
    EscapeAllPlain(t.lit);
  }

  /** A longer ASCII literal prints as its first ten characters between double quotes,
      followed by `...`. */
  lemma LongLiteralString(t: Token)
    requires t.kind != ILLEGAL && IsAscii(t.lit) && |t.lit| > 10 && Plain(t.lit)
    ensures TokenString(t) == "\"" + t.lit[..10] + "\"..."
  {
    assert Plain(t.lit[..10]);
    EscapeAllPlain(t.lit[..10]);
  }
}
