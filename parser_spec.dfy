/** Reference semantics of the Pratt parser: one function per parsing routine, over the token
    sequence and a state made of the index of `cur` and the error log (`peek` is the token
    after `cur`; reads past the end give the zero token, EOF, as a closed channel does). The
    loops of the Go code (`Parse`, the infix loop, blocks, argument and parameter lists) are
    tail-recursive functions here. The imperative `Parser` class is proved to compute exactly
    these results. */
module ParserSpec {
  import opened Util
  import opened Token
  import opened Ast
  import opened Strconv

  // Precedence classes, lowest first.
  const LOWEST: nat := 0
  const EQUALS: nat := 1
  const LESSGREATER: nat := 2
  const SUM: nat := 3
  const PRODUCT: nat := 4
  const PREFIX: nat := 5
  const CALL: nat := 6
  const INDEX: nat := 7

  /** The `precedences` table; kinds without an entry get LOWEST. The table and the infix
      table agree: a kind binds above LOWEST exactly when it has an infix parser, and every
      binary operator binds below PREFIX. */
  function Precedence(k: Kind): (r: nat)
    ensures r > LOWEST <==> HasInfix(k)
    ensures IsBinary(k) ==> r < PREFIX
    ensures r <= INDEX
  {
    if k.EQ? || k.NOT_EQ? then EQUALS
    else if k.LT? || k.GT? || k.LT_EQ? || k.GT_EQ? then LESSGREATER
    else if k.PLUS? || k.MINUS? then SUM
    else if k.SLASH? || k.ASTERISK? || k.POWER? then PRODUCT
    else if k.LPAREN? then CALL
    else if k.LBRACKET? then INDEX
    else LOWEST
  }

  /** Kinds with a registered prefix parser. No expression starts at the end of input, at
      an illegal token, or at a separator or closing delimiter. */
  predicate HasPrefix(k: Kind)
    ensures HasPrefix(k) ==> k !in {EOF, ILLEGAL, SEMICOLON, COMMA, RPAREN, RBRACE, RBRACKET}
  {
    k.IDENT? || k.INT? || k.STRING? || k.MINUS? || k.BANG? || k.TRUE? || k.FALSE? ||
    k.LPAREN? || k.IF? || k.FUNCTION? || k.LBRACKET?
  }

  /** Kinds with a registered infix parser. Only `-`, `(` and `[` also have a prefix
      parser. */
  predicate HasInfix(k: Kind)
    ensures HasInfix(k) && HasPrefix(k) <==> k in {MINUS, LPAREN, LBRACKET}
  {
    k.EQ? || k.NOT_EQ? || k.LT? || k.GT? || k.LT_EQ? || k.GT_EQ? || k.PLUS? || k.MINUS? ||
    k.SLASH? || k.ASTERISK? || k.POWER? || k.LPAREN? || k.LBRACKET?
  }

  /** Kinds parsed by `parseInfixExpression` (binary operators). */
  predicate IsBinary(k: Kind) {
    HasInfix(k) && k != LPAREN && k != LBRACKET
  }

  /** The i-th token received, or the zero token once the stream is exhausted. */
  function At(toks: seq<Token>, i: nat): Token {
    if i < |toks| then toks[i] else Zero
  }

  /** Index of `cur` and the error log. */
  datatype PState = PState(pos: nat, errors: seq<string>)

  /** A parse result and the state after it. */
  datatype Parsed<T> = Parsed(value: T, st: PState)

  function Cur(toks: seq<Token>, st: PState): Token {
    At(toks, st.pos)
  }

  function Peek(toks: seq<Token>, st: PState): Token {
    At(toks, st.pos + 1)
  }

  /** A later state: the cursor has not moved back and errors were only appended. */
  predicate Extends(toks: seq<Token>, st: PState, st2: PState) {
    st.pos <= st2.pos <= |toks| && st.errors <= st2.errors
  }

  /** `next`: `cur` takes the place of `peek`. */
  function Next(toks: seq<Token>, st: PState): PState {
    PState(if st.pos < |toks| then st.pos + 1 else st.pos, st.errors)
  }

  function Log(st: PState, msg: string): PState {
    PState(st.pos, st.errors + [msg])
  }

  function PeekErrorMessage(want: Kind, got: Kind): string {
    "expected next token to be " + KindName(want) + ", got " + KindName(got) + " instead"
  }

  function NoPrefixMessage(k: Kind): string {
    "no parse prefix function for '" + KindName(k) + "' found"
  }

  function IntegerMessage(lit: string): string {
    "could not parse " + Quote(lit) + " as an integer"
  }

  /** `expectPeek`. */
  function ExpectPeek(toks: seq<Token>, k: Kind, st: PState): (r: Parsed<bool>)
    requires st.pos <= |toks|
    ensures Extends(toks, st, r.st)
    ensures r.value <==> Peek(toks, st).kind == k
    ensures r.value ==> r.st == Next(toks, st)
    ensures !r.value ==> r.st.pos == st.pos && r.st.errors == st.errors + [PeekErrorMessage(k, Peek(toks, st).kind)]
  {
    if Peek(toks, st).kind == k then Parsed(true, Next(toks, st))
    else Parsed(false, Log(st, PeekErrorMessage(k, Peek(toks, st).kind)))
  }

  /** Consume a `;` if it is the next token. */
  function SkipSemicolon(toks: seq<Token>, st: PState): PState {
    if Peek(toks, st).kind == SEMICOLON then Next(toks, st) else st
  }

  // What a parse without errors produces: no nil node anywhere, every node built from the
  // token that introduced it, and every literal's value read from its token.

  predicate CleanExpr(e: Expr)
    decreases e, 1
  {
    match e
    case Nil => false
    case Ident(id) => id.tok.kind == IDENT && id.value == id.tok.lit
    case IntLit(tok, v) => tok.kind == INT && ParseInt64(tok.lit) == Some(v)
    case StrLit(tok, v) => tok.kind == STRING && v == tok.lit
    case BoolLit(tok, v) => tok.kind in {TRUE, FALSE} && v == (tok.kind == TRUE)
    case Prefix(tok, op, right) => tok.kind in {MINUS, BANG} && op == tok.lit && CleanExpr(right)
    case Infix(tok, left, op, right) => IsBinary(tok.kind) && op == tok.lit && CleanExpr(left) && CleanExpr(right)
    case If(tok, cond, cons, alt) =>
      tok.kind == IF && CleanExpr(cond) && CleanBlock(cons) && (alt.Some? ==> CleanBlock(alt.value))
    case FnLit(tok, params, body) => tok.kind == FUNCTION && CleanParams(params) && CleanBlock(body)
    case Call(tok, callee, args) => tok.kind == LPAREN && CleanExpr(callee) && CleanList(args)
    case ArrayLit(tok, elems) => tok.kind == LBRACKET && CleanList(elems)
    case Index(tok, left, index) => tok.kind == LBRACKET && CleanExpr(left) && CleanExpr(index)
  }

  predicate CleanList(es: seq<Expr>)
    decreases es, 0
  {
    forall i :: 0 <= i < |es| ==> CleanExpr(es[i])
  }

  /** Parameters are taken from whatever tokens stand in the list; each keeps its literal. */
  predicate CleanParams(ps: seq<Identifier>) {
    forall i :: 0 <= i < |ps| ==> ps[i].value == ps[i].tok.lit
  }

  predicate CleanStmt(s: Stmt)
    decreases s, 1
  {
    match s
    case Let(tok, name, value) =>
      tok.kind == LET && name.tok.kind == IDENT && name.value == name.tok.lit && CleanExpr(value)
    case NilLet => false
    case Return(tok, value) => tok.kind == RETURN && CleanExpr(value)
    case ExprStmt(_, expr) => CleanExpr(expr)
  }

  predicate CleanStmts(ss: seq<Stmt>)
    decreases ss, 0
  {
    forall i :: 0 <= i < |ss| ==> CleanStmt(ss[i])
  }

  predicate CleanBlock(b: Block)
    decreases b, 0
  {
    CleanStmts(b.stmts)
  }

  /** No new error was logged between st and st2. */
  predicate NoNewErrors(st: PState, st2: PState) {
    st2.errors == st.errors
  }

  // The parsing routines. Every one ends in a state that `Extends` the one it started from,
  // and when it logs no error its result is clean. The second component of each `decreases`
  // orders routines that call each other without consuming a token.

  /** `parseStatement`. */
  function ParseStatement(toks: seq<Token>, st: PState): (r: Parsed<Stmt>)
    requires st.pos <= |toks|
    ensures Extends(toks, st, r.st)
    ensures NoNewErrors(st, r.st) ==> CleanStmt(r.value)
    decreases |toks| - st.pos, 5
  {
    match Cur(toks, st).kind
    case LET => ParseLet(toks, st)
    case RETURN => ParseReturn(toks, st)
    case _ => ParseExpressionStatement(toks, st)
  }

  /** `parseLetStatement`. A failed `expectPeek` yields the nil `*LetStatement`, which the
      `Statement` interface does not turn into nil: `NilLet`. */
  function ParseLet(toks: seq<Token>, st: PState): (r: Parsed<Stmt>)
    requires st.pos <= |toks| && Cur(toks, st).kind == LET
    ensures Extends(toks, st, r.st)
    ensures NoNewErrors(st, r.st) ==> CleanStmt(r.value)
    decreases |toks| - st.pos, 4
  {
    var tok := Cur(toks, st);
    var e1 := ExpectPeek(toks, IDENT, st);
    if !e1.value then Parsed(NilLet, e1.st)
    else
      var name := Identifier(Cur(toks, e1.st), Cur(toks, e1.st).lit);
      var e2 := ExpectPeek(toks, ASSIGN, e1.st);
      if !e2.value then Parsed(NilLet, e2.st)
      else
        var v := ParseExpression(toks, LOWEST, Next(toks, e2.st));
        Parsed(Let(tok, name, v.value), SkipSemicolon(toks, v.st))
  }

  /** `parseReturnStatement`. */
  function ParseReturn(toks: seq<Token>, st: PState): (r: Parsed<Stmt>)
    requires st.pos <= |toks| && Cur(toks, st).kind == RETURN
    ensures Extends(toks, st, r.st)
    ensures NoNewErrors(st, r.st) ==> CleanStmt(r.value)
    decreases |toks| - st.pos, 4
  {
    var tok := Cur(toks, st);
    var v := ParseExpression(toks, LOWEST, Next(toks, st));
    Parsed(Return(tok, v.value), SkipSemicolon(toks, v.st))
  }

  /** `parseExpressionStatement`. */
  function ParseExpressionStatement(toks: seq<Token>, st: PState): (r: Parsed<Stmt>)
    requires st.pos <= |toks|
    ensures Extends(toks, st, r.st)
    ensures NoNewErrors(st, r.st) ==> CleanStmt(r.value)
    decreases |toks| - st.pos, 4
  {
    var tok := Cur(toks, st);
    var v := ParseExpression(toks, LOWEST, st);
    Parsed(ExprStmt(tok, v.value), SkipSemicolon(toks, v.st))
  }

  /** `parseExpression`: a prefix routine for `cur`, then the infix loop. */
  function ParseExpression(toks: seq<Token>, prec: nat, st: PState): (r: Parsed<Expr>)
    requires st.pos <= |toks|
    ensures Extends(toks, st, r.st)
    ensures NoNewErrors(st, r.st) ==> CleanExpr(r.value)
    decreases |toks| - st.pos, 3
  {
    if HasPrefix(Cur(toks, st).kind) then
      var left := ParsePrefix(toks, st);
      InfixLoop(toks, prec, left.value, left.st)
    else
      Parsed(Nil, Log(st, NoPrefixMessage(Cur(toks, st).kind)))
  }

  /** The loop of `parseExpression`: while `peek` is not `;` and binds tighter than `prec`,
      extend `left` with the infix routine of `peek`. */
  function InfixLoop(toks: seq<Token>, prec: nat, left: Expr, st: PState): (r: Parsed<Expr>)
    requires st.pos <= |toks|
    ensures Extends(toks, st, r.st)
    ensures NoNewErrors(st, r.st) && CleanExpr(left) ==> CleanExpr(r.value)
    decreases |toks| - st.pos, 2
  {
    var k := Peek(toks, st).kind;
    if k != SEMICOLON && prec < Precedence(k) then
      if HasInfix(k) then
        var e := ParseInfix(toks, left, Next(toks, st));
        InfixLoop(toks, prec, e.value, e.st)
      else Parsed(left, st)
    else Parsed(left, st)
  }

  /** Dispatch on the prefix parsers table. */
  function ParsePrefix(toks: seq<Token>, st: PState): (r: Parsed<Expr>)
    requires st.pos <= |toks| && HasPrefix(Cur(toks, st).kind)
    ensures Extends(toks, st, r.st)
    ensures NoNewErrors(st, r.st) ==> CleanExpr(r.value)
    decreases |toks| - st.pos, 2
  {
    var tok := Cur(toks, st);
    match tok.kind
    case IDENT => Parsed(Ident(Identifier(tok, tok.lit)), st)
    case INT =>
      (match ParseInt64(tok.lit)
       case Some(v) => Parsed(IntLit(tok, v), st)
       case None => Parsed(Nil, Log(st, IntegerMessage(tok.lit))))
    case STRING => Parsed(StrLit(tok, tok.lit), st)
    case TRUE => Parsed(BoolLit(tok, true), st)
    case FALSE => Parsed(BoolLit(tok, false), st)
    case MINUS => ParsePrefixExpression(toks, st)
    case BANG => ParsePrefixExpression(toks, st)
    case LPAREN => ParseGrouped(toks, st)
    case IF => ParseIf(toks, st)
    case FUNCTION => ParseFunction(toks, st)
    case LBRACKET => ParseArray(toks, st)
  }

  /** Dispatch on the infix parsers table; `cur` is the operator. */
  function ParseInfix(toks: seq<Token>, left: Expr, st: PState): (r: Parsed<Expr>)
    requires st.pos <= |toks| && HasInfix(Cur(toks, st).kind)
    ensures Extends(toks, st, r.st)
    ensures NoNewErrors(st, r.st) && CleanExpr(left) ==> CleanExpr(r.value)
    decreases |toks| - st.pos, 2
  {
    var k := Cur(toks, st).kind;
    if k == LPAREN then ParseCall(toks, left, st)
    else if k == LBRACKET then ParseIndex(toks, left, st)
    else ParseInfixExpression(toks, left, st)
  }

  /** `parsePrefixExpression`: the operand is parsed at PREFIX precedence. */
  function ParsePrefixExpression(toks: seq<Token>, st: PState): (r: Parsed<Expr>)
    requires st.pos < |toks| && Cur(toks, st).kind in {MINUS, BANG}
    ensures Extends(toks, st, r.st)
    ensures NoNewErrors(st, r.st) ==> CleanExpr(r.value)
    decreases |toks| - st.pos, 1
  {
    var tok := Cur(toks, st);
    var right := ParseExpression(toks, PREFIX, Next(toks, st));
    Parsed(Prefix(tok, tok.lit, right.value), right.st)
  }

  /** `parseInfixExpression`: the right operand is parsed at the operator's own precedence. */
  function ParseInfixExpression(toks: seq<Token>, left: Expr, st: PState): (r: Parsed<Expr>)
    requires st.pos < |toks| && IsBinary(Cur(toks, st).kind)
    ensures Extends(toks, st, r.st)
    ensures NoNewErrors(st, r.st) && CleanExpr(left) ==> CleanExpr(r.value)
    decreases |toks| - st.pos, 1
  {
    var tok := Cur(toks, st);
    var right := ParseExpression(toks, Precedence(tok.kind), Next(toks, st));
    Parsed(Infix(tok, left, tok.lit, right.value), right.st)
  }

  /** `parseGroupedExpression`: the inner expression itself, no node for the parentheses. */
  function ParseGrouped(toks: seq<Token>, st: PState): (r: Parsed<Expr>)
    requires st.pos < |toks|
    ensures Extends(toks, st, r.st)
    ensures NoNewErrors(st, r.st) ==> CleanExpr(r.value)
    decreases |toks| - st.pos, 1
  {
    var inner := ParseExpression(toks, LOWEST, Next(toks, st));
    var close := ExpectPeek(toks, RPAREN, inner.st);
    if close.value then Parsed(inner.value, close.st) else Parsed(Nil, close.st)
  }

  /** `parseIfExpression`, up to the `{` of the consequence. */
  function ParseIf(toks: seq<Token>, st: PState): (r: Parsed<Expr>)
    requires st.pos < |toks| && Cur(toks, st).kind == IF
    ensures Extends(toks, st, r.st)
    ensures NoNewErrors(st, r.st) ==> CleanExpr(r.value)
    decreases |toks| - st.pos, 1
  {
    var open := ExpectPeek(toks, LPAREN, st);
    if !open.value then Parsed(Nil, open.st)
    else
      var cond := ParseExpression(toks, LOWEST, Next(toks, open.st));
      var close := ExpectPeek(toks, RPAREN, cond.st);
      if !close.value then Parsed(Nil, close.st)
      else
        var brace := ExpectPeek(toks, LBRACE, close.st);
        if !brace.value then Parsed(Nil, brace.st)
        else IfBranches(toks, Cur(toks, st), cond.value, brace.st)
  }

  /** The rest of `parseIfExpression`: the consequence block and an optional `else` block. */
  function IfBranches(toks: seq<Token>, tok: Token, cond: Expr, st: PState): (r: Parsed<Expr>)
    requires st.pos <= |toks| && tok.kind == IF
    ensures Extends(toks, st, r.st)
    ensures NoNewErrors(st, r.st) && CleanExpr(cond) ==> CleanExpr(r.value)
    decreases |toks| - st.pos, 8
  {
    var cons := ParseBlock(toks, st);
    if Peek(toks, cons.st).kind == ELSE then
      var brace := ExpectPeek(toks, LBRACE, Next(toks, cons.st));
      if !brace.value then Parsed(Nil, brace.st)
      else
        var alt := ParseBlock(toks, brace.st);
        Parsed(If(tok, cond, cons.value, Some(alt.value)), alt.st)
    else Parsed(If(tok, cond, cons.value, None), cons.st)
  }

  /** `parseFunctionLiteral`. */
  function ParseFunction(toks: seq<Token>, st: PState): (r: Parsed<Expr>)
    requires st.pos < |toks| && Cur(toks, st).kind == FUNCTION
    ensures Extends(toks, st, r.st)
    ensures NoNewErrors(st, r.st) ==> CleanExpr(r.value)
    decreases |toks| - st.pos, 1
  {
    var tok := Cur(toks, st);
    var open := ExpectPeek(toks, LPAREN, st);
    if !open.value then Parsed(Nil, open.st)
    else
      var params := ParseParams(toks, open.st);
      var brace := ExpectPeek(toks, LBRACE, params.st);
      if !brace.value then Parsed(Nil, brace.st)
      else
        var body := ParseBlock(toks, brace.st);
        Parsed(FnLit(tok, params.value, body.value), body.st)
  }

  /** `parseArrayLiteral`. */
  function ParseArray(toks: seq<Token>, st: PState): (r: Parsed<Expr>)
    requires st.pos < |toks| && Cur(toks, st).kind == LBRACKET
    ensures Extends(toks, st, r.st)
    ensures NoNewErrors(st, r.st) ==> CleanExpr(r.value)
    decreases |toks| - st.pos, 1
  {
    var tok := Cur(toks, st);
    var elems := ParseExpressionList(toks, RBRACKET, st);
    Parsed(ArrayLit(tok, elems.value), elems.st)
  }

  /** `parseCallExpression`; `cur` is the `(`. */
  function ParseCall(toks: seq<Token>, callee: Expr, st: PState): (r: Parsed<Expr>)
    requires st.pos < |toks| && Cur(toks, st).kind == LPAREN
    ensures Extends(toks, st, r.st)
    ensures NoNewErrors(st, r.st) && CleanExpr(callee) ==> CleanExpr(r.value)
    decreases |toks| - st.pos, 1
  {
    var tok := Cur(toks, st);
    var args := ParseExpressionList(toks, RPAREN, st);
    Parsed(Call(tok, callee, args.value), args.st)
  }

  /** `parseIndexExpression`; `cur` is the `[`. */
  function ParseIndex(toks: seq<Token>, left: Expr, st: PState): (r: Parsed<Expr>)
    requires st.pos < |toks| && Cur(toks, st).kind == LBRACKET
    ensures Extends(toks, st, r.st)
    ensures NoNewErrors(st, r.st) && CleanExpr(left) ==> CleanExpr(r.value)
    decreases |toks| - st.pos, 1
  {
    var tok := Cur(toks, st);
    var index := ParseExpression(toks, LOWEST, Next(toks, st));
    var close := ExpectPeek(toks, RBRACKET, index.st);
    if close.value then Parsed(Index(tok, left, index.value), close.st) else Parsed(Nil, close.st)
  }

  /** `parseExpressionList`: comma-separated expressions up to `end`; the empty list when
      the closing token is missing (the Go code returns a nil slice). */
  function ParseExpressionList(toks: seq<Token>, end: Kind, st: PState): (r: Parsed<seq<Expr>>)
    requires st.pos < |toks|
    ensures Extends(toks, st, r.st)
    ensures NoNewErrors(st, r.st) ==> CleanList(r.value)
    decreases |toks| - st.pos, 0
  {
    if Peek(toks, st).kind == end then Parsed([], Next(toks, st))
    else
      var first := ParseExpression(toks, LOWEST, Next(toks, st));
      ListRest(toks, end, [first.value], first.st)
  }

  /** The `for p.peek.Is(token.COMMA)` loop of `parseExpressionList` and its closing check. */
  function ListRest(toks: seq<Token>, end: Kind, acc: seq<Expr>, st: PState): (r: Parsed<seq<Expr>>)
    requires st.pos <= |toks|
    ensures Extends(toks, st, r.st)
    ensures NoNewErrors(st, r.st) && CleanList(acc) ==> CleanList(r.value)
    decreases |toks| - st.pos, 0
  {
    if Peek(toks, st).kind == COMMA then
      var e := ParseExpression(toks, LOWEST, Next(toks, Next(toks, st)));
      ListRest(toks, end, acc + [e.value], e.st)
    else
      var close := ExpectPeek(toks, end, st);
      if close.value then Parsed(acc, close.st) else Parsed([], close.st)
  }

  /** `parseBlockStatement`: statements up to `}` or EOF, `cur` left on the terminator. */
  function ParseBlock(toks: seq<Token>, st: PState): (r: Parsed<Block>)
    requires st.pos <= |toks|
    ensures Extends(toks, st, r.st)
    ensures NoNewErrors(st, r.st) ==> CleanBlock(r.value)
    decreases |toks| - st.pos, 7
  {
    BlockLoop(toks, Cur(toks, st), [], Next(toks, st))
  }

  /** The loop of `parseBlockStatement`. Every statement is kept: `parseStatement` never
      returns a nil interface. */
  function BlockLoop(toks: seq<Token>, tok: Token, acc: seq<Stmt>, st: PState): (r: Parsed<Block>)
    requires st.pos <= |toks|
    ensures Extends(toks, st, r.st)
    ensures NoNewErrors(st, r.st) && CleanStmts(acc) ==> CleanBlock(r.value)
    decreases |toks| - st.pos, 6
  {
    var k := Cur(toks, st).kind;
    if k != RBRACE && k != EOF then
      var s := ParseStatement(toks, st);
      BlockLoop(toks, tok, acc + [s.value], Next(toks, s.st))
    else Parsed(Block(tok, acc), st)
  }

  /** `parseFunctionParams`: `cur` is the `(`. Each parameter is built from whatever token
      stands there; a missing `)` gives the empty list. */
  function ParseParams(toks: seq<Token>, st: PState): (r: Parsed<seq<Identifier>>)
    requires st.pos <= |toks|
    ensures Extends(toks, st, r.st)
    ensures CleanParams(r.value)
  {
    if Peek(toks, st).kind == RPAREN then Parsed([], Next(toks, st))
    else
      var s1 := Next(toks, st);
      ParamsRest(toks, [Identifier(Cur(toks, s1), Cur(toks, s1).lit)], s1)
  }

  function ParamsRest(toks: seq<Token>, acc: seq<Identifier>, st: PState): (r: Parsed<seq<Identifier>>)
    requires st.pos <= |toks|
    requires CleanParams(acc)
    ensures Extends(toks, st, r.st)
    ensures CleanParams(r.value)
    decreases |toks| - st.pos
  {
    if Peek(toks, st).kind == COMMA then
      var s1 := Next(toks, Next(toks, st));
      ParamsRest(toks, acc + [Identifier(Cur(toks, s1), Cur(toks, s1).lit)], s1)
    else
      var close := ExpectPeek(toks, RPAREN, st);
      if close.value then Parsed(acc, close.st) else Parsed([], close.st)
  }

  /** The loop of `Parse`: one statement per iteration until `cur` is EOF; every statement
      is kept. */
  function ProgramLoop(toks: seq<Token>, acc: seq<Stmt>, st: PState): (r: Parsed<Program>)
    requires st.pos <= |toks|
    ensures Extends(toks, st, r.st)
    ensures Cur(toks, r.st).kind == EOF
    ensures NoNewErrors(st, r.st) && CleanStmts(acc) ==> CleanStmts(r.value.stmts)
    decreases |toks| - st.pos
  {
    if Cur(toks, st).kind != EOF then
      var s := ParseStatement(toks, st);
      ProgramLoop(toks, acc + [s.value], Next(toks, s.st))
    else Parsed(Program(acc), st)
  }

  /** `New` followed by `Parse` and `Errors`: the program and the error log. */
  function ParseProgram(toks: seq<Token>): (r: Parsed<Program>)
    ensures r.st.errors == [] ==> CleanStmts(r.value.stmts)
  {
    ProgramLoop(toks, [], PState(0, []))
  }
}
