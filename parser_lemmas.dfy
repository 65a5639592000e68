/** What the parser promises about the trees it builds: the precedence ladder and left
    associativity of binary operators, prefix operators binding tighter than any binary one,
    parentheses leaving no node, `;` ending an expression, and an error-free parse producing a
    tree without nil nodes that can be rendered, and the statement loop collecting statements
    in order. Operands are atoms (identifiers, strings, booleans, integers); the tokens are
    arbitrary otherwise, not only what the lexer produces. */
module ParserLemmas {
  import opened Util
  import opened Token
  import opened Ast
  import opened Strconv
  import opened ParserSpec

  /** Tokens the prefix table turns into a leaf node without logging an error: identifiers,
      strings, booleans, and integers that `ParseInt` accepts. */
  predicate Atom(t: Token) {
    t.kind == IDENT || t.kind == STRING || t.kind == TRUE || t.kind == FALSE ||
    (t.kind == INT && ParseInt64(t.lit).Some?)
  }

  /** The leaf node the parser builds for an atom. It is clean and renders as the token's
      literal. */
  function Leaf(t: Token): (e: Expr)
    requires Atom(t)
    ensures CleanExpr(e) && e != Nil && RenderableExpr(e) && ExprString(e) == t.lit
    ensures t.kind == IDENT ==> e == Ident(Identifier(t, t.lit))
  {
    if t.kind == IDENT then Ident(Identifier(t, t.lit))
    else if t.kind == STRING then StrLit(t, t.lit)
    else if t.kind == TRUE then BoolLit(t, true)
    else if t.kind == FALSE then BoolLit(t, false)
    else IntLit(t, ParseInt64(t.lit).value)
  }

  /** `peek` ends an expression parsed at precedence `prec`. */
  predicate Stops(toks: seq<Token>, prec: nat, st: PState) {
    Peek(toks, st).kind == SEMICOLON || Precedence(Peek(toks, st).kind) <= prec
  }

  /** An atom's prefix routine builds its leaf without consuming or logging anything. */
  lemma AtomPrefix(toks: seq<Token>, st: PState)
    requires st.pos < |toks| && Atom(toks[st.pos])
    ensures HasPrefix(Cur(toks, st).kind)
    ensures ParsePrefix(toks, st) == Parsed(Leaf(toks[st.pos]), st)
    ensures ParseExpression(toks, LOWEST, st) == InfixLoop(toks, LOWEST, Leaf(toks[st.pos]), st)
  {
  }

  /** An atom followed by a token that ends the expression is a leaf, and nothing else is
      consumed or logged. */
  lemma AtomStops(toks: seq<Token>, prec: nat, st: PState)
    requires st.pos < |toks| && Atom(toks[st.pos]) && Stops(toks, prec, st)
    ensures ParseExpression(toks, prec, st) == Parsed(Leaf(toks[st.pos]), st)
  {
    AtomPrefix(toks, st);
    assert InfixLoop(toks, prec, Leaf(toks[st.pos]), st) == Parsed(Leaf(toks[st.pos]), st);
  }

  /** One turn of the infix loop over a binary operator whose right operand is an atom
      followed by a token that ends it. */
  lemma BinaryStep(toks: seq<Token>, prec: nat, left: Expr, st: PState)
    requires st.pos + 2 < |toks| && IsBinary(toks[st.pos + 1].kind) && prec < Precedence(toks[st.pos + 1].kind)
    requires Atom(toks[st.pos + 2])
    requires Stops(toks, Precedence(toks[st.pos + 1].kind), PState(st.pos + 2, st.errors))
    ensures InfixLoop(toks, prec, left, st) ==
      InfixLoop(toks, prec, Infix(toks[st.pos + 1], left, toks[st.pos + 1].lit, Leaf(toks[st.pos + 2])), PState(st.pos + 2, st.errors))
  {
    var op := toks[st.pos + 1];
    var s1 := PState(st.pos + 1, st.errors);
    var s2 := PState(st.pos + 2, st.errors);
    var b := Leaf(toks[st.pos + 2]);
    assert Peek(toks, st) == op && Next(toks, st) == s1 && Next(toks, s1) == s2;
    AtomStops(toks, Precedence(op.kind), s2);
    assert ParseInfixExpression(toks, left, s1) == Parsed(Infix(op, left, op.lit, b), s2);
    assert ParseInfix(toks, left, s1) == Parsed(Infix(op, left, op.lit, b), s2);
  }

  /** `a op1 b op2 c` when op1 binds at least as tightly as op2: the left operator is applied
      first, `((a op1 b) op2 c)`. With op1 == op2 this is left associativity; with op1 of
      higher precedence it is the precedence ladder. */
  lemma LeftGrouping(toks: seq<Token>, st: PState)
    requires st.pos + 5 <= |toks|
    requires Atom(toks[st.pos]) && Atom(toks[st.pos + 2]) && Atom(toks[st.pos + 4])
    requires IsBinary(toks[st.pos + 1].kind) && IsBinary(toks[st.pos + 3].kind)
    requires Precedence(toks[st.pos + 3].kind) <= Precedence(toks[st.pos + 1].kind)
    requires Stops(toks, LOWEST, PState(st.pos + 4, st.errors))
    ensures var (a, op1, b, op2, c) := (toks[st.pos], toks[st.pos + 1], toks[st.pos + 2], toks[st.pos + 3], toks[st.pos + 4]);
      ParseExpression(toks, LOWEST, st) ==
        Parsed(Infix(op2, Infix(op1, Leaf(a), op1.lit, Leaf(b)), op2.lit, Leaf(c)), PState(st.pos + 4, st.errors))
  {
    var p := st.pos;
    var (a, op1, b, op2, c) := (toks[p], toks[p + 1], toks[p + 2], toks[p + 3], toks[p + 4]);
    AtomPrefix(toks, st);
    BinaryStep(toks, LOWEST, Leaf(a), st);
    var ab := Infix(op1, Leaf(a), op1.lit, Leaf(b));
    var s2 := PState(p + 2, st.errors);
    assert Peek(toks, s2) == op2;
    BinaryStep(toks, LOWEST, ab, s2);
    var s4 := PState(p + 4, st.errors);
    assert InfixLoop(toks, LOWEST, Infix(op2, ab, op2.lit, Leaf(c)), s4) == Parsed(Infix(op2, ab, op2.lit, Leaf(c)), s4);
  }

  /** `b op c` parsed at a precedence below that of `op`, up to a token that ends it. */
  lemma TighterOperand(toks: seq<Token>, prec: nat, st: PState)
    requires st.pos + 3 <= |toks|
    requires Atom(toks[st.pos]) && IsBinary(toks[st.pos + 1].kind) && Atom(toks[st.pos + 2])
    requires prec < Precedence(toks[st.pos + 1].kind)
    requires Stops(toks, prec, PState(st.pos + 2, st.errors))
    ensures var (b, op, c) := (toks[st.pos], toks[st.pos + 1], toks[st.pos + 2]);
      ParseExpression(toks, prec, st) == Parsed(Infix(op, Leaf(b), op.lit, Leaf(c)), PState(st.pos + 2, st.errors))
  {
    var (b, op, c) := (toks[st.pos], toks[st.pos + 1], toks[st.pos + 2]);
    var s2 := PState(st.pos + 2, st.errors);
    AtomPrefix(toks, st);
    assert ParseExpression(toks, prec, st) == InfixLoop(toks, prec, Leaf(b), st);
    BinaryStep(toks, prec, Leaf(b), st);
    var bc := Infix(op, Leaf(b), op.lit, Leaf(c));
    assert InfixLoop(toks, prec, bc, s2) == Parsed(bc, s2);
  }

  /** `a op1 b op2 c` when op2 binds more tightly: `(a op1 (b op2 c))`. */
  lemma RightGrouping(toks: seq<Token>, st: PState)
    requires st.pos + 5 <= |toks|
    requires Atom(toks[st.pos]) && Atom(toks[st.pos + 2]) && Atom(toks[st.pos + 4])
    requires IsBinary(toks[st.pos + 1].kind) && IsBinary(toks[st.pos + 3].kind)
    requires Precedence(toks[st.pos + 1].kind) < Precedence(toks[st.pos + 3].kind)
    requires Stops(toks, LOWEST, PState(st.pos + 4, st.errors))
    ensures var (a, op1, b, op2, c) := (toks[st.pos], toks[st.pos + 1], toks[st.pos + 2], toks[st.pos + 3], toks[st.pos + 4]);
      ParseExpression(toks, LOWEST, st) ==
        Parsed(Infix(op1, Leaf(a), op1.lit, Infix(op2, Leaf(b), op2.lit, Leaf(c))), PState(st.pos + 4, st.errors))
  {
    var p := st.pos;
    var (a, op1, b, op2, c) := (toks[p], toks[p + 1], toks[p + 2], toks[p + 3], toks[p + 4]);
    var s1 := PState(p + 1, st.errors);
    var s4 := PState(p + 4, st.errors);
    var whole := Infix(op1, Leaf(a), op1.lit, Infix(op2, Leaf(b), op2.lit, Leaf(c)));
    AtomPrefix(toks, st);
    TighterRightOperand(toks, st);
    assert Peek(toks, st) == op1 && Next(toks, st) == s1;
    assert InfixLoop(toks, LOWEST, Leaf(a), st) == InfixLoop(toks, LOWEST, whole, s4);
    assert InfixLoop(toks, LOWEST, whole, s4) == Parsed(whole, s4);
  }

  /** The infix parser at op1 of `a op1 b op2 c`, when op2 binds more tightly, takes all of
      `b op2 c` as its right operand. */
  lemma TighterRightOperand(toks: seq<Token>, st: PState)
    requires st.pos + 5 <= |toks|
    requires Atom(toks[st.pos]) && Atom(toks[st.pos + 2]) && Atom(toks[st.pos + 4])
    requires IsBinary(toks[st.pos + 1].kind) && IsBinary(toks[st.pos + 3].kind)
    requires Precedence(toks[st.pos + 1].kind) < Precedence(toks[st.pos + 3].kind)
    requires Stops(toks, LOWEST, PState(st.pos + 4, st.errors))
    ensures var (a, op1, b, op2, c) := (toks[st.pos], toks[st.pos + 1], toks[st.pos + 2], toks[st.pos + 3], toks[st.pos + 4]);
      ParseInfix(toks, Leaf(a), PState(st.pos + 1, st.errors)) ==
        Parsed(Infix(op1, Leaf(a), op1.lit, Infix(op2, Leaf(b), op2.lit, Leaf(c))), PState(st.pos + 4, st.errors))
  {
    var p := st.pos;
    var (a, op1, b, op2, c) := (toks[p], toks[p + 1], toks[p + 2], toks[p + 3], toks[p + 4]);
    var s1 := PState(p + 1, st.errors);
    var s4 := PState(p + 4, st.errors);
    var bc := Infix(op2, Leaf(b), op2.lit, Leaf(c));
    TighterOperand(toks, Precedence(op1.kind), PState(p + 2, st.errors));
    assert Next(toks, s1) == PState(p + 2, st.errors);
    assert ParseInfixExpression(toks, Leaf(a), s1) == Parsed(Infix(op1, Leaf(a), op1.lit, bc), s4);
  }

  /** A prefix operator's node takes the expression parsed after it at PREFIX precedence. */
  lemma PrefixStep(toks: seq<Token>, st: PState)
    requires st.pos < |toks| && toks[st.pos].kind in {MINUS, BANG}
    ensures var right := ParseExpression(toks, PREFIX, Next(toks, st));
      ParsePrefix(toks, st) == Parsed(Prefix(toks[st.pos], toks[st.pos].lit, right.value), right.st)
  {
  }

  /** `-a op b` and `!a op b`: the prefix operator takes only `a`, `((op1 a) op b)`. */
  lemma PrefixBindsTighter(toks: seq<Token>, st: PState)
    requires st.pos + 4 <= |toks|
    requires toks[st.pos].kind in {MINUS, BANG} && Atom(toks[st.pos + 1])
    requires IsBinary(toks[st.pos + 2].kind) && Atom(toks[st.pos + 3])
    requires Stops(toks, LOWEST, PState(st.pos + 3, st.errors))
    ensures var (pre, a, op, b) := (toks[st.pos], toks[st.pos + 1], toks[st.pos + 2], toks[st.pos + 3]);
      ParseExpression(toks, LOWEST, st) ==
        Parsed(Infix(op, Prefix(pre, pre.lit, Leaf(a)), op.lit, Leaf(b)), PState(st.pos + 3, st.errors))
  {
    var p := st.pos;
    var (pre, a, op, b) := (toks[p], toks[p + 1], toks[p + 2], toks[p + 3]);
    var s1 := PState(p + 1, st.errors);
    assert Precedence(op.kind) <= PREFIX;
    AtomStops(toks, PREFIX, s1);
    var neg := Prefix(pre, pre.lit, Leaf(a));
    assert ParsePrefix(toks, st) == Parsed(neg, s1);
    BinaryStep(toks, LOWEST, neg, s1);
    var s3 := PState(p + 3, st.errors);
    assert InfixLoop(toks, LOWEST, Infix(op, neg, op.lit, Leaf(b)), s3) == Parsed(Infix(op, neg, op.lit, Leaf(b)), s3);
  }

  /** `( a op b )`: the grouped expression is the inner node itself. */
  lemma GroupingLeavesNoNode(toks: seq<Token>, st: PState)
    requires st.pos + 5 <= |toks|
    requires toks[st.pos].kind == LPAREN && Atom(toks[st.pos + 1])
    requires IsBinary(toks[st.pos + 2].kind) && Atom(toks[st.pos + 3])
    requires toks[st.pos + 4].kind == RPAREN
    ensures var (a, op, b) := (toks[st.pos + 1], toks[st.pos + 2], toks[st.pos + 3]);
      ParsePrefix(toks, st) == Parsed(Infix(op, Leaf(a), op.lit, Leaf(b)), PState(st.pos + 4, st.errors))
  {
    var p := st.pos;
    var (a, op, b) := (toks[p + 1], toks[p + 2], toks[p + 3]);
    var s1 := PState(p + 1, st.errors);
    var s3 := PState(p + 3, st.errors);
    assert Precedence(RPAREN) == LOWEST;
    TighterOperand(toks, LOWEST, s1);
    assert ParsePrefix(toks, st) == ParseGrouped(toks, st);
    assert Next(toks, st) == s1;
    assert ExpectPeek(toks, RPAREN, s3) == Parsed(true, PState(p + 4, st.errors));
  }

  /** `let x = <value>`: a let statement binding the identifier x to whatever expression
      the parser reads after `=`, with a `;` after it consumed. */
  lemma LetStatement(toks: seq<Token>, st: PState)
    requires st.pos + 3 <= |toks|
    requires toks[st.pos].kind == LET && toks[st.pos + 1].kind == IDENT && toks[st.pos + 2].kind == ASSIGN
    ensures var v := ParseExpression(toks, LOWEST, PState(st.pos + 3, st.errors));
      var x := toks[st.pos + 1];
      ParseStatement(toks, st) == Parsed(Let(toks[st.pos], Identifier(x, x.lit), v.value), SkipSemicolon(toks, v.st))
  {
    var p := st.pos;
    var s1 := PState(p + 1, st.errors);
    var s2 := PState(p + 2, st.errors);
    assert ExpectPeek(toks, IDENT, st) == Parsed(true, s1);
    assert ExpectPeek(toks, ASSIGN, s1) == Parsed(true, s2);
    assert Next(toks, s2) == PState(p + 3, st.errors);
  }

  /** `let x = 5;`: an atom value followed by `;` gives a let statement with a leaf value,
      the `;` consumed and no error. */
  lemma LetAtom(toks: seq<Token>, st: PState)
    requires st.pos + 5 <= |toks|
    requires toks[st.pos].kind == LET && toks[st.pos + 1].kind == IDENT && toks[st.pos + 2].kind == ASSIGN
    requires Atom(toks[st.pos + 3]) && toks[st.pos + 4].kind == SEMICOLON
    ensures var (let, x, y) := (toks[st.pos], toks[st.pos + 1], toks[st.pos + 3]);
      ParseStatement(toks, st) == Parsed(Let(let, Identifier(x, x.lit), Leaf(y)), PState(st.pos + 4, st.errors))
  {
    var s3 := PState(st.pos + 3, st.errors);
    LetStatement(toks, st);
    assert Peek(toks, s3).kind == SEMICOLON;
    AtomStops(toks, LOWEST, s3);
    assert SkipSemicolon(toks, s3) == PState(st.pos + 4, st.errors);
  }

  /** The statement loop accumulates: statements already parsed stay in front of the ones
      the rest of the loop parses, and the final state does not depend on them. */
  lemma {:induction false} ProgramLoopAcc(toks: seq<Token>, acc: seq<Stmt>, st: PState)
    requires st.pos <= |toks|
    ensures var rest := ProgramLoop(toks, [], st);
      ProgramLoop(toks, acc, st) == Parsed(Program(acc + rest.value.stmts), rest.st)
    decreases |toks| - st.pos
  {
    if Cur(toks, st).kind != EOF {
      var s := ParseStatement(toks, st);
      var n := Next(toks, s.st);
      var rest := ProgramLoop(toks, [], n);
      assert ProgramLoop(toks, acc, st) == ProgramLoop(toks, acc + [s.value], n);
      assert ProgramLoop(toks, [], st) == ProgramLoop(toks, [] + [s.value], n);
      ProgramLoopAcc(toks, acc + [s.value], n);
      ProgramLoopAcc(toks, [s.value], n);
      assert acc + [s.value] + rest.value.stmts == acc + ([s.value] + rest.value.stmts);
      assert [] + [s.value] == [s.value];
    } else {
      assert acc + [] == acc;
    }
  }

  /** Sequencing: a program is its first statement followed by the statements parsed from
      the token after it, and ends where they end. */
  lemma ProgramStep(toks: seq<Token>, st: PState)
    requires st.pos <= |toks| && Cur(toks, st).kind != EOF
    ensures var s := ParseStatement(toks, st);
      var rest := ProgramLoop(toks, [], Next(toks, s.st));
      ProgramLoop(toks, [], st) == Parsed(Program([s.value] + rest.value.stmts), rest.st)
  {
    var s := ParseStatement(toks, st);
    assert [] + [s.value] == [s.value];
    ProgramLoopAcc(toks, [s.value], Next(toks, s.st));
  }

  /** `ProgramStep` for a statement and a remainder already known. */
  lemma ProgramCons(toks: seq<Token>, st: PState, s: Stmt, mid: PState, rest: seq<Stmt>, end: PState)
    requires st.pos <= |toks| && Cur(toks, st).kind != EOF
    requires ParseStatement(toks, st) == Parsed(s, mid)
    requires mid.pos <= |toks| && ProgramLoop(toks, [], Next(toks, mid)) == Parsed(Program(rest), end)
    ensures ProgramLoop(toks, [], st) == Parsed(Program([s] + rest), end)
  {
    ProgramStep(toks, st);
  }

  /** The loop ends at EOF with the statements collected so far. */
  lemma ProgramEnd(toks: seq<Token>, st: PState)
    requires st.pos == |toks|
    ensures ProgramLoop(toks, [], st) == Parsed(Program([]), st)
  {
  }

  /** An atom ending its expression is an expression statement holding its leaf; a `;`
      after it is consumed. */
  lemma AtomStatement(toks: seq<Token>, st: PState)
    requires st.pos < |toks| && Atom(toks[st.pos]) && Stops(toks, LOWEST, st)
    requires toks[st.pos].kind != LET && toks[st.pos].kind != RETURN
    ensures ParseStatement(toks, st) == Parsed(ExprStmt(toks[st.pos], Leaf(toks[st.pos])), SkipSemicolon(toks, st))
  {
    AtomStops(toks, LOWEST, st);
    ExpressionStatement(toks, st);
  }

  /** `a; b`: the `;` ends the first expression statement and is consumed, and `Parse`
      returns two statements and no error. */
  lemma SemicolonSeparates(toks: seq<Token>)
    requires |toks| == 3 && Atom(toks[0]) && toks[1].kind == SEMICOLON && Atom(toks[2])
    ensures ParseProgram(toks) == Parsed(Program([ExprStmt(toks[0], Leaf(toks[0])), ExprStmt(toks[2], Leaf(toks[2]))]), PState(3, []))
  {
    var first := ExprStmt(toks[0], Leaf(toks[0]));
    var second := ExprStmt(toks[2], Leaf(toks[2]));
    var s1, s2, s3 := PState(1, []), PState(2, []), PState(3, []);
    SemicolonStatements(toks);
    assert Next(toks, s1) == s2 && Next(toks, s2) == s3;
    ProgramEnd(toks, s3);
    ProgramCons(toks, s2, second, s2, [], s3);
    assert [second] + [] == [second];
    ProgramCons(toks, PState(0, []), first, s1, [second], s3);
    assert [first] + [second] == [first, second];
  }

  /** The two statements of `a; b`, each an atom, the first with its `;`. */
  lemma SemicolonStatements(toks: seq<Token>)
    requires |toks| == 3 && Atom(toks[0]) && toks[1].kind == SEMICOLON && Atom(toks[2])
    ensures ParseStatement(toks, PState(0, [])) == Parsed(ExprStmt(toks[0], Leaf(toks[0])), PState(1, []))
    ensures ParseStatement(toks, PState(2, [])) == Parsed(ExprStmt(toks[2], Leaf(toks[2])), PState(2, []))
  {
    var s0, s2 := PState(0, []), PState(2, []);
    assert Peek(toks, s0).kind == SEMICOLON && Peek(toks, s2) == Zero;
    AtomStatement(toks, s0);
    AtomStatement(toks, s2);
  }

  /** Tokens p .. p+4 are `let <ident> = <int> ;` with an integer `ParseInt` accepts. */
  predicate LetIntRow(toks: seq<Token>, p: nat) {
    p + 5 <= |toks| && toks[p].kind == LET && toks[p + 1].kind == IDENT && toks[p + 2].kind == ASSIGN &&
    toks[p + 3].kind == INT && ParseInt64(toks[p + 3].lit).Some? && toks[p + 4].kind == SEMICOLON
  }

  /** The let node of a `LetIntRow` at p. */
  function LetIntNode(toks: seq<Token>, p: nat): Stmt
    requires LetIntRow(toks, p)
  {
    Let(toks[p], Identifier(toks[p + 1], toks[p + 1].lit), IntLit(toks[p + 3], ParseInt64(toks[p + 3].lit).value))
  }

  /** A `LetIntRow` parses to its let node and ends on its `;`. */
  lemma LetIntStatement(toks: seq<Token>, p: nat, errors: seq<string>)
    requires LetIntRow(toks, p)
    ensures ParseStatement(toks, PState(p, errors)) == Parsed(LetIntNode(toks, p), PState(p + 4, errors))
  {
    LetAtom(toks, PState(p, errors));
  }

  /** `let x = 5; let y = 10; let foobar = 838383;`: three let statements, in order, with
      their names and integer values, and no error. */
  lemma ThreeLets(toks: seq<Token>)
    requires |toks| == 15 && LetIntRow(toks, 0) && LetIntRow(toks, 5) && LetIntRow(toks, 10)
    ensures ParseProgram(toks) ==
      Parsed(Program([LetIntNode(toks, 0), LetIntNode(toks, 5), LetIntNode(toks, 10)]), PState(15, []))
  {
    var (n1, n2, n3) := (LetIntNode(toks, 0), LetIntNode(toks, 5), LetIntNode(toks, 10));
    var s15 := PState(15, []);
    ProgramEnd(toks, s15);
    LetIntStatement(toks, 10, []);
    assert Next(toks, PState(14, [])) == s15;
    ProgramCons(toks, PState(10, []), n3, PState(14, []), [], s15);
    assert [n3] + [] == [n3];
    LetIntStatement(toks, 5, []);
    assert Next(toks, PState(9, [])) == PState(10, []);
    ProgramCons(toks, PState(5, []), n2, PState(9, []), [n3], s15);
    LetIntStatement(toks, 0, []);
    assert Next(toks, PState(4, [])) == PState(5, []);
    ProgramCons(toks, PState(0, []), n1, PState(4, []), [n2] + [n3], s15);
    assert [n1] + ([n2] + [n3]) == [n1, n2, n3];
  }

  /** `!-a`: nested prefix operators each take the rest, `(!(-a))`. */
  lemma NestedPrefix(toks: seq<Token>, st: PState)
    requires st.pos + 3 <= |toks|
    requires toks[st.pos].kind in {MINUS, BANG} && toks[st.pos + 1].kind in {MINUS, BANG} && Atom(toks[st.pos + 2])
    requires Stops(toks, LOWEST, PState(st.pos + 2, st.errors))
    ensures var (pre1, pre2, a) := (toks[st.pos], toks[st.pos + 1], toks[st.pos + 2]);
      ParseExpression(toks, LOWEST, st) ==
        Parsed(Prefix(pre1, pre1.lit, Prefix(pre2, pre2.lit, Leaf(a))), PState(st.pos + 2, st.errors))
  {
    var p := st.pos;
    var (pre1, pre2) := (toks[p], toks[p + 1]);
    var s1 := PState(p + 1, st.errors);
    var s2 := PState(p + 2, st.errors);
    var leaf := Leaf(toks[p + 2]);
    AtomStops(toks, PREFIX, s2);
    PrefixStep(toks, s1);
    assert Next(toks, s1) == s2;
    var inner := Prefix(pre2, pre2.lit, leaf);
    assert ParsePrefix(toks, s1) == Parsed(inner, s2);
    assert ParseExpression(toks, PREFIX, s1) == Parsed(inner, s2) by {
      assert InfixLoop(toks, PREFIX, inner, s2) == Parsed(inner, s2);
    }
    PrefixStep(toks, st);
    assert Next(toks, st) == s1;
    var outer := Prefix(pre1, pre1.lit, inner);
    assert ParsePrefix(toks, st) == Parsed(outer, s2);
    assert InfixLoop(toks, LOWEST, outer, s2) == Parsed(outer, s2);
  }

  /** An expression statement is the expression parsed from its first token, with a `;`
      after it consumed. */
  lemma ExpressionStatement(toks: seq<Token>, st: PState)
    requires st.pos < |toks| && toks[st.pos].kind != LET && toks[st.pos].kind != RETURN
    ensures var v := ParseExpression(toks, LOWEST, st);
      ParseStatement(toks, st) == Parsed(ExprStmt(toks[st.pos], v.value), SkipSemicolon(toks, v.st))
  {
  }

  /** Tokens `a op1 b ; pre c op2 d`, the shape of `3 + 4; -5 * 5`. */
  predicate TwoStatementShape(toks: seq<Token>) {
    |toks| == 8 && Atom(toks[0]) && IsBinary(toks[1].kind) && Atom(toks[2]) && toks[3].kind == SEMICOLON &&
    toks[4].kind in {MINUS, BANG} && Atom(toks[5]) && IsBinary(toks[6].kind) && Atom(toks[7]) &&
    toks[0].kind != LET && toks[0].kind != RETURN
  }

  /** The first statement of a `TwoStatementShape`: `(a op1 b)`. */
  function FirstNode(toks: seq<Token>): Expr
    requires TwoStatementShape(toks)
  {
    Infix(toks[1], Leaf(toks[0]), toks[1].lit, Leaf(toks[2]))
  }

  /** The second statement of a `TwoStatementShape`: `((pre c) op2 d)`. */
  function SecondNode(toks: seq<Token>): Expr
    requires TwoStatementShape(toks)
  {
    Infix(toks[6], Prefix(toks[4], toks[4].lit, Leaf(toks[5])), toks[6].lit, Leaf(toks[7]))
  }

  /** `a op1 b;` is an infix statement, and the `;` is consumed. */
  lemma FirstOfTwo(toks: seq<Token>)
    requires TwoStatementShape(toks)
    ensures ParseStatement(toks, PState(0, [])) == Parsed(ExprStmt(toks[0], FirstNode(toks)), PState(3, []))
  {
    assert Peek(toks, PState(2, [])).kind == SEMICOLON;
    TighterOperand(toks, LOWEST, PState(0, []));
    ExpressionStatement(toks, PState(0, []));
  }

  /** `pre c op2 d`: the prefix operator takes only `c`. */
  lemma SecondOfTwo(toks: seq<Token>)
    requires TwoStatementShape(toks)
    ensures ParseStatement(toks, PState(4, [])) == Parsed(ExprStmt(toks[4], SecondNode(toks)), PState(7, []))
  {
    assert Peek(toks, PState(7, [])) == Zero;
    PrefixBindsTighter(toks, PState(4, []));
    ExpressionStatement(toks, PState(4, []));
  }

  /** `a op1 b; pre c op2 d`: two expression statements, the second with the prefix operator
      bound to its operand only, and no error. */
  lemma TwoStatementsParse(toks: seq<Token>)
    requires TwoStatementShape(toks)
    ensures ParseProgram(toks) ==
      Parsed(Program([ExprStmt(toks[0], FirstNode(toks)), ExprStmt(toks[4], SecondNode(toks))]), PState(8, []))
  {
    var (s1, s2) := (ExprStmt(toks[0], FirstNode(toks)), ExprStmt(toks[4], SecondNode(toks)));
    var end := PState(8, []);
    ProgramEnd(toks, end);
    SecondOfTwo(toks);
    assert Next(toks, PState(7, [])) == end;
    ProgramCons(toks, PState(4, []), s2, PState(7, []), [], end);
    assert [s2] + [] == [s2];
    FirstOfTwo(toks);
    assert Next(toks, PState(3, [])) == PState(4, []);
    ProgramCons(toks, PState(0, []), s1, PState(3, []), [s2], end);
    assert [s1] + [s2] == [s1, s2];
  }

  /** A program of two expression statements renders as their renderings, in order,
      without a separator. */
  lemma TwoExprStatements(t1: Token, e1: Expr, t2: Token, e2: Expr)
    requires e1 != Nil && RenderableExpr(e1) && e2 != Nil && RenderableExpr(e2)
    ensures RenderableProgram(Program([ExprStmt(t1, e1), ExprStmt(t2, e2)]))
    ensures ProgramString(Program([ExprStmt(t1, e1), ExprStmt(t2, e2)])) == ExprString(e1) + ExprString(e2)
  {
    var ss := [ExprStmt(t1, e1), ExprStmt(t2, e2)];
    assert StmtString(ExprStmt(t1, e1)) == Opt(e1) == ExprString(e1);
    assert StmtString(ExprStmt(t2, e2)) == Opt(e2) == ExprString(e2);
    assert ss[0] == ExprStmt(t1, e1) && ss[1] == ExprStmt(t2, e2);
    assert ss[1..] == [ss[1]] && ss[1..][1..] == [];
    assert Concat(ss[1..]) == StmtString(ss[1]) + Concat([]);
    assert Concat(ss) == StmtString(ss[0]) + Concat(ss[1..]);
    assert ExprString(e2) + "" == ExprString(e2);
  }

  /** The program of a `TwoStatementShape` renders as `(a op1 b)((pre c) op2 d)`. */
  lemma TwoStatementsRendering(toks: seq<Token>)
    requires TwoStatementShape(toks)
    ensures var p := Program([ExprStmt(toks[0], FirstNode(toks)), ExprStmt(toks[4], SecondNode(toks))]);
      var (a, op1, b, pre, c, op2, d) := (toks[0].lit, toks[1].lit, toks[2].lit, toks[4].lit, toks[5].lit, toks[6].lit, toks[7].lit);
      RenderableProgram(p) &&
      ProgramString(p) == ("(" + a + " " + op1 + " " + b + ")") + ("(" + ("(" + pre + c + ")") + " " + op2 + " " + d + ")")
  {
    InfixRendering(toks[0], toks[1], toks[2]);
    PrefixRendering(toks[4], toks[5], toks[6], toks[7]);
    TwoExprStatements(toks[0], FirstNode(toks), toks[4], SecondNode(toks));
  }

  /** The integer literals of the example below. */
  lemma SmallIntegers()
    ensures ParseInt64("3") == Some(3) && ParseInt64("4") == Some(4) && ParseInt64("5") == Some(5)
  {
    assert AllDigits("3", 10) && AllDigits("4", 10) && AllDigits("5", 10);
  }

  /** The tokens of `3 + 4; -5 * 5`, with the positions the lexer gives them. */
  predicate ExampleTokens(toks: seq<Token>) {
    toks == [Token(INT, "3", 0), Token(PLUS, "+", 2), Token(INT, "4", 4), Token(SEMICOLON, ";", 5),
             Token(MINUS, "-", 7), Token(INT, "5", 8), Token(ASTERISK, "*", 10), Token(INT, "5", 12)]
  }

  /** The example's tokens have the shape `a op1 b ; pre c op2 d`. */
  lemma ExampleShape(toks: seq<Token>)
    requires ExampleTokens(toks)
    ensures TwoStatementShape(toks)
  {
    assert |toks| == 8 && IsBinary(toks[1].kind) && toks[3].kind == SEMICOLON && IsBinary(toks[6].kind);
    assert toks[4].kind in {MINUS, BANG};
    ExampleAtoms(toks);
  }

  lemma ExampleAtoms(toks: seq<Token>)
    requires ExampleTokens(toks)
    ensures Atom(toks[0]) && Atom(toks[2]) && Atom(toks[5]) && Atom(toks[7])
  {
    SmallIntegers();
  }

  /** `3 + 4; -5 * 5` parses without an error and renders as `(3 + 4)((-5) * 5)`. */
  lemma TwoStatementsExample(toks: seq<Token>)
    requires ExampleTokens(toks)
    ensures ParseProgram(toks).st.errors == [] && RenderableProgram(ParseProgram(toks).value)
    ensures ProgramString(ParseProgram(toks).value) == "(3 + 4)((-5) * 5)"
  {
    ExampleShape(toks);
    TwoStatementsParse(toks);
    TwoStatementsRendering(toks);
    ExampleString(toks);
  }

  lemma ExampleString(toks: seq<Token>)
    requires ExampleTokens(toks)
    ensures var (a, op1, b, pre, c, op2, d) := (toks[0].lit, toks[1].lit, toks[2].lit, toks[4].lit, toks[5].lit, toks[6].lit, toks[7].lit);
      ("(" + a + " " + op1 + " " + b + ")") + ("(" + ("(" + pre + c + ")") + " " + op2 + " " + d + ")") == "(3 + 4)((-5) * 5)"
  {
  }

  /** An infix node over rendered operands: `(left op right)`. */
  lemma InfixString(tok: Token, l: Expr, op: string, r: Expr, ls: string, rs: string)
    requires l != Nil && RenderableExpr(l) && ExprString(l) == ls
    requires r != Nil && RenderableExpr(r) && ExprString(r) == rs
    ensures ExprString(Infix(tok, l, op, r)) == "(" + ls + " " + op + " " + rs + ")"
  {
  }

  /** A prefix node over a rendered operand: `(op operand)`, without a space. */
  lemma PrefixString(tok: Token, op: string, e: Expr, es: string)
    requires e != Nil && RenderableExpr(e) && ExprString(e) == es
    ensures RenderableExpr(Prefix(tok, op, e)) && ExprString(Prefix(tok, op, e)) == "(" + op + es + ")"
  {
  }

  /** A `let` statement renders as keyword, name, `=`, value and `;`. */
  lemma LetRendering(let: Token, x: Token, y: Token)
    requires Atom(y)
    ensures RenderableStmt(Let(let, Identifier(x, x.lit), Leaf(y)))
    ensures StmtString(Let(let, Identifier(x, x.lit), Leaf(y))) == let.lit + " " + x.lit + " = " + y.lit + ";"
  {
  }

  /** `(a op b)`: one pair of parentheses around an operator node. */
  lemma InfixRendering(a: Token, op: Token, b: Token)
    requires Atom(a) && Atom(b)
    ensures ExprString(Infix(op, Leaf(a), op.lit, Leaf(b))) == "(" + a.lit + " " + op.lit + " " + b.lit + ")"
  {
    InfixString(op, Leaf(a), op.lit, Leaf(b), a.lit, b.lit);
  }

  /** The rendering of `((a op1 b) op2 c)` shows the grouping, one pair of parentheses per
      operator node. */
  lemma LeftGroupingRendering(a: Token, op1: Token, b: Token, op2: Token, c: Token)
    requires Atom(a) && Atom(b) && Atom(c)
    ensures ExprString(Infix(op2, Infix(op1, Leaf(a), op1.lit, Leaf(b)), op2.lit, Leaf(c))) ==
      "(" + ("(" + a.lit + " " + op1.lit + " " + b.lit + ")") + " " + op2.lit + " " + c.lit + ")"
  {
    var ab := Infix(op1, Leaf(a), op1.lit, Leaf(b));
    InfixRendering(a, op1, b);
    InfixString(op2, ab, op2.lit, Leaf(c), "(" + a.lit + " " + op1.lit + " " + b.lit + ")", c.lit);
  }

  /** The rendering of `(a op1 (b op2 c))`. */
  lemma RightGroupingRendering(a: Token, op1: Token, b: Token, op2: Token, c: Token)
    requires Atom(a) && Atom(b) && Atom(c)
    ensures ExprString(Infix(op1, Leaf(a), op1.lit, Infix(op2, Leaf(b), op2.lit, Leaf(c)))) ==
      "(" + a.lit + " " + op1.lit + " " + ("(" + b.lit + " " + op2.lit + " " + c.lit + ")") + ")"
  {
    var bc := Infix(op2, Leaf(b), op2.lit, Leaf(c));
    InfixRendering(b, op2, c);
    InfixString(op1, Leaf(a), op1.lit, bc, a.lit, "(" + b.lit + " " + op2.lit + " " + c.lit + ")");
  }

  /** The rendering of `((-a) op b)`: no space after the prefix operator. */
  lemma PrefixRendering(pre: Token, a: Token, op: Token, b: Token)
    requires Atom(a) && Atom(b)
    ensures ExprString(Infix(op, Prefix(pre, pre.lit, Leaf(a)), op.lit, Leaf(b))) ==
      "(" + ("(" + pre.lit + a.lit + ")") + " " + op.lit + " " + b.lit + ")"
  {
    var neg := Prefix(pre, pre.lit, Leaf(a));
    PrefixString(pre, pre.lit, Leaf(a), a.lit);
    InfixString(op, neg, op.lit, Leaf(b), "(" + pre.lit + a.lit + ")", b.lit);
  }

  /** The rendering of `(!(-a))`: each prefix node has its own parentheses. */
  lemma NestedPrefixRendering(pre1: Token, pre2: Token, a: Token)
    requires Atom(a)
    ensures RenderableExpr(Prefix(pre1, pre1.lit, Prefix(pre2, pre2.lit, Leaf(a))))
    ensures ExprString(Prefix(pre1, pre1.lit, Prefix(pre2, pre2.lit, Leaf(a)))) ==
      "(" + pre1.lit + ("(" + pre2.lit + a.lit + ")") + ")"
  {
    PrefixString(pre2, pre2.lit, Leaf(a), a.lit);
    PrefixString(pre1, pre1.lit, Prefix(pre2, pre2.lit, Leaf(a)), "(" + pre2.lit + a.lit + ")");
  }

  // An error-free parse can be rendered.

  lemma {:induction false} CleanExprRenderable(e: Expr)
    requires CleanExpr(e)
    ensures e != Nil && RenderableExpr(e)
    decreases e, 1
  {
    match e
    case Ident(_) =>
    case IntLit(_, _) =>
    case StrLit(_, _) =>
    case BoolLit(_, _) =>
    case Prefix(_, _, right) => CleanExprRenderable(right);
    case Infix(_, left, _, right) =>
      CleanExprRenderable(left);
      CleanExprRenderable(right);
    case If(_, cond, cons, alt) =>
      CleanExprRenderable(cond);
      CleanBlockRenderable(cons);
      if alt.Some? {
        CleanBlockRenderable(alt.value);
      }
    case FnLit(_, _, body) => CleanBlockRenderable(body);
    case Call(_, callee, args) =>
      CleanExprRenderable(callee);
      CleanListRenderable(args);
    case ArrayLit(_, elems) => CleanListRenderable(elems);
    case Index(_, left, index) =>
      CleanExprRenderable(left);
      CleanExprRenderable(index);
  }

  lemma {:induction false} CleanListRenderable(es: seq<Expr>)
    requires CleanList(es)
    ensures RenderableList(es)
    decreases es, 0
  {
    forall i | 0 <= i < |es|
      ensures es[i] != Nil && RenderableExpr(es[i])
    {
      CleanExprRenderable(es[i]);
    }
  }

  lemma {:induction false} CleanStmtRenderable(s: Stmt)
    requires CleanStmt(s)
    ensures RenderableStmt(s)
    decreases s, 1
  {
    match s
    case Let(_, _, value) => CleanExprRenderable(value);
    case Return(_, value) => CleanExprRenderable(value);
    case ExprStmt(_, expr) => CleanExprRenderable(expr);
  }

  lemma {:induction false} CleanBlockRenderable(b: Block)
    requires CleanBlock(b)
    ensures RenderableBlock(b)
    decreases b, 0
  {
    forall i | 0 <= i < |b.stmts|
      ensures RenderableStmt(b.stmts[i])
    {
      CleanStmtRenderable(b.stmts[i]);
    }
  }

  /** When `Parse` logs no error, the program has no nil node and `String` is defined on
      it, and every statement has a `Literal`. */
  lemma ErrorFreeParseRenders(toks: seq<Token>)
    requires ParseProgram(toks).st.errors == []
    ensures RenderableProgram(ParseProgram(toks).value)
    ensures forall i :: 0 <= i < |ParseProgram(toks).value.stmts| ==> ParseProgram(toks).value.stmts[i] != NilLet
  {
    var prog := ParseProgram(toks).value;
    forall i | 0 <= i < |prog.stmts|
      ensures RenderableStmt(prog.stmts[i]) && prog.stmts[i] != NilLet
    {
      CleanStmtRenderable(prog.stmts[i]);
    }
  }

  /** A token without a prefix rule logs exactly one error and yields no node; so does an
      integer literal `ParseInt` rejects. Neither moves the cursor. */
  lemma PrefixErrors(toks: seq<Token>, prec: nat, st: PState)
    requires st.pos <= |toks|
    ensures !HasPrefix(Cur(toks, st).kind) ==>
      ParseExpression(toks, prec, st) == Parsed(Nil, PState(st.pos, st.errors + [NoPrefixMessage(Cur(toks, st).kind)]))
    ensures Cur(toks, st).kind == INT && ParseInt64(Cur(toks, st).lit) == None ==>
      ParsePrefix(toks, st) == Parsed(Nil, PState(st.pos, st.errors + [IntegerMessage(Cur(toks, st).lit)]))
  {
  }
}
