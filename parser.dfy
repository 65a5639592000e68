/** The parser object: the token stream (read through `pos`), `cur`, `peek` and the error log,
    with one method per parsing routine. The prefix and infix parser tables are the
    dispatches of `ParsePrefix` and `ParseInfix`. Each method leaves the parser exactly where
    the reference function of the same name in `ParserSpec` says, with the same result. */
module Parser {
  import opened Util
  import opened Token
  import opened Ast
  import opened Strconv
  import opened ParserSpec

  class Parser {
    const toks: seq<Token>
    var pos: nat
    var cur: Token
    var peek: Token
    var errors: seq<string>

    /** `cur` and `peek` are the tokens at `pos` and `pos + 1` of the stream. */
    ghost predicate Valid()
      reads this
    {
      pos <= |toks| && cur == At(toks, pos) && peek == At(toks, pos + 1)
    }

    function State(): PState
      reads this
    {
      PState(pos, errors)
    }

    /** `New`: read `cur` and `peek` from the stream; no errors yet. */
    constructor (ts: seq<Token>)
      ensures Valid() && toks == ts && State() == PState(0, [])
    {
      toks := ts;
      pos := 0;
      cur := At(ts, 0);
      peek := At(ts, 1);
      errors := [];
    }

    /** `next`: `cur` becomes `peek` and the next token of the stream becomes `peek`. */
    method Next()
      requires Valid()
      modifies this
      ensures Valid() && State() == ParserSpec.Next(toks, old(State()))
    {
      if pos < |toks| {
        pos := pos + 1;
      }
      cur := peek;
      peek := At(toks, pos + 1);
    }

    /** Two calls of `next`, as the comma loops make them: the stream moves on by two tokens. */
    method NextTwice()
      requires Valid() && pos + 1 < |toks|
      modifies this
      ensures Valid() && State() == PState(old(pos) + 2, old(errors))
    {
      Next();
      Next();
    }

    /** `peekError`. */
    method PeekError(k: Kind)
      requires Valid()
      modifies this
      ensures Valid() && State() == Log(old(State()), PeekErrorMessage(k, old(peek).kind))
    {
      errors := errors + [PeekErrorMessage(k, peek.kind)];
    }

    /** `expectPeek`. */
    method ExpectPeek(k: Kind) returns (ok: bool)
      requires Valid()
      modifies this
      ensures Valid() && Parsed(ok, State()) == ParserSpec.ExpectPeek(toks, k, old(State()))
    {
      if peek.kind == k {
        Next();
        return true;
      }
      PeekError(k);
      return false;
    }

    /** The optional `;` after a statement. */
    method SkipSemicolon()
      requires Valid()
      modifies this
      ensures Valid() && State() == ParserSpec.SkipSemicolon(toks, old(State()))
    {
      if peek.kind == SEMICOLON {
        Next();
      }
    }

    /** `Parse`: statements until `cur` is EOF. */
    method Parse() returns (prog: Program)
      requires Valid()
      modifies this
      ensures Valid() && Parsed(prog, State()) == ProgramLoop(toks, [], old(State()))
    {
      var stmts: seq<Stmt> := [];
      while cur.kind != EOF
        invariant Valid() && ProgramLoop(toks, stmts, State()) == ProgramLoop(toks, [], old(State()))
        decreases |toks| - pos
      {
        var s := ParseStatement();
        stmts := stmts + [s];
        Next();
      }
      return Program(stmts);
    }

    method ParseStatement() returns (s: Stmt)
      requires Valid()
      modifies this
      ensures Valid() && Parsed(s, State()) == ParserSpec.ParseStatement(toks, old(State()))
      decreases |toks| - pos, 5
    {
      match cur.kind {
        case LET => s := ParseLet();
        case RETURN => s := ParseReturn();
        case _ => s := ParseExpressionStatement();
      }
    }

    method ParseLet() returns (s: Stmt)
      requires Valid() && cur.kind == LET
      modifies this
      ensures Valid() && Parsed(s, State()) == ParserSpec.ParseLet(toks, old(State()))
      decreases |toks| - pos, 4
    {
      var tok := cur;
      var ok := ExpectPeek(IDENT);
      if !ok {
        return NilLet;
      }
      var name := Identifier(cur, cur.lit);
      ok := ExpectPeek(ASSIGN);
      if !ok {
        return NilLet;
      }
      Next();
      var value := ParseExpression(LOWEST);
      SkipSemicolon();
      return Let(tok, name, value);
    }

    method ParseReturn() returns (s: Stmt)
      requires Valid() && cur.kind == RETURN
      modifies this
      ensures Valid() && Parsed(s, State()) == ParserSpec.ParseReturn(toks, old(State()))
      decreases |toks| - pos, 4
    {
      var tok := cur;
      Next();
      var value := ParseExpression(LOWEST);
      SkipSemicolon();
      return Return(tok, value);
    }

    method ParseExpressionStatement() returns (s: Stmt)
      requires Valid()
      modifies this
      ensures Valid() && Parsed(s, State()) == ParserSpec.ParseExpressionStatement(toks, old(State()))
      decreases |toks| - pos, 4
    {
      var tok := cur;
      var e := ParseExpression(LOWEST);
      SkipSemicolon();
      return ExprStmt(tok, e);
    }

    /** `parseExpression`: the prefix routine for `cur`, then the loop that extends the left
        operand while the next operator binds tighter than `prec`. */
    method ParseExpression(prec: nat) returns (e: Expr)
      requires Valid()
      modifies this
      ensures Valid() && Parsed(e, State()) == ParserSpec.ParseExpression(toks, prec, old(State()))
      decreases |toks| - pos, 3
    {
      if !HasPrefix(cur.kind) {
        errors := errors + [NoPrefixMessage(cur.kind)];
        return Nil;
      }
      var left := ParsePrefix();
      e := InfixTail(prec, left);
    }

    /** The `for` loop of `parseExpression`: while `peek` is not `;` and binds tighter than
        `prec`, hand the left operand to the infix parser of `peek`. */
    method InfixTail(prec: nat, left: Expr) returns (e: Expr)
      requires Valid()
      modifies this
      ensures Valid() && Parsed(e, State()) == InfixLoop(toks, prec, left, old(State()))
      decreases |toks| - pos, 2
    {
      e := left;
      while peek.kind != SEMICOLON && prec < Precedence(peek.kind)
        invariant Valid() && old(pos) <= pos
        invariant InfixLoop(toks, prec, e, State()) == InfixLoop(toks, prec, left, old(State()))
        decreases |toks| - pos
      {
        if !HasInfix(peek.kind) {
          InfixLoopStop(toks, prec, e, State());
          return;
        }
        e := InfixTurn(prec, e);
      }
      InfixLoopStop(toks, prec, e, State());
    }

    /** One turn of that loop: `next`, then the infix parser of the new `cur`. */
    method InfixTurn(prec: nat, left: Expr) returns (e: Expr)
      requires Valid() && peek.kind != SEMICOLON && prec < Precedence(peek.kind) && HasInfix(peek.kind)
      modifies this
      ensures Valid() && old(pos) < pos
      ensures InfixLoop(toks, prec, e, State()) == InfixLoop(toks, prec, left, old(State()))
      decreases |toks| - pos, 1
    {
      ghost var before := State();
      assert pos + 1 < |toks|;
      Next();
      ghost var mid := State();
      assert mid == ParserSpec.Next(toks, before);
      e := ParseInfix(left);
      InfixLoopStep(toks, prec, left, before, mid, Parsed(e, State()));
    }

    /** The prefix parsers table. */
    method ParsePrefix() returns (e: Expr)
      requires Valid() && HasPrefix(cur.kind)
      modifies this
      ensures Valid() && Parsed(e, State()) == ParserSpec.ParsePrefix(toks, old(State()))
      decreases |toks| - pos, 2
    {
      var tok := cur;
      match tok.kind {
        case IDENT => e := Ident(Identifier(tok, tok.lit));
        case INT => e := ParseIntegerLiteral();
        case STRING => e := StrLit(tok, tok.lit);
        case TRUE => e := BoolLit(tok, true);
        case FALSE => e := BoolLit(tok, false);
        case MINUS => e := ParsePrefixExpression();
        case BANG => e := ParsePrefixExpression();
        case LPAREN => e := ParseGrouped();
        case IF => e := ParseIf();
        case FUNCTION => e := ParseFunction();
        case LBRACKET => e := ParseArray();
      }
    }

    /** The infix parsers table; `cur` is the operator. */
    method ParseInfix(left: Expr) returns (e: Expr)
      requires Valid() && HasInfix(cur.kind)
      modifies this
      ensures Valid() && Parsed(e, State()) == ParserSpec.ParseInfix(toks, left, old(State()))
      decreases |toks| - pos, 2
    {
      if cur.kind == LPAREN {
        e := ParseCall(left);
      } else if cur.kind == LBRACKET {
        e := ParseIndex(left);
      } else {
        e := ParseInfixExpression(left);
      }
    }

    /** `parseIntegerLiteral`. */
    method ParseIntegerLiteral() returns (e: Expr)
      requires Valid() && cur.kind == INT
      modifies this
      ensures Valid() && Parsed(e, State()) == ParserSpec.ParsePrefix(toks, old(State()))
    {
      match ParseInt64(cur.lit) {
        case Some(v) => e := IntLit(cur, v);
        case None =>
          errors := errors + [IntegerMessage(cur.lit)];
          e := Nil;
      }
    }

    method ParsePrefixExpression() returns (e: Expr)
      requires Valid() && cur.kind in {MINUS, BANG}
      modifies this
      ensures Valid() && Parsed(e, State()) == ParserSpec.ParsePrefixExpression(toks, old(State()))
      decreases |toks| - pos, 1
    {
      var tok := cur;
      Next();
      var right := ParseExpression(PREFIX);
      return Prefix(tok, tok.lit, right);
    }

    method ParseInfixExpression(left: Expr) returns (e: Expr)
      requires Valid() && IsBinary(cur.kind)
      modifies this
      ensures Valid() && Parsed(e, State()) == ParserSpec.ParseInfixExpression(toks, left, old(State()))
      decreases |toks| - pos, 1
    {
      var tok := cur;
      var prec := Precedence(cur.kind);
      Next();
      var right := ParseExpression(prec);
      return Infix(tok, left, tok.lit, right);
    }

    method ParseGrouped() returns (e: Expr)
      requires Valid() && cur.kind == LPAREN
      modifies this
      ensures Valid() && Parsed(e, State()) == ParserSpec.ParseGrouped(toks, old(State()))
      decreases |toks| - pos, 1
    {
      Next();
      e := ParseExpression(LOWEST);
      var ok := ExpectPeek(RPAREN);
      if !ok {
        return Nil;
      }
    }

    method ParseIf() returns (e: Expr)
      requires Valid() && cur.kind == IF
      modifies this
      ensures Valid() && Parsed(e, State()) == ParserSpec.ParseIf(toks, old(State()))
      decreases |toks| - pos, 1
    {
      var tok := cur;
      var ok := ExpectPeek(LPAREN);
      if !ok {
        return Nil;
      }
      Next();
      var cond := ParseExpression(LOWEST);
      ok := ExpectPeek(RPAREN);
      if !ok {
        return Nil;
      }
      ok := ExpectPeek(LBRACE);
      if !ok {
        return Nil;
      }
      e := ParseIfBranches(tok, cond);
    }

    /** The consequence and the optional `else` block of `parseIfExpression`. */
    method ParseIfBranches(tok: Token, cond: Expr) returns (e: Expr)
      requires Valid() && tok.kind == IF
      modifies this
      ensures Valid() && Parsed(e, State()) == IfBranches(toks, tok, cond, old(State()))
      decreases |toks| - pos, 8
    {
      var cons := ParseBlock();
      if peek.kind == ELSE {
        Next();
        var ok := ExpectPeek(LBRACE);
        if !ok {
          return Nil;
        }
        var alt := ParseBlock();
        return If(tok, cond, cons, Some(alt));
      }
      return If(tok, cond, cons, None);
    }

    method ParseFunction() returns (e: Expr)
      requires Valid() && cur.kind == FUNCTION
      modifies this
      ensures Valid() && Parsed(e, State()) == ParserSpec.ParseFunction(toks, old(State()))
      decreases |toks| - pos, 1
    {
      var tok := cur;
      var ok := ExpectPeek(LPAREN);
      if !ok {
        return Nil;
      }
      var params := ParseParams();
      ok := ExpectPeek(LBRACE);
      if !ok {
        return Nil;
      }
      var body := ParseBlock();
      return FnLit(tok, params, body);
    }

    method ParseArray() returns (e: Expr)
      requires Valid() && cur.kind == LBRACKET
      modifies this
      ensures Valid() && Parsed(e, State()) == ParserSpec.ParseArray(toks, old(State()))
      decreases |toks| - pos, 1
    {
      var tok := cur;
      var elems := ParseExpressionList(RBRACKET);
      return ArrayLit(tok, elems);
    }

    method ParseCall(callee: Expr) returns (e: Expr)
      requires Valid() && cur.kind == LPAREN
      modifies this
      ensures Valid() && Parsed(e, State()) == ParserSpec.ParseCall(toks, callee, old(State()))
      decreases |toks| - pos, 1
    {
      var tok := cur;
      var args := ParseExpressionList(RPAREN);
      return Call(tok, callee, args);
    }

    method ParseIndex(left: Expr) returns (e: Expr)
      requires Valid() && cur.kind == LBRACKET
      modifies this
      ensures Valid() && Parsed(e, State()) == ParserSpec.ParseIndex(toks, left, old(State()))
      decreases |toks| - pos, 1
    {
      var tok := cur;
      Next();
      var index := ParseExpression(LOWEST);
      var ok := ExpectPeek(RBRACKET);
      if !ok {
        return Nil;
      }
      return Index(tok, left, index);
    }

    /** `parseExpressionList`. */
    method ParseExpressionList(end: Kind) returns (list: seq<Expr>)
      requires Valid() && pos < |toks|
      modifies this
      ensures Valid() && Parsed(list, State()) == ParserSpec.ParseExpressionList(toks, end, old(State()))
      decreases |toks| - pos, 0
    {
      if peek.kind == end {
        Next();
        return [];
      }
      Next();
      var first := ParseExpression(LOWEST);
      list := ListTail(end, [first]);
    }

    /** The comma loop of `parseExpressionList` and its closing check, after the first element. */
    method ListTail(end: Kind, acc: seq<Expr>) returns (list: seq<Expr>)
      requires Valid()
      modifies this
      ensures Valid() && Parsed(list, State()) == ListRest(toks, end, acc, old(State()))
      decreases |toks| - pos, 0
    {
      list := acc;
      while peek.kind == COMMA
        invariant Valid() && old(pos) <= pos
        invariant ListRest(toks, end, list, State()) == ListRest(toks, end, acc, old(State()))
        decreases |toks| - pos
      {
        ghost var before := State();
        assert pos + 1 < |toks|;
        NextTwice();
        ghost var mid := State();
        var e := ParseExpression(LOWEST);
        ListRestStep(toks, end, list, before, mid, Parsed(e, State()));
        list := list + [e];
      }
      ghost var last := State();
      var ok := ExpectPeek(end);
      ListRestEnd(toks, end, list, last, Parsed(ok, State()));
      if !ok {
        return [];
      }
    }

    /** `parseBlockStatement`. */
    method ParseBlock() returns (b: Block)
      requires Valid()
      modifies this
      ensures Valid() && Parsed(b, State()) == ParserSpec.ParseBlock(toks, old(State()))
      decreases |toks| - pos, 7
    {
      var tok := cur;
      var stmts: seq<Stmt> := [];
      Next();
      while cur.kind != RBRACE && cur.kind != EOF
        invariant Valid() && old(pos) <= pos
        invariant BlockLoop(toks, tok, stmts, State()) == ParserSpec.ParseBlock(toks, old(State()))
        decreases |toks| - pos
      {
        var s := ParseStatement();
        stmts := stmts + [s];
        Next();
      }
      return Block(tok, stmts);
    }

    /** `parseFunctionParams`. */
    method ParseParams() returns (params: seq<Identifier>)
      requires Valid()
      modifies this
      ensures Valid() && Parsed(params, State()) == ParserSpec.ParseParams(toks, old(State()))
    {
      if peek.kind == RPAREN {
        Next();
        return [];
      }
      Next();
      params := ParamsTail([Identifier(cur, cur.lit)]);
    }

    /** The comma loop of `parseFunctionParams` and its closing check, after the first name. */
    method ParamsTail(acc: seq<Identifier>) returns (params: seq<Identifier>)
      requires Valid() && CleanParams(acc)
      modifies this
      ensures Valid() && Parsed(params, State()) == ParamsRest(toks, acc, old(State()))
    {
      params := acc;
      while peek.kind == COMMA
        invariant Valid() && CleanParams(params)
        invariant ParamsRest(toks, params, State()) == ParamsRest(toks, acc, old(State()))
        decreases |toks| - pos
      {
        ghost var before := State();
        assert pos + 1 < |toks|;
        NextTwice();
        ParamsRestStep(toks, params, before);
        params := params + [Identifier(cur, cur.lit)];
      }
      ghost var last := State();
      var ok := ExpectPeek(RPAREN);
      ParamsRestEnd(toks, params, last, Parsed(ok, State()));
      if !ok {
        return [];
      }
    }
  }

  /** `New(tokens).Parse()` followed by `Errors()`. */
  method ParseTokens(toks: seq<Token>) returns (prog: Program, errors: seq<string>)
    ensures prog == ParseProgram(toks).value && errors == ParseProgram(toks).st.errors
  {
    var p := new Parser(toks);
    prog := p.Parse();
    errors := p.errors;
  }
  // One unfolding of a loop function each, so that the loop bodies above only substitute.

  lemma InfixLoopStep(toks: seq<Token>, prec: nat, left: Expr, st: PState, mid: PState, e: Parsed<Expr>)
    requires st.pos < |toks| && Peek(toks, st).kind != SEMICOLON && prec < Precedence(Peek(toks, st).kind)
    requires HasInfix(Peek(toks, st).kind) && mid == ParserSpec.Next(toks, st)
    requires e == ParseInfix(toks, left, mid)
    ensures InfixLoop(toks, prec, left, st) == InfixLoop(toks, prec, e.value, e.st)
  {
  }

  lemma InfixLoopStop(toks: seq<Token>, prec: nat, left: Expr, st: PState)
    requires st.pos <= |toks|
    requires !(Peek(toks, st).kind != SEMICOLON && prec < Precedence(Peek(toks, st).kind) && HasInfix(Peek(toks, st).kind))
    ensures InfixLoop(toks, prec, left, st) == Parsed(left, st)
  {
  }

  lemma ListRestStep(toks: seq<Token>, end: Kind, acc: seq<Expr>, st: PState, mid: PState, e: Parsed<Expr>)
    requires st.pos + 1 < |toks| && Peek(toks, st).kind == COMMA
    requires mid == PState(st.pos + 2, st.errors) && e == ParseExpression(toks, LOWEST, mid)
    ensures ListRest(toks, end, acc, st) == ListRest(toks, end, acc + [e.value], e.st)
  {
    assert ParserSpec.Next(toks, ParserSpec.Next(toks, st)) == PState(st.pos + 2, st.errors);
  }

  lemma ListRestEnd(toks: seq<Token>, end: Kind, acc: seq<Expr>, st: PState, close: Parsed<bool>)
    requires st.pos <= |toks| && Peek(toks, st).kind != COMMA && close == ParserSpec.ExpectPeek(toks, end, st)
    ensures ListRest(toks, end, acc, st) == if close.value then Parsed(acc, close.st) else Parsed([], close.st)
  {
  }

  lemma ParamsRestStep(toks: seq<Token>, acc: seq<Identifier>, st: PState)
    requires st.pos + 1 < |toks| && Peek(toks, st).kind == COMMA && CleanParams(acc)
    ensures var t := At(toks, st.pos + 2);
      CleanParams(acc + [Identifier(t, t.lit)]) &&
      ParamsRest(toks, acc, st) == ParamsRest(toks, acc + [Identifier(t, t.lit)], PState(st.pos + 2, st.errors))
  {
    assert ParserSpec.Next(toks, ParserSpec.Next(toks, st)) == PState(st.pos + 2, st.errors);
  }

  lemma ParamsRestEnd(toks: seq<Token>, acc: seq<Identifier>, st: PState, close: Parsed<bool>)
    requires st.pos <= |toks| && Peek(toks, st).kind != COMMA && CleanParams(acc)
    requires close == ParserSpec.ExpectPeek(toks, RPAREN, st)
    ensures ParamsRest(toks, acc, st) == if close.value then Parsed(acc, close.st) else Parsed([], close.st)
  {
  }
}
