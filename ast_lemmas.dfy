/** Properties of the canonical rendering of syntax trees (ast/*.go): lists render in order,
    empty lists and blocks render as nothing between their brackets, an `else` adds exactly
    its branch, and the literal nodes render as their token literal. */
module AstLemmas {
  import opened Util
  import opened Token
  import opened Ast

  /** Element i of the rendered list is the rendering of element i. */
  lemma {:induction false} ExprStringsInOrder(es: seq<Expr>, i: nat)
    requires RenderableList(es) && i < |es|
    ensures es[i] != Nil && RenderableExpr(es[i]) && ExprStrings(es)[i] == ExprString(es[i])
    decreases |es|
  {
    if i > 0 {
      assert RenderableList(es[1..]) && es[1..][i - 1] == es[i];
      ExprStringsInOrder(es[1..], i - 1);
    }
  }

  /** Adding a statement to a block or program adds its rendering at the end. */
  lemma {:induction false} ConcatSnoc(ss: seq<Stmt>, s: Stmt)
    requires forall i :: 0 <= i < |ss| ==> RenderableStmt(ss[i])
    requires RenderableStmt(s)
    ensures Concat(ss + [s]) == Concat(ss) + StmtString(s)
    decreases |ss|
  {
    if ss == [] {
      assert ss + [s] == [s] && [s][1..] == [];
    } else {
      assert (ss + [s])[0] == ss[0] && (ss + [s])[1..] == ss[1..] + [s];
      ConcatSnoc(ss[1..], s);
    }
  }

  /** Empty argument lists, element lists, parameter lists, blocks and programs. */
  lemma EmptyRenderings(tok: Token, callee: Expr, body: Block)
    ensures ExprString(Call(tok, callee, [])) == Fmt(callee) + "()"
    ensures ExprString(ArrayLit(tok, [])) == "[]"
    ensures ExprString(FnLit(tok, [], body)) == tok.lit + "() " + FmtBlock(body)
    ensures BlockString(Block(tok, [])) == "" && ProgramString(Program([])) == ""
    ensures ProgramLiteral(Program([])) == ""
    ensures StmtString(ExprStmt(tok, Nil)) == ""
  {
    assert Names([]) == [];
  }

  /** A two-element array renders both elements, in order, separated by a comma and a
      space. */
  lemma ArrayOfTwo(tok: Token, a: Expr, b: Expr)
    requires a != Nil && b != Nil && RenderableExpr(a) && RenderableExpr(b)
    ensures RenderableExpr(ArrayLit(tok, [a, b]))
    ensures ExprString(ArrayLit(tok, [a, b])) == "[" + ExprString(a) + ", " + ExprString(b) + "]"
  {
    var es := [a, b];
    assert es[1..] == [b] && es[1..][1..] == [];
    assert ExprStrings(es) == [ExprString(a), ExprString(b)];
    assert Join([ExprString(a), ExprString(b)], ", ") == ExprString(a) + ", " + ExprString(b) by {
      assert [ExprString(a), ExprString(b)][1..] == [ExprString(b)];
    }
  }

  /** With an `else`, the rendering is the one without it followed by `" else "` and the
      alternative's rendering. */
  lemma ElseExtends(tok: Token, cond: Expr, cons: Block, alt: Block)
    ensures ExprString(If(tok, cond, cons, Some(alt))) == ExprString(If(tok, cond, cons, None)) + " else " + FmtBlock(alt)
  {
  }

  /** Literal nodes render as their token's literal, which is also their `Literal()`. */
  lemma LiteralsRenderAsToken(tok: Token, i: int, s: string, b: bool, e: Expr)
    requires e == IntLit(tok, i) || e == StrLit(tok, s) || e == BoolLit(tok, b)
    ensures ExprString(e) == tok.lit && ExprLiteral(e) == ExprString(e)
  {
  }

  /** A program's literal is its first statement's, whatever follows. */
  lemma ProgramLiteralFirst(s: Stmt, rest: seq<Stmt>)
    requires s != NilLet
    ensures ProgramLiteral(Program([s] + rest)) == StmtLiteral(s)
  {
  }

  /** `%s` recovers a panic raised inside the `String()` it calls. `fn() { -; }` parses to a
      body holding a prefix node without an operand: the body's own `String()` panics, but
      an infix operand, an if branch or a function body printed with `%s` shows the
      placeholder instead. A direct `.String()` call does not recover: a prefix node whose
      operand panics panics itself. */
  lemma RecoveredPanics(t: Token, a: Expr)
    ensures var broken := Prefix(t, "-", Nil);
      var body := Block(t, [ExprStmt(t, broken)]);
      && !RenderableBlock(body) && FmtBlock(body) == PanicText
      && ExprString(Infix(t, a, "+", broken)) == "(" + Fmt(a) + " + " + PanicText + ")"
      && ExprString(FnLit(t, [], body)) == t.lit + "() " + PanicText
      && ExprString(If(t, a, body, None)) == "if " + Fmt(a) + " " + PanicText
      && !RenderableExpr(Prefix(t, "!", broken))
  {
    var broken := Prefix(t, "-", Nil);
    var body := Block(t, [ExprStmt(t, broken)]);
    assert !RenderableStmt(body.stmts[0]);
    assert Names([]) == [];
  }
}
