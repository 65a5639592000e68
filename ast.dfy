/** The syntax tree the parser builds and its canonical rendering (`String`) and `Literal`.
    A Go `nil` expression, which the parser leaves behind after an error, is the constructor
    `Nil`; a nil `*LetStatement` stored in a `Statement` interface (a non-nil interface
    holding a nil pointer) is `NilLet`. */
module Ast {
  import opened Util
  import opened Token

  datatype Identifier = Identifier(tok: Token, value: string)

  datatype Expr =
    | Nil
    | Ident(id: Identifier)
    | IntLit(tok: Token, ival: int)
    | StrLit(tok: Token, sval: string)
    | BoolLit(tok: Token, bval: bool)
    | Prefix(tok: Token, op: string, right: Expr)
    | Infix(tok: Token, left: Expr, op: string, right: Expr)
    | If(tok: Token, cond: Expr, cons: Block, alt: Option<Block>)
    | FnLit(tok: Token, params: seq<Identifier>, body: Block)
    | Call(tok: Token, callee: Expr, args: seq<Expr>)
    | ArrayLit(tok: Token, elems: seq<Expr>)
    | Index(tok: Token, left: Expr, index: Expr)

  datatype Block = Block(tok: Token, stmts: seq<Stmt>)

  datatype Stmt =
    | Let(tok: Token, name: Identifier, value: Expr)
    | NilLet
    | Return(tok: Token, value: Expr)
    | ExprStmt(tok: Token, expr: Expr)

  datatype Program = Program(stmts: seq<Stmt>)

  // Which trees `String()` renders without a panic escaping from it. Go's `%s` verb calls
  // the `String()` of a non-nil argument and recovers a panic raised inside it, printing a
  // placeholder instead, so an operand formatted with `%s` (infix operands, the condition
  // and branches of an if, a function body, a callee) never makes its node fail. A direct
  // `.String()` call on a nil node (prefix operand, index operands, call arguments, array
  // elements) and any method call on a `NilLet` are nil dereferences that do escape. `Nil`
  // itself counts as renderable: every caller that can meet it tests for it first.

  predicate RenderableExpr(e: Expr)
    decreases e, 1
  {
    match e
    case Nil => true
    case Ident(_) => true
    case IntLit(_, _) => true
    case StrLit(_, _) => true
    case BoolLit(_, _) => true
    case Prefix(_, _, right) => right != Nil && RenderableExpr(right)
    case Infix(_, _, _, _) => true
    case If(_, _, _, _) => true
    case FnLit(_, _, _) => true
    case Call(_, _, args) => RenderableList(args)
    case ArrayLit(_, elems) => RenderableList(elems)
    case Index(_, left, index) => left != Nil && index != Nil && RenderableExpr(left) && RenderableExpr(index)
  }

  predicate RenderableList(es: seq<Expr>)
    decreases es, 0
  {
    forall i :: 0 <= i < |es| ==> es[i] != Nil && RenderableExpr(es[i])
  }

  predicate RenderableStmt(s: Stmt)
    decreases s, 1
  {
    match s
    case Let(_, _, value) => RenderableExpr(value)
    case NilLet => false
    case Return(_, value) => RenderableExpr(value)
    case ExprStmt(_, expr) => RenderableExpr(expr)
  }

  predicate RenderableBlock(b: Block)
    decreases b, 0
  {
    forall i :: 0 <= i < |b.stmts| ==> RenderableStmt(b.stmts[i])
  }

  predicate RenderableProgram(p: Program) {
    forall i :: 0 <= i < |p.stmts| ==> RenderableStmt(p.stmts[i])
  }

  /** What `%s` prints for a nil interface. */
  const NilText := "%!s(<nil>)"

  /** What `%s` prints when the argument's `String()` panics on a nil dereference. */
  const PanicText := "%!s(PANIC=String method: runtime error: invalid memory address or nil pointer dereference)"

  /** `%s` of an expression. It never fails: nil prints the nil placeholder, a node whose
      `String()` panics prints the recovered-panic placeholder, any other node its
      `String()`. */
  function Fmt(e: Expr): (r: string)
    ensures e == Nil ==> r == NilText
    ensures e != Nil && !RenderableExpr(e) ==> r == PanicText
    ensures e != Nil && RenderableExpr(e) ==> r == ExprString(e)
    decreases e, 2
  {
    if e == Nil then NilText
    else if RenderableExpr(e) then ExprString(e)
    else PanicText
  }

  /** `%s` of a block: its `String()`, or the recovered-panic placeholder. */
  function FmtBlock(b: Block): (r: string)
    ensures RenderableBlock(b) ==> r == BlockString(b)
    ensures !RenderableBlock(b) ==> r == PanicText
    decreases b, 3
  {
    if RenderableBlock(b) then BlockString(b) else PanicText
  }

  /** `String()` of every expression node. Operator, index and array nodes are wrapped in
      their own brackets, and a call ends with its argument list's closing parenthesis. */
  function ExprString(e: Expr): (r: string)
    requires e != Nil && RenderableExpr(e)
    ensures e.Prefix? || e.Infix? || e.Index? ==> |r| >= 2 && r[0] == '(' && r[|r| - 1] == ')'
    ensures e.ArrayLit? ==> |r| >= 2 && r[0] == '[' && r[|r| - 1] == ']'
    ensures e.Call? ==> |r| >= 2 && r[|r| - 1] == ')'
    ensures e.If? ==> |r| >= 3 && r[..3] == "if "
    decreases e, 1
  {
    match e
    case Ident(id) => id.value
    case IntLit(tok, _) => tok.lit
    case StrLit(tok, _) => tok.lit
    case BoolLit(tok, _) => tok.lit
    case Prefix(_, op, right) => "(" + op + ExprString(right) + ")"
    case Infix(_, left, op, right) => "(" + Fmt(left) + " " + op + " " + Fmt(right) + ")"
    case If(_, cond, cons, alt) =>
      if alt.None? then "if " + Fmt(cond) + " " + FmtBlock(cons)
      else "if " + Fmt(cond) + " " + FmtBlock(cons) + " else " + FmtBlock(alt.value)
    case FnLit(tok, params, body) => tok.lit + "(" + Join(Names(params), ", ") + ") " + FmtBlock(body)
    case Call(_, callee, args) => Fmt(callee) + "(" + Join(ExprStrings(args), ", ") + ")"
    case ArrayLit(_, elems) => "[" + Join(ExprStrings(elems), ", ") + "]"
    case Index(_, left, index) => "(" + ExprString(left) + "[" + ExprString(index) + "])"
  }

  /** The renderings of a list of expressions, in order. */
  function ExprStrings(es: seq<Expr>): (r: seq<string>)
    requires RenderableList(es)
    ensures |r| == |es| && forall i :: 0 <= i < |es| ==> r[i] == ExprString(es[i])
    decreases es, 0
  {
    if es == [] then [] else [ExprString(es[0])] + ExprStrings(es[1..])
  }

  /** Identifier values, in order (`Identifier.String` is its value). */
  function Names(ids: seq<Identifier>): (r: seq<string>)
    ensures |r| == |ids| && forall i :: 0 <= i < |ids| ==> r[i] == ids[i].value
  {
    if ids == [] then [] else [ids[0].value] + Names(ids[1..])
  }

  /** `String()` of a statement. `let` and `return` print their keyword literal, a space,
      the rest of the statement and a closing semicolon; an absent value prints nothing. */
  function StmtString(s: Stmt): (r: string)
    requires RenderableStmt(s)
    ensures s.Let? || s.Return? ==> |r| > |s.tok.lit| && r[..|s.tok.lit|] == s.tok.lit && r[|r| - 1] == ';'
    ensures s.ExprStmt? && s.expr == Nil ==> r == ""
    decreases s, 2
  {
    match s
    case Let(tok, name, value) => tok.lit + " " + name.value + " = " + Opt(value) + ";"
    case Return(tok, value) => tok.lit + " " + Opt(value) + ";"
    case ExprStmt(_, expr) => Opt(expr)
  }

  /** An optional sub-expression: nothing when absent, its `String()` otherwise. */
  function Opt(e: Expr): string
    requires RenderableExpr(e)
    decreases e, 2
  {
    if e == Nil then "" else ExprString(e)
  }

  /** `BlockStatement.String`: the statements' renderings, concatenated in order. */
  function BlockString(b: Block): (r: string)
    requires RenderableBlock(b)
    ensures b.stmts == [] ==> r == ""
    ensures b.stmts != [] ==> StmtString(b.stmts[0]) <= r
    decreases b, 2
  {
    Concat(b.stmts)
  }

  function Concat(ss: seq<Stmt>): (r: string)
    requires forall i :: 0 <= i < |ss| ==> RenderableStmt(ss[i])
    ensures ss == [] ==> r == ""
    ensures ss != [] ==> StmtString(ss[0]) <= r
    decreases ss, 3
  {
    if ss == [] then "" else StmtString(ss[0]) + Concat(ss[1..])
  }

  /** `Program.String`: the statements' renderings, concatenated in order. */
  function ProgramString(p: Program): (r: string)
    requires RenderableProgram(p)
    ensures p.stmts == [] ==> r == ""
    ensures p.stmts != [] ==> StmtString(p.stmts[0]) <= r
  {
    Concat(p.stmts)
  }

  // `Literal()`: the literal of the token that introduced the node.

  function ExprLiteral(e: Expr): (r: string)
    requires e != Nil
    ensures e.Ident? ==> r == e.id.tok.lit
    ensures !e.Ident? ==> r == e.tok.lit
  {
    match e
    case Ident(id) => id.tok.lit
    case IntLit(tok, _) => tok.lit
    case StrLit(tok, _) => tok.lit
    case BoolLit(tok, _) => tok.lit
    case Prefix(tok, _, _) => tok.lit
    case Infix(tok, _, _, _) => tok.lit
    case If(tok, _, _, _) => tok.lit
    case FnLit(tok, _, _) => tok.lit
    case Call(tok, _, _) => tok.lit
    case ArrayLit(tok, _) => tok.lit
    case Index(tok, _, _) => tok.lit
  }

  function StmtLiteral(s: Stmt): (r: string)
    requires s != NilLet
    ensures r == s.tok.lit
  {
    match s
    case Let(tok, _, _) => tok.lit
    case Return(tok, _) => tok.lit
    case ExprStmt(tok, _) => tok.lit
  }

  /** The literal of the `{` token that opens the block. */
  function BlockLiteral(b: Block): (r: string)
    ensures r == b.tok.lit
  {
    b.tok.lit
  }

  /** `Program.Literal`: the first statement's literal, or the empty string. */
  function ProgramLiteral(p: Program): (r: string)
    requires p.stmts != [] ==> p.stmts[0] != NilLet
    ensures p.stmts == [] ==> r == ""
    ensures p.stmts != [] ==> r == StmtLiteral(p.stmts[0])
  {
    if |p.stmts| > 0 then StmtLiteral(p.stmts[0]) else ""
  }
}
