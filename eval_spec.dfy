/** What `Eval` computes (evaluator/evaluator.go), as functions over an explicit heap.

    Each function takes the heap before the step and returns the outcome with the heap after
    it. A Go runtime panic (a method call on a nil object, integer division by zero, indexing
    past the arguments of a call with too few of them) is the outcome `Panic`, which ends
    evaluation; function calls consume one unit of fuel each and report `Exhausted` when none
    is left, where Go would eventually overflow its stack. */
module EvalSpec {
  import opened Util
  import opened Int64
  import opened Ast
  import opened Obj
  import Builtins

  const DivideByZero := "integer divide by zero"
  const IndexOutOfRange := "index out of range"

  /** `isError`: nil is not an error. */
  predicate IsError(v: Value) {
    v.Err?
  }

  /** `isTruthy`: everything but the shared NULL and FALSE objects. */
  predicate Truthy(v: Value) {
    v != Null && v != Bool(false)
  }

  /** A value that refers to no heap object and is not nil. */
  predicate Scalar(v: Value) {
    v.Int? || v.Bool? || v.Str? || v.Err?
  }

  function Halt<T, U>(o: Outcome<T>): (r: Outcome<U>)
    requires !o.Normal?
    ensures !r.Normal? && (r.Panic? <==> o.Panic?)
  {
    if o.Panic? then Panic(o.reason) else Exhausted
  }

  /** `evalBangOpExpr`: TRUE exactly for the falsy values. */
  function Bang(v: Value): (r: Value)
    ensures r == Bool(!Truthy(v))
  {
    if v == Bool(false) || v == Null then Bool(true) else Bool(false)
  }

  /** `evalPrefixMinusOpExpr`: int64 negation, which wraps for the most negative value. */
  function Negate(v: Value): (r: Outcome<Value>)
    ensures r.Panic? <==> v == Void
    ensures r.Normal? ==> Scalar(r.v) && (r.v.Int? <==> v.Int?)
    ensures v.Int? && InInt64(v.i) && v.i != MinInt64 ==> r == Normal(Int(-v.i))
    ensures v != Void && !v.Int? ==> r == Normal(Err("unknown operator: -" + TypeName(TypeOf(v))))
  {
    if v == Void then Panic(NilDeref)
    else if !v.Int? then Normal(Err("unknown operator: -" + TypeName(TypeOf(v))))
    else Normal(Int(Wrap(-v.i)))
  }

  /** `evalPrefixExpr`. */
  function PrefixOp(op: string, v: Value): (r: Outcome<Value>)
    ensures r.Panic? <==> v == Void && op != "!"
    ensures r.Normal? ==> Scalar(r.v)
  {
    if op == "!" then Normal(Bang(v))
    else if op == "-" then Negate(v)
    else if v == Void then Panic(NilDeref)
    else Normal(Err("unknown operator " + op + TypeName(TypeOf(v))))
  }

  /** The operators `evalIntInfixExpr` knows. */
  predicate IntOperator(op: string) {
    op in {"+", "-", "*", "/", "==", "!=", "<", ">", "<=", ">="}
  }

  /** `evalIntInfixExpr`: int64 arithmetic with wrap-around, truncating division, and
      comparisons yielding the shared booleans. */
  function IntInfix(op: string, a: int, b: int): (r: Outcome<Value>)
    ensures r.Panic? <==> op == "/" && b == 0
    ensures r.Normal? ==> (r.v.Int? || r.v.Bool? || r.v.Err?)
    ensures r.Normal? ==> (r.v.Err? <==> !IntOperator(op))
    ensures r.Normal? && r.v.Int? ==> InInt64(r.v.i)
  {
    if op == "+" then Normal(Int(Wrap(a + b)))
    else if op == "-" then Normal(Int(Wrap(a - b)))
    else if op == "*" then Normal(Int(Wrap(a * b)))
    else if op == "/" then (if b == 0 then Panic(DivideByZero) else Normal(Int(Wrap(TruncDiv(a, b)))))
    else if op == "==" then Normal(Bool(a == b))
    else if op == "!=" then Normal(Bool(a != b))
    else if op == "<" then Normal(Bool(a < b))
    else if op == ">" then Normal(Bool(a > b))
    else if op == "<=" then Normal(Bool(a <= b))
    else if op == ">=" then Normal(Bool(a >= b))
    else Normal(Err("unknown operator: " + TypeName(TInteger) + " " + op + " " + TypeName(TInteger)))
  }

  /** `evalStrInfixExpr`: concatenation and value comparison only. */
  function StrInfix(op: string, a: string, b: string): (r: Value)
    ensures Scalar(r) && (r.Err? <==> op != "+" && op != "==" && op != "!=")
  {
    if op == "+" then Str(a + b)
    else if op == "==" then Bool(a == b)
    else if op == "!=" then Bool(a != b)
    else Err("invalid operator: " + TypeName(TString) + " " + op + " " + TypeName(TString))
  }

  /** `evalInfixExpr`. Its only caller has already returned any error operand. Operands that
      are not both integers or both strings compare by identity: by value for the shared
      booleans and null and for built-ins, by object for arrays, functions and return
      wrappers. Asking a nil operand for its type panics, but `==` and `!=` reach a nil right
      operand without asking it. */
  function InfixOp(op: string, l: Value, r: Value): (res: Outcome<Value>)
    requires !IsError(l) && !IsError(r)
    ensures res.Normal? ==> Scalar(res.v)
    ensures res.Panic? <==> l == Void || (r == Void && (l.Int? || l.Str? || (op != "==" && op != "!=")))
                            || (l.Int? && r.Int? && op == "/" && r.i == 0)
  {
    if l == Void then Panic(NilDeref)
    else if l.Int? && r == Void then Panic(NilDeref)
    else if l.Int? && r.Int? then IntInfix(op, l.i, r.i)
    else if l.Str? && r == Void then Panic(NilDeref)
    else if l.Str? && r.Str? then Normal(StrInfix(op, l.s, r.s))
    else if op == "==" then Normal(Bool(l == r))
    else if op == "!=" then Normal(Bool(l != r))
    else if r == Void then Panic(NilDeref)
    else if TypeOf(l) != TypeOf(r) then
      Normal(Err("type mismatch: " + TypeName(TypeOf(l)) + " " + op + " " + TypeName(TypeOf(r))))
    else Normal(Err("unknown operator: " + TypeName(TypeOf(l)) + " " + op + " " + TypeName(TypeOf(r))))
  }

  /** `evalArrayIndexExpression`: NULL outside `0 .. len-1`. */
  function ArrayIndex(elems: seq<Value>, k: int): (r: Value)
    ensures 0 <= k < |elems| ==> r == elems[k]
    ensures k < 0 || k >= |elems| ==> r == Null
  {
    if k < 0 || k > |elems| - 1 then Null else elems[k]
  }

  /** `evalIndexExpression`: arrays indexed by integers; anything else is an error. */
  function IndexOp(h: Heap, l: Value, idx: Value): (r: Outcome<Value>)
    requires Valid(h) && ValueOk(h, l)
    ensures r.Panic? <==> l == Void || (l.Arr? && idx == Void)
    ensures r.Normal? ==> ValueOk(h, r.v)
    ensures l != Void && !(l.Arr? && (idx == Void || idx.Int?)) ==>
      r == Normal(Err("index operator not supported " + TypeName(TypeOf(l))))
  {
    if l == Void then Panic(NilDeref)
    else if l.Arr? && idx == Void then Panic(NilDeref)
    else if l.Arr? && idx.Int? then
      assert ValuesOk(h, h.arrays[l.aid]);
      Normal(ArrayIndex(h.arrays[l.aid], idx.i))
    else Normal(Err("index operator not supported " + TypeName(TypeOf(l))))
  }

  /** `evalIdentifier`: the environment chain first, then the built-ins. */
  function EvalIdentifier(h: Heap, env: nat, name: string): (r: Value)
    requires Valid(h) && env < |h.frames|
    ensures ValueOk(h, r)
    ensures r.Err? && Get(h, env, name).None? ==> r.msg == "identifier not found: " + name
  {
    match Get(h, env, name)
    case Some(v) => v
    case None =>
      match Builtins.Lookup(name)
      case Some(k) => Builtin(k)
      case None => Err("identifier not found: " + name)
  }

  /** `unwrapReturnValue`. */
  function Unwrap(h: Heap, v: Value): (r: Value)
    requires Valid(h) && ValueOk(h, v)
    ensures ValueOk(h, r) && (!v.Ret? ==> r == v)
  {
    if v.Ret? then
      assert ValuesOk(h, h.rets);
      h.rets[v.rid]
    else v
  }

  /** The step left the heap valid and larger, and the value refers into it. */
  predicate Sound(h: Heap, r: Step<Value>) {
    Grows(h, r.h) && Valid(r.h) && (r.out.Normal? ==> ValueOk(r.h, r.out.v))
  }

  /** Whether a step stopped the evaluation of its enclosing expression: a panic, running out
      of fuel, or an error value. */
  predicate Stops(r: Step<Value>) {
    !r.out.Normal? || IsError(r.out.v)
  }

  /** `Eval` on expressions. */
  function EvalExpr(h: Heap, e: Expr, env: nat, fuel: nat): (r: Step<Value>)
    requires Valid(h) && env < |h.frames|
    ensures Sound(h, r)
    decreases fuel, 1, e
  {
    match e
    case Nil => Step(Normal(Void), h)
    case Ident(id) => Step(Normal(EvalIdentifier(h, env, id.value)), h)
    case IntLit(_, v) => Step(Normal(Int(v)), h)
    case StrLit(_, s) => Step(Normal(Str(s)), h)
    case BoolLit(_, b) => Step(Normal(Bool(b)), h)
    case Prefix(_, op, right) =>
      var r := EvalExpr(h, right, env, fuel);
      if Stops(r) then r else Step(PrefixOp(op, r.out.v), r.h)
    case Infix(_, left, op, right) =>
      var l := EvalExpr(h, left, env, fuel);
      if Stops(l) then l
      else
        var r := EvalExpr(l.h, right, env, fuel);
        if Stops(r) then r else Step(InfixOp(op, l.out.v, r.out.v), r.h)
    case If(_, cond, cons, alt) =>
      var c := EvalExpr(h, cond, env, fuel);
      if Stops(c) then c
      else if Truthy(c.out.v) then EvalBlock(c.h, cons, env, fuel)
      else if alt.Some? then EvalBlock(c.h, alt.value, env, fuel)
      else Step(Normal(Null), c.h)
    case FnLit(_, params, body) =>
      var (h2, id) := AllocFn(h, Closure(params, body, env));
      Step(Normal(Fn(id)), h2)
    case Call(_, callee, args) =>
      var f := EvalExpr(h, callee, env, fuel);
      if Stops(f) then f
      else
        var a := EvalExpressions(f.h, args, env, fuel, []);
        if !a.out.Normal? then Step(Halt(a.out), a.h)
        else if |a.out.v| == 1 && IsError(a.out.v[0]) then Step(Normal(a.out.v[0]), a.h)
        else Apply(a.h, f.out.v, a.out.v, fuel)
    case ArrayLit(_, elems) =>
      var a := EvalExpressions(h, elems, env, fuel, []);
      if !a.out.Normal? then Step(Halt(a.out), a.h)
      else if |a.out.v| == 1 && IsError(a.out.v[0]) then Step(Normal(a.out.v[0]), a.h)
      else
        var (h2, id) := AllocArray(a.h, a.out.v);
        Step(Normal(Arr(id)), h2)
    case Index(_, left, index) =>
      var l := EvalExpr(h, left, env, fuel);
      if Stops(l) then l
      else
        var i := EvalExpr(l.h, index, env, fuel);
        if Stops(i) then i else Step(IndexOp(i.h, l.out.v, i.out.v), i.h)
  }

  /** `evalExpressions`, continuing after the values `acc` already computed: every value in
      order, or just the first error. */
  function EvalExpressions(h: Heap, es: seq<Expr>, env: nat, fuel: nat, acc: seq<Value>): (r: Step<seq<Value>>)
    requires Valid(h) && env < |h.frames| && ValuesOk(h, acc)
    requires forall i :: 0 <= i < |acc| ==> !IsError(acc[i])
    ensures Grows(h, r.h) && Valid(r.h) && (r.out.Normal? ==> ValuesOk(r.h, r.out.v))
    ensures r.out.Normal? ==>
      (|r.out.v| == |acc| + |es| && r.out.v[..|acc|] == acc && forall i :: 0 <= i < |r.out.v| ==> !IsError(r.out.v[i]))
      || (|r.out.v| == 1 && IsError(r.out.v[0]))
    decreases fuel, 1, es
  {
    if es == [] then Step(Normal(acc), h)
    else
      var x := EvalExpr(h, es[0], env, fuel);
      if !x.out.Normal? then Step(Halt(x.out), x.h)
      else if IsError(x.out.v) then Step(Normal([x.out.v]), x.h)
      else
        var r := EvalExpressions(x.h, es[1..], env, fuel, acc + [x.out.v]);
        assert r.out.Normal? && |r.out.v| == |acc| + 1 + |es[1..]| ==> r.out.v[..|acc|] == (acc + [x.out.v])[..|acc|];
        r
  }

  /** `Eval` on statements. `let` binds in the current environment and yields nil; `return`
      wraps its value. A nil `*LetStatement` is dereferenced and panics. */
  function EvalStmt(h: Heap, s: Stmt, env: nat, fuel: nat): (r: Step<Value>)
    requires Valid(h) && env < |h.frames|
    ensures Sound(h, r)
    decreases fuel, 1, s
  {
    match s
    case NilLet => Step(Panic(NilDeref), h)
    case Let(_, name, value) =>
      var v := EvalExpr(h, value, env, fuel);
      if Stops(v) then v else Step(Normal(Void), Set(v.h, env, name.value, v.out.v))
    case Return(_, value) =>
      var v := EvalExpr(h, value, env, fuel);
      if Stops(v) then v
      else
        var (h2, id) := AllocRet(v.h, v.out.v);
        Step(Normal(Ret(id)), h2)
    case ExprStmt(_, e) => EvalExpr(h, e, env, fuel)
  }

  /** `evalBlockStatement`. */
  function EvalBlock(h: Heap, b: Block, env: nat, fuel: nat): (r: Step<Value>)
    requires Valid(h) && env < |h.frames|
    ensures Sound(h, r)
    decreases fuel, 1, b
  {
    BlockLoop(h, b.stmts, env, fuel, Void)
  }

  /** The loop of `evalBlockStatement` from the statements `ss` on, with `res` the value of
      the statement before them: a return wrapper or an error ends the block as it is. */
  function BlockLoop(h: Heap, ss: seq<Stmt>, env: nat, fuel: nat, res: Value): (r: Step<Value>)
    requires Valid(h) && env < |h.frames| && ValueOk(h, res)
    ensures Sound(h, r)
    decreases fuel, 1, ss
  {
    if ss == [] then Step(Normal(res), h)
    else
      var r := EvalStmt(h, ss[0], env, fuel);
      if !r.out.Normal? || r.out.v.Ret? || r.out.v.Err? then r
      else BlockLoop(r.h, ss[1..], env, fuel, r.out.v)
  }

  /** `applyFunction`: a call of a function runs its body in a fresh environment enclosed by
      the one it captured, with the parameters bound to the arguments, and unwraps a returned
      value; a built-in runs its native routine. */
  function Apply(h: Heap, f: Value, args: seq<Value>, fuel: nat): (r: Step<Value>)
    requires Valid(h) && ValueOk(h, f) && ValuesOk(h, args)
    ensures Sound(h, r)
    decreases fuel, 0
  {
    if f.Fn? then
      if fuel == 0 then Step(Exhausted, h)
      else
        var c := h.fns[f.fid];
        if |args| < |c.params| then Step(Panic(IndexOutOfRange), h)
        else
          var (h1, env) := NewEnclosedEnv(h, c.env);
          ValuesOkGrow(h, h1, args);
          var h2 := BindParams(h1, env, c.params, args);
          var r := EvalBlock(h2, c.body, env, fuel - 1);
          if r.out.Normal? then Step(Normal(Unwrap(r.h, r.out.v)), r.h) else r
    else if f.Builtin? then Builtins.CallBuiltin(h, f.kind, args)
    else if f == Void then Step(Panic(NilDeref), h)
    else Step(Normal(Err("not a function: " + TypeName(TypeOf(f)))), h)
  }

  /** The loop of `extendFuncEnv`: binds each parameter, in order, to the argument at its
      position. */
  function BindParams(h: Heap, env: nat, params: seq<Identifier>, args: seq<Value>): (r: Heap)
    requires Valid(h) && env < |h.frames| && ValuesOk(h, args) && |params| <= |args|
    ensures Valid(r) && Grows(h, r) && Grows(r, h)
    ensures r.arrays == h.arrays && r.fns == h.fns && r.rets == h.rets
    ensures forall k :: 0 <= k < |h.frames| && k != env ==> r.frames[k] == h.frames[k]
    ensures r.frames[env].outer == h.frames[env].outer
    decreases |params|
  {
    if params == [] then h
    else BindParams(Set(h, env, params[0].value, args[0]), env, params[1..], args[1..])
  }

  /** `evalProgram`, from the statements `ss` on: stops at the first return, unwrapping it,
      or at the first error. */
  function ProgramLoop(h: Heap, ss: seq<Stmt>, env: nat, fuel: nat, res: Value): (r: Step<Value>)
    requires Valid(h) && env < |h.frames| && ValueOk(h, res)
    ensures Sound(h, r)
    decreases ss
  {
    if ss == [] then Step(Normal(res), h)
    else
      var r := EvalStmt(h, ss[0], env, fuel);
      if !r.out.Normal? then r
      else if r.out.v.Ret? then Step(Normal(Unwrap(r.h, r.out.v)), r.h)
      else if r.out.v.Err? then r
      else ProgramLoop(r.h, ss[1..], env, fuel, r.out.v)
  }

  /** `Eval` on a program. */
  function EvalProgram(h: Heap, p: Program, env: nat, fuel: nat): (r: Step<Value>)
    requires Valid(h) && env < |h.frames|
    ensures Sound(h, r)
  {
    ProgramLoop(h, p.stmts, env, fuel, Void)
  }
}
