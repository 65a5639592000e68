/** What the evaluator promises, stated over the functions of `EvalSpec`: int64 arithmetic
    and comparison, the operator errors, truthiness, the order in which an error stops the
    evaluation of the rest, statement sequencing, name resolution and the environment a call
    runs in, and what indexing sees after an `append`. */
module EvalLemmas {
  import opened Util
  import opened Int64
  import opened Ast
  import opened Obj
  import opened EvalSpec
  import Builtins

  // Integers

  /** `/` on integers rounds toward zero: the remainder has the dividend's sign and is
      smaller than the divisor. Every quotient but MinInt64 / -1 is in range, so no wrap
      happens. */
  lemma DivisionTruncates(a: int, b: int)
    requires InInt64(a) && InInt64(b) && b != 0 && !(a == MinInt64 && b == -1)
    ensures var r := IntInfix("/", a, b);
      r.Normal? && r.v.Int? && r.v.i == TruncDiv(a, b)
      && Abs(a - r.v.i * b) < Abs(b) && (a - r.v.i * b == 0 || (a - r.v.i * b < 0 <==> a < 0))
  {
    TruncDivSpec(a, b);
    QuotientInRange(a, b);
  }

  lemma QuotientInRange(a: int, b: int)
    requires InInt64(a) && InInt64(b) && b != 0 && !(a == MinInt64 && b == -1)
    ensures InInt64(TruncDiv(a, b))
  {
    var x, y := Abs(a), Abs(b);
    QuotientBound(x, y);
    if y == 1 {
      assert x / y == x;
    }
  }

  /** A quotient of naturals is at most the dividend, and at most half of it for a divisor
      of two or more. */
  lemma QuotientBound(x: nat, y: nat)
    requires y > 0
    ensures x / y <= x && (y >= 2 ==> 2 * (x / y) <= x)
  {
    var q := x / y;
    DivMod(x, y);
    MulMono(q, 1, y);
    if y >= 2 {
      MulMono(q, 2, y);
    }
  }

  lemma MulMono(q: nat, x: nat, y: nat)
    requires x <= y
    ensures q * x <= q * y
  {
  }

  /** Examples of int64 behaviour: `-7 / 2` is -3 (not -4), the largest int64 plus one is
      the smallest, and the smallest divided by -1 is itself. */
  lemma IntExamples()
    ensures IntInfix("/", -7, 2) == Normal(Int(-3))
    ensures IntInfix("+", MaxInt64, 1) == Normal(Int(MinInt64))
    ensures IntInfix("/", MinInt64, -1) == Normal(Int(MinInt64))
    ensures IntInfix("/", 1, 0) == Panic(DivideByZero)
  {
    assert TruncDiv(-7, 2) == -3;
    DivOverflow();
  }

  /** The six comparisons yield the shared booleans and agree with one another: `!=` negates
      `==`, `>=` negates `<`, `<=` negates `>`, and `a > b` is `b < a`. */
  lemma ComparisonsAgree(a: int, b: int)
    ensures IntInfix("==", a, b) == Normal(Bool(a == b)) && IntInfix("<", a, b) == Normal(Bool(a < b))
    ensures IntInfix("!=", a, b) == Normal(Bang(IntInfix("==", a, b).v))
    ensures IntInfix(">=", a, b) == Normal(Bang(IntInfix("<", a, b).v))
    ensures IntInfix(">", a, b).Normal? && IntInfix("<=", a, b) == Normal(Bang(IntInfix(">", a, b).v))
    ensures IntInfix(">", a, b) == IntInfix("<", b, a)
  {
  }

  /** `**` parses at PRODUCT but the evaluator has no case for it. */
  lemma PowerIsUnknown(a: int, b: int)
    ensures IntInfix("**", a, b) == Normal(Err("unknown operator: " + "INTEGER" + " " + "**" + " " + "INTEGER"))
  {
  }

  // Strings

  /** `+` concatenates, `==` and `!=` compare contents, every other operator is an error
      value; and `len` of a concatenation is the sum of the byte lengths. */
  lemma StringOperators(h: Heap, a: string, b: string, op: string)
    requires op != "+" && op != "==" && op != "!="
    ensures InfixOp("+", Str(a), Str(b)) == Normal(Str(a + b))
    ensures InfixOp("==", Str(a), Str(b)) == Normal(Bool(a == b))
    ensures InfixOp("!=", Str(a), Str(b)) == Normal(Bool(a != b))
    ensures InfixOp(op, Str(a), Str(b)) == Normal(Err("invalid operator: " + TypeName(TString) + " " + op + " " + TypeName(TString)))
    ensures Builtins.Len(h, [Str(a + b)]) == Normal(Int(Utf8Len(a) + Utf8Len(b)))
  {
    Utf8LenConcat(a, b);
  }

  lemma {:induction false} Utf8LenConcat(a: string, b: string)
    ensures Utf8Len(a + b) == Utf8Len(a) + Utf8Len(b)
    decreases |a|
  {
    if a != [] {
      assert (a + b)[0] == a[0] && (a + b)[1..] == a[1..] + b;
      Utf8LenConcat(a[1..], b);
    } else {
      assert a + b == b;
    }
  }

  // Mixed operands

  /** When the operands are not two integers or two strings, `==` and `!=` compare identity:
      by value for booleans, null and built-ins, by object for arrays, functions and return
      wrappers. They are decided before the type check, so they never yield an error. */
  lemma IdentityEquality(l: Value, r: Value)
    requires !IsError(l) && !IsError(r) && l != Void
    requires !(l.Int? && (r.Int? || r == Void)) && !(l.Str? && (r.Str? || r == Void))
    ensures InfixOp("==", l, r) == Normal(Bool(l == r))
    ensures InfixOp("!=", l, r) == Normal(Bool(l != r))
  {
  }

  /** Two distinct array objects are unequal under `==`, whatever their elements. */
  lemma ArraysCompareByObject(i: nat, j: nat)
    ensures InfixOp("==", Arr(i), Arr(j)) == Normal(Bool(i == j))
  {
    IdentityEquality(Arr(i), Arr(j));
  }

  /** Any other operator on operands of different types is a type mismatch, and on operands
      of the same type (other than integer and string) an unknown operator. */
  lemma OperatorErrors(op: string, l: Value, r: Value)
    requires !IsError(l) && !IsError(r) && l != Void && r != Void && op != "==" && op != "!="
    requires !(l.Int? && r.Int?) && !(l.Str? && r.Str?)
    ensures TypeOf(l) != TypeOf(r) ==>
      InfixOp(op, l, r) == Normal(Err("type mismatch: " + TypeName(TypeOf(l)) + " " + op + " " + TypeName(TypeOf(r))))
    ensures TypeOf(l) == TypeOf(r) ==>
      InfixOp(op, l, r) == Normal(Err("unknown operator: " + TypeName(TypeOf(l)) + " " + op + " " + TypeName(TypeOf(r))))
  {
  }

  /** `1 == true` is FALSE, `5 + true` a type mismatch, `true + false` an unknown operator,
      `-true` an unknown prefix operator. */
  lemma MixedExamples()
    ensures InfixOp("==", Int(1), Bool(true)) == Normal(Bool(false))
    ensures InfixOp("+", Int(5), Bool(true)) == Normal(Err("type mismatch: " + "INTEGER" + " " + "+" + " " + "BOOLEAN"))
    ensures InfixOp("+", Bool(true), Bool(false)) == Normal(Err("unknown operator: " + "BOOLEAN" + " " + "+" + " " + "BOOLEAN"))
    ensures PrefixOp("-", Bool(true)) == Normal(Err("unknown operator: -" + "BOOLEAN"))
  {
  }

  // Truthiness and `if`

  /** Only NULL and FALSE are falsy; `!!v` is the truth value of v. */
  lemma DoubleBang(v: Value)
    ensures Truthy(v) <==> v != Null && v != Bool(false)
    ensures Bang(Bang(v)) == Bool(Truthy(v))
  {
  }

  /** A nil expression, which a parse error can leave in the tree, is no panic: it matches
      no case of `Eval` and yields nil, and `!` of nil is FALSE. A panic comes only when nil
      is asked for its type, as `-` does, or from a nil `let` node. */
  lemma NilNodes(h: Heap, t: Token.Token, env: nat, fuel: nat)
    requires Valid(h) && env < |h.frames|
    ensures EvalExpr(h, Nil, env, fuel) == Step(Normal(Void), h)
    ensures EvalStmt(h, ExprStmt(t, Nil), env, fuel) == Step(Normal(Void), h)
    ensures EvalExpr(h, Prefix(t, "!", Nil), env, fuel) == Step(Normal(Bool(false)), h)
    ensures EvalExpr(h, Prefix(t, "-", Nil), env, fuel).out.Panic?
    ensures EvalStmt(h, NilLet, env, fuel).out.Panic?
  {
  }

  /** An `if` whose condition is falsy and that has no `else` yields NULL, after the
      condition's effects. */
  lemma IfWithoutElse(h: Heap, tok: Token.Token, cond: Expr, cons: Block, env: nat, fuel: nat)
    requires Valid(h) && env < |h.frames|
    requires var c := EvalExpr(h, cond, env, fuel); c.out.Normal? && !IsError(c.out.v) && !Truthy(c.out.v)
    ensures EvalExpr(h, If(tok, cond, cons, None), env, fuel) == Step(Normal(Null), EvalExpr(h, cond, env, fuel).h)
  {
  }

  // Errors stop evaluation, left to right

  /** An error in the first operand of a prefix, infix, index or call expression is the
      result: nothing after it is evaluated, so the heap is the one the operand left. */
  lemma FirstOperandError(h: Heap, tok: Token.Token, x: Expr, y: Expr, op: string, args: seq<Expr>, env: nat, fuel: nat)
    requires Valid(h) && env < |h.frames|
    requires var r := EvalExpr(h, x, env, fuel); r.out.Normal? && IsError(r.out.v)
    ensures var r := EvalExpr(h, x, env, fuel);
      EvalExpr(h, Prefix(tok, op, x), env, fuel) == r
      && EvalExpr(h, Infix(tok, x, op, y), env, fuel) == r
      && EvalExpr(h, Index(tok, x, y), env, fuel) == r
      && EvalExpr(h, Call(tok, x, args), env, fuel) == r
  {
  }

  /** An error in the value of a `let` or `return` is the statement's result: nothing is
      bound and nothing is wrapped. */
  lemma StatementValueError(h: Heap, tok: Token.Token, name: Identifier, x: Expr, env: nat, fuel: nat)
    requires Valid(h) && env < |h.frames|
    requires var r := EvalExpr(h, x, env, fuel); r.out.Normal? && IsError(r.out.v)
    ensures var r := EvalExpr(h, x, env, fuel);
      EvalStmt(h, Let(tok, name, x), env, fuel) == r && EvalStmt(h, Return(tok, x), env, fuel) == r
  {
  }

  /** An error in the second operand of an infix or index expression is the result. */
  lemma SecondOperandError(h: Heap, tok: Token.Token, x: Expr, y: Expr, op: string, env: nat, fuel: nat)
    requires Valid(h) && env < |h.frames|
    requires var l := EvalExpr(h, x, env, fuel);
      l.out.Normal? && !IsError(l.out.v) &&
      var r := EvalExpr(l.h, y, env, fuel); r.out.Normal? && IsError(r.out.v)
    ensures var r := EvalExpr(EvalExpr(h, x, env, fuel).h, y, env, fuel);
      EvalExpr(h, Infix(tok, x, op, y), env, fuel) == r && EvalExpr(h, Index(tok, x, y), env, fuel) == r
  {
  }

  /** Once the argument list has stopped, at an error or a panic, appending more arguments
      changes nothing: they are never evaluated. */
  lemma {:induction false} ArgumentsStopAtError(h: Heap, es: seq<Expr>, more: seq<Expr>, env: nat, fuel: nat, acc: seq<Value>)
    requires Valid(h) && env < |h.frames| && ValuesOk(h, acc)
    requires forall i :: 0 <= i < |acc| ==> !IsError(acc[i])
    requires var r := EvalExpressions(h, es, env, fuel, acc);
      !r.out.Normal? || (|r.out.v| == 1 && IsError(r.out.v[0]))
    ensures EvalExpressions(h, es + more, env, fuel, acc) == EvalExpressions(h, es, env, fuel, acc)
    decreases |es|
  {
    assert es != [];
    assert (es + more)[0] == es[0] && (es + more)[1..] == es[1..] + more;
    var x := EvalExpr(h, es[0], env, fuel);
    if x.out.Normal? && !IsError(x.out.v) {
      ValuesOkGrow(h, x.h, acc);
      ArgumentsStopAtError(x.h, es[1..], more, env, fuel, acc + [x.out.v]);
    }
  }

  /** A call or array literal whose arguments stopped at an error yields that error; for a
      call, once the callee has been evaluated without stopping. */
  lemma ArgumentError(h: Heap, tok: Token.Token, callee: Expr, args: seq<Expr>, env: nat, fuel: nat)
    requires Valid(h) && env < |h.frames|
    ensures var a := EvalExpressions(h, args, env, fuel, []);
      a.out.Normal? && |a.out.v| == 1 && IsError(a.out.v[0]) ==>
        EvalExpr(h, ArrayLit(tok, args), env, fuel) == Step(Normal(a.out.v[0]), a.h)
    ensures var f := EvalExpr(h, callee, env, fuel);
      !Stops(f) ==>
        var a := EvalExpressions(f.h, args, env, fuel, []);
        a.out.Normal? && |a.out.v| == 1 && IsError(a.out.v[0]) ==>
          EvalExpr(h, Call(tok, callee, args), env, fuel) == Step(Normal(a.out.v[0]), a.h)
  {
  }

  // Statements

  /** The value a block passes up once a return or an error has stopped it. */
  predicate Stopped(r: Step<Value>) {
    !r.out.Normal? || r.out.v.Ret? || r.out.v.Err?
  }

  /** A block stops at the first return or error: statements after it are never run. */
  lemma {:induction false} BlockStopsEarly(h: Heap, ss: seq<Stmt>, more: seq<Stmt>, env: nat, fuel: nat, res: Value)
    requires Valid(h) && env < |h.frames| && ValueOk(h, res) && !res.Ret? && !res.Err?
    requires Stopped(BlockLoop(h, ss, env, fuel, res))
    ensures BlockLoop(h, ss + more, env, fuel, res) == BlockLoop(h, ss, env, fuel, res)
    decreases |ss|
  {
    assert ss != [];
    assert (ss + more)[0] == ss[0] && (ss + more)[1..] == ss[1..] + more;
    var r := EvalStmt(h, ss[0], env, fuel);
    if r.out.Normal? && !r.out.v.Ret? && !r.out.v.Err? {
      BlockStopsEarly(r.h, ss[1..], more, env, fuel, r.out.v);
    }
  }

  /** The result of a block with its return wrapper, if any, taken off. */
  function UnwrapResult(r: Step<Value>): (u: Step<Value>)
    requires Valid(r.h) && (r.out.Normal? ==> ValueOk(r.h, r.out.v))
    ensures u.h == r.h && (r.out.Normal? <==> u.out.Normal?)
    ensures !(r.out.Normal? && r.out.v.Ret?) ==> u == r
  {
    if r.out.Normal? && r.out.v.Ret? then Step(Normal(Unwrap(r.h, r.out.v)), r.h) else r
  }

  /** A program runs its statements as a block does, except that the return value that stops
      it is unwrapped: a block passes it up still wrapped. */
  lemma {:induction false} ProgramIsUnwrappedBlock(h: Heap, ss: seq<Stmt>, env: nat, fuel: nat, res: Value)
    requires Valid(h) && env < |h.frames| && ValueOk(h, res) && !res.Ret?
    ensures ProgramLoop(h, ss, env, fuel, res) == UnwrapResult(BlockLoop(h, ss, env, fuel, res))
    decreases |ss|
  {
    if ss != [] {
      var r := EvalStmt(h, ss[0], env, fuel);
      if r.out.Normal? && !r.out.v.Ret? && !r.out.v.Err? {
        ProgramIsUnwrappedBlock(r.h, ss[1..], env, fuel, r.out.v);
      }
    }
  }

  /** `evalProgram` and `evalBlockStatement` on the same statements. */
  lemma ProgramAndBlock(h: Heap, tok: Token.Token, ss: seq<Stmt>, env: nat, fuel: nat)
    requires Valid(h) && env < |h.frames|
    ensures EvalProgram(h, Program(ss), env, fuel) == UnwrapResult(EvalBlock(h, Block(tok, ss), env, fuel))
  {
    ProgramIsUnwrappedBlock(h, ss, env, fuel, Void);
  }

  /** `let` yields nil and binds the name in the current environment, where it then hides any
      binding further out and any built-in of the same name. */
  lemma LetBinds(h: Heap, tok: Token.Token, name: Identifier, value: Expr, env: nat, fuel: nat)
    requires Valid(h) && env < |h.frames|
    requires var v := EvalExpr(h, value, env, fuel); v.out.Normal? && !IsError(v.out.v)
    ensures var v := EvalExpr(h, value, env, fuel); var r := EvalStmt(h, Let(tok, name, value), env, fuel);
      r.out == Normal(Void) && Valid(r.h) && env < |r.h.frames|
      && Get(r.h, env, name.value) == Some(v.out.v)
      && EvalIdentifier(r.h, env, name.value) == v.out.v
  {
    var v := EvalExpr(h, value, env, fuel);
    GetAfterSet(v.h, env, name.value, v.out.v);
  }

  // Names and calls

  /** Name resolution: the environment chain first, then the built-ins, else an error. In a
      fresh environment `len` is the built-in; once `len` is bound, the binding wins. */
  lemma IdentifierResolution(h: Heap, env: nat, name: string, v: Value)
    requires Valid(h) && env < |h.frames| && ValueOk(h, v)
    ensures Get(h, env, name).Some? ==> EvalIdentifier(h, env, name) == Get(h, env, name).value
    ensures Get(h, env, name).None? && name == "len" ==> EvalIdentifier(h, env, name) == Builtin(LenFn)
    ensures Get(h, env, name).None? && name == "append" ==> EvalIdentifier(h, env, name) == Builtin(AppendFn)
    ensures Get(h, env, name).None? && name != "len" && name != "append" ==>
      EvalIdentifier(h, env, name) == Err("identifier not found: " + name)
    ensures var (h1, e) := NewEnv(h);
      Valid(h1) && EvalIdentifier(h1, e, "len") == Builtin(LenFn)
      && EvalIdentifier(Set(h1, e, "len", v), e, "len") == v
  {
    var (h1, e) := NewEnv(h);
    NewEnvEmpty(h, "len");
    ValuesOkGrow(h, h1, [v]);
    assert ValueOk(h1, v);
    GetAfterSet(h1, e, "len", v);
  }

  /** A callee that is neither a function nor a built-in is an error value naming its type. */
  lemma NotAFunction(h: Heap, f: Value, args: seq<Value>, fuel: nat)
    requires Valid(h) && ValueOk(h, f) && ValuesOk(h, args)
    requires f != Void && !f.Fn? && !f.Builtin?
    ensures Apply(h, f, args, fuel) == Step(Normal(Err("not a function: " + TypeName(TypeOf(f)))), h)
    ensures f.Int? ==> Apply(h, f, args, fuel).out == Normal(Err("not a function: " + "INTEGER"))
  {
  }

  /** The last parameter of a name is bound to the argument at its position. */
  lemma {:induction false} BindParamsBinds(h: Heap, env: nat, params: seq<Identifier>, args: seq<Value>, i: nat)
    requires Valid(h) && env < |h.frames| && ValuesOk(h, args) && |params| <= |args|
    requires i < |params| && forall j :: i < j < |params| ==> params[j].value != params[i].value
    ensures var r := BindParams(h, env, params, args);
      params[i].value in r.frames[env].store && r.frames[env].store[params[i].value] == args[i]
    decreases |params|
  {
    var h1 := Set(h, env, params[0].value, args[0]);
    if i > 0 {
      BindParamsBinds(h1, env, params[1..], args[1..], i - 1);
    } else {
      BindParamsKeeps(h1, env, params[1..], args[1..], params[0].value);
    }
  }

  /** Binding parameters leaves every other name of the frame as it was. */
  lemma {:induction false} BindParamsKeeps(h: Heap, env: nat, params: seq<Identifier>, args: seq<Value>, name: string)
    requires Valid(h) && env < |h.frames| && ValuesOk(h, args) && |params| <= |args|
    requires forall j :: 0 <= j < |params| ==> params[j].value != name
    ensures var r := BindParams(h, env, params, args);
      (name in r.frames[env].store <==> name in h.frames[env].store)
      && (name in h.frames[env].store ==> r.frames[env].store[name] == h.frames[env].store[name])
    decreases |params|
  {
    if params != [] {
      BindParamsKeeps(Set(h, env, params[0].value, args[0]), env, params[1..], args[1..], name);
    }
  }

  /** The environment a call runs in, as `applyFunction` builds it: a fresh frame enclosed by
      the environment the function captured, in which each parameter is bound to its argument
      and every other name is looked up in the captured environment. */
  lemma CallEnvironment(h: Heap, c: Closure, args: seq<Value>, i: nat, name: string)
    requires Valid(h) && c.env < |h.frames| && ValuesOk(h, args) && |c.params| <= |args|
    requires i < |c.params| && forall j :: i < j < |c.params| ==> c.params[j].value != c.params[i].value
    requires forall j :: 0 <= j < |c.params| ==> c.params[j].value != name
    ensures var (h1, e) := NewEnclosedEnv(h, c.env);
      Valid(h1) && ValuesOk(h1, args) &&
      var h2 := BindParams(h1, e, c.params, args);
      Get(h2, e, c.params[i].value) == Some(args[i]) && Get(h2, e, name) == Get(h, c.env, name)
  {
    var (h1, e) := NewEnclosedEnv(h, c.env);
    ValuesOkGrow(h, h1, args);
    var h2 := BindParams(h1, e, c.params, args);
    BindParamsBinds(h1, e, c.params, args, i);
    BindParamsKeeps(h1, e, c.params, args, name);
    assert h2.frames[e].outer == Some(c.env);
    assert forall k :: 0 <= k < |h.frames| ==> h2.frames[k] == h.frames[k];
    GetAfterAlloc(h, h2, c.env, name);
  }

  // Arrays

  /** Indexing an array: the element inside `0 .. len-1`, NULL outside. */
  lemma IndexBounds(h: Heap, id: nat, k: int)
    requires Valid(h) && id < |h.arrays|
    ensures 0 <= k < |h.arrays[id]| ==> IndexOp(h, Arr(id), Int(k)) == Normal(h.arrays[id][k])
    ensures (k < 0 || k >= |h.arrays[id]|) ==> IndexOp(h, Arr(id), Int(k)) == Normal(Null)
  {
  }

  /** After `append(a, x)` every reference to a sees x at the old length and the old
      elements where they were, and one past it is NULL. */
  lemma IndexAfterAppend(h: Heap, id: nat, x: Value, k: int)
    requires Valid(h) && id < |h.arrays| && ValueOk(h, x)
    ensures var r := Builtins.Append(h, [Arr(id), x]);
      IndexOp(r.h, Arr(id), Int(|h.arrays[id]|)) == Normal(x)
      && IndexOp(r.h, Arr(id), Int(|h.arrays[id]| + 1)) == Normal(Null)
      && (0 <= k < |h.arrays[id]| ==> IndexOp(r.h, Arr(id), Int(k)) == IndexOp(h, Arr(id), Int(k)))
  {
    Builtins.AppendInPlace(h, id, [x]);
  }
}
