/** The evaluator as it runs (evaluator/evaluator.go, evaluator/builtins.go, obj/env.go): a
    `Runtime` owns the heap, `let` and parameter binding update environment stores in place,
    `append` grows an array object in place, and the statement, argument and parameter loops
    are loops. Every method is proved to compute what the functions of `EvalSpec` describe. */
module Evaluator {
  import opened Util
  import opened Ast
  import opened Obj
  import opened EvalSpec
  import Builtins

  class Runtime {
    var frames: seq<Frame>
    var arrays: seq<seq<Value>>
    var fns: seq<Closure>
    var rets: seq<Value>

    /** The heap as a value. */
    function Snapshot(): Heap
      reads this
    {
      Heap(frames, arrays, fns, rets)
    }

    ghost predicate Valid()
      reads this
    {
      Obj.Valid(Snapshot())
    }

    /** An empty heap. */
    constructor ()
      ensures Valid() && Snapshot() == Heap([], [], [], [])
    {
      frames, arrays, fns, rets := [], [], [], [];
    }

    /** `NewEnv`. */
    method NewEnv() returns (env: nat)
      requires Valid()
      modifies this
      ensures Valid() && (Snapshot(), env) == Obj.NewEnv(old(Snapshot()))
    {
      env := |frames|;
      frames := frames + [Frame(map[], None)];
      assert Snapshot() == Obj.NewEnv(old(Snapshot())).0;
    }

    /** `NewEnclosedEnv`. */
    method NewEnclosedEnv(outer: nat) returns (env: nat)
      requires Valid() && outer < |frames|
      modifies this
      ensures Valid() && (Snapshot(), env) == Obj.NewEnclosedEnv(old(Snapshot()), outer)
    {
      env := |frames|;
      frames := frames + [Frame(map[], Some(outer))];
      assert Snapshot() == Obj.NewEnclosedEnv(old(Snapshot()), outer).0;
    }

    /** `Env.Set`: updates the store of `env` in place and returns the value stored. */
    method Set(env: nat, name: string, val: Value) returns (r: Value)
      requires env < |frames|
      modifies this
      ensures Snapshot() == Obj.Set(old(Snapshot()), env, name, val) && r == val
    {
      frames := frames[env := Frame(frames[env].store[name := val], frames[env].outer)];
      r := val;
    }

    /** `Eval` on expressions. */
    method Eval(e: Expr, env: nat, fuel: nat) returns (out: Outcome<Value>)
      requires Valid() && env < |frames|
      modifies this
      ensures Valid() && Step(out, Snapshot()) == EvalExpr(old(Snapshot()), e, env, fuel)
      decreases fuel, 1, e, 1
    {
      match e
      case Nil =>
        out := Normal(Void);
      case Ident(id) =>
        out := Normal(EvalIdentifier(Snapshot(), env, id.value));
      case IntLit(_, v) =>
        out := Normal(Int(v));
      case StrLit(_, s) =>
        out := Normal(Str(s));
      case BoolLit(_, b) =>
        out := Normal(Bool(b));
      case Prefix(_, op, right) =>
        var r := Eval(right, env, fuel);
        if !r.Normal? || IsError(r.v) {
          return r;
        }
        out := PrefixOp(op, r.v);
      case Infix(_, left, op, right) =>
        var l := Eval(left, env, fuel);
        if !l.Normal? || IsError(l.v) {
          return l;
        }
        var r := Eval(right, env, fuel);
        if !r.Normal? || IsError(r.v) {
          return r;
        }
        out := InfixOp(op, l.v, r.v);
      case If(_, cond, cons, alt) =>
        out := EvalIf(e, env, fuel);
      case FnLit(_, params, body) =>
        ghost var h := Snapshot();
        fns := fns + [Closure(params, body, env)];
        out := Normal(Fn(|fns| - 1));
        assert Snapshot() == AllocFn(h, Closure(params, body, env)).0;
      case Call(_, callee, args) =>
        var f := Eval(callee, env, fuel);
        if !f.Normal? || IsError(f.v) {
          return f;
        }
        var vals := EvalExpressions(args, env, fuel);
        if !vals.Normal? {
          return Halt(vals);
        }
        if |vals.v| == 1 && IsError(vals.v[0]) {
          return Normal(vals.v[0]);
        }
        out := Apply(f.v, vals.v, fuel);
      case ArrayLit(_, elems) =>
        var vals := EvalExpressions(elems, env, fuel);
        if !vals.Normal? {
          return Halt(vals);
        }
        if |vals.v| == 1 && IsError(vals.v[0]) {
          return Normal(vals.v[0]);
        }
        ghost var h := Snapshot();
        arrays := arrays + [vals.v];
        out := Normal(Arr(|arrays| - 1));
        assert Snapshot() == AllocArray(h, vals.v).0;
      case Index(_, left, index) =>
        var l := Eval(left, env, fuel);
        if !l.Normal? || IsError(l.v) {
          return l;
        }
        var i := Eval(index, env, fuel);
        if !i.Normal? || IsError(i.v) {
          return i;
        }
        out := IndexOp(Snapshot(), l.v, i.v);
    }

    /** `evalIfExpr`. */
    method EvalIf(e: Expr, env: nat, fuel: nat) returns (out: Outcome<Value>)
      requires Valid() && env < |frames| && e.If?
      modifies this
      ensures Valid() && Step(out, Snapshot()) == EvalExpr(old(Snapshot()), e, env, fuel)
      decreases fuel, 1, e, 0
    {
      var cons, alt := e.cons, e.alt;
      var c := Eval(e.cond, env, fuel);
      if !c.Normal? || IsError(c.v) {
        return c;
      }
      if Truthy(c.v) {
        out := EvalBlock(cons, env, fuel);
      } else if alt.Some? {
        out := EvalBlock(alt.value, env, fuel);
      } else {
        out := Normal(Null);
      }
    }

    /** `evalExpressions`: the values of `es` in order, or the first error alone. */
    method EvalExpressions(es: seq<Expr>, env: nat, fuel: nat) returns (out: Outcome<seq<Value>>)
      requires Valid() && env < |frames|
      modifies this
      ensures Valid() && Step(out, Snapshot()) == EvalSpec.EvalExpressions(old(Snapshot()), es, env, fuel, [])
      decreases fuel, 1, es
    {
      var acc: seq<Value> := [];
      var i := 0;
      while i < |es|
        invariant 0 <= i <= |es|
        invariant Valid() && env < |frames| && ValuesOk(Snapshot(), acc)
        invariant forall j :: 0 <= j < |acc| ==> !IsError(acc[j])
        invariant EvalSpec.EvalExpressions(Snapshot(), es[i..], env, fuel, acc)
               == EvalSpec.EvalExpressions(old(Snapshot()), es, env, fuel, [])
      {
        ghost var before := Snapshot();
        assert es[i..][0] == es[i] && es[i..][1..] == es[i + 1..];
        var val := Eval(es[i], env, fuel);
        if !val.Normal? {
          return Halt(val);
        }
        if IsError(val.v) {
          return Normal([val.v]);
        }
        ValuesOkGrow(before, Snapshot(), acc);
        acc := acc + [val.v];
        i := i + 1;
      }
      out := Normal(acc);
    }

    /** `Eval` on statements. */
    method EvalStmt(s: Stmt, env: nat, fuel: nat) returns (out: Outcome<Value>)
      requires Valid() && env < |frames|
      modifies this
      ensures Valid() && Step(out, Snapshot()) == EvalSpec.EvalStmt(old(Snapshot()), s, env, fuel)
      decreases fuel, 1, s
    {
      match s
      case NilLet =>
        out := Panic(NilDeref);
      case Let(_, name, value) =>
        var val := Eval(value, env, fuel);
        if !val.Normal? || IsError(val.v) {
          return val;
        }
        var _ := Set(env, name.value, val.v);
        out := Normal(Void);
      case Return(_, value) =>
        var val := Eval(value, env, fuel);
        if !val.Normal? || IsError(val.v) {
          return val;
        }
        ghost var h := Snapshot();
        rets := rets + [val.v];
        out := Normal(Ret(|rets| - 1));
        assert Snapshot() == AllocRet(h, val.v).0;
      case ExprStmt(_, expr) =>
        out := Eval(expr, env, fuel);
    }

    /** `evalBlockStatement`. */
    method EvalBlock(b: Block, env: nat, fuel: nat) returns (out: Outcome<Value>)
      requires Valid() && env < |frames|
      modifies this
      ensures Valid() && Step(out, Snapshot()) == EvalSpec.EvalBlock(old(Snapshot()), b, env, fuel)
      decreases fuel, 1, b
    {
      var res := Void;
      var i := 0;
      while i < |b.stmts|
        invariant 0 <= i <= |b.stmts|
        invariant Valid() && env < |frames| && ValueOk(Snapshot(), res)
        invariant BlockLoop(Snapshot(), b.stmts[i..], env, fuel, res) == EvalSpec.EvalBlock(old(Snapshot()), b, env, fuel)
      {
        assert b.stmts[i..][0] == b.stmts[i] && b.stmts[i..][1..] == b.stmts[i + 1..];
        var r := EvalStmt(b.stmts[i], env, fuel);
        if !r.Normal? {
          return r;
        }
        res := r.v;
        if res.Ret? || res.Err? {
          return r;
        }
        i := i + 1;
      }
      out := Normal(res);
    }

    /** `applyFunction`. */
    method Apply(f: Value, args: seq<Value>, fuel: nat) returns (out: Outcome<Value>)
      requires Valid() && ValueOk(Snapshot(), f) && ValuesOk(Snapshot(), args)
      modifies this
      ensures Valid() && Step(out, Snapshot()) == EvalSpec.Apply(old(Snapshot()), f, args, fuel)
      decreases fuel, 0
    {
      if f.Fn? {
        if fuel == 0 {
          return Exhausted;
        }
        var c := fns[f.fid];
        if |args| < |c.params| {
          return Panic(IndexOutOfRange);
        }
        var env := ExtendFuncEnv(c, args);
        var r := EvalBlock(c.body, env, fuel - 1);
        if r.Normal? {
          out := Normal(Unwrap(Snapshot(), r.v));
        } else {
          out := r;
        }
      } else if f.Builtin? {
        if f.kind == LenFn {
          out := Builtins.Len(Snapshot(), args);
        } else {
          out := Append(args);
        }
      } else if f == Void {
        out := Panic(NilDeref);
      } else {
        out := Normal(Err("not a function: " + TypeName(TypeOf(f))));
      }
    }

    /** `extendFuncEnv`: a fresh environment enclosed by the closure's, with each parameter
        bound in turn to the argument at its position. */
    method ExtendFuncEnv(c: Closure, args: seq<Value>) returns (env: nat)
      requires Valid() && c.env < |frames| && ValuesOk(Snapshot(), args) && |c.params| <= |args|
      modifies this
      ensures Valid() && env < |frames|
      ensures var (h1, e) := Obj.NewEnclosedEnv(old(Snapshot()), c.env);
        env == e && Snapshot() == BindParams(h1, e, c.params, args)
    {
      ghost var h0 := Snapshot();
      env := NewEnclosedEnv(c.env);
      ValuesOkGrow(h0, Snapshot(), args);
      ghost var h1 := Snapshot();
      var i := 0;
      while i < |c.params|
        invariant 0 <= i <= |c.params| && env < |frames| && Valid() && ValuesOk(Snapshot(), args)
        invariant BindParams(Snapshot(), env, c.params[i..], args[i..]) == BindParams(h1, env, c.params, args)
        invariant Grows(h1, Snapshot()) && Grows(Snapshot(), h1)
      {
        assert c.params[i..][0] == c.params[i] && c.params[i..][1..] == c.params[i + 1..];
        assert args[i..][0] == args[i] && args[i..][1..] == args[i + 1..];
        var _ := Set(env, c.params[i].value, args[i]);
        i := i + 1;
      }
    }

    /** The native routine of `append`: one element at a time, onto the same array object. */
    method Append(args: seq<Value>) returns (out: Outcome<Value>)
      requires Valid() && ValuesOk(Snapshot(), args)
      modifies this
      ensures Valid() && Step(out, Snapshot()) == Builtins.Append(old(Snapshot()), args)
    {
      if |args| == 0 {
        return Normal(Err("append: no arguments provided"));
      }
      if !args[0].Arr? {
        return Normal(Err("append: first argument must be an array"));
      }
      var id := args[0].aid;
      ghost var elems := arrays[id];
      assert old(arrays)[id := elems + args[1..1]] == arrays by {
        assert elems + args[1..1] == elems;
      }
      if |args| > 1 {
        var i := 1;
        while i < |args|
          invariant 1 <= i <= |args|
          invariant arrays == old(arrays)[id := elems + args[1..i]]
          invariant frames == old(frames) && fns == old(fns) && rets == old(rets)
        {
          assert elems + args[1..i + 1] == elems + args[1..i] + [args[i]];
          assert arrays[id] == elems + args[1..i];
          arrays := arrays[id := arrays[id] + [args[i]]];
          assert arrays == old(arrays)[id := elems + args[1..i] + [args[i]]];
          i := i + 1;
        }
        assert args[1..i] == args[1..];
      } else {
        assert args[1..] == [] && elems + [] == elems;
        assert arrays == old(arrays)[id := elems + args[1..]];
      }
      out := Normal(args[0]);
      assert ValuesOk(old(Snapshot()), elems);
      assert Snapshot() == SetElements(old(Snapshot()), id, elems + args[1..]);
    }

    /** `evalProgram`. */
    method EvalProgram(p: Program, env: nat, fuel: nat) returns (out: Outcome<Value>)
      requires Valid() && env < |frames|
      modifies this
      ensures Valid() && Step(out, Snapshot()) == EvalSpec.EvalProgram(old(Snapshot()), p, env, fuel)
    {
      var ret := Void;
      var i := 0;
      while i < |p.stmts|
        invariant 0 <= i <= |p.stmts|
        invariant Valid() && env < |frames| && ValueOk(Snapshot(), ret)
        invariant ProgramLoop(Snapshot(), p.stmts[i..], env, fuel, ret) == EvalSpec.EvalProgram(old(Snapshot()), p, env, fuel)
      {
        assert p.stmts[i..][0] == p.stmts[i] && p.stmts[i..][1..] == p.stmts[i + 1..];
        var r := EvalStmt(p.stmts[i], env, fuel);
        if !r.Normal? {
          return r;
        }
        ret := r.v;
        if ret.Ret? {
          return Normal(Unwrap(Snapshot(), ret));
        }
        if ret.Err? {
          return r;
        }
        i := i + 1;
      }
      out := Normal(ret);
    }
  }

  /** Evaluates a program in a new global environment of an empty heap. */
  method Run(p: Program, fuel: nat) returns (out: Outcome<Value>)
    ensures var (h, env) := Obj.NewEnv(Heap([], [], [], []));
      out == EvalSpec.EvalProgram(h, p, env, fuel).out
  {
    var rt := new Runtime();
    var env := rt.NewEnv();
    out := rt.EvalProgram(p, env, fuel);
  }
}
