/** Runtime values and the heap they live in (package `obj`).

    Integers, booleans, strings, null, errors and built-ins are plain values; Go's shared
    `TRUE`, `FALSE` and `NULL` objects are the values `Bool(true)`, `Bool(false)` and `Null`,
    so comparing them by value is comparing them by identity. Arrays, functions and return
    wrappers are heap objects: a value holds the index of its object, two values alias exactly
    when they hold the same index, and `append` updates the object in place. Environments are
    heap frames holding a store and the index of the enclosing frame. `Void` is Go's nil
    `Object`: what `let` and an empty block yield. */
module Obj {
  import opened Util
  import opened Ast
  import Token

  /** `obj.Type`. */
  datatype ObjType = TNull | TError | TInteger | TBoolean | TReturn | TFunction | TString | TArray | TBuiltin

  /** `Type.String`: a lookup in `typrepr`. STRING, ARRAY and BUILTIN have no entry there, so
      they print as the empty string. */
  function TypeName(t: ObjType): (r: string)
    ensures r != "" <==> !(t.TString? || t.TArray? || t.TBuiltin?)
  {
    match t
    case TNull => "NULL"
    case TError => "ERROR"
    case TInteger => "INTEGER"
    case TBoolean => "BOOLEAN"
    case TReturn => "RETURN"
    case TFunction => "FUNCTION"
    case TString => ""
    case TArray => ""
    case TBuiltin => ""
  }

  /** The six names `typrepr` holds tell their types apart. */
  lemma TypeNamesDistinct(s: ObjType, t: ObjType)
    requires TypeName(s) != "" && s != t
    ensures TypeName(s) != TypeName(t)
  {
  }

  datatype BuiltinKind = LenFn | AppendFn

  datatype Value =
    | Int(i: int)
    | Bool(b: bool)
    | Str(s: string)
    | Null
    | Void
    | Err(msg: string)
    | Ret(rid: nat)
    | Fn(fid: nat)
    | Builtin(kind: BuiltinKind)
    | Arr(aid: nat)

  /** `Type()` of a non-nil object: each variant has its own type. */
  function TypeOf(v: Value): (t: ObjType)
    requires v != Void
    ensures (t == TInteger <==> v.Int?) && (t == TBoolean <==> v.Bool?) && (t == TString <==> v.Str?)
    ensures (t == TNull <==> v.Null?) && (t == TError <==> v.Err?) && (t == TReturn <==> v.Ret?)
    ensures (t == TFunction <==> v.Fn?) && (t == TBuiltin <==> v.Builtin?) && (t == TArray <==> v.Arr?)
  {
    match v
    case Int(_) => TInteger
    case Bool(_) => TBoolean
    case Str(_) => TString
    case Null => TNull
    case Err(_) => TError
    case Ret(_) => TReturn
    case Fn(_) => TFunction
    case Builtin(_) => TBuiltin
    case Arr(_) => TArray
  }

  /** `obj.Function`: parameters, body and the environment it closes over. */
  datatype Closure = Closure(params: seq<Identifier>, body: Block, env: nat)

  /** `obj.Env`: the store and the enclosing environment, if any. */
  datatype Frame = Frame(store: map<string, Value>, outer: Option<nat>)

  /** Every object the evaluator has allocated, by kind. */
  datatype Heap = Heap(frames: seq<Frame>, arrays: seq<seq<Value>>, fns: seq<Closure>, rets: seq<Value>)

  /** A Go panic ends the process; fuel bounds the depth of function calls. */
  datatype Outcome<T> = Normal(v: T) | Panic(reason: string) | Exhausted

  datatype Step<T> = Step(out: Outcome<T>, h: Heap)

  const NilDeref := "invalid memory address or nil pointer dereference"

  /** The value refers only to objects that exist in h. */
  predicate ValueOk(h: Heap, v: Value) {
    (v.Ret? ==> v.rid < |h.rets|) && (v.Fn? ==> v.fid < |h.fns|) && (v.Arr? ==> v.aid < |h.arrays|)
  }

  predicate ValuesOk(h: Heap, vs: seq<Value>) {
    forall i :: 0 <= i < |vs| ==> ValueOk(h, vs[i])
  }

  /** A frame's parent is an older frame, and its bindings refer to existing objects. */
  predicate FrameOk(h: Heap, i: nat)
    requires i < |h.frames|
  {
    (h.frames[i].outer.Some? ==> h.frames[i].outer.value < i)
    && forall n :: n in h.frames[i].store ==> ValueOk(h, h.frames[i].store[n])
  }

  /** No reference in the heap dangles, and environment chains end. */
  predicate Valid(h: Heap) {
    (forall i :: 0 <= i < |h.frames| ==> FrameOk(h, i))
    && (forall i :: 0 <= i < |h.arrays| ==> ValuesOk(h, h.arrays[i]))
    && (forall i :: 0 <= i < |h.fns| ==> h.fns[i].env < |h.frames|)
    && ValuesOk(h, h.rets)
  }

  /** Objects are never freed: evaluation only adds to the heap. */
  predicate Grows(h: Heap, h2: Heap) {
    |h.frames| <= |h2.frames| && |h.arrays| <= |h2.arrays| && |h.fns| <= |h2.fns| && |h.rets| <= |h2.rets|
  }

  lemma ValuesOkGrow(h: Heap, h2: Heap, vs: seq<Value>)
    requires Grows(h, h2) && ValuesOk(h, vs)
    ensures ValuesOk(h2, vs)
  {
  }

  // Environments (obj/env.go, with the enclosing environment of `NewEnclosedEnv`)

  /** `NewEnv`: a fresh frame with no bindings and no parent. */
  function NewEnv(h: Heap): (r: (Heap, nat))
    ensures r.1 == |h.frames| && r.1 < |r.0.frames| && Grows(h, r.0)
    ensures Valid(h) ==> Valid(r.0)
    ensures r.0.frames[r.1] == Frame(map[], None)
  {
    var r := h.(frames := h.frames + [Frame(map[], None)]);
    AllocFrameValid(h, r);
    (r, |h.frames|)
  }

  /** `NewEnclosedEnv`: a fresh frame with no bindings whose parent is `outer`. */
  function NewEnclosedEnv(h: Heap, outer: nat): (r: (Heap, nat))
    requires outer < |h.frames|
    ensures r.1 == |h.frames| && r.1 < |r.0.frames| && Grows(h, r.0)
    ensures Valid(h) ==> Valid(r.0)
    ensures r.0.frames[r.1] == Frame(map[], Some(outer))
  {
    var r := h.(frames := h.frames + [Frame(map[], Some(outer))]);
    AllocFrameValid(h, r);
    (r, |h.frames|)
  }

  /** Appending an empty frame whose parent is older keeps the heap valid. */
  lemma AllocFrameValid(h: Heap, r: Heap)
    requires |r.frames| == |h.frames| + 1 && r.frames[..|h.frames|] == h.frames
    requires r.arrays == h.arrays && r.fns == h.fns && r.rets == h.rets
    requires r.frames[|h.frames|].store == map[]
    requires r.frames[|h.frames|].outer.Some? ==> r.frames[|h.frames|].outer.value < |h.frames|
    ensures Valid(h) ==> Valid(r)
  {
    if Valid(h) {
      forall i | 0 <= i < |r.frames|
        ensures FrameOk(r, i)
      {
        if i < |h.frames| {
          assert r.frames[i] == h.frames[i];
          assert FrameOk(h, i);
        }
      }
    }
  }

  /** The heap is valid in every respect but the frames, and each frame is as it was in a
      valid heap no larger: then the frames are fine too. */
  lemma FramesStayOk(h: Heap, r: Heap)
    requires Valid(h) && Grows(h, r) && r.frames == h.frames
    ensures forall i :: 0 <= i < |r.frames| ==> FrameOk(r, i)
  {
    forall i | 0 <= i < |r.frames|
      ensures FrameOk(r, i)
    {
      assert FrameOk(h, i);
    }
  }

  /** A new array object holding vs. */
  function AllocArray(h: Heap, vs: seq<Value>): (r: (Heap, nat))
    ensures r.1 == |h.arrays| && r.0 == h.(arrays := h.arrays + [vs]) && Grows(h, r.0)
    ensures Valid(h) && ValuesOk(h, vs) ==> Valid(r.0) && ValueOk(r.0, Arr(r.1))
  {
    var r := h.(arrays := h.arrays + [vs]);
    if Valid(h) && ValuesOk(h, vs) then
      FramesStayOk(h, r);
      assert forall i :: 0 <= i < |h.arrays| ==> ValuesOk(h, h.arrays[i]) && r.arrays[i] == h.arrays[i];
      (r, |h.arrays|)
    else (r, |h.arrays|)
  }

  /** A new function object. */
  function AllocFn(h: Heap, c: Closure): (r: (Heap, nat))
    ensures r.1 == |h.fns| && r.0 == h.(fns := h.fns + [c]) && Grows(h, r.0)
    ensures Valid(h) && c.env < |h.frames| ==> Valid(r.0) && ValueOk(r.0, Fn(r.1))
  {
    var r := h.(fns := h.fns + [c]);
    if Valid(h) then
      FramesStayOk(h, r);
      assert forall i :: 0 <= i < |h.arrays| ==> ValuesOk(h, h.arrays[i]);
      (r, |h.fns|)
    else (r, |h.fns|)
  }

  /** A new return wrapper around v. */
  function AllocRet(h: Heap, v: Value): (r: (Heap, nat))
    ensures r.1 == |h.rets| && r.0 == h.(rets := h.rets + [v]) && Grows(h, r.0)
    ensures Valid(h) && ValueOk(h, v) ==> Valid(r.0) && ValueOk(r.0, Ret(r.1))
  {
    var r := h.(rets := h.rets + [v]);
    if Valid(h) && ValueOk(h, v) then
      FramesStayOk(h, r);
      assert forall i :: 0 <= i < |h.arrays| ==> ValuesOk(h, h.arrays[i]);
      (r, |h.rets|)
    else (r, |h.rets|)
  }

  /** Replaces the elements of array `id`, in place. */
  function SetElements(h: Heap, id: nat, vs: seq<Value>): (r: Heap)
    requires id < |h.arrays|
    ensures r == h.(arrays := h.arrays[id := vs]) && Grows(h, r) && Grows(r, h)
    ensures Valid(h) && ValuesOk(h, vs) ==> Valid(r)
  {
    var r := h.(arrays := h.arrays[id := vs]);
    if Valid(h) && ValuesOk(h, vs) then
      FramesStayOk(h, r);
      (r)
    else r
  }

  /** `Env.Get`: the binding in the frame itself, else in its parent, outward. */
  function Get(h: Heap, env: nat, name: string): (r: Option<Value>)
    requires Valid(h) && env < |h.frames|
    ensures r.Some? ==> ValueOk(h, r.value)
    ensures name in h.frames[env].store ==> r == Some(h.frames[env].store[name])
    decreases env
  {
    var f := h.frames[env];
    assert FrameOk(h, env);
    if name in f.store then Some(f.store[name])
    else match f.outer
      case None => None
      case Some(o) => assert FrameOk(h, env); Get(h, o, name)
  }

  /** `Env.Set`: binds `name` in this frame only. */
  function Set(h: Heap, env: nat, name: string, v: Value): (r: Heap)
    requires env < |h.frames|
    ensures Grows(h, r) && Grows(r, h)
    ensures Valid(h) && ValueOk(h, v) ==> Valid(r)
    ensures r.frames[env].store == h.frames[env].store[name := v]
  {
    var f := h.frames[env];
    var r := h.(frames := h.frames[env := Frame(f.store[name := v], f.outer)]);
    assert Valid(h) && ValueOk(h, v) ==> Valid(r) by {
      if Valid(h) && ValueOk(h, v) {
        forall i | 0 <= i < |r.frames|
          ensures FrameOk(r, i)
        {
          assert FrameOk(h, i);
        }
      }
    }
    r
  }

  /** A fresh environment has no bindings. */
  lemma NewEnvEmpty(h: Heap, name: string)
    requires Valid(h)
    ensures Valid(NewEnv(h).0) && Get(NewEnv(h).0, NewEnv(h).1, name) == None
  {
  }

  /** Adding a frame changes no lookup that starts from an existing frame. */
  lemma {:induction false} GetAfterAlloc(h: Heap, h2: Heap, env: nat, name: string)
    requires Valid(h) && Valid(h2) && env < |h.frames| <= |h2.frames|
    requires forall i :: 0 <= i < |h.frames| ==> h2.frames[i] == h.frames[i]
    ensures Get(h2, env, name) == Get(h, env, name)
    decreases env
  {
    var f := h.frames[env];
    if name !in f.store && f.outer.Some? {
      assert FrameOk(h, env);
      GetAfterAlloc(h, h2, f.outer.value, name);
    }
  }

  /** An enclosed environment starts out seeing exactly its parent's bindings. */
  lemma EnclosedSeesOuter(h: Heap, outer: nat, name: string)
    requires Valid(h) && outer < |h.frames|
    ensures Valid(NewEnclosedEnv(h, outer).0)
    ensures Get(NewEnclosedEnv(h, outer).0, NewEnclosedEnv(h, outer).1, name) == Get(h, outer, name)
  {
    var (h2, env) := NewEnclosedEnv(h, outer);
    GetAfterAlloc(h, h2, outer, name);
  }

  /** `Get(n)` after `Set(n, v)` in the same environment yields v. */
  lemma GetAfterSet(h: Heap, env: nat, name: string, v: Value)
    requires Valid(h) && env < |h.frames| && ValueOk(h, v)
    ensures Valid(Set(h, env, name, v)) && Get(Set(h, env, name, v), env, name) == Some(v)
  {
    var h2 := Set(h, env, name, v);
    assert name in h2.frames[env].store && h2.frames[env].store[name] == v;
  }

  /** Setting a binding in one frame changes no lookup from an older frame. */
  lemma {:induction false} SetLeavesOlder(h: Heap, env: nat, name: string, v: Value, e: nat)
    requires Valid(h) && env < |h.frames| && ValueOk(h, v) && e < env
    ensures Valid(Set(h, env, name, v)) && Get(Set(h, env, name, v), e, name) == Get(h, e, name)
    decreases e
  {
    var f := h.frames[e];
    assert Set(h, env, name, v).frames[e] == f;
    if name !in f.store && f.outer.Some? {
      assert FrameOk(h, e);
      SetLeavesOlder(h, env, name, v, f.outer.value);
    }
  }

  /** `Set(n, v)` leaves every other name as it was, seen from any environment. */
  lemma {:induction false} SetLeavesOthers(h: Heap, env: nat, name: string, v: Value, e: nat, other: string)
    requires Valid(h) && env < |h.frames| && ValueOk(h, v) && e < |h.frames| && other != name
    ensures Valid(Set(h, env, name, v)) && Get(Set(h, env, name, v), e, other) == Get(h, e, other)
    decreases e
  {
    var f := h.frames[e];
    var f2 := Set(h, env, name, v).frames[e];
    assert other in f2.store <==> other in f.store;
    assert other in f.store ==> f2.store[other] == f.store[other];
    assert f2.outer == f.outer;
    if other !in f.store && f.outer.Some? {
      assert FrameOk(h, e);
      SetLeavesOthers(h, env, name, v, f.outer.value, other);
    }
  }

  /** A later `Set` of the same name overwrites the earlier one. */
  lemma SetOverwrites(h: Heap, env: nat, name: string, v1: Value, v2: Value)
    requires env < |h.frames|
    ensures Set(Set(h, env, name, v1), env, name, v2) == Set(h, env, name, v2)
  {
    var store := h.frames[env].store;
    assert store[name := v1][name := v2] == store[name := v2];
  }

  // Inspect

  /** `Inspect()`: the text the REPL prints for a value. A nil object is a nil dereference.
      A function prints its body with `%s`, which recovers a panic raised while rendering a
      body that holds nil nodes, so functions always print. Following a return wrapper or an
      array element costs one unit of fuel, so a cyclic array (one appended into itself)
      runs out of fuel where Go runs out of stack. Only nil, arrays and return wrappers can
      fail to print. */
  function Inspect(h: Heap, v: Value, fuel: nat): (r: Outcome<string>)
    requires Valid(h) && ValueOk(h, v)
    ensures v == Void ==> r == Panic(NilDeref)
    ensures !r.Normal? ==> v == Void || v.Arr? || v.Ret?
    decreases fuel, 0
  {
    match v
    case Int(i) => Normal(IntToString(i))
    case Bool(b) => Normal(if b then "true" else "false")
    case Str(s) => Normal(s)
    case Null => Normal("null")
    case Void => Panic(NilDeref)
    case Err(msg) => Normal("error: " + msg)
    case Ret(id) => if fuel == 0 then Exhausted else Inspect(h, h.rets[id], fuel - 1)
    case Fn(id) =>
      var c := h.fns[id];
      Normal("fn(" + Join(Names(c.params), ", ") + ") {\n" + FmtBlock(c.body) + "\n}")
    case Builtin(_) => Normal("builtin function")
    case Arr(id) =>
      if fuel == 0 then Exhausted
      else match InspectAll(h, h.arrays[id], fuel - 1)
        case Normal(ss) => Normal("[" + Join(ss, ", ") + "]")
        case Panic(reason) => Panic(reason)
        case Exhausted => Exhausted
  }

  /** A closure whose body `String()` panics still prints: `fn() { -; }` prints its body as
      the recovered-panic placeholder. */
  lemma InspectBrokenFunction(h: Heap, id: nat, fuel: nat, t: Token.Token)
    requires Valid(h) && id < |h.fns|
    requires h.fns[id].params == [] && h.fns[id].body == Block(t, [ExprStmt(t, Prefix(t, "-", Nil))])
    ensures Inspect(h, Fn(id), fuel) == Normal("fn() {\n" + PanicText + "\n}")
  {
    assert !RenderableStmt(h.fns[id].body.stmts[0]);
    assert FmtBlock(h.fns[id].body) == PanicText;
    assert Join(Names(h.fns[id].params), ", ") == "";
    assert "fn(" + "" + ") {\n" == "fn() {\n";
  }

  /** The elements' renderings in index order, or the first failure among them. */
  function InspectAll(h: Heap, vs: seq<Value>, fuel: nat): (r: Outcome<seq<string>>)
    requires Valid(h) && ValuesOk(h, vs)
    ensures r.Normal? <==> forall i :: 0 <= i < |vs| ==> Inspect(h, vs[i], fuel).Normal?
    ensures r.Normal? ==> |r.v| == |vs| && forall i :: 0 <= i < |vs| ==> Inspect(h, vs[i], fuel) == Normal(r.v[i])
    decreases fuel, |vs|
  {
    if vs == [] then Normal([])
    else match Inspect(h, vs[0], fuel)
      case Normal(s) =>
        (match InspectAll(h, vs[1..], fuel)
         case Normal(ss) => Normal([s] + ss)
         case Panic(reason) => Panic(reason)
         case Exhausted => Exhausted)
      case Panic(reason) => Panic(reason)
      case Exhausted => Exhausted
  }

  /** An array renders as its elements' renderings, in index order, joined by ", " inside
      brackets. */
  lemma InspectArray(h: Heap, id: nat, fuel: nat, ss: seq<string>)
    requires Valid(h) && id < |h.arrays| && |ss| == |h.arrays[id]|
    requires forall i :: 0 <= i < |ss| ==> Inspect(h, h.arrays[id][i], fuel) == Normal(ss[i])
    ensures Inspect(h, Arr(id), fuel + 1) == Normal("[" + Join(ss, ", ") + "]")
  {
    assert ValuesOk(h, h.arrays[id]);
    var r := InspectAll(h, h.arrays[id], fuel);
    assert r.Normal?;
    assert r.v == ss;
  }

  /** An empty array renders as `[]`. */
  lemma InspectEmptyArray(h: Heap, id: nat, fuel: nat)
    requires Valid(h) && id < |h.arrays| && h.arrays[id] == []
    ensures Inspect(h, Arr(id), fuel + 1) == Normal("[]")
  {
    InspectArray(h, id, fuel, []);
    assert "[" + Join([], ", ") + "]" == "[]";
  }
}
