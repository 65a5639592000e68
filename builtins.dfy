/** The built-in functions `len` and `append` (evaluator/builtins.go), dispatched by name. */
module Builtins {
  import opened Util
  import opened Obj

  /** The `builtins` table. */
  function Lookup(name: string): (r: Option<BuiltinKind>)
    ensures r == Some(LenFn) <==> name == "len"
    ensures r == Some(AppendFn) <==> name == "append"
    ensures r.None? <==> name != "len" && name != "append"
  {
    if name == "len" then Some(LenFn)
    else if name == "append" then Some(AppendFn)
    else None
  }

  function LenArityMessage(n: nat): string {
    "len: wrong number of arguments: got " + NatToString(n) + ", want 1"
  }

  /** `len`: the byte length of a string or the element count of an array. Asking a nil
      object for its type is a nil dereference. */
  function Len(h: Heap, args: seq<Value>): (r: Outcome<Value>)
    requires ValuesOk(h, args)
    ensures r.Panic? <==> |args| == 1 && args[0] == Void
    ensures r.Normal? ==> (r.v.Int? && r.v.i >= 0) || r.v.Err?
    ensures r.Normal? && r.v.Int? <==> |args| == 1 && (args[0].Str? || args[0].Arr?)
  {
    if |args| != 1 then Normal(Err(LenArityMessage(|args|)))
    else if args[0].Str? then Normal(Int(Utf8Len(args[0].s)))
    else if args[0].Arr? then Normal(Int(|h.arrays[args[0].aid]|))
    else if args[0] == Void then Panic(NilDeref)
    else Normal(Err("len: type not supported, got " + TypeName(TypeOf(args[0]))))
  }

  /** `append`: adds the remaining arguments, in order, to the end of the array object the
      first argument refers to, and returns that same reference. */
  function Append(h: Heap, args: seq<Value>): (r: Step<Value>)
    requires Valid(h) && ValuesOk(h, args)
    ensures r.out.Normal? && Grows(h, r.h) && Grows(r.h, h) && Valid(r.h) && ValueOk(r.h, r.out.v)
    ensures r.h.frames == h.frames && r.h.fns == h.fns && r.h.rets == h.rets
    ensures r.out.v.Arr? <==> |args| > 0 && args[0].Arr?
  {
    if |args| == 0 then Step(Normal(Err("append: no arguments provided")), h)
    else if !args[0].Arr? then Step(Normal(Err("append: first argument must be an array")), h)
    else
      var id := args[0].aid;
      assert ValuesOk(h, h.arrays[id]);
      Step(Normal(args[0]), SetElements(h, id, h.arrays[id] + args[1..]))
  }

  /** Calls the native routine of a built-in. */
  function CallBuiltin(h: Heap, k: BuiltinKind, args: seq<Value>): (r: Step<Value>)
    requires Valid(h) && ValuesOk(h, args)
    ensures Grows(h, r.h) && Valid(r.h) && (r.out.Normal? ==> ValueOk(r.h, r.out.v))
    ensures k == LenFn ==> r == Step(Len(h, args), h)
    ensures k == AppendFn ==> r == Append(h, args)
  {
    match k
    case LenFn => Step(Len(h, args), h)
    case AppendFn => Append(h, args)
  }

  /** `len` of a string counts UTF-8 bytes: never fewer than its characters, and exactly as
      many only when every character is ASCII. */
  lemma LenCountsBytes(h: Heap, s: string)
    ensures Len(h, [Str(s)]).Normal? && Len(h, [Str(s)]).v.Int?
    ensures Len(h, [Str(s)]).v.i >= |s|
    ensures Len(h, [Str(s)]).v.i == |s| <==> IsAscii(s)
  {
  }

  /** `len("four")` is 4, and `len("é")` is 2: one character, two bytes. */
  lemma LenExamples(h: Heap, four: string, e: string)
    requires four == "four" && e == "é"
    ensures Len(h, [Str(four)]) == Normal(Int(4))
    ensures Len(h, [Str(e)]) == Normal(Int(2))
  {
    assert IsAscii(four) by {
      assert forall i :: 0 <= i < |four| ==> four[i] < 128 as char;
    }
    assert Utf8Len(e) == Utf8Width(e[0]) + Utf8Len(e[1..]);
  }

  /** `len` of an array is its element count, read from the shared object. */
  lemma LenOfArray(h: Heap, id: nat)
    requires id < |h.arrays|
    ensures Len(h, [Arr(id)]) == Normal(Int(|h.arrays[id]|))
  {
  }

  /** `len` with one argument of another type, or with a count other than one, is an error
      value naming the problem. */
  lemma LenErrors(h: Heap, args: seq<Value>)
    requires ValuesOk(h, args)
    requires |args| != 1 || !(args[0].Str? || args[0].Arr? || args[0] == Void)
    ensures |args| != 1 ==> Len(h, args) == Normal(Err(LenArityMessage(|args|)))
    ensures |args| == 1 ==> Len(h, args) == Normal(Err("len: type not supported, got " + TypeName(TypeOf(args[0]))))
  {
  }

  /** `append(a, x, y, ...)` changes array a in place and nothing else: a holds its old elements
      followed by the new ones, every other array is untouched, and every binding, including
      every alias of a, still refers to the same objects. */
  lemma AppendInPlace(h: Heap, id: nat, rest: seq<Value>)
    requires Valid(h) && id < |h.arrays| && ValuesOk(h, rest)
    ensures var r := Append(h, [Arr(id)] + rest);
      r.out == Normal(Arr(id)) && r.h.arrays[id] == h.arrays[id] + rest
      && (forall j :: 0 <= j < |h.arrays| && j != id ==> r.h.arrays[j] == h.arrays[j])
      && (forall env: nat, n :: env < |h.frames| ==> Get(r.h, env, n) == Get(h, env, n))
  {
    var args := [Arr(id)] + rest;
    assert args[1..] == rest;
    var r := Append(h, args);
    forall env: nat, n | env < |h.frames|
      ensures Get(r.h, env, n) == Get(h, env, n)
    {
      GetSameFrames(h, r.h, env, n);
    }
  }

  /** `append` without arguments, or with a first argument that is not an array, is an error
      and changes nothing. */
  lemma AppendErrors(h: Heap, args: seq<Value>)
    requires Valid(h) && ValuesOk(h, args)
    ensures args == [] ==> Append(h, args) == Step(Normal(Err("append: no arguments provided")), h)
    ensures args != [] && !args[0].Arr? ==>
      Append(h, args) == Step(Normal(Err("append: first argument must be an array")), h)
  {
  }

  /** `append(a)` with nothing to add returns a and changes nothing. */
  lemma AppendNothing(h: Heap, id: nat)
    requires Valid(h) && id < |h.arrays|
    ensures Append(h, [Arr(id)]) == Step(Normal(Arr(id)), h)
  {
    assert [Arr(id)][1..] == [];
    assert h.arrays[id] + [] == h.arrays[id];
    assert h.arrays[id := h.arrays[id]] == h.arrays;
  }

  /** Lookups depend only on the frames. */
  lemma {:induction false} GetSameFrames(h: Heap, h2: Heap, env: nat, name: string)
    requires Valid(h) && Valid(h2) && h2.frames == h.frames && env < |h.frames|
    ensures Get(h2, env, name) == Get(h, env, name)
    decreases env
  {
    var f := h.frames[env];
    if name !in f.store && f.outer.Some? {
      assert FrameOk(h, env);
      GetSameFrames(h, h2, f.outer.value, name);
    }
  }
}
