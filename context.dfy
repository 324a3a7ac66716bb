/**
 * The scope chain. A context is a chain of frames linked child to parent;
 * here the chain seen from one context is a sequence of frames whose index 0
 * is that context and whose last element is the root.
 */
module Scopes {
  import opened Common
  import opened Objects
  import Ast

  /** One frame: its store (`None` for a nil store) and its registered functions. */
  datatype Frame = Frame(store: Option<map<string, Object>>, functions: seq<FunctionValue>)

  type Chain = seq<Frame>

  /** Whether the frame's own store binds the key. */
  predicate Binds(f: Frame, key: string) {
    f.store.Some? && key in f.store.value
  }

  /** `Get(key)`: the current frame's binding, else the outer frames' result; `None` (nil) past the root. */
  function Get(chain: Chain, key: string): (r: Option<Object>)
    ensures r.Some? ==> exists j :: 0 <= j < |chain| && Binds(chain[j], key) && chain[j].store.value[key] == r.value
    decreases |chain|
  {
    if chain == [] then None
    else if Binds(chain[0], key) then Some(chain[0].store.value[key])
    else Get(chain[1..], key)
  }

  /** `Get` returns the binding of the nearest frame that binds the key, and nil when no frame does. */
  lemma {:induction false} GetNearest(chain: Chain, key: string)
    ensures Get(chain, key).None? <==> forall j :: 0 <= j < |chain| ==> !Binds(chain[j], key)
    ensures Get(chain, key).Some? ==> exists j :: (0 <= j < |chain| && Binds(chain[j], key)
      && (forall k :: 0 <= k < j ==> !Binds(chain[k], key))
      && Get(chain, key) == Some(chain[j].store.value[key]))
    decreases |chain|
  {
    if chain != [] && !Binds(chain[0], key) {
      GetNearest(chain[1..], key);
      if Get(chain, key).Some? {
        var j :| 0 <= j < |chain[1..]| && Binds(chain[1..][j], key)
          && (forall k :: 0 <= k < j ==> !Binds(chain[1..][k], key))
          && Get(chain[1..], key) == Some(chain[1..][j].store.value[key]);
        assert Binds(chain[j + 1], key);
      }
    }
  }

  /** `Enclose()`: a new frame with a nil store whose outer is the receiver. */
  function Enclosed(chain: Chain): (r: Chain)
    ensures |r| == |chain| + 1 && r[1..] == chain
    ensures r[0].store.None? && r[0].functions == []
  {
    [Frame(None, [])] + chain
  }

  /** `EncloseWith(args)`: a new frame whose store is exactly `args` and whose outer is the receiver. */
  function EnclosedWith(chain: Chain, args: map<string, Object>): (r: Chain)
    ensures |r| == |chain| + 1 && r[1..] == chain
    ensures r[0].store == Some(args) && r[0].functions == []
  {
    [Frame(Some(args), [])] + chain
  }

  /** Through a fresh `Enclose` frame every name resolves as in the receiver; through `EncloseWith` the arguments shadow it. */
  lemma GetThroughEnclose(chain: Chain, args: map<string, Object>, key: string)
    ensures Get(Enclosed(chain), key) == Get(chain, key)
    ensures Get(EnclosedWith(chain, args), key) == if key in args then Some(args[key]) else Get(chain, key)
  {
    assert Enclosed(chain)[1..] == chain;
    assert EnclosedWith(chain, args)[1..] == chain;
  }

  /**
   * The frame `Assign` writes: if the outer chain resolves the key, the outer
   * context's own choice (one level further out), otherwise the current frame.
   */
  function AssignTarget(chain: Chain, key: string): (t: nat)
    requires |chain| > 0
    ensures t < |chain|
    ensures t > 0 ==> Binds(chain[t], key)
    decreases |chain|
  {
    if |chain| > 1 && Get(chain[1..], key).Some? then
      var outer := chain[1..];
      assert !Binds(outer[0], key) ==> Get(outer, key) == Get(outer[1..], key);
      assert |outer| == 1 ==> outer[1..] == [];
      1 + AssignTarget(outer, key)
    else 0
  }

  /**
   * `Assign` writes the outermost frame that binds the key (not the nearest
   * one), and the current frame when no outer frame binds it.
   */
  lemma {:induction false} AssignTargetOutermost(chain: Chain, key: string)
    requires |chain| > 0
    ensures (forall j :: 1 <= j < |chain| ==> !Binds(chain[j], key)) ==> AssignTarget(chain, key) == 0
    ensures AssignTarget(chain, key) > 0 ==> Binds(chain[AssignTarget(chain, key)], key)
    ensures forall j :: AssignTarget(chain, key) < j < |chain| ==> !Binds(chain[j], key)
    ensures (exists j :: 1 <= j < |chain| && Binds(chain[j], key)) ==> AssignTarget(chain, key) > 0
    decreases |chain|
  {
    if |chain| > 1 {
      var outer := chain[1..];
      GetNearest(outer, key);
      if Get(outer, key).Some? {
        AssignTargetOutermost(outer, key);
        var t := AssignTarget(outer, key);
        if t == 0 {
          // no frame past the outer one binds the key, so the outer frame itself must
          var j :| 0 <= j < |outer| && Binds(outer[j], key);
          assert j == 0;
        }
        assert forall j :: t + 1 < j < |chain| ==> chain[j] == outer[j - 1];
      } else {
        assert forall j :: 1 <= j < |chain| ==> chain[j] == outer[j - 1];
      }
    }
  }

  /** The frame with `key` bound to `obj` in its store (which must exist). */
  function Bind(f: Frame, key: string, obj: Object): (g: Frame)
    requires f.store.Some?
    ensures Binds(g, key) && g.store.value[key] == obj && g.functions == f.functions
    ensures forall k :: k != key ==> (Binds(g, k) <==> Binds(f, k))
  {
    Frame(Some(f.store.value[key := obj]), f.functions)
  }

  /**
   * After a write to frame `t`, `Get` from the frame itself returns the new
   * value; from the current frame it does unless a nearer frame binds the key
   * (which then shadows the write). Other keys are unaffected.
   */
  lemma {:induction false} GetAfterBind(chain: Chain, t: nat, key: string, obj: Object, other: string)
    requires t < |chain| && chain[t].store.Some?
    ensures Get(chain[t := Bind(chain[t], key, obj)][t..], key) == Some(obj)
    ensures (forall j :: 0 <= j < t ==> !Binds(chain[j], key)) ==>
      Get(chain[t := Bind(chain[t], key, obj)], key) == Some(obj)
    ensures other != key ==> Get(chain[t := Bind(chain[t], key, obj)], other) == Get(chain, other)
    decreases t
  {
    var updated := chain[t := Bind(chain[t], key, obj)];
    if t > 0 {
      GetAfterBind(chain[1..], t - 1, key, obj, other);
      assert updated[1..] == chain[1..][t - 1 := Bind(chain[t], key, obj)];
      assert updated[t..] == chain[1..][t - 1 := Bind(chain[t], key, obj)][t - 1..];
    } else {
      assert updated[1..] == chain[1..];
    }
  }

  /**
   * When the current frame and some outer frame both bind a name, `Assign`
   * writes an outer frame, and lookup from the current frame still sees the
   * current frame's old binding.
   */
  lemma AssignShadowed(chain: Chain, key: string, obj: Object)
    requires |chain| > 1 && Binds(chain[0], key)
    requires exists j :: 1 <= j < |chain| && Binds(chain[j], key)
    ensures var t := AssignTarget(chain, key);
      t > 0 && Get(chain[t := Bind(chain[t], key, obj)], key) == Get(chain, key)
  {
    AssignTargetOutermost(chain, key);
  }

  /**
   * Whether a call item is compatible with a function's pattern item, as
   * written: an Identifier against an Identifier needs the same name and is
   * otherwise accepted; any other call item is rejected, as it would have to
   * be both an Argument and a Parameter.
   */
  predicate ItemCompatible(item: Ast.Expr, fItem: Ast.Expr) {
    if item.Identifier? then
      (fItem.Identifier? ==> item.value == fItem.value)
    else if !item.Argument? then false
    else if !item.Parameter? then false
    else true
  }

  /** Compatibility needs an Identifier call item; nothing else is ever accepted. */
  lemma ItemCompatibleExactly(item: Ast.Expr, fItem: Ast.Expr)
    ensures ItemCompatible(item, fItem) <==>
      item.Identifier? && (fItem.Identifier? ==> item.value == fItem.value)
  {
  }

  predicate Compatible(pattern: seq<Ast.Expr>, fn: FunctionValue) {
    |pattern| == |fn.pattern| && forall i :: 0 <= i < |pattern| ==> ItemCompatible(pattern[i], fn.pattern[i])
  }

  /** The first function of the list, in registration order, compatible with the pattern. */
  function FirstCompatible(fns: seq<FunctionValue>, pattern: seq<Ast.Expr>): (r: Option<FunctionValue>)
    ensures r.None? <==> forall k :: 0 <= k < |fns| ==> !Compatible(pattern, fns[k])
    ensures r.Some? ==> Compatible(pattern, r.value) && exists k :: FirstAt(fns, pattern, k, r.value)
    decreases |fns|
  {
    if fns == [] then None
    else if Compatible(pattern, fns[0]) then
      assert FirstAt(fns, pattern, 0, fns[0]);
      Some(fns[0])
    else
      var r := FirstCompatible(fns[1..], pattern);
      if r.Some? then
        var k :| FirstAt(fns[1..], pattern, k, r.value);
        assert FirstAt(fns, pattern, k + 1, r.value);
        r
      else r
  }

  /** `f` sits at index `k` of `fns` and no earlier function of the list is compatible with the pattern. */
  predicate FirstAt(fns: seq<FunctionValue>, pattern: seq<Ast.Expr>, k: int, f: FunctionValue) {
    0 <= k < |fns| && fns[k] == f && forall n :: 0 <= n < k ==> !Compatible(pattern, fns[n])
  }

  /** `GetFunction(pattern)`: the current frame's first compatible function, else the outer frames' result, else nil. */
  function GetFunction(chain: Chain, pattern: seq<Ast.Expr>): (r: Option<FunctionValue>)
    ensures r.Some? ==> Compatible(pattern, r.value)
    decreases |chain|
  {
    if chain == [] then None
    else match FirstCompatible(chain[0].functions, pattern)
      case Some(f) => Some(f)
      case None => GetFunction(chain[1..], pattern)
  }

  /** A call pattern holding any non-identifier item finds no function at all, however the chain looks. */
  lemma {:induction false} NonIdentifierCallFindsNothing(chain: Chain, pattern: seq<Ast.Expr>, i: nat)
    requires i < |pattern| && !pattern[i].Identifier?
    ensures GetFunction(chain, pattern).None?
    decreases |chain|
  {
    if chain != [] {
      forall k | 0 <= k < |chain[0].functions| ensures !Compatible(pattern, chain[0].functions[k]) {
        if |pattern| == |chain[0].functions[k].pattern| {
          ItemCompatibleExactly(pattern[i], chain[0].functions[k].pattern[i]);
        }
      }
      NonIdentifierCallFindsNothing(chain[1..], pattern, i);
    }
  }

  /**
   * A found function is compatible, and it is the first compatible function,
   * in registration order, of the nearest frame that holds one: no nearer
   * frame holds a compatible function.
   */
  lemma {:induction false} GetFunctionFound(chain: Chain, pattern: seq<Ast.Expr>)
    requires GetFunction(chain, pattern).Some?
    ensures Compatible(pattern, GetFunction(chain, pattern).value)
    ensures exists j, m :: (0 <= j < |chain| && FirstAt(chain[j].functions, pattern, m, GetFunction(chain, pattern).value)
      && forall k, n :: 0 <= k < j && 0 <= n < |chain[k].functions| ==> !Compatible(pattern, chain[k].functions[n]))
    decreases |chain|
  {
    var f := GetFunction(chain, pattern).value;
    if FirstCompatible(chain[0].functions, pattern).None? {
      GetFunctionFound(chain[1..], pattern);
      var j, m :| 0 <= j < |chain[1..]| && FirstAt(chain[1..][j].functions, pattern, m, f)
        && forall k, n :: 0 <= k < j && 0 <= n < |chain[1..][k].functions| ==> !Compatible(pattern, chain[1..][k].functions[n]);
      assert FirstAt(chain[j + 1].functions, pattern, m, f);
      forall k, n | 0 <= k < j + 1 && 0 <= n < |chain[k].functions|
        ensures !Compatible(pattern, chain[k].functions[n])
      {
        if k > 0 {
          assert chain[k] == chain[1..][k - 1];
        }
      }
    } else {
      var m :| FirstAt(chain[0].functions, pattern, m, f);
      assert FirstAt(chain[0].functions, pattern, m, f);
    }
  }

  /** `GetFunction` returns nil exactly when no frame of the chain holds a compatible function. */
  lemma {:induction false} GetFunctionNone(chain: Chain, pattern: seq<Ast.Expr>)
    ensures GetFunction(chain, pattern).None? <==>
      forall j, m :: 0 <= j < |chain| && 0 <= m < |chain[j].functions| ==> !Compatible(pattern, chain[j].functions[m])
    decreases |chain|
  {
    if chain != [] {
      GetFunctionNone(chain[1..], pattern);
      forall j | 1 <= j < |chain| ensures chain[j] == chain[1..][j - 1] {}
    }
  }

  /** Enclosing adds a frame without functions, so function lookup is unchanged through it. */
  lemma GetFunctionThroughEnclose(chain: Chain, args: map<string, Object>, pattern: seq<Ast.Expr>)
    ensures GetFunction(Enclosed(chain), pattern) == GetFunction(chain, pattern)
    ensures GetFunction(EnclosedWith(chain, args), pattern) == GetFunction(chain, pattern)
  {
    assert Enclosed(chain)[1..] == chain;
    assert EnclosedWith(chain, args)[1..] == chain;
  }

  /** A context: the chain of frames from this context out to the root. */
  class Context {
    var Frames: Chain

    constructor (args: map<string, Object>)
      ensures Frames == [Frame(Some(args), [])]
    {
      Frames := [Frame(Some(args), [])];
    }

    predicate Valid()
      reads this
    {
      |Frames| > 0
    }

    /** `Enclose()`: a new context one frame deeper, with a nil store; the receiver is unchanged. */
    method Enclose() returns (c: Context)
      requires Valid()
      ensures fresh(c) && c.Valid()
      ensures c.Frames == Enclosed(Frames)
    {
      c := new Context(map[]);
      c.Frames := Enclosed(Frames);
    }

    /** `EncloseWith(args)`: a new context one frame deeper whose store is `args`; the receiver is unchanged. */
    method EncloseWith(args: map<string, Object>) returns (c: Context)
      requires Valid()
      ensures fresh(c) && c.Valid()
      ensures c.Frames == EnclosedWith(Frames, args)
    {
      c := new Context(args);
      c.Frames := EnclosedWith(Frames, args);
    }

    /** `Declare(key, obj)`: writes the current frame's store only (a nil store panics in the source). */
    method Declare(key: string, obj: Object)
      requires Valid() && Frames[0].store.Some?
      modifies this
      ensures Valid()
      ensures Frames == old(Frames)[0 := Bind(old(Frames)[0], key, obj)]
      ensures Get(Frames, key) == Some(obj)
    {
      Frames := Frames[0 := Bind(Frames[0], key, obj)];
    }

    /**
     * `Assign(key, obj)`: writes the frame `AssignTarget` picks, which is
     * the outermost frame binding the key, or the current frame when no outer
     * frame binds it. All other frames are unchanged.
     */
    method Assign(key: string, obj: Object)
      requires Valid()
      requires AssignTarget(Frames, key) == 0 ==> Frames[0].store.Some?
      modifies this
      ensures Valid()
      ensures var t := AssignTarget(old(Frames), key);
        Frames == old(Frames)[t := Bind(old(Frames)[t], key, obj)]
      ensures Get(Frames[AssignTarget(old(Frames), key)..], key) == Some(obj)
      ensures AssignTarget(old(Frames), key) == 0 ==> Get(Frames, key) == Some(obj)
      ensures forall k :: k != key ==> Get(Frames, k) == Get(old(Frames), k)
    {
      var t := AssignTarget(Frames, key);
      AssignTargetOutermost(Frames, key);
      Frames := Frames[t := Bind(Frames[t], key, obj)];
      forall k | k != key ensures Get(Frames, k) == Get(old(Frames), k) {
        GetAfterBind(old(Frames), t, key, obj, k);
      }
      GetAfterBind(old(Frames), t, key, obj, key);
    }

    /** `AddFunction(fn)`: appends to the current frame's functions only; a non-Function panics in the source. */
    method AddFunction(fn: Object)
      requires Valid() && fn.Function?
      modifies this
      ensures Valid()
      ensures Frames == old(Frames)[0 := Frame(old(Frames)[0].store, old(Frames)[0].functions + [fn.fn])]
    {
      Frames := Frames[0 := Frame(Frames[0].store, Frames[0].functions + [fn.fn])];
    }
  }
}
