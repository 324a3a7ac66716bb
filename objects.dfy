/**
 * The runtime object model: the tagged object value, structural equality,
 * forgiving index and key access, class method lookup and the rendering of
 * a function value.
 *
 * Objects are values here. The operations that update a collection, a map or
 * an instance in place are methods of the classes in module Containers.
 */
module Objects {
  import opened Common
  import Ast
  import Text

  datatype Object =
    | Number(number: Ast.Float)
    | String(text: string)
    | Boolean(truth: bool)
    | Char(ch: char)
    | Null
    | Tuple(elems: seq<Object>)
    | Array(elems: seq<Object>)
      /** Values and original keys, both indexed by the key's hash. */
    | Map(values: map<string, Object>, keys: map<string, Object>)
    | Block(params: seq<Ast.Expr>, body: Ast.Stmt)
    | Class(cls: ClassValue)
    | Instance(base: ClassValue, data: map<string, Object>)
    | Function(fn: FunctionValue)
      /** A class member: a function found by method lookup. */
    | Method(fn: FunctionValue)

  /** A class: its name, its parent class if any, and its members (only `Method` entries are methods). */
  datatype ClassValue = ClassValue(name: string, parent: Option<ClassValue>, methods: seq<Object>)

  /** A function: its call pattern and its own compiled body, constants, names and patterns. */
  datatype FunctionValue = FunctionValue(
    pattern: seq<Ast.Expr>,
    body: seq<Byte>,
    constants: seq<Object>,
    names: seq<string>,
    patterns: seq<string>)

  datatype Type =
    | NumberType | StringType | BooleanType | CharType | NullType
    | TupleType | ArrayType | MapType | BlockType | ClassType | InstanceType
    | FunctionType | MethodType

  /** The type tag of an object (the `Type()` methods). */
  function TypeOf(o: Object): (t: Type)
    ensures t == FunctionType <==> o.Function?
    ensures t == TupleType <==> o.Tuple?
    ensures t == ArrayType <==> o.Array?
  {
    match o
    case Number(_) => NumberType
    case String(_) => StringType
    case Boolean(_) => BooleanType
    case Char(_) => CharType
    case Null => NullType
    case Tuple(_) => TupleType
    case Array(_) => ArrayType
    case Map(_, _) => MapType
    case Block(_, _) => BlockType
    case Class(_) => ClassType
    case Instance(_, _) => InstanceType
    case Function(_) => FunctionType
    case Method(_) => MethodType
  }

  /**
   * `a.Equals(o)`, with `a` the receiver.
   *  - Tuple, Array: `o` is of the same kind, has the same length and the
   *    elements are pairwise equal in order.
   *  - Map: same number of entries, and every hash of the receiver is present
   *    in `o` with an equal value.
   *  - Block: any Block. Function: any Function.
   *  - Class: the names are equal.
   *  - Instance: `o`'s base equals the receiver's base, and every field of
   *    the receiver equals `o`'s field of the same name; a field missing in
   *    `o` reads as nil, which nothing equals. Fields only `o` has are not
   *    looked at.
   *  - The other kinds: same kind and same payload.
   */
  function Equals(a: Object, o: Object): bool
    decreases a
  {
    match a
    case Tuple(xs) =>
      o.Tuple? && |o.elems| == |xs| && forall i :: 0 <= i < |xs| ==> Equals(xs[i], o.elems[i])
    case Array(xs) =>
      o.Array? && |o.elems| == |xs| && forall i :: 0 <= i < |xs| ==> Equals(xs[i], o.elems[i])
    case Map(vs, _) =>
      o.Map? && |o.values| == |vs| && forall k :: k in vs ==> k in o.values && Equals(vs[k], o.values[k])
    case Block(_, _) => o.Block?
    case Class(c) => o.Class? && o.cls.name == c.name
    case Instance(base, data) =>
      o.Instance? && o.base.name == base.name
      && forall k :: k in data ==> k in o.data && Equals(data[k], o.data[k])
    case Function(_) => o.Function?
    case _ => o == a
  }

  /** Two equal objects always have the same type tag. */
  lemma {:induction false} EqualsSameType(a: Object, o: Object)
    requires Equals(a, o)
    ensures TypeOf(a) == TypeOf(o)
  {
  }

  /** Every object equals itself. */
  lemma {:induction false} EqualsReflexive(a: Object)
    ensures Equals(a, a)
    decreases a
  {
    match a
    case Tuple(xs) =>
      forall i | 0 <= i < |xs| ensures Equals(xs[i], xs[i]) {
        EqualsReflexive(xs[i]);
      }
    case Array(xs) =>
      forall i | 0 <= i < |xs| ensures Equals(xs[i], xs[i]) {
        EqualsReflexive(xs[i]);
      }
    case Map(vs, _) =>
      forall k | k in vs ensures Equals(vs[k], vs[k]) {
        EqualsReflexive(vs[k]);
      }
    case Instance(_, data) =>
      forall k | k in data ensures Equals(data[k], data[k]) {
        EqualsReflexive(data[k]);
      }
    case _ =>
  }

  /** A Tuple never equals an Array, nor an Array a Tuple, whatever their elements. */
  lemma TupleNeverArray(xs: seq<Object>, ys: seq<Object>)
    ensures !Equals(Tuple(xs), Array(ys)) && !Equals(Array(xs), Tuple(ys))
  {
  }

  /**
   * Map equality compares only the receiver's hashes against the other map,
   * but together with the equal count this forces equal hash sets.
   */
  lemma MapEqualsSameHashes(a: Object, o: Object)
    requires a.Map? && Equals(a, o)
    ensures o.Map? && a.values.Keys == o.values.Keys
  {
    assert a.values.Keys <= o.values.Keys;
    SubsetOfSameSize(a.values.Keys, o.values.Keys);
  }

  lemma SubsetOfSameSize<T>(s: set<T>, t: set<T>)
    requires s <= t && |s| == |t|
    ensures s == t
  {
    assert t == s + (t - s);
    assert s * (t - s) == {};
    assert |t - s| == 0;
  }

  /** Instance equality is not symmetric: the receiver's extra fields matter, the other's do not. */
  lemma InstanceEqualsAsymmetric()
    ensures
      var c := ClassValue("Point", None, []);
      var small := Instance(c, map["x" := Null]);
      var large := Instance(c, map["x" := Null, "y" := Null]);
      Equals(small, large) && !Equals(large, small)
  {
    var c := ClassValue("Point", None, []);
    var large := Instance(c, map["x" := Null, "y" := Null]);
    assert "y" in large.data;
  }

  /** Any Block equals any Block, any Function any Function; Classes are equal exactly when their names are. */
  lemma EqualsByKind(a: Object, o: Object)
    ensures a.Block? ==> (Equals(a, o) <==> o.Block?)
    ensures a.Function? ==> (Equals(a, o) <==> o.Function?)
    ensures a.Class? ==> (Equals(a, o) <==> o.Class? && o.cls.name == a.cls.name)
  {
  }

  /*
   * Collections and containers.
   */

  /** `GetIndex(i)` of a Tuple or Array: Null for `i < 0` or `i >= len`. */
  function GetIndex(o: Object, i: int): (r: Object)
    requires o.Tuple? || o.Array?
    ensures r == Null || r in o.elems
  {
    if i >= |o.elems| || i < 0 then Null else o.elems[i]
  }

  /** `Map.Get(key)`: Null for a key without a hash or a hash without an entry. */
  function MapGet(m: Object, key: Object, hasher: Object -> Option<string>): (r: Object)
    requires m.Map?
    ensures r == Null || r in m.values.Values
  {
    match hasher(key)
    case None => Null
    case Some(h) => if h in m.values then m.values[h] else Null
  }

  /** `Instance.Get(key)`: only a String key can find a field. */
  function InstanceGet(inst: Object, key: Object): (r: Object)
    requires inst.Instance?
    ensures r == Null || r in inst.data.Values
  {
    if !key.String? then Null
    else if key.text in inst.data then inst.data[key.text]
    else Null
  }

  /** Out-of-range and unusable keys read as Null rather than failing. */
  lemma ForgivingReads(o: Object, i: int, m: Object, key: Object, hasher: Object -> Option<string>, inst: Object)
    requires o.Tuple? || o.Array?
    requires m.Map? && inst.Instance?
    ensures !(0 <= i < |o.elems|) ==> GetIndex(o, i) == Null
    ensures 0 <= i < |o.elems| ==> GetIndex(o, i) == o.elems[i]
    ensures hasher(key).None? ==> MapGet(m, key, hasher) == Null
    ensures hasher(key).Some? && hasher(key).value !in m.values ==> MapGet(m, key, hasher) == Null
    ensures !key.String? ==> InstanceGet(inst, key) == Null
  {
  }

  /*
   * Class methods.
   */

  /** The `Method` entries of a member list, in order. */
  function OwnMethods(members: seq<Object>): (r: seq<FunctionValue>)
    ensures |r| <= |members|
    ensures forall f :: f in r <==> Method(f) in members
    decreases |members|
  {
    if members == [] then []
    else
      var rest := OwnMethods(members[1..]);
      assert forall f :: Method(f) in members <==> members[0] == Method(f) || Method(f) in members[1..];
      if members[0].Method? then [members[0].fn] + rest else rest
  }

  /**
   * `OwnMethods` keeps each `Method` entry once, in member order: it
   * distributes over concatenation and keeps exactly a single `Method`.
   */
  lemma {:induction false} OwnMethodsAppend(a: seq<Object>, b: seq<Object>)
    ensures OwnMethods(a + b) == OwnMethods(a) + OwnMethods(b)
    ensures forall m :: OwnMethods([m]) == if m.Method? then [m.fn] else []
    decreases |a|
  {
    if a == [] {
      assert a + b == b;
    } else {
      assert (a + b)[1..] == a[1..] + b;
      OwnMethodsAppend(a[1..], b);
    }
    forall m ensures OwnMethods([m]) == if m.Method? then [m.fn] else [] {
      assert [m][1..] == [];
    }
  }

  /** `GetMethods`: the parent chain's methods first, then the class's own. */
  function GetMethods(c: ClassValue): seq<FunctionValue>
    decreases c
  {
    match c.parent
    case None => OwnMethods(c.methods)
    case Some(p) => GetMethods(p) + OwnMethods(c.methods)
  }

  /** The class followed by its parent, its parent's parent, and so on. */
  function Ancestry(c: ClassValue): (r: seq<ClassValue>)
    ensures |r| >= 1 && r[0] == c
    decreases c
  {
    match c.parent
    case None => [c]
    case Some(p) => [c] + Ancestry(p)
  }

  /**
   * The methods `GetMethods` returns are exactly the `Method` members of the
   * class and its ancestors, and the parent's come first.
   */
  lemma {:induction false} GetMethodsFromAncestry(c: ClassValue)
    ensures forall f :: f in GetMethods(c) <==> exists a :: a in Ancestry(c) && Method(f) in a.methods
    ensures c.parent.Some? ==> GetMethods(c.parent.value) <= GetMethods(c)
    ensures c.parent.None? ==> GetMethods(c) == OwnMethods(c.methods)
    ensures c.parent.Some? ==> GetMethods(c)[|GetMethods(c.parent.value)|..] == OwnMethods(c.methods)
    decreases c
  {
    match c.parent
    case None =>
    case Some(p) =>
      GetMethodsFromAncestry(p);
      assert Ancestry(c) == [c] + Ancestry(p);
  }

  /** Whether a pattern word matches a pattern item: `$` against a Parameter, or an Identifier's own text. */
  predicate ItemMatches(word: string, item: Ast.Expr) {
    (word == "$" && item.Parameter?) || (item.Identifier? && word == item.tok)
  }

  predicate PatternMatches(words: seq<string>, pattern: seq<Ast.Expr>) {
    |words| == |pattern| && forall i :: 0 <= i < |pattern| ==> ItemMatches(words[i], pattern[i])
  }

  /** The first function of `fns` whose pattern matches `words`. */
  function FirstMatch(fns: seq<FunctionValue>, words: seq<string>): (r: Option<FunctionValue>)
    ensures r.None? <==> forall k :: 0 <= k < |fns| ==> !PatternMatches(words, fns[k].pattern)
    ensures r.Some? ==> exists k :: (0 <= k < |fns| && fns[k] == r.value
      && PatternMatches(words, fns[k].pattern)
      && forall j :: 0 <= j < k ==> !PatternMatches(words, fns[j].pattern))
    decreases |fns|
  {
    if fns == [] then None
    else if PatternMatches(words, fns[0].pattern) then Some(fns[0])
    else
      var r := FirstMatch(fns[1..], words);
      assert r.Some? ==> exists k :: (0 <= k < |fns[1..]| && fns[1..][k] == r.value
        && PatternMatches(words, fns[1..][k].pattern)
        && (forall j :: 0 <= j < k ==> !PatternMatches(words, fns[1..][j].pattern))
        && fns[k + 1] == r.value);
      r
  }

  /** `GetMethod(pattern)`: split the pattern on single spaces and return the first method that matches. */
  function GetMethod(c: ClassValue, pattern: string): (r: Option<FunctionValue>)
    ensures r.Some? ==> r.value in GetMethods(c) && PatternMatches(Text.Split(pattern, ' '), r.value.pattern)
  {
    FirstMatch(GetMethods(c), Text.Split(pattern, ' '))
  }

  /** A matching method of the parent chain wins over any of the class's own. */
  lemma ParentMethodsFirst(c: ClassValue, pattern: string)
    requires c.parent.Some? && GetMethod(c.parent.value, pattern).Some?
    ensures GetMethod(c, pattern) == GetMethod(c.parent.value, pattern)
  {
    var words := Text.Split(pattern, ' ');
    FirstMatchPrefix(GetMethods(c.parent.value), OwnMethods(c.methods), words);
  }

  lemma {:induction false} FirstMatchPrefix(fns: seq<FunctionValue>, more: seq<FunctionValue>, words: seq<string>)
    requires FirstMatch(fns, words).Some?
    ensures FirstMatch(fns + more, words) == FirstMatch(fns, words)
    decreases |fns|
  {
    if !PatternMatches(words, fns[0].pattern) {
      FirstMatchPrefix(fns[1..], more, words);
      assert (fns + more)[1..] == fns[1..] + more;
    }
  }

  /*
   * Function values.
   */

  /** The words of a rendered pattern: `$` for a Parameter, the token text otherwise. */
  function PatternWords(pattern: seq<Ast.Expr>): (r: seq<string>)
    ensures |r| == |pattern|
    ensures forall i :: 0 <= i < |pattern| ==> r[i] == if pattern[i].Parameter? then "$" else pattern[i].tok
    decreases |pattern|
  {
    if pattern == [] then []
    else [if pattern[0].Parameter? then "$" else pattern[0].tok] + PatternWords(pattern[1..])
  }

  /** `Function.String()`: `<function: ` + the pattern words joined by single spaces + `>`. */
  function FunctionString(f: FunctionValue): (r: string)
    ensures |r| >= 12 && r[..11] == "<function: " && r[|r| - 1] == '>'
  {
    "<function: " + Text.Join(PatternWords(f.pattern), ' ') + ">"
  }

  /**
   * The rendering starts with `<function: ` and ends with `>`; an empty
   * pattern renders as `<function: >`; and when no token text contains a
   * space, splitting what lies between gives back one word per pattern item.
   */
  lemma FunctionStringWords(f: FunctionValue)
    ensures var s := FunctionString(f);
      |s| >= 12 && s[..11] == "<function: " && s[|s| - 1] == '>'
    ensures f.pattern == [] ==> FunctionString(f) == "<function: >"
    ensures |f.pattern| >= 1 && (forall i :: 0 <= i < |f.pattern| ==> ' ' !in f.pattern[i].tok) ==>
      var s := FunctionString(f);
      Text.Split(s[11..|s| - 1], ' ') == PatternWords(f.pattern)
  {
    var words := PatternWords(f.pattern);
    var s := FunctionString(f);
    assert s[11..|s| - 1] == Text.Join(words, ' ');
    if |f.pattern| >= 1 && forall i :: 0 <= i < |f.pattern| ==> ' ' !in f.pattern[i].tok {
      forall i | 0 <= i < |words| ensures ' ' !in words[i] {
        assert words[i] == "$" || words[i] == f.pattern[i].tok;
      }
      Text.SplitJoin(words, ' ');
    }
  }

  /**
   * A method whose pattern is built from Identifiers and Parameters whose
   * token texts hold no space is found by looking up its own rendered
   * pattern (the method found is the first one with a matching pattern).
   */
  lemma GetMethodFindsRendered(c: ClassValue, f: FunctionValue)
    requires f in GetMethods(c)
    requires |f.pattern| >= 1
    requires forall i :: 0 <= i < |f.pattern| ==>
      (f.pattern[i].Identifier? || f.pattern[i].Parameter?) && ' ' !in f.pattern[i].tok
    ensures GetMethod(c, Text.Join(PatternWords(f.pattern), ' ')).Some?
      && PatternMatches(PatternWords(f.pattern), GetMethod(c, Text.Join(PatternWords(f.pattern), ' ')).value.pattern)
  {
    var words := PatternWords(f.pattern);
    forall i | 0 <= i < |words| ensures ' ' !in words[i] {
    }
    Text.SplitJoin(words, ' ');
    assert PatternMatches(words, f.pattern);
  }

  /** A method with an empty pattern is never found: a split pattern always has at least one word. */
  lemma EmptyPatternNeverFound(c: ClassValue, pattern: string)
    requires GetMethod(c, pattern).Some?
    ensures |GetMethod(c, pattern).value.pattern| >= 1
  {
  }
}
