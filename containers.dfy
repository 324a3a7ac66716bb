/**
 * The compound objects whose contents are updated in place: a Tuple or Array
 * (`SetIndex`), a Map (`Set`, keeping the hash-indexed `Values` and `Keys`
 * maps in step) and an Instance (`Set` of a field).
 */
module Containers {
  import opened Common
  import opened Objects

  /** A Tuple or an Array, with its element slice. */
  class Collection {
    const IsTuple: bool
    var Value: seq<Object>

    constructor (isTuple: bool, elems: seq<Object>)
      ensures IsTuple == isTuple && Value == elems
    {
      IsTuple := isTuple;
      Value := elems;
    }

    /** The object value this collection currently stands for. */
    function AsObject(): (o: Object)
      reads this
      ensures o.Tuple? || o.Array?
      ensures o.elems == Value
    {
      if IsTuple then Tuple(Value) else Array(Value)
    }

    /**
     * `SetIndex(i, o)`: out of range (`i < 0` or `i >= len`) nothing changes;
     * otherwise only slot `i` is replaced. The length never changes, and
     * reading slot `i` back gives `o`.
     */
    method SetIndex(i: int, o: Object)
      modifies this
      ensures |Value| == |old(Value)|
      ensures !(0 <= i < |old(Value)|) ==> Value == old(Value)
      ensures 0 <= i < |old(Value)| ==> Value == old(Value)[i := o]
      ensures 0 <= i < |old(Value)| ==> GetIndex(AsObject(), i) == o
      ensures forall j :: 0 <= j < |Value| && j != i ==> Value[j] == old(Value)[j]
    {
      if i >= |Value| || i < 0 {
        return;
      }
      Value := Value[i := o];
    }
  }

  /** A Map: values and original keys, both indexed by the key's hash. */
  class MapObject {
    var Values: map<string, Object>
    var Keys: map<string, Object>

    constructor ()
      ensures Values == map[] && Keys == map[]
    {
      Values := map[];
      Keys := map[];
    }

    /** Both maps hold the same hashes, and each stored key hashes to its own slot. */
    predicate Valid(hasher: Object -> Option<string>)
      reads this
    {
      Values.Keys == Keys.Keys
      && forall h :: h in Keys ==> hasher(Keys[h]) == Some(h)
    }

    function AsObject(): (o: Object)
      reads this
      ensures o.Map? && o.values == Values && o.keys == Keys
    {
      Map(Values, Keys)
    }

    /**
     * `Set(key, value)`: a hashable key writes `Values[h]` and `Keys[h]` for
     * its hash `h`; a key without a hash changes nothing. Both maps keep the
     * same hashes, and `Get` of the key afterwards returns `value`.
     */
    method Set(key: Object, value: Object, hasher: Object -> Option<string>)
      requires Valid(hasher)
      modifies this
      ensures Valid(hasher)
      ensures hasher(key).None? ==> Values == old(Values) && Keys == old(Keys)
      ensures hasher(key).Some? ==>
        Values == old(Values)[hasher(key).value := value]
        && Keys == old(Keys)[hasher(key).value := key]
      ensures hasher(key).Some? ==> MapGet(AsObject(), key, hasher) == value
    {
      match hasher(key)
      case None =>
      case Some(h) =>
        Values := Values[h := value];
        Keys := Keys[h := key];
    }
  }

  /** An instance of a class, with its fields. */
  class InstanceObject {
    const Base: ClassValue
    var Data: map<string, Object>

    constructor (base: ClassValue)
      ensures Base == base && Data == map[]
    {
      Base := base;
      Data := map[];
    }

    function AsObject(): (o: Object)
      reads this
      ensures o.Instance? && o.base == Base && o.data == Data
    {
      Instance(Base, Data)
    }

    /**
     * `Set(key, value)`: only a String key writes a field; any other key
     * leaves the fields unchanged. Reading a written field gives `value`.
     */
    method Set(key: Object, value: Object)
      modifies this
      ensures !key.String? ==> Data == old(Data)
      ensures key.String? ==> Data == old(Data)[key.text := value]
      ensures key.String? ==> InstanceGet(AsObject(), key) == value
    {
      if key.String? {
        Data := Data[key.text := value];
      }
    }
  }

  /** Writing a hash leaves every other hash's value readable as before. */
  lemma MapSetFrame(m: Object, key: Object, value: Object, other: Object, hasher: Object -> Option<string>)
    requires m.Map?
    requires hasher(key).Some? && hasher(other) != hasher(key)
    ensures MapGet(Map(m.values[hasher(key).value := value], m.keys[hasher(key).value := key]), other, hasher)
      == MapGet(m, other, hasher)
  {
  }
}
