/** Arrays indexed by the keys of an enumeration (`enum_array`), the Boolean
 *  specialisation used as a set of flags, and its iterator over the set
 *  flags. An enumeration's keys are the integers of a half-open range
 *  [first, past-the-last), given by its `enum_array_keys` specialisation. */
module EnumArrays {
  import opened Errors

  /** `enum_array_keys<E>`: the first key and the one past the last. */
  datatype Keys = Keys(first: int, pastTheLast: int) {
    predicate Valid() {
      first <= pastTheLast
    }

    /** capacity: the number of keys. */
    function Capacity(): nat
      requires Valid()
    {
      pastTheLast - first
    }

    /** within_bounds(k): k lies in the half-open range. */
    predicate WithinBounds(k: int) {
      first <= k < pastTheLast
    }
  }

  /** Capacity and the bounds check agree: exactly `Capacity()` keys are
   *  within bounds, and the k-th of them is first + k. */
  lemma WithinBoundsCounts(keys: Keys, k: int)
    requires keys.Valid()
    ensures keys.WithinBounds(k) <==> 0 <= k - keys.first < keys.Capacity()
  {
  }

  /** `enum_array_core<E, T>` with the values in a fixed-size buffer. */
  class EnumArray<T> {
    const keys: Keys
    const collection: array<T>

    predicate Valid()
      reads this
    {
      keys.Valid() && collection.Length == keys.Capacity()
    }

    /** The values in key order. */
    function Values(): seq<T>
      reads this, collection
    {
      collection[..]
    }

    /** `enum_array(value)`: every key holds `value`; the default constructor
     *  is this with the value-initialised element. */
    constructor (keys: Keys, value: T)
      requires keys.Valid()
      ensures Valid() && this.keys == keys && fresh(collection)
      ensures Values() == seq(keys.Capacity(), _ => value)
    {
      this.keys := keys;
      collection := new T[keys.Capacity()](_ => value);
    }

    /** size(): the capacity, whatever the values. */
    function Size(): (n: nat)
      requires Valid()
      reads this
      ensures n == collection.Length
      ensures n == 0 <==> keys.first == keys.pastTheLast
    {
      keys.Capacity()
    }

    /** fill(value). */
    method Fill(value: T)
      requires Valid()
      modifies collection
      ensures Values() == seq(keys.Capacity(), _ => value)
    {
      var i := 0;
      while i < collection.Length
        invariant 0 <= i <= collection.Length
        invariant forall j :: 0 <= j < i ==> collection[j] == value
      {
        collection[i] := value;
        i := i + 1;
      }
    }

    /** at(index) for reading: keys outside the range throw std::out_of_range. */
    method At(k: int) returns (r: Result<T>)
      requires Valid()
      ensures r.Err? <==> !keys.WithinBounds(k)
      ensures r.Err? ==> r.failure == OutOfRange
      ensures r.Ok? ==> r.value == Values()[k - keys.first]
    {
      if !keys.WithinBounds(k) {
        return Err(OutOfRange);
      }
      r := Ok(collection[k - keys.first]);
    }

    /** at(index) for writing: the same check, then exactly one value changes. */
    method AtPut(k: int, value: T) returns (r: Result<()>)
      requires Valid()
      modifies collection
      ensures r.Err? <==> !keys.WithinBounds(k)
      ensures r.Err? ==> r.failure == OutOfRange && Values() == old(Values())
      ensures r.Ok? ==> Values() == old(Values())[k - keys.first := value]
    {
      if !keys.WithinBounds(k) {
        return Err(OutOfRange);
      }
      collection[k - keys.first] := value;
      r := Ok(());
    }
  }

  /** zero(): no element differs from the value-initialised one `z`. */
  method IsZero<T(==)>(a: EnumArray<T>, z: T) returns (b: bool)
    requires a.Valid()
    ensures b <==> forall i :: 0 <= i < |a.Values()| ==> a.Values()[i] == z
  {
    var i := 0;
    while i < a.collection.Length
      invariant 0 <= i <= a.collection.Length
      invariant forall j :: 0 <= j < i ==> a.collection[j] == z
    {
      if a.collection[i] != z {
        assert a.Values()[i] != z;
        return false;
      }
      i := i + 1;
    }
    b := true;
  }

  // ~~ flags ~~

  /** The flags after set(flag): out-of-range keys change nothing. */
  function Raised(data: seq<bool>, keys: Keys, flag: int): (d: seq<bool>)
    ensures |d| == |data|
  {
    if keys.WithinBounds(flag) && 0 <= flag - keys.first < |data| then data[flag - keys.first := true] else data
  }

  /** The flags after unset(flag). */
  function Lowered(data: seq<bool>, keys: Keys, flag: int): (d: seq<bool>)
    ensures |d| == |data|
  {
    if keys.WithinBounds(flag) && 0 <= flag - keys.first < |data| then data[flag - keys.first := false] else data
  }

  /** set and unset touch only the flag they name, and only when it is in
   *  range; afterwards `has` reports what they did. */
  lemma RaisedLoweredSpec(data: seq<bool>, keys: Keys, flag: int, k: int)
    requires keys.Valid() && |data| == keys.Capacity() && keys.WithinBounds(k)
    ensures Raised(data, keys, flag)[k - keys.first] == (k == flag || data[k - keys.first])
    ensures Lowered(data, keys, flag)[k - keys.first] == (k != flag && data[k - keys.first])
  {
  }

  /** The keys whose flags are set, from key `position` on, in ascending order. */
  function MarkedFrom(data: seq<bool>, first: int, position: int): seq<int>
    requires first <= position
    decreases |data| - (position - first)
  {
    if position - first >= |data| then []
    else (if data[position - first] then [position] else []) + MarkedFrom(data, first, position + 1)
  }

  /** The iteration yields exactly the set flags from `position` on, each
   *  once, in strictly ascending key order. */
  lemma {:induction false} MarkedFromSpec(data: seq<bool>, first: int, position: int)
    requires first <= position
    ensures forall i :: 0 <= i < |MarkedFrom(data, first, position)| ==>
      var k := MarkedFrom(data, first, position)[i];
      position <= k < first + |data| && data[k - first]
    ensures forall k :: position <= k < first + |data| && data[k - first] ==> k in MarkedFrom(data, first, position)
    ensures forall i, j :: 0 <= i < j < |MarkedFrom(data, first, position)| ==>
      MarkedFrom(data, first, position)[i] < MarkedFrom(data, first, position)[j]
    decreases |data| - (position - first)
  {
    if position - first < |data| {
      MarkedFromSpec(data, first, position + 1);
    }
  }

  /** advance_to_true(): the first key at or after `position` whose flag is
   *  set, or past-the-last when there is none. */
  function NextMarked(data: seq<bool>, first: int, position: int): (p: int)
    requires first <= position <= first + |data|
    ensures position <= p <= first + |data|
    ensures p < first + |data| ==> data[p - first]
    ensures forall i :: position - first <= i < p - first ==> !data[i]
    decreases |data| - (position - first)
  {
    if position - first == |data| || data[position - first] then position
    else NextMarked(data, first, position + 1)
  }

  /** Skipping unset flags does not change what is left to yield. */
  lemma {:induction false} SkipUnmarked(data: seq<bool>, first: int, position: int)
    requires first <= position <= first + |data|
    ensures MarkedFrom(data, first, position) == MarkedFrom(data, first, NextMarked(data, first, position))
    decreases |data| - (position - first)
  {
    if position - first < |data| && !data[position - first] {
      SkipUnmarked(data, first, position + 1);
    }
  }

  class Flags {
    const keys: Keys
    const collection: array<bool>

    predicate Valid()
      reads this
    {
      keys.Valid() && collection.Length == keys.Capacity()
    }

    function Values(): seq<bool>
      reads this, collection
    {
      collection[..]
    }

    /** The default constructor: no flag is set. */
    constructor (keys: Keys)
      requires keys.Valid()
      ensures Valid() && this.keys == keys && fresh(collection)
      ensures Values() == seq(keys.Capacity(), _ => false)
    {
      this.keys := keys;
      collection := new bool[keys.Capacity()](_ => false);
    }

    /** The initializer-list constructor: each listed flag in range is set;
     *  out-of-range ones are skipped. */
    constructor FromList(keys: Keys, flags: seq<int>)
      requires keys.Valid()
      ensures Valid() && this.keys == keys && fresh(collection)
      ensures forall k :: keys.WithinBounds(k) ==> (Values()[k - keys.first] <==> k in flags)
    {
      this.keys := keys;
      collection := new bool[keys.Capacity()](_ => false);
      new;
      var i := 0;
      while i < |flags|
        invariant 0 <= i <= |flags|
        invariant forall k :: keys.WithinBounds(k) ==> (collection[k - keys.first] <==> k in flags[..i])
      {
        var k := flags[i];
        if keys.WithinBounds(k) {
          collection[k - keys.first] := true;
        }
        assert flags[..i + 1] == flags[..i] + [flags[i]];
        i := i + 1;
      }
      assert flags[..i] == flags;
    }

    /** has(flag): false for keys out of range. */
    function Has(flag: int): (b: bool)
      requires Valid()
      reads this, collection
      ensures b <==> keys.WithinBounds(flag) && Values()[flag - keys.first]
    {
      if !keys.WithinBounds(flag) then false else collection[flag - keys.first]
    }

    method Set(flag: int)
      requires Valid()
      modifies collection
      ensures Values() == Raised(old(Values()), keys, flag)
    {
      if !keys.WithinBounds(flag) {
        return;
      }
      collection[flag - keys.first] := true;
    }

    method Unset(flag: int)
      requires Valid()
      modifies collection
      ensures Values() == Lowered(old(Values()), keys, flag)
    {
      if !keys.WithinBounds(flag) {
        return;
      }
      collection[flag - keys.first] := false;
    }

    /** `|=`: element-wise "or" (also when `other` is this set itself). */
    method OrAssign(other: Flags)
      requires Valid() && other.Valid() && other.keys == keys
      modifies collection
      ensures forall i :: 0 <= i < collection.Length ==>
        collection[i] == (old(collection[i]) || old(other.collection[i]))
    {
      var i := 0;
      while i < collection.Length
        invariant 0 <= i <= collection.Length
        invariant forall j :: 0 <= j < i ==> collection[j] == (old(collection[j]) || old(other.collection[j]))
        invariant forall j :: i <= j < collection.Length ==> collection[j] == old(collection[j])
        invariant forall j :: i <= j < collection.Length ==> other.collection[j] == old(other.collection[j])
      {
        collection[i] := collection[i] || other.collection[i];
        i := i + 1;
      }
    }

    /** `&=`: element-wise "and". */
    method AndAssign(other: Flags)
      requires Valid() && other.Valid() && other.keys == keys
      modifies collection
      ensures forall i :: 0 <= i < collection.Length ==>
        collection[i] == (old(collection[i]) && old(other.collection[i]))
    {
      var i := 0;
      while i < collection.Length
        invariant 0 <= i <= collection.Length
        invariant forall j :: 0 <= j < i ==> collection[j] == (old(collection[j]) && old(other.collection[j]))
        invariant forall j :: i <= j < collection.Length ==> collection[j] == old(collection[j])
        invariant forall j :: i <= j < collection.Length ==> other.collection[j] == old(other.collection[j])
      {
        collection[i] := collection[i] && other.collection[i];
        i := i + 1;
      }
    }

    /** `^=`: element-wise "exclusive or". */
    method XorAssign(other: Flags)
      requires Valid() && other.Valid() && other.keys == keys
      modifies collection
      ensures forall i :: 0 <= i < collection.Length ==>
        collection[i] == (old(collection[i]) != old(other.collection[i]))
    {
      var i := 0;
      while i < collection.Length
        invariant 0 <= i <= collection.Length
        invariant forall j :: 0 <= j < i ==> collection[j] == (old(collection[j]) != old(other.collection[j]))
        invariant forall j :: i <= j < collection.Length ==> collection[j] == old(collection[j])
        invariant forall j :: i <= j < collection.Length ==> other.collection[j] == old(other.collection[j])
      {
        collection[i] := collection[i] != other.collection[i];
        i := i + 1;
      }
    }

    /** A range-based for over the flags: from begin() to end(), the keys
     *  the iterator dereferences to, in order. */
    method Marked() returns (marked: seq<int>)
      requires Valid()
      ensures marked == MarkedFrom(Values(), keys.first, keys.first)
    {
      ghost var data := collection[..];
      var it := new FlagIterator(collection, keys, keys.first);
      marked := [];
      SkipUnmarked(data, keys.first, keys.first);
      while it.position != keys.pastTheLast
        invariant it.data == collection && it.keys == keys && it.Valid()
        invariant marked + MarkedFrom(data, keys.first, it.position) == MarkedFrom(data, keys.first, keys.first)
        invariant it.position == keys.pastTheLast || data[it.position - keys.first]
        decreases keys.pastTheLast - it.position
      {
        ghost var p := it.position;
        MarkedStep(data, keys.first, p);
        Regroup(marked, [p], MarkedFrom(data, keys.first, p + 1));
        marked := marked + [it.Current()];
        SkipUnmarked(data, keys.first, p + 1);
        it.Increment();
      }
    }
  }

  lemma MarkedStep(data: seq<bool>, first: int, p: int)
    requires first <= p < first + |data| && data[p - first]
    ensures MarkedFrom(data, first, p) == [p] + MarkedFrom(data, first, p + 1)
  {
  }

  lemma Regroup<U>(a: seq<U>, b: seq<U>, c: seq<U>)
    ensures a + b + c == a + (b + c)
  {
  }

  /** The Boolean iterator: a position that always rests on a set flag or on
   *  past-the-last. */
  class FlagIterator {
    const data: array<bool>
    const keys: Keys
    var position: int

    predicate Valid()
      reads this
    {
      keys.Valid() && data.Length == keys.Capacity() && keys.first <= position <= keys.pastTheLast
    }

    /** The constructor moves at once to the first set flag at or after `position`. */
    constructor (data: array<bool>, keys: Keys, position: int)
      requires keys.Valid() && data.Length == keys.Capacity() && keys.first <= position <= keys.pastTheLast
      ensures Valid() && this.data == data && this.keys == keys
      ensures this.position == NextMarked(data[..], keys.first, position)
    {
      this.data := data;
      this.keys := keys;
      this.position := position;
      new;
      AdvanceToTrue();
    }

    method AdvanceToTrue()
      requires Valid()
      modifies this
      ensures Valid()
      ensures position == NextMarked(data[..], keys.first, old(position))
    {
      var index := position - keys.first;
      while index != keys.Capacity()
        invariant Valid() && index == position - keys.first
        invariant NextMarked(data[..], keys.first, position) == NextMarked(data[..], keys.first, old(position))
        decreases keys.Capacity() - index
      {
        if data[index] {
          break;
        }
        index := index + 1;
        position := position + 1;
      }
    }

    /** `*it`: the key at the current position. */
    function Current(): int
      reads this
    {
      position
    }

    /** `++it`: nothing at the end; otherwise on to the next set flag. */
    method Increment()
      requires Valid()
      modifies this
      ensures Valid()
      ensures old(position) == keys.pastTheLast ==> position == old(position)
      ensures old(position) < keys.pastTheLast ==> position == NextMarked(data[..], keys.first, old(position) + 1)
    {
      if position == keys.pastTheLast {
        return;
      }
      position := position + 1;
      AdvanceToTrue();
    }
  }

  /** The library's flag test, on mystruct's keys 0..3 (maybe, perhaps,
   *  almost_surely, surely): {almost_surely, surely}, then set maybe and
   *  perhaps, unset almost_surely and maybe, leaves perhaps and surely set,
   *  whose keys sum to 1 + 3. */
  lemma FlagsTest()
    ensures var keys := Keys(0, 4);
      var start := seq(4, k => k == 2 || k == 3);
      var data := Lowered(Lowered(Raised(Raised(start, keys, 0), keys, 1), keys, 2), keys, 0);
      && MarkedFrom(data, 0, 0) == [1, 3]
      && MarkedFrom(data, 0, 0)[0] + MarkedFrom(data, 0, 0)[1] == 1 + 3
  {
    var keys := Keys(0, 4);
    var start := seq(4, k => k == 2 || k == 3);
    var data := Lowered(Lowered(Raised(Raised(start, keys, 0), keys, 1), keys, 2), keys, 0);
    assert data == [false, true, false, true];
    assert MarkedFrom(data, 0, 3) == [3] + MarkedFrom(data, 0, 4);
    assert MarkedFrom(data, 0, 2) == MarkedFrom(data, 0, 3);
  }

  /** `enum_array<E, void>`: the list of every key, in order. */
  method AllKeys(keys: Keys) returns (a: array<int>)
    requires keys.Valid()
    ensures fresh(a) && a.Length == keys.Capacity()
    ensures forall i :: 0 <= i < a.Length ==> a[i] == keys.first + i && keys.WithinBounds(a[i])
  {
    a := new int[keys.Capacity()];
    var k := keys.first;
    while k < keys.pastTheLast
      invariant keys.first <= k <= keys.pastTheLast
      invariant forall i :: 0 <= i < k - keys.first ==> a[i] == keys.first + i
    {
      a[k - keys.first] := k;
      k := k + 1;
    }
  }
}
