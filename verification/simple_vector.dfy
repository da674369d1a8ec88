/** A fixed-size sequence stored contiguously (`simple_vector`): a size and
 *  a pointer to storage for that many elements, which copies duplicate and
 *  moves hand over. The element type is default-initialisable, as the
 *  library demands; storage is an array, a null pointer a null array. */
module SimpleVectors {
  import opened Errors

  class SimpleVector<T(0)> {
    var size: nat
    var buffer: array?<T>

    /** The vector owns storage for exactly its elements. A vector that has
     *  been moved from keeps its size but has no storage. */
    ghost predicate Valid()
      reads this
    {
      buffer != null && buffer.Length == size
    }

    function Elements(): (s: seq<T>)
      requires Valid()
      reads this, buffer
      ensures |s| == size
    {
      buffer[..]
    }

    /** simple_vector(): no elements. */
    constructor Empty()
      ensures Valid() && fresh(buffer) && Elements() == []
    {
      size := 0;
      buffer := new T[0];
    }

    /** simple_vector(size, value), and simple_vector(size) with the
     *  value-initialised element: `size` copies of the value. */
    constructor (n: nat, value: T)
      ensures Valid() && fresh(buffer)
      ensures Elements() == seq(n, _ => value)
    {
      var b := new T[n];
      FillArray(b, value);
      size := n;
      buffer := b;
    }

    /** simple_vector(container): the container's elements, in order. */
    constructor FromSeq(container: seq<T>)
      ensures Valid() && fresh(buffer) && Elements() == container
    {
      var b := new T[|container|];
      for i := 0 to |container|
        invariant forall k :: 0 <= k < i ==> b[k] == container[k]
      {
        b[i] := container[i];
      }
      size := |container|;
      buffer := b;
    }

    /** simple_vector(const simple_vector&): the same elements in storage of
     *  its own. */
    constructor Copy(other: SimpleVector<T>)
      requires other.Valid()
      ensures Valid() && fresh(buffer) && Elements() == other.Elements()
    {
      var b := new T[other.size];
      CopyInto(b, other.buffer);
      size := other.size;
      buffer := b;
    }

    /** simple_vector(simple_vector&&): takes over the other vector's storage;
     *  the other vector is left without storage. */
    constructor Move(other: SimpleVector<T>)
      modifies other
      ensures size == old(other.size) && buffer == old(other.buffer)
      ensures other.buffer == null && other.size == old(other.size)
      ensures old(other.Valid()) ==> Valid() && Elements() == old(other.Elements())
    {
      size := other.size;
      buffer := other.buffer;
      new;
      other.buffer := null;
    }

    /** operator =(simple_vector&&): releases its own storage and takes over
     *  the other vector's; the other vector is left without storage, so a
     *  vector moved into itself ends up with none. */
    method MoveAssign(other: SimpleVector<T>)
      modifies this, other
      ensures other.buffer == null
      ensures this != other ==> size == old(other.size) && buffer == old(other.buffer) && other.size == old(other.size)
      ensures this == other ==> size == old(size)
    {
      buffer := null;
      size := other.size;
      buffer := other.buffer;
      other.buffer := null;
    }

    /** Whether operator =(const simple_vector&), as written, copies only
     *  through storage the vector owns: either it has storage of its size;
     *  or it has none (it was moved from) and the sizes differ, so that
     *  deconstruct() skips the null pointer and allocate() makes fresh
     *  storage; or it has none and both sizes are 0, so the copying loop
     *  runs zero times. A vector moved from keeps its size, so when the
     *  sizes agree and are positive the copy writes through a null pointer. */
    predicate CopyDefinedAsWritten(other: SimpleVector<T>)
      reads this, other
    {
      || (buffer != null && buffer.Length == size)
      || (buffer == null && size != other.size)
      || (buffer == null && size == 0 && other.size == 0)
    }

    /** operator =(const simple_vector&) as written: self-assignment does
     *  nothing; storage of another size is replaced by fresh storage of the
     *  other's size; then the other's elements are copied over. A vector
     *  moved from with size 0, assigned a vector of size 0, copies nothing
     *  and stays without storage. */
    method CopyAssignAsWritten(other: SimpleVector<T>)
      requires other.Valid() && CopyDefinedAsWritten(other)
      modifies this, buffer
      ensures old(buffer) != null || old(size) != old(other.size) ==>
        Valid() && Elements() == old(other.Elements())
      ensures old(buffer) == null && old(size) == old(other.size) ==> buffer == null && size == 0
      ensures old(size) != old(other.size) ==> fresh(buffer)
      ensures old(size) == old(other.size) ==> buffer == old(buffer)
      ensures other.Valid() && other.Elements() == old(other.Elements())
    {
      if this == other {
        return;
      }
      if size != other.size {
        buffer := new T[other.size];
        size := other.size;
      }
      if buffer != null {
        CopyInto(buffer, other.buffer);
      }
    }

    /** operator =(const simple_vector&), corrected: a vector without storage
     *  (one moved from) also gets fresh storage, whatever its size, so the
     *  copy never writes through a null pointer. Otherwise as written. */
    method CopyAssign(other: SimpleVector<T>)
      requires other.Valid() && (Valid() || buffer == null)
      modifies this, buffer
      ensures Valid() && Elements() == old(other.Elements())
      ensures old(size) != old(other.size) || old(buffer) == null ==> fresh(buffer)
      ensures old(size) == old(other.size) && old(buffer) != null ==> buffer == old(buffer)
      ensures other.Valid() && other.Elements() == old(other.Elements())
    {
      if this == other {
        return;
      }
      if size != other.size || buffer == null {
        buffer := new T[other.size];
        size := other.size;
      }
      CopyInto(buffer, other.buffer);
    }

    /** fill(value), and operator =(value): every element becomes the value. */
    method Fill(value: T)
      requires Valid()
      modifies buffer
      ensures Valid() && Elements() == seq(size, _ => value)
    {
      FillArray(buffer, value);
    }

    /** size(). */
    function Size(): (n: nat)
      requires Valid()
      reads this, buffer
      ensures n == |Elements()|
    {
      size
    }

    /** empty(). */
    function IsEmpty(): (b: bool)
      requires Valid()
      reads this, buffer
      ensures b <==> Elements() == []
    {
      size == 0
    }

    /** operator [](index): no bound check, so the index must be in range. */
    function Get(index: nat): (x: T)
      requires Valid() && index < Size()
      reads this, buffer
      ensures x == Elements()[index]
    {
      buffer[index]
    }

    /** front(): the first element of a non-empty vector. */
    function Front(): (x: T)
      requires Valid() && Size() > 0
      reads this, buffer
      ensures x == Elements()[0]
    {
      buffer[0]
    }

    /** back(): the last element of a non-empty vector. */
    function Back(): (x: T)
      requires Valid() && Size() > 0
      reads this, buffer
      ensures x == Elements()[|Elements()| - 1]
    {
      buffer[size - 1]
    }

    /** at(index): an index past the end throws std::out_of_range. */
    function At(index: nat): (r: Result<T>)
      requires Valid()
      reads this, buffer
      ensures r.Err? <==> index >= |Elements()|
      ensures r.Err? ==> r.failure == OutOfRange
      ensures r.Ok? ==> r.value == Elements()[index]
    {
      if index >= size then Err(OutOfRange) else Ok(buffer[index])
    }

    /** get_hash(): every element's hash is combined into the result by
     *  exclusive or, and the result shifted left by one bit. */
    method GetHash(valueHash: T -> bv64) returns (h: bv64)
      requires Valid()
      ensures h == HashOf(Elements(), valueHash)
    {
      h := 0;
      for i := 0 to size
        invariant h == HashOf(buffer[..i], valueHash)
      {
        assert buffer[..i + 1][..i] == buffer[..i];
        h := h ^ valueHash(buffer[i]);
        h := h << 1;
      }
      assert buffer[..size] == buffer[..];
    }

    /** static_cast<simple_vector<U>>: a new vector holding each element
     *  converted. */
    method Cast<U(0)>(convert: T -> U) returns (r: SimpleVector<U>)
      requires Valid()
      ensures fresh(r) && fresh(r.buffer) && r.Valid()
      ensures |r.Elements()| == |Elements()|
      ensures forall k :: 0 <= k < |Elements()| ==> r.Elements()[k] == convert(Elements()[k])
    {
      r := new SimpleVector<U>.Empty();
      var b := new U[size];
      for i := 0 to size
        invariant forall k :: 0 <= k < i ==> b[k] == convert(buffer[k])
      {
        b[i] := convert(buffer[i]);
      }
      r.size := size;
      r.buffer := b;
    }
  }

  /** The value get_hash() computes for these elements. */
  function HashOf<T>(s: seq<T>, valueHash: T -> bv64): bv64
  {
    HashFrom(0, s, valueHash)
  }

  /** get_hash()'s loop run over s from the running value h. */
  function HashFrom<T>(h: bv64, s: seq<T>, valueHash: T -> bv64): bv64
  {
    if s == [] then h
    else (HashFrom(h, s[..|s| - 1], valueHash) ^ valueHash(s[|s| - 1])) << 1
  }

  /** Hashing a + b is hashing b from the value a leaves. */
  lemma {:induction false} HashAppend<T>(h: bv64, a: seq<T>, b: seq<T>, valueHash: T -> bv64)
    ensures HashFrom(h, a + b, valueHash) == HashFrom(HashFrom(h, a, valueHash), b, valueHash)
  {
    if b == [] {
      assert a + b == a;
    } else {
      var ab := a + b;
      assert ab[..|ab| - 1] == a + b[..|b| - 1];
      assert ab[|ab| - 1] == b[|b| - 1];
      HashAppend(h, a, b[..|b| - 1], valueHash);
    }
  }

  /** The lowest bit of a hash is always clear: the last step is a shift. */
  lemma HashEven<T>(s: seq<T>, valueHash: T -> bv64)
    ensures HashOf(s, valueHash) & 1 == 0
  {
    if s != [] {
      ShiftClearsLow(HashFrom(0, s[..|s| - 1], valueHash) ^ valueHash(s[|s| - 1]));
    }
  }

  lemma ShiftClearsLow(x: bv64)
    ensures (x << 1) & 1 == 0
  {
  }

  /** Fills an array with one value, as the constructing loops do. */
  method FillArray<T>(b: array<T>, value: T)
    modifies b
    ensures b[..] == seq(b.Length, _ => value)
  {
    for i := 0 to b.Length
      invariant forall k :: 0 <= k < i ==> b[k] == value
    {
      b[i] := value;
    }
  }

  /** Copies src over dst element by element; src is left as it was, even
   *  when it is dst itself. */
  method CopyInto<T>(dst: array<T>, src: array<T>)
    requires dst.Length == src.Length
    modifies dst
    ensures dst[..] == old(src[..]) && src[..] == old(src[..])
  {
    for i := 0 to dst.Length
      invariant forall k :: 0 <= k < i ==> dst[k] == old(src[k])
      invariant forall k :: 0 <= k < src.Length ==> src[k] == old(src[k])
    {
      dst[i] := src[i];
    }
  }

  /** A vector moved from keeps its size but has no storage. Copying a vector
   *  of that size into it lies outside what the as-written assignment
   *  handles, while the corrected assignment gives it the copy. */
  method MovedFromReuse() returns (definedAsWritten: bool, copied: seq<int>)
    ensures !definedAsWritten
    ensures copied == [7, 7]
  {
    var source := new SimpleVector(2, 7);
    var target := new SimpleVector(2, 1);
    var thief := new SimpleVector.Move(target);
    definedAsWritten := target.CopyDefinedAsWritten(source);
    target.CopyAssign(source);
    copied := target.Elements();
  }

  /** A vector of size 0 moved from and then assigned another vector of
   *  size 0 is within the as-written assignment's domain: nothing is copied
   *  and it stays without storage. */
  method MovedFromEmptyCopy() returns (definedAsWritten: bool, storageless: bool)
    ensures definedAsWritten && storageless
  {
    var source := new SimpleVector<int>.Empty();
    var target := new SimpleVector<int>.Empty();
    var thief := new SimpleVector<int>.Move(target);
    definedAsWritten := target.CopyDefinedAsWritten(source);
    target.CopyAssignAsWritten(source);
    storageless := target.buffer == null;
  }
}
