/** Sliding windows over the most recent observations: `sliding_array`, a
 *  fixed-size array shifted in place, and `sliding_vector`, which keeps two
 *  copies of the window in one buffer and swaps between them. */
module SlidingArrays {

  /** displace_back: the oldest (first) element drops out and `value` comes
   *  in last; a window of size 0 stays empty. */
  function DisplacedBack<T>(window: seq<T>, value: T): (w: seq<T>)
    ensures |w| == |window|
  {
    if |window| == 0 then window else window[1..] + [value]
  }

  /** displace_front: the mirror image, the last element drops out and
   *  `value` comes in first. */
  function DisplacedFront<T>(window: seq<T>, value: T): (w: seq<T>)
    ensures |w| == |window|
  {
    if |window| == 0 then window else [value] + window[..|window| - 1]
  }

  /** The two displacements undo each other on what they keep: after
   *  displacing `value` in at the back, the window without its last element
   *  is the old window without its first; and the other way round. */
  lemma DisplacedSpec<T>(window: seq<T>, value: T)
    requires |window| > 0
    ensures DisplacedBack(window, value)[|window| - 1] == value
    ensures forall i :: 0 <= i < |window| - 1 ==> DisplacedBack(window, value)[i] == window[i + 1]
    ensures DisplacedFront(window, value)[0] == value
    ensures forall i :: 1 <= i < |window| ==> DisplacedFront(window, value)[i] == window[i - 1]
    ensures DisplacedFront(DisplacedBack(window, value), window[0]) == window
  {
    var back := DisplacedBack(window, value);
    assert [window[0]] + back[..|back| - 1] == window;
  }

  /** `sliding_array<T, N>`: the window is the array itself. */
  class SlidingArray<T> {
    const data: array<T>

    constructor (initial: seq<T>)
      ensures fresh(data) && data[..] == initial
    {
      data := new T[|initial|](i requires 0 <= i < |initial| => initial[i]);
    }

    /** The specialisations for sizes 0, 1 and 2 and the general memmove
     *  version all move the window the same way. */
    method DisplaceBack(value: T)
      modifies data
      ensures data[..] == DisplacedBack(old(data[..]), value)
    {
      if data.Length == 0 {
        // The trivial window ignores the value.
      } else if data.Length == 1 {
        data[0] := value;
      } else if data.Length == 2 {
        data[0] := data[1];
        data[1] := value;
      } else {
        ShiftLeft();
        data[data.Length - 1] := value;
      }
    }

    method DisplaceFront(value: T)
      modifies data
      ensures data[..] == DisplacedFront(old(data[..]), value)
    {
      if data.Length == 0 {
      } else if data.Length == 1 {
        data[0] := value;
      } else if data.Length == 2 {
        data[1] := data[0];
        data[0] := value;
      } else {
        ShiftRight();
        data[0] := value;
      }
    }

    /** memmove(data, data + 1, N - 1): copying from the front is safe when
     *  moving left. */
    method ShiftLeft()
      requires data.Length > 0
      modifies data
      ensures forall i :: 0 <= i < data.Length - 1 ==> data[i] == old(data[i + 1])
      ensures data[data.Length - 1] == old(data[data.Length - 1])
    {
      var i := 0;
      while i < data.Length - 1
        invariant 0 <= i <= data.Length - 1
        invariant forall j :: 0 <= j < i ==> data[j] == old(data[j + 1])
        invariant forall j :: i <= j < data.Length ==> data[j] == old(data[j])
      {
        data[i] := data[i + 1];
        i := i + 1;
      }
    }

    /** memmove(data + 1, data, N - 1): copying from the back is safe when
     *  moving right. */
    method ShiftRight()
      requires data.Length > 0
      modifies data
      ensures forall i :: 1 <= i < data.Length ==> data[i] == old(data[i - 1])
      ensures data[0] == old(data[0])
    {
      var i := data.Length - 1;
      while i > 0
        invariant 0 <= i <= data.Length - 1
        invariant forall j :: i < j < data.Length ==> data[j] == old(data[j - 1])
        invariant forall j :: 0 <= j <= i ==> data[j] == old(data[j])
      {
        data[i] := data[i - 1];
        i := i - 1;
      }
    }
  }

  // ~~ sliding_vector ~~

  /** storage_size(count): [1] [count] [1] [count] [1], and five for an
   *  empty window. */
  function StorageSize(count: nat): (n: nat)
    ensures n >= 2 * count + 3 && n % 2 == 1
    ensures count > 0 ==> (n - 3) / 2 == count
  {
    if count == 0 then 5 else count + count + 3
  }

  /** The length of each of the two blocks, (storage_size - 3) / 2. */
  function Block(count: nat): (b: nat)
    ensures b == (StorageSize(count) - 3) / 2 && count <= b
  {
    if count == 0 then 1 else count
  }

  /** Writing `value` right of the window and reading the window one cell
   *  further on gives the window displaced at the back. */
  lemma BackStep<T>(s0: seq<T>, a: nat, c: nat, value: T, s1: seq<T>)
    requires a + c < |s0| && s1 == s0[a + c := value]
    ensures s1[a + 1..a + 1 + c] == DisplacedBack(s0[a..a + c], value)
  {
    if c > 0 {
      assert s1[a + 1..a + 1 + c] == s0[a + 1..a + c] + [value];
    }
  }

  /** Writing `value` left of the window and reading the window one cell
   *  earlier gives the window displaced at the front. */
  lemma FrontStep<T>(s0: seq<T>, a: nat, c: nat, value: T, s1: seq<T>)
    requires 1 <= a && a + c <= |s0| && s1 == s0[a - 1 := value]
    ensures s1[a - 1..a - 1 + c] == DisplacedFront(s0[a..a + c], value)
  {
    if c > 0 {
      assert s1[a - 1..a - 1 + c] == [value] + s0[a..a + c - 1];
    }
  }

  /** `sliding_vector<T>`: the window is the `count` cells starting at the
   *  active offset; the passive offset marks where the next copy goes. */
  class SlidingVector<T(0)> {
    var storage: array<T>
    var active: nat
    var passive: nat
    var count: nat

    /** The two block offsets, in either order. */
    predicate Valid()
      reads this
    {
      && storage.Length == StorageSize(count)
      && ((active == 1 && passive == Block(count) + 2) || (active == Block(count) + 2 && passive == 1))
    }

    /** The window, oldest first. */
    function Contents(): seq<T>
      requires Valid()
      reads this, storage
    {
      storage[active..active + count]
    }

    /** size(). */
    function Size(): nat
      reads this
    {
      count
    }

    /** sliding_vector(size): a window of `size` default values. */
    constructor (size: nat)
      ensures Valid() && fresh(storage) && Size() == size
      ensures |Contents()| == size
    {
      storage := new T[StorageSize(size)];
      count := size;
      active := 1;
      passive := (StorageSize(size) - 3) / 2 + 2;
    }

    /** The copy constructor: its own buffer, holding the same window. */
    constructor Copy(other: SlidingVector<T>)
      requires other.Valid()
      ensures Valid() && fresh(storage) && Contents() == other.Contents()
    {
      var copy := new T[other.storage.Length](i requires 0 <= i < other.storage.Length reads other, other.storage => other.storage[i]);
      storage := copy;
      count := other.count;
      active := 1;
      passive := (other.storage.Length - 3) / 2 + 2;
      new;
      if other.passive < other.active {
        active, passive := passive, active;
      }
      assert storage[..] == other.storage[..];
    }

    /** The move constructor: takes over the other's buffer and its window;
     *  the other is left with an empty buffer and no elements. */
    constructor Steal(other: SlidingVector<T>)
      requires other.Valid()
      modifies other
      ensures Valid() && storage == old(other.storage) && Contents() == old(other.Contents())
      ensures other.storage.Length == 0 && other.count == 0
    {
      storage := other.storage;
      count := other.count;
      active := 1;
      passive := (other.storage.Length - 3) / 2 + 2;
      new;
      if other.passive < other.active {
        active, passive := passive, active;
      }
      other.storage := new T[0];
      other.active, other.passive, other.count := 0, 0, 0;
    }

    /** The move assignment: as the move constructor, onto an existing vector
     *  whose own buffer is given up. */
    method MoveFrom(other: SlidingVector<T>)
      requires other.Valid() && other != this
      modifies this, other
      ensures Valid() && storage == old(other.storage) && Contents() == old(other.Contents())
      ensures other.storage.Length == 0 && other.count == 0
    {
      storage := other.storage;
      count := other.count;
      active := 1;
      passive := (other.storage.Length - 3) / 2 + 2;
      if other.passive < other.active {
        active, passive := passive, active;
      }
      other.storage := new T[0];
      other.active, other.passive, other.count := 0, 0, 0;
    }

    /** operator[](index), for an index inside the window. */
    function Get(index: nat): T
      requires Valid() && index < count
      reads this, storage
      ensures Get(index) == Contents()[index]
    {
      storage[active + index]
    }

    /** displace_back(value): the value goes right of the active block, the
     *  block less its first cell is copied to the passive offset, and the
     *  two offsets swap. */
    method DisplaceBack(value: T)
      requires Valid()
      modifies this, storage
      ensures Valid() && storage == old(storage) && count == old(count)
      ensures Contents() == DisplacedBack(old(Contents()), value)
    {
      BackCells(storage, active, passive, count, value);
      active, passive := passive, active;
    }

    /** displace_front(value): the value goes left of the active block and
     *  the block less its last cell is copied, shifted, to the passive offset. */
    method DisplaceFront(value: T)
      requires Valid()
      modifies this, storage
      ensures Valid() && storage == old(storage) && count == old(count)
      ensures Contents() == DisplacedFront(old(Contents()), value)
    {
      FrontCells(storage, active, passive, count, value);
      active, passive := passive, active;
    }

  }

  /** The buffer work of displace_back: the value goes right of the window
   *  at `act`, and the window less its first cell is copied to `pas`. */
  method BackCells<T>(a: array<T>, act: nat, pas: nat, c: nat, value: T)
    requires act + c < a.Length && pas + c <= a.Length
    requires act + 1 + c <= pas || pas + c <= act + 1
    modifies a
    ensures a[pas..pas + c] == DisplacedBack(old(a[act..act + c]), value)
  {
    ghost var s0 := a[..];
    a[act + c] := value;
    ghost var s1 := a[..];
    BackStep(s0, act, c, value, s1);
    CopyCells(a, act + 1, pas, c);
    assert a[pas..pas + c] == s1[act + 1..act + 1 + c];
  }

  /** The buffer work of displace_front: the value goes left of the window
   *  at `act`, and the window less its last cell is copied to `pas`. */
  method FrontCells<T>(a: array<T>, act: nat, pas: nat, c: nat, value: T)
    requires 1 <= act && act + c <= a.Length && pas + c <= a.Length
    requires act - 1 + c <= pas || pas + c <= act - 1
    modifies a
    ensures a[pas..pas + c] == DisplacedFront(old(a[act..act + c]), value)
  {
    ghost var s0 := a[..];
    a[act - 1] := value;
    ghost var s1 := a[..];
    FrontStep(s0, act, c, value, s1);
    CopyCells(a, act - 1, pas, c);
    assert a[pas..pas + c] == s1[act - 1..act - 1 + c];
  }

  /** memcpy of `n` cells from `source` to `target` within one buffer, the
   *  two ranges not overlapping. */
  method CopyCells<T>(a: array<T>, source: nat, target: nat, n: nat)
    requires source + n <= a.Length && target + n <= a.Length
    requires source + n <= target || target + n <= source
    modifies a
    ensures a[target..target + n] == old(a[source..source + n])
    ensures a[source..source + n] == old(a[source..source + n])
  {
    ghost var before := a[..];
    var i := 0;
    while i < n
      invariant 0 <= i <= n
      invariant forall j :: target <= j < target + i ==> a[j] == before[j - target + source]
      invariant forall j :: source <= j < source + n ==> a[j] == before[j]
    {
      a[target + i] := a[source + i];
      i := i + 1;
    }
    assert forall j :: target <= j < target + n ==> a[j] == before[j - target + source];
  }
}
