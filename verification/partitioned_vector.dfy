/** A vector cut into consecutive blocks (`partitioned_vector`): the values,
 *  an ascending list of border indices from 0 to the number of values, and
 *  the block that iteration currently walks through. Block k holds the
 *  values from border k up to, not including, border k + 1. */
module PartitionedVectors {
  import opened Errors

  predicate Sorted(s: seq<nat>)
  {
    forall j, k :: 0 <= j < k < |s| ==> s[j] <= s[k]
  }

  /** Border indices of a partition of n values: at least two, ascending,
   *  from 0 to n. */
  predicate Borders(b: seq<nat>, n: nat)
  {
    && |b| >= 2 && Sorted(b)
    && b[0] == 0 && b[|b| - 1] == n
  }

  /** Every border of an ascending list lies between the first and the last. */
  lemma BordersBounded(b: seq<nat>, n: nat)
    requires Borders(b, n)
    ensures forall k :: 0 <= k < |b| ==> b[k] <= n
  {
  }

  /** Two ascending lists holding the same elements are the same list: the
   *  outcome of sorting does not depend on how the sort is done. */
  lemma {:induction false} SortedUnique(a: seq<nat>, b: seq<nat>)
    requires Sorted(a) && Sorted(b) && multiset(a) == multiset(b)
    ensures a == b
    decreases |a|
  {
    assert |a| == |multiset(a)| == |multiset(b)| == |b|;
    if |a| > 0 {
      SameHead(a, b);
      Uncons(a);
      Uncons(b);
      SortedUnique(a[1..], b[1..]);
      assert a == [a[0]] + a[1..] && b == [b[0]] + b[1..];
    }
  }

  /** The smallest element comes first in both lists. */
  lemma SameHead(a: seq<nat>, b: seq<nat>)
    requires Sorted(a) && Sorted(b) && multiset(a) == multiset(b) && |a| > 0
    ensures |b| > 0 && a[0] == b[0]
  {
    assert a[0] in multiset(b);
    var i :| 0 <= i < |b| && b[i] == a[0];
    assert b[0] in multiset(a);
    var j :| 0 <= j < |a| && a[j] == b[0];
  }

  lemma Uncons(a: seq<nat>)
    requires |a| > 0
    ensures multiset(a[1..]) == multiset(a) - multiset{a[0]}
    ensures Sorted(a) ==> Sorted(a[1..])
  {
    assert a == [a[0]] + a[1..];
    assert multiset(a) == multiset{a[0]} + multiset(a[1..]);
  }

  /** ropufu::sort applied right after a push_back: the prefix is ascending,
   *  so moving the new last element back past every greater one sorts the
   *  list. */
  method SortPushed(s: seq<nat>) returns (r: seq<nat>)
    requires |s| >= 1 && Sorted(s[..|s| - 1])
    ensures Sorted(r) && multiset(r) == multiset(s)
  {
    r := s;
    var k := |s| - 1;
    while k > 0 && r[k - 1] > r[k]
      invariant 0 <= k < |r| == |s|
      invariant multiset(r) == multiset(s)
      invariant SortedExcept(r, k) && BelowAfter(r, k)
    {
      SwapBack(r, k);
      r := r[k - 1 := r[k]][k := r[k - 1]];
      k := k - 1;
    }
    SortedWhenPlaced(r, k);
  }

  /** The list is ascending once the element at k is left out. */
  predicate SortedExcept(r: seq<nat>, k: nat)
  {
    forall i, j :: 0 <= i < j < |r| && i != k && j != k ==> r[i] <= r[j]
  }

  /** The element at k is below every element after it. */
  predicate BelowAfter(r: seq<nat>, k: nat)
    requires k < |r|
  {
    forall j :: k < j < |r| ==> r[k] < r[j]
  }

  /** Swapping the element at k with a greater predecessor moves it back one
   *  place and keeps the rest in order. */
  lemma SwapBack(r: seq<nat>, k: nat)
    requires 0 < k < |r| && r[k - 1] > r[k] && SortedExcept(r, k) && BelowAfter(r, k)
    ensures var r' := r[k - 1 := r[k]][k := r[k - 1]];
      multiset(r') == multiset(r) && SortedExcept(r', k - 1) && BelowAfter(r', k - 1)
  {
  }

  /** When the element at k is at its place, the whole list is ascending. */
  lemma SortedWhenPlaced(r: seq<nat>, k: nat)
    requires k < |r| && SortedExcept(r, k) && BelowAfter(r, k) && (k == 0 || r[k - 1] <= r[k])
    ensures Sorted(r)
  {
  }

  /** The values of blocks 0 to m - 1, one after the other. */
  function Joined<T>(values: seq<T>, b: seq<nat>, m: nat): seq<T>
    requires Borders(b, |values|) && m < |b|
  {
    BordersBounded(b, |values|);
    if m == 0 then [] else Joined(values, b, m - 1) + values[b[m - 1]..b[m]]
  }

  /** The first m blocks are the values up to border m. */
  lemma {:induction false} JoinedPrefix<T>(values: seq<T>, b: seq<nat>, m: nat)
    requires Borders(b, |values|) && m < |b|
    ensures Joined(values, b, m) == values[..b[m]]
  {
    BordersBounded(b, |values|);
    if m > 0 {
      JoinedPrefix(values, b, m - 1);
      assert values[..b[m]] == values[..b[m - 1]] + values[b[m - 1]..b[m]];
    }
  }

  /** The blocks together, in order, are exactly the values. */
  lemma BlocksCover<T>(values: seq<T>, b: seq<nat>)
    requires Borders(b, |values|)
    ensures Joined(values, b, |b| - 1) == values
  {
    var m := |b| - 1;
    calc {
      Joined(values, b, m);
      { JoinedPrefix(values, b, m); }
      values[..b[m]];
      { TakeAll(values, b[m]); }
      values;
    }
  }

  lemma TakeAll<T>(values: seq<T>, n: nat)
    requires n == |values|
    ensures values[..n] == values
  {
  }

  class PartitionedVector<T> {
    const values: seq<T>
    var borders: seq<nat>
    var active: nat

    ghost predicate Valid()
      reads this
    {
      Borders(borders, |values|) && active < |borders| - 1
    }

    /** partitioned_vector(): no values, borders [0, 0]. */
    constructor Empty()
      ensures values == [] && borders == [0, 0] && active == 0
      ensures Valid()
    {
      values := [];
      borders := [0, 0];
      active := 0;
    }

    /** partitioned_vector(container): one block spanning all values. */
    constructor (values: seq<T>)
      ensures this.values == values && borders == [0, |values|] && active == 0
      ensures Valid()
    {
      this.values := values;
      borders := [0, |values|];
      active := 0;
    }

    /** partition_size(): the number of blocks, one fewer than the borders. */
    function PartitionSize(): (n: nat)
      requires Valid()
      reads this
      ensures n >= 1 && n + 1 == |borders|
    {
      |borders| - 1
    }

    /** activate_partition(index): an index that is not a block throws
     *  std::out_of_range and changes nothing. */
    method ActivatePartition(index: nat) returns (r: Result<()>)
      requires Valid()
      modifies this
      ensures Valid() && borders == old(borders)
      ensures r.Err? <==> index >= old(PartitionSize())
      ensures r.Err? ==> r.failure == OutOfRange && active == old(active)
      ensures r.Ok? ==> active == index
    {
      if index >= PartitionSize() {
        return Err(OutOfRange);
      }
      active := index;
      r := Ok(());
    }

    /** split(border_index): a border beyond the values throws
     *  std::logic_error and changes nothing; otherwise the border is added,
     *  the list stays ascending and there is one block more. */
    method Split(border: nat) returns (r: Result<()>)
      requires Valid()
      modifies this
      ensures Valid() && active == old(active)
      ensures r.Err? <==> border > |values|
      ensures r.Err? ==> r.failure == LogicError && borders == old(borders)
      ensures r.Ok? ==> multiset(borders) == multiset(old(borders)) + multiset{border}
      ensures r.Ok? ==> PartitionSize() == old(PartitionSize()) + 1
    {
      if border > |values| {
        return Err(LogicError);
      }
      ghost var b0 := borders;
      var pushed := borders + [border];
      assert pushed[..|pushed| - 1] == b0;
      borders := SortPushed(pushed);
      SortedEnds(b0, border, borders, |values|);
      r := Ok(());
    }

    /** clear_partition(): back to one block spanning all values. */
    method ClearPartition()
      requires Valid()
      modifies this
      ensures borders == [0, |values|] && active == 0
      ensures Valid()
    {
      borders := [0];
      borders := borders + [|values|];
      active := 0;
    }

    /** begin() and end(): the positions of the active block. */
    function Begin(): (i: nat)
      requires Valid()
      reads this
      ensures i <= End() <= |values|
    {
      borders[active]
    }

    function End(): (i: nat)
      requires Valid()
      reads this
      ensures i <= |values|
    {
      BordersBounded(borders, |values|);
      borders[active + 1]
    }

    /** The values iteration visits. */
    function ActiveBlock(): (block: seq<T>)
      requires Valid()
      reads this
      ensures |block| == End() - Begin()
      ensures forall k :: 0 <= k < |block| ==> block[k] == values[Begin() + k]
    {
      values[Begin()..End()]
    }
  }

  /** Adding a border between 0 and n to the borders of n values, in any
   *  ascending order, gives borders of n values again. */
  lemma SortedEnds(b: seq<nat>, border: nat, s: seq<nat>, n: nat)
    requires Borders(b, n) && border <= n
    requires Sorted(s) && multiset(s) == multiset(b + [border])
    ensures Borders(s, n) && |s| == |b| + 1
  {
    assert |s| == |multiset(s)| == |b| + 1;
    assert 0 in multiset(s) && n in multiset(s);
    assert s[0] in multiset(b + [border]) && s[|s| - 1] in multiset(b + [border]);
    BordersBounded(b, n);
    var i :| 0 <= i < |s| && s[i] == 0;
    var j :| 0 <= j < |s| && s[j] == n;
    assert s[0] <= s[i] && s[j] <= s[|s| - 1];
    assert s[|s| - 1] in b + [border];
  }

  /** split(size()) adds an empty last block, the one the library's test
   *  activates: the new borders are the old ones with the size repeated. */
  lemma SplitAtEnd(b: seq<nat>, s: seq<nat>, n: nat)
    requires Borders(b, n)
    requires Sorted(s) && multiset(s) == multiset(b) + multiset{n}
    ensures s == b + [n]
    ensures s[|s| - 2] == s[|s| - 1]
  {
    BordersBounded(b, n);
    assert Sorted(b + [n]);
    assert multiset(b + [n]) == multiset(b) + multiset{n};
    SortedUnique(s, b + [n]);
  }
}
