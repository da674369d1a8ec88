/** Element-wise operations on containers (`elementwise.hpp`): index
 *  permutations, in-place addition and subtraction, and binary masks with
 *  one bit per element. Masks are unbounded naturals here; bit i is the
 *  lowest bit after i halvings. */
module Elementwise {
  import opened Arithmetic

  // Permutations

  /** 0, 1, ..., n - 1. */
  function Identity(n: nat): (r: seq<nat>)
    ensures |r| == n && forall i :: 0 <= i < n ==> r[i] == i
  {
    seq(n, i => i)
  }

  /** identity_permutation(size): push 0 .. size - 1 in turn. */
  method IdentityPermutation(size: nat) returns (result: seq<nat>)
    ensures result == Identity(size)
  {
    result := [];
    var i := 0;
    while i < size
      invariant 0 <= i <= size && result == Identity(i)
    {
      result := result + [i];
      i := i + 1;
    }
  }

  /** What std::sort needs of a comparer (part of a strict weak ordering):
   *  it is asymmetric, and "not less" is transitive. */
  ghost predicate StrictWeakOrder<T(!new)>(less: (T, T) -> bool)
  {
    && (forall a, b :: less(a, b) ==> !less(b, a))
    && (forall a, b, c :: !less(a, b) && !less(b, c) ==> !less(a, c))
  }

  /** The indices visit the source in the comparer's order. */
  ghost predicate OrderedBy<T>(source: seq<T>, p: seq<nat>, less: (T, T) -> bool)
  {
    && (forall i :: 0 <= i < |p| ==> p[i] < |source|)
    && (forall i, j :: 0 <= i < j < |p| ==> !less(source[p[j]], source[p[i]]))
  }

  function Swap(p: seq<nat>, i: nat, j: nat): (q: seq<nat>)
    requires i < |p| && j < |p|
    ensures |q| == |p| && multiset(q) == multiset(p)
  {
    p[i := p[j]][j := p[i]]
  }

  /** permutation(source, comparer): the identity permutation sorted by
   *  comparing the elements the indices point to. std::sort is modelled by
   *  an insertion sort. */
  method Permutation<T(!new)>(source: seq<T>, less: (T, T) -> bool) returns (p: seq<nat>)
    requires StrictWeakOrder(less)
    ensures |p| == |source| && multiset(p) == multiset(Identity(|source|))
    ensures OrderedBy(source, p, less)
  {
    p := IdentityPermutation(|source|);
    var i := 0;
    while i < |p|
      invariant 0 <= i <= |p|
      invariant |p| == |source| && multiset(p) == multiset(Identity(|source|))
      invariant forall k :: 0 <= k < |p| ==> p[k] < |source|
      invariant OrderedBy(source, p[..i], less)
    {
      p := Insert(source, less, p, i);
      i := i + 1;
    }
    assert p[..i] == p;
  }

  /** One step of the insertion sort: move p[i] left past every larger
   *  element of the sorted prefix p[..i]. */
  method Insert<T(!new)>(source: seq<T>, less: (T, T) -> bool, p0: seq<nat>, i: nat) returns (p: seq<nat>)
    requires StrictWeakOrder(less)
    requires i < |p0| && forall k :: 0 <= k < |p0| ==> p0[k] < |source|
    requires OrderedBy(source, p0[..i], less)
    ensures |p| == |p0| && multiset(p) == multiset(p0) && p[i + 1..] == p0[i + 1..]
    ensures forall k :: 0 <= k < |p| ==> p[k] < |source|
    ensures OrderedBy(source, p[..i + 1], less)
  {
    p := p0;
    var j := i;
    while j > 0 && less(source[p[j]], source[p[j - 1]])
      invariant 0 <= j <= i && |p| == |p0| && multiset(p) == multiset(p0) && p[i + 1..] == p0[i + 1..]
      invariant forall k :: 0 <= k < |p| ==> p[k] < |source|
      invariant Inserting(source, less, p, i, j)
    {
      InsertingStep(source, less, p, i, j);
      p := Swap(p, j - 1, j);
      j := j - 1;
    }
    Inserted(source, less, p, i, j);
  }

  /** The insertion sort's inner invariant: apart from the element at j,
   *  p[..i + 1] is in order, and everything right of j is larger than it. */
  ghost predicate Inserting<T>(source: seq<T>, less: (T, T) -> bool, p: seq<nat>, i: nat, j: nat)
    requires j <= i < |p| && forall k :: 0 <= k < |p| ==> p[k] < |source|
  {
    && (forall a, b :: 0 <= a < b <= i && a != j && b != j ==> !less(source[p[b]], source[p[a]]))
    && (forall b :: j < b <= i ==> less(source[p[j]], source[p[b]]))
  }

  lemma InsertingStep<T(!new)>(source: seq<T>, less: (T, T) -> bool, p: seq<nat>, i: nat, j: nat)
    requires StrictWeakOrder(less)
    requires 0 < j <= i < |p| && forall k :: 0 <= k < |p| ==> p[k] < |source|
    requires Inserting(source, less, p, i, j) && less(source[p[j]], source[p[j - 1]])
    ensures Inserting(source, less, Swap(p, j - 1, j), i, j - 1)
  {
  }

  /** Once p[j] is no smaller than its left neighbour, the prefix up to i
   *  is in order. */
  lemma Inserted<T(!new)>(source: seq<T>, less: (T, T) -> bool, p: seq<nat>, i: nat, j: nat)
    requires StrictWeakOrder(less)
    requires j <= i < |p| && forall k :: 0 <= k < |p| ==> p[k] < |source|
    requires j == 0 || !less(source[p[j]], source[p[j - 1]])
    requires Inserting(source, less, p, i, j)
    ensures OrderedBy(source, p[..i + 1], less)
  {
  }

  /** ascending_permutation(source): the indices in ascending order of the
   *  elements. */
  method AscendingPermutation(source: seq<int>) returns (p: seq<nat>)
    ensures |p| == |source| && multiset(p) == multiset(Identity(|source|))
    ensures forall i :: 0 <= i < |p| ==> p[i] < |source|
    ensures forall i, j :: 0 <= i < j < |p| ==> source[p[i]] <= source[p[j]]
  {
    p := Permutation(source, (a: int, b: int) => a < b);
  }

  /** descending_permutation(source): the indices in descending order of
   *  the elements. */
  method DescendingPermutation(source: seq<int>) returns (p: seq<nat>)
    ensures |p| == |source| && multiset(p) == multiset(Identity(|source|))
    ensures forall i :: 0 <= i < |p| ==> p[i] < |source|
    ensures forall i, j :: 0 <= i < j < |p| ==> source[p[i]] >= source[p[j]]
  {
    p := Permutation(source, (a: int, b: int) => a > b);
  }

  /** The comparer of the library's z-first test: 'z' before every other
   *  letter, the rest alphabetically. As written it also puts 'z' before
   *  'z'. */
  function ZFirstAsWritten(one: char, other: char): bool
  {
    if one == 'z' then true else if other == 'z' then false else one < other
  }

  /** The test's comparer is not irreflexive, so it is not the strict weak
   *  order std::sort requires. */
  lemma ZFirstNotStrict()
    ensures ZFirstAsWritten('z', 'z') && !StrictWeakOrder(ZFirstAsWritten)
  {
    var less := ZFirstAsWritten;
    assert less('z', 'z') && less('z', 'z');
  }

  /** The z-first comparer with 'z' not before itself. */
  function ZFirst(one: char, other: char): bool
  {
    if one == 'z' then other != 'z' else if other == 'z' then false else one < other
  }

  lemma ZFirstStrict()
    ensures StrictWeakOrder(ZFirst)
  {
    forall a: char, b: char, c: char | !ZFirst(a, b) && !ZFirst(b, c)
      ensures !ZFirst(a, c)
    {
      if a == 'z' {
        assert b == 'z';
      }
    }
  }

  /** permutation(letters, z-first): a 'z' comes first, and the other
   *  letters follow in alphabetical order. */
  method ZFirstPermutation(source: seq<char>) returns (p: seq<nat>)
    ensures |p| == |source| && multiset(p) == multiset(Identity(|source|))
    ensures forall i :: 0 <= i < |p| ==> p[i] < |source|
    ensures 'z' in source ==> source[p[0]] == 'z'
    ensures forall i, j :: 0 <= i < j < |p| && source[p[i]] != 'z' ==> source[p[j]] != 'z' && source[p[i]] <= source[p[j]]
  {
    ZFirstStrict();
    p := Permutation(source, ZFirst);
    if 'z' in source {
      var k :| 0 <= k < |source| && source[k] == 'z';
      assert Identity(|source|)[k] == k;
      assert k in multiset(p);
      var m :| 0 <= m < |p| && p[m] == k;
      if m > 0 {
        assert !ZFirst(source[p[m]], source[p[0]]);
      }
    }
  }

  // Element-wise arithmetic assignment

  /** The source with `other` added over the common length. */
  function Added(source: seq<int>, other: seq<int>): (r: seq<int>)
    ensures |r| == |source|
  {
    seq(|source|, i requires 0 <= i < |source| => if i < |other| then source[i] + other[i] else source[i])
  }

  /** The source with `other` subtracted over the common length. */
  function Subtracted(source: seq<int>, other: seq<int>): (r: seq<int>)
    ensures |r| == |source|
  {
    seq(|source|, i requires 0 <= i < |source| => if i < |other| then source[i] - other[i] else source[i])
  }

  /** Subtracting what was added restores the source. */
  lemma AddThenSubtract(source: seq<int>, other: seq<int>)
    ensures Subtracted(Added(source, other), other) == source
  {
  }

  /** try_add_assign(source, other): adds the common prefix element by
   *  element; succeeds iff both ran out together. */
  method TryAddAssign(source: array<int>, other: seq<int>) returns (success: bool)
    modifies source
    ensures success <==> source.Length == |other|
    ensures source[..] == Added(old(source[..]), other)
  {
    var i := 0;
    while i < source.Length && i < |other|
      invariant 0 <= i <= source.Length && i <= |other|
      invariant forall k :: 0 <= k < source.Length ==>
        source[k] == if k < i then old(source[k]) + other[k] else old(source[k])
    {
      source[i] := source[i] + other[i];
      i := i + 1;
    }
    success := i == source.Length && i == |other|;
  }

  /** try_subtract_assign(source, other): subtracts the common prefix
   *  element by element; succeeds iff both ran out together. */
  method TrySubtractAssign(source: array<int>, other: seq<int>) returns (success: bool)
    modifies source
    ensures success <==> source.Length == |other|
    ensures source[..] == Subtracted(old(source[..]), other)
  {
    var i := 0;
    while i < source.Length && i < |other|
      invariant 0 <= i <= source.Length && i <= |other|
      invariant forall k :: 0 <= k < source.Length ==>
        source[k] == if k < i then old(source[k]) - other[k] else old(source[k])
    {
      source[i] := source[i] - other[i];
      i := i + 1;
    }
    success := i == source.Length && i == |other|;
  }

  // Binary masks

  /** Bit i of a mask. */
  predicate Bit(mask: nat, i: nat)
  {
    if i == 0 then mask % 2 == 1 else Bit(mask / 2, i - 1)
  }

  /** The mask shifted right i times. */
  function Shifted(mask: nat, i: nat): nat
  {
    if i == 0 then mask else Shifted(mask / 2, i - 1)
  }

  /** The mask with bit i set for every element that satisfies the
   *  predicate. */
  function MaskOf<T>(predicate_: T -> bool, xs: seq<T>): nat
  {
    if |xs| == 0 then 0
    else MaskOf(predicate_, xs[..|xs| - 1]) + if predicate_(xs[|xs| - 1]) then Pow2(|xs| - 1) else 0
  }

  /** Setting a bit above every set bit of m adds it. */
  lemma {:induction false} OrHighBit(m: nat, k: nat)
    requires m < Pow2(k)
    ensures Or(m, Pow2(k)) == m + Pow2(k)
  {
    if k > 0 && m > 0 {
      OrHighBit(m / 2, k - 1);
    }
  }

  /** The bits of m plus a higher power of two. */
  lemma {:induction false} BitOfSum(m: nat, k: nat, j: nat)
    requires m < Pow2(k) && j <= k
    ensures Bit(m + Pow2(k), j) <==> (j == k || Bit(m, j))
  {
    if j > 0 {
      assert (m + Pow2(k)) / 2 == m / 2 + Pow2(k - 1);
      BitOfSum(m / 2, k - 1, j - 1);
    }
  }

  /** No bit at or above k is set in a mask below 2^k. */
  lemma {:induction false} BitsBelow(m: nat, k: nat, j: nat)
    requires m < Pow2(k) && j >= k
    ensures !Bit(m, j)
  {
    if j > 0 {
      BitsBelow(m / 2, if k == 0 then 0 else k - 1, j - 1);
    }
  }

  /** Bit i of the mask is set iff element i satisfies the predicate, and
   *  no bit beyond the elements is set. */
  lemma {:induction false} MaskOfBits<T>(predicate_: T -> bool, xs: seq<T>)
    ensures MaskOf(predicate_, xs) < Pow2(|xs|)
    ensures forall i :: 0 <= i < |xs| ==> (Bit(MaskOf(predicate_, xs), i) <==> predicate_(xs[i]))
  {
    if |xs| > 0 {
      var n := |xs| - 1;
      var front := xs[..n];
      var m := MaskOf(predicate_, front);
      MaskOfBits(predicate_, front);
      forall i | 0 <= i < |xs|
        ensures Bit(MaskOf(predicate_, xs), i) <==> predicate_(xs[i])
      {
        if predicate_(xs[n]) {
          BitOfSum(m, n, i);
        } else if i == n {
          BitsBelow(m, n, i);
        }
      }
    }
  }

  /** to_binary_mask(source, predicate): one flag per element, shifted left
   *  each step and or-ed in where the predicate holds. */
  method ToBinaryMask<T>(source: seq<T>, predicate_: T -> bool) returns (result: nat)
    ensures result == MaskOf(predicate_, source)
  {
    result := 0;
    var flag := 1;
    var i := 0;
    while i < |source|
      invariant 0 <= i <= |source| && flag == Pow2(i)
      invariant result == MaskOf(predicate_, source[..i])
    {
      assert source[..i + 1][..i] == source[..i];
      MaskOfBits(predicate_, source[..i]);
      if predicate_(source[i]) {
        OrHighBit(result, i);
        result := Or(result, flag);
      }
      flag := flag * 2;
      i := i + 1;
    }
    assert source[..i] == source;
  }

  lemma {:induction false} ShiftedBit(mask: nat, i: nat)
    ensures Bit(mask, i) <==> Shifted(mask, i) % 2 == 1
    ensures Shifted(mask, i + 1) == Shifted(mask, i) / 2
  {
    if i > 0 {
      ShiftedBit(mask / 2, i - 1);
    }
  }

  /** The elements whose bit is set, in order. */
  function Selected(xs: seq<int>, mask: nat): seq<int>
  {
    if |xs| == 0 then []
    else Selected(xs[..|xs| - 1], mask) + if Bit(mask, |xs| - 1) then [xs[|xs| - 1]] else []
  }

  /** The sum of the elements whose bit is set. */
  function MaskedTotal(xs: seq<int>, mask: nat): int
  {
    if |xs| == 0 then 0
    else MaskedTotal(xs[..|xs| - 1], mask) + if Bit(mask, |xs| - 1) then xs[|xs| - 1] else 0
  }

  /** The sum of the elements that satisfy the predicate. */
  function SumWhere(xs: seq<int>, predicate_: int -> bool): int
  {
    if |xs| == 0 then 0
    else SumWhere(xs[..|xs| - 1], predicate_) + if predicate_(xs[|xs| - 1]) then xs[|xs| - 1] else 0
  }

  /** masked_sum(source, mask): add each element whose low mask bit is set,
   *  shifting the mask right after each element. */
  method MaskedSum(source: seq<int>, mask: nat) returns (result: int)
    ensures result == MaskedTotal(source, mask)
  {
    result := 0;
    var m := mask;
    var i := 0;
    while i < |source|
      invariant 0 <= i <= |source| && m == Shifted(mask, i)
      invariant result == MaskedTotal(source[..i], mask)
    {
      assert source[..i + 1][..i] == source[..i];
      ShiftedBit(mask, i);
      AndOne(m);
      if And(m, 1) == 1 {
        result := result + source[i];
      }
      m := m / 2;
      i := i + 1;
    }
    assert source[..i] == source;
  }

  /** masked_touch(source, mask, action): the action sees the elements
   *  whose bit is set, in order; the model returns what it saw. */
  method MaskedTouch(source: seq<int>, mask: nat) returns (touched: seq<int>)
    ensures touched == Selected(source, mask)
  {
    touched := [];
    var m := mask;
    var i := 0;
    while i < |source|
      invariant 0 <= i <= |source| && m == Shifted(mask, i)
      invariant touched == Selected(source[..i], mask)
    {
      assert source[..i + 1][..i] == source[..i];
      ShiftedBit(mask, i);
      AndOne(m);
      if And(m, 1) == 1 {
        touched := touched + [source[i]];
      }
      m := m / 2;
      i := i + 1;
    }
    assert source[..i] == source;
  }

  /** The source with the action applied to the elements whose bit is set. */
  function Acted(xs: seq<int>, mask: nat, action: int -> int): (r: seq<int>)
    ensures |r| == |xs|
  {
    seq(|xs|, i requires 0 <= i < |xs| => if Bit(mask, i) then action(xs[i]) else xs[i])
  }

  /** masked_action(source, mask, action): apply the action in place to the
   *  elements whose low mask bit is set, shifting the mask after each. */
  method MaskedAction(source: array<int>, mask: nat, action: int -> int)
    modifies source
    ensures source[..] == Acted(old(source[..]), mask, action)
  {
    var m := mask;
    var i := 0;
    while i < source.Length
      invariant 0 <= i <= source.Length && m == Shifted(mask, i)
      invariant forall k :: 0 <= k < source.Length ==>
        source[k] == if k < i && Bit(mask, k) then action(old(source[k])) else old(source[k])
    {
      ShiftedBit(mask, i);
      AndOne(m);
      if And(m, 1) == 1 {
        source[i] := action(source[i]);
      }
      m := m / 2;
      i := i + 1;
    }
  }

  /** The touched elements add up to the masked sum. */
  lemma {:induction false} TouchedSum(xs: seq<int>, mask: nat)
    ensures Sum(Selected(xs, mask)) == MaskedTotal(xs, mask)
  {
    if |xs| > 0 {
      var front := xs[..|xs| - 1];
      TouchedSum(front, mask);
      SumAppend(Selected(front, mask), if Bit(mask, |xs| - 1) then [xs[|xs| - 1]] else []);
    }
  }

  function Sum(xs: seq<int>): int
  {
    if |xs| == 0 then 0 else Sum(xs[..|xs| - 1]) + xs[|xs| - 1]
  }

  lemma {:induction false} SumAppend(a: seq<int>, b: seq<int>)
    ensures Sum(a + b) == Sum(a) + Sum(b)
    decreases |b|
  {
    if |b| > 0 {
      SumAppend(a, b[..|b| - 1]);
      assert (a + b)[..|a + b| - 1] == a + b[..|b| - 1];
    } else {
      assert a + b == a;
    }
  }

  /** The masked sum over the mask of a predicate is the sum of the
   *  elements that satisfy it. */
  lemma {:induction false} MaskedSumOfMask(xs: seq<int>, predicate_: int -> bool)
    ensures MaskedTotal(xs, MaskOf(predicate_, xs)) == SumWhere(xs, predicate_)
  {
    MaskOfBits(predicate_, xs);
    SumAgrees(xs, MaskOf(predicate_, xs), predicate_);
  }

  lemma {:induction false} SumAgrees(xs: seq<int>, mask: nat, predicate_: int -> bool)
    requires forall i :: 0 <= i < |xs| ==> (Bit(mask, i) <==> predicate_(xs[i]))
    ensures MaskedTotal(xs, mask) == SumWhere(xs, predicate_)
  {
    if |xs| > 0 {
      var front := xs[..|xs| - 1];
      assert forall i :: 0 <= i < |front| ==> front[i] == xs[i];
      SumAgrees(front, mask, predicate_);
    }
  }

  /** The masks of two predicates or-ed together select the elements
   *  satisfying either. */
  lemma {:induction false} OrOfMasks(xs: seq<int>, p: int -> bool, q: int -> bool)
    ensures forall i :: 0 <= i < |xs| ==>
      (Bit(Or(MaskOf(p, xs), MaskOf(q, xs)), i) <==> p(xs[i]) || q(xs[i]))
  {
    MaskOfBits(p, xs);
    MaskOfBits(q, xs);
    forall i | 0 <= i < |xs|
      ensures Bit(Or(MaskOf(p, xs), MaskOf(q, xs)), i) <==> Bit(MaskOf(p, xs), i) || Bit(MaskOf(q, xs), i)
    {
      BitOfOr(MaskOf(p, xs), MaskOf(q, xs), i);
    }
  }

  lemma {:induction false} BitOfOr(a: nat, b: nat, i: nat)
    ensures Bit(Or(a, b), i) <==> Bit(a, i) || Bit(b, i)
    decreases i
  {
    if a == 0 {
      ZeroBits(i);
    } else if b == 0 {
      ZeroBits(i);
    } else if i > 0 {
      BitOfOr(a / 2, b / 2, i - 1);
    }
  }

  lemma {:induction false} ZeroBits(i: nat)
    ensures !Bit(0, i)
  {
    if i > 0 {
      ZeroBits(i - 1);
    }
  }

  /** The masked-action test: or-ing 1 into the even elements leaves no
   *  even element, so the mask of even elements becomes 0. */
  lemma {:induction false} OddAfterAction(xs: seq<nat>)
    ensures var even := (x: int) => x % 2 == 0;
      var ys := Acted(xs, MaskOf(even, xs), (x: int) => if x < 0 then x else Or(x, 1));
      MaskOf(even, ys) == 0
  {
    var even := (x: int) => x % 2 == 0;
    var orOne := (x: int) => if x < 0 then x else Or(x, 1);
    var ys := Acted(xs, MaskOf(even, xs), orOne);
    MaskOfBits(even, xs);
    forall i | 0 <= i < |ys|
      ensures ys[i] % 2 == 1
    {
      if xs[i] % 2 == 0 {
        OrOneEven(xs[i]);
      }
    }
    NoneSelected(even, ys);
  }

  lemma {:induction false} NoneSelected(predicate_: int -> bool, xs: seq<int>)
    requires forall i :: 0 <= i < |xs| ==> !predicate_(xs[i])
    ensures MaskOf(predicate_, xs) == 0
  {
    if |xs| > 0 {
      NoneSelected(predicate_, xs[..|xs| - 1]);
    }
  }
}
