/** The projection of a walkable surface onto a grid (`matrix_projector`):
 *  the L1 distance between two cells and the passable four-neighbours of a
 *  cell, each one step away at cost 1. The surface is a boolean matrix; a
 *  cell is passable when its value differs from the blocked indicator. */
module Projectors {

  /** A (row, column) position in the grid, as `matrix_index`. */
  datatype Index = Index(row: nat, column: nat)

  /** A neighbour and the cost of stepping onto it, as `index_cost_pair`. */
  datatype Pair = Pair(index: Index, cost: nat)

  /** The matrix projector: the surface's dimensions, its cells and the value
   *  marking a blocked cell. */
  datatype Projector = Projector(height: nat, width: nat, surface: Index -> bool, blockedIndicator: bool)

  /** `inequality_comparer<T>::good`: a cell is good when it is not the
   *  blocked indicator. */
  predicate Good<T(==)>(value: T, blockedIndicator: T)
  {
    value != blockedIndicator
  }

  /** `inequality_comparer<bool>::good`, written with exclusive or: it agrees
   *  with the generic comparer, and a false indicator makes the true cells
   *  good while a true one makes the false cells good. */
  function GoodBool(value: bool, blockedIndicator: bool): (b: bool)
    ensures b == Good(value, blockedIndicator)
    ensures !blockedIndicator ==> b == value
    ensures blockedIndicator ==> b == !value
  {
    (value && !blockedIndicator) || (!value && blockedIndicator)
  }

  predicate InBounds(p: Projector, i: Index)
  {
    i.row < p.height && i.column < p.width
  }

  /** The cell may be stepped on. */
  predicate Passable(p: Projector, i: Index)
  {
    GoodBool(p.surface(i), p.blockedIndicator)
  }

  /** The distance between two coordinates, as the unsigned branches of
   *  distance_override compute it: the absolute difference. */
  function Gap(x: nat, y: nat): (d: nat)
    ensures d as int == x - y || d as int == y - x
  {
    if x < y then y - x else x - y
  }

  /** distance_override(a, b): the L1 distance; it vanishes exactly on equal
   *  indices. */
  function Distance(a: Index, b: Index): (d: nat)
    ensures d == 0 <==> a == b
    ensures d == Gap(a.row, b.row) + Gap(a.column, b.column)
  {
    Gap(a.column, b.column) + Gap(a.row, b.row)
  }

  /** The L1 distance is symmetric and obeys the triangle inequality. */
  lemma DistanceMetric(a: Index, b: Index, c: Index)
    ensures Distance(a, b) == Distance(b, a)
    ensures Distance(a, c) <= Distance(a, b) + Distance(b, c)
  {
  }

  /** The position of a neighbour in the order neighbors_override lists them:
   *  above 0, right 1, below 2, left 3; any other cell 4. */
  function Rank(source: Index, i: Index): nat
  {
    if i.column == source.column && i.row + 1 == source.row then 0
    else if i.row == source.row && i.column == source.column + 1 then 1
    else if i.column == source.column && i.row == source.row + 1 then 2
    else if i.row == source.row && i.column + 1 == source.column then 3
    else 4
  }

  /** A cell one step away is one of the four neighbours. */
  lemma AdjacentRank(source: Index, i: Index)
    requires Distance(source, i) == 1
    ensures Rank(source, i) < 4
  {
  }

  /** The cell one step away in direction d (0 above, 1 right, 2 below,
   *  3 left), kept when it lies inside the grid and is passable. */
  function Step(p: Projector, source: Index, d: nat): (r: seq<Pair>)
    requires InBounds(p, source) && d < 4
    ensures |r| <= 1
    ensures forall k :: 0 <= k < |r| ==> Rank(source, r[k].index) == d
    ensures Sound(p, source, r)
  {
    var i :=
      if d == 0 then Index(if source.row == 0 then 0 else source.row - 1, source.column)
      else if d == 1 then Index(source.row, source.column + 1)
      else if d == 2 then Index(source.row + 1, source.column)
      else Index(source.row, if source.column == 0 then 0 else source.column - 1);
    var inside :=
      if d == 0 then source.row != 0
      else if d == 1 then source.column != p.width - 1
      else if d == 2 then source.row != p.height - 1
      else source.column != 0;
    if inside && Passable(p, i) then [Pair(i, 1)] else []
  }

  /** Every listed neighbour is a passable in-bounds cell one step away, at
   *  cost 1. */
  predicate Sound(p: Projector, source: Index, r: seq<Pair>)
  {
    forall k :: 0 <= k < |r| ==>
      r[k].cost == 1 && InBounds(p, r[k].index) && Passable(p, r[k].index) && Distance(source, r[k].index) == 1
  }

  /** The neighbours come in strictly increasing direction rank. */
  predicate Increasing(source: Index, r: seq<Pair>)
  {
    forall j, k :: 0 <= j < k < |r| ==> Rank(source, r[j].index) < Rank(source, r[k].index)
  }

  /** Appending the candidate of the next direction keeps the list sound and
   *  increasing. */
  lemma Join(p: Projector, source: Index, a: seq<Pair>, d: nat)
    requires InBounds(p, source) && d < 4
    requires Sound(p, source, a) && Increasing(source, a)
    requires forall k :: 0 <= k < |a| ==> Rank(source, a[k].index) < d
    ensures Sound(p, source, a + Step(p, source, d)) && Increasing(source, a + Step(p, source, d))
    ensures forall k :: 0 <= k < |a + Step(p, source, d)| ==> Rank(source, (a + Step(p, source, d))[k].index) <= d
  {
  }

  /** neighbors_override(surface, source): the passable in-bounds cells one
   *  step away, each at cost 1, in the order above, right, below, left. */
  function Neighbors(p: Projector, source: Index): (r: seq<Pair>)
    requires InBounds(p, source)
    ensures forall k :: 0 <= k < |r| ==>
      r[k].cost == 1 && InBounds(p, r[k].index) && Passable(p, r[k].index) && Distance(source, r[k].index) == 1
    ensures forall i :: InBounds(p, i) && Passable(p, i) && Distance(source, i) == 1 ==> Pair(i, 1) in r
    ensures forall j, k :: 0 <= j < k < |r| ==> Rank(source, r[j].index) < Rank(source, r[k].index)
  {
    var r0 := Step(p, source, 0);
    Join(p, source, r0, 1);
    var r1 := r0 + Step(p, source, 1);
    Join(p, source, r1, 2);
    var r2 := r1 + Step(p, source, 2);
    Join(p, source, r2, 3);
    var r := r2 + Step(p, source, 3);
    NeighborsComplete(p, source);
    r
  }

  /** The four directions together hold every passable cell one step away. */
  lemma NeighborsComplete(p: Projector, source: Index)
    requires InBounds(p, source)
    ensures forall i :: InBounds(p, i) && Passable(p, i) && Distance(source, i) == 1 ==>
      Pair(i, 1) in Step(p, source, 0) + Step(p, source, 1) + Step(p, source, 2) + Step(p, source, 3)
  {
    forall i | InBounds(p, i) && Passable(p, i) && Distance(source, i) == 1
      ensures Pair(i, 1) in Step(p, source, 0) + Step(p, source, 1) + Step(p, source, 2) + Step(p, source, 3)
    {
      AdjacentRank(source, i);
      assert Pair(i, 1) in Step(p, source, Rank(source, i));
    }
  }

  /** neighbors_override as the source writes it: the output vector is
   *  cleared, then each of the four directions pushes its cell when the
   *  cell exists and is passable. */
  method NeighborsOverride(p: Projector, source: Index) returns (projected: seq<Pair>)
    requires InBounds(p, source)
    ensures projected == Neighbors(p, source)
  {
    projected := [];
    projected := PushAbove(p, source, projected);
    projected := PushRight(p, source, projected);
    projected := PushBelow(p, source, projected);
    projected := PushLeft(p, source, projected);
  }

  /** The first direction of neighbors_override: the cell above. */
  method PushAbove(p: Projector, source: Index, projected: seq<Pair>) returns (r: seq<Pair>)
    requires InBounds(p, source)
    ensures r == projected + Step(p, source, 0)
  {
    r := projected;
    if source.row != 0 {
      var neighbor := Index(source.row - 1, source.column);
      if GoodBool(p.surface(neighbor), p.blockedIndicator) {
        r := r + [Pair(neighbor, 1)];
      }
    }
  }

  /** The second direction: the cell to the right. */
  method PushRight(p: Projector, source: Index, projected: seq<Pair>) returns (r: seq<Pair>)
    requires InBounds(p, source)
    ensures r == projected + Step(p, source, 1)
  {
    r := projected;
    if source.column != p.width - 1 {
      var neighbor := Index(source.row, source.column + 1);
      if GoodBool(p.surface(neighbor), p.blockedIndicator) {
        r := r + [Pair(neighbor, 1)];
      }
    }
  }

  /** The third direction: the cell below. */
  method PushBelow(p: Projector, source: Index, projected: seq<Pair>) returns (r: seq<Pair>)
    requires InBounds(p, source)
    ensures r == projected + Step(p, source, 2)
  {
    r := projected;
    if source.row != p.height - 1 {
      var neighbor := Index(source.row + 1, source.column);
      if GoodBool(p.surface(neighbor), p.blockedIndicator) {
        r := r + [Pair(neighbor, 1)];
      }
    }
  }

  /** The fourth direction: the cell to the left. */
  method PushLeft(p: Projector, source: Index, projected: seq<Pair>) returns (r: seq<Pair>)
    requires InBounds(p, source)
    ensures r == projected + Step(p, source, 3)
  {
    r := projected;
    if source.column != 0 {
      var neighbor := Index(source.row, source.column - 1);
      if GoodBool(p.surface(neighbor), p.blockedIndicator) {
        r := r + [Pair(neighbor, 1)];
      }
    }
  }
}
