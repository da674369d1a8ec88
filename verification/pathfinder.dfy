/** The grid pathfinder (`pathfinder`), after the A* search: a traceback
 *  matrix of nodes (cost from the source, open and closed flags, the cell a
 *  node was reached from) and a multimap of pending cells keyed by the
 *  estimated total cost, the cost so far plus the L1 distance to the target.
 *  Costs are unbounded naturals here. */
module Pathfinders {
  import opened Errors
  import opened Projectors

  /** pathfinder_node: the cost of getting here from the source, whether the
   *  node waits in the open set or has been expanded (closed), and the
   *  neighbour it is best reached from. */
  datatype Node = Node(cost: nat, open: bool, closed: bool, cameFrom: Index)

  /** A value-initialised node, as the traceback matrix starts out. */
  const Blank := Node(0, false, false, Index(0, 0))

  predicate Visited(n: Node)
  {
    n.open || n.closed
  }

  /** An element of the pending multimap: the estimated total cost and the
   *  cell. */
  datatype Entry = Entry(estimate: nat, index: Index)

  /** What the search changes: the traceback matrix and the pending
   *  multimap. */
  datatype Search = Search(traceback: map<Index, Node>, pending: seq<Entry>)

  // ---------------------------------------------------------------------
  // The pending multimap

  /** Keys never decrease, as a multimap iterates them. */
  predicate Sorted(q: seq<Entry>)
  {
    forall j, k :: 0 <= j < k < |q| ==> q[j].estimate <= q[k].estimate
  }

  /** No cell is pending twice. */
  predicate Distinct(q: seq<Entry>)
  {
    forall j, k :: 0 <= j < k < |q| ==> q[j].index != q[k].index
  }

  /** The pending cells. */
  function Queued(q: seq<Entry>): set<Index>
  {
    set k | 0 <= k < |q| :: q[k].index
  }

  /** Where std::multimap::emplace puts a key: after every entry whose key
   *  is not greater, so that equal keys keep their insertion order. */
  function UpperBound(q: seq<Entry>, key: nat): (k: nat)
    ensures k <= |q|
    ensures forall j :: 0 <= j < k ==> q[j].estimate <= key
    ensures k < |q| ==> q[k].estimate > key
  {
    if |q| == 0 || q[0].estimate > key then 0 else 1 + UpperBound(q[1..], key)
  }

  function Emplace(q: seq<Entry>, e: Entry): seq<Entry>
  {
    var k := UpperBound(q, e.estimate);
    q[..k] + [e] + q[k..]
  }

  /** Emplacing keeps the keys in order, adds exactly the new cell to the
   *  pending ones, and keeps each cell pending once when the new one was not
   *  pending yet. */
  lemma EmplaceFacts(q: seq<Entry>, e: Entry)
    ensures |Emplace(q, e)| == |q| + 1
    ensures Sorted(q) ==> Sorted(Emplace(q, e))
    ensures Queued(Emplace(q, e)) == Queued(q) + {e.index}
    ensures Distinct(q) && e.index !in Queued(q) ==> Distinct(Emplace(q, e))
  {
    EmplaceQueued(q, e);
    if Sorted(q) {
      EmplaceSorted(q, e);
    }
    if Distinct(q) && e.index !in Queued(q) {
      EmplaceDistinct(q, e);
    }
  }

  /** Where each entry lands. */
  lemma EmplaceShape(q: seq<Entry>, e: Entry)
    ensures var k := UpperBound(q, e.estimate); var r := Emplace(q, e);
      && |r| == |q| + 1 && r[k] == e
      && (forall j :: 0 <= j < k ==> r[j] == q[j])
      && (forall j :: k < j < |r| ==> r[j] == q[j - 1])
  {
  }

  lemma EmplaceSorted(q: seq<Entry>, e: Entry)
    requires Sorted(q)
    ensures Sorted(Emplace(q, e))
  {
    EmplaceShape(q, e);
  }

  lemma EmplaceQueued(q: seq<Entry>, e: Entry)
    ensures Queued(Emplace(q, e)) == Queued(q) + {e.index}
  {
    var k := UpperBound(q, e.estimate);
    var r := Emplace(q, e);
    EmplaceShape(q, e);
    forall i | i in Queued(r) ensures i in Queued(q) + {e.index} {
      var j :| 0 <= j < |r| && r[j].index == i;
      if j > k {
        assert q[j - 1].index == i;
      } else if j < k {
        assert q[j].index == i;
      }
    }
    forall i | i in Queued(q) ensures i in Queued(r) {
      var j :| 0 <= j < |q| && q[j].index == i;
      if j < k {
        assert r[j].index == i;
      } else {
        assert r[j + 1].index == i;
      }
    }
    assert r[k].index in Queued(r);
  }

  lemma EmplaceDistinct(q: seq<Entry>, e: Entry)
    requires Distinct(q) && e.index !in Queued(q)
    ensures Distinct(Emplace(q, e))
  {
    var k := UpperBound(q, e.estimate);
    var r := Emplace(q, e);
    EmplaceShape(q, e);
    forall j, l | 0 <= j < l < |r| ensures r[j].index != r[l].index {
      if j == k {
        assert q[l - 1].index in Queued(q);
      } else if l == k {
        assert q[j].index in Queued(q);
      }
    }
  }

  /** Taking the first entry off leaves the rest sorted and distinct, and
   *  its cell no longer pending. */
  lemma PopFacts(q: seq<Entry>)
    requires |q| > 0 && Sorted(q) && Distinct(q)
    ensures Sorted(q[1..]) && Distinct(q[1..])
    ensures Queued(q[1..]) == Queued(q) - {q[0].index}
  {
    forall i | i in Queued(q) - {q[0].index} ensures i in Queued(q[1..]) {
      var j :| 0 <= j < |q| && q[j].index == i;
      assert q[1..][j - 1].index == i;
    }
    forall i | i in Queued(q[1..]) ensures i in Queued(q) - {q[0].index} {
      var j :| 0 <= j < |q[1..]| && q[1..][j].index == i;
      assert q[j + 1].index == i;
    }
  }

  lemma QueuedCons(e: Entry, q: seq<Entry>)
    ensures Queued([e] + q) == {e.index} + Queued(q)
  {
    var r := [e] + q;
    forall i | i in Queued(r) ensures i in {e.index} + Queued(q) {
      var j :| 0 <= j < |r| && r[j].index == i;
      if j > 0 {
        assert q[j - 1].index == i;
      }
    }
    forall i | i in Queued(q) ensures i in Queued(r) {
      var j :| 0 <= j < |q| && q[j].index == i;
      assert r[j + 1].index == i;
    }
    assert r[0].index in Queued(r);
  }

  /** Every entry of an emplaced multimap is the new one or an old one. */
  lemma EmplaceMembers(q: seq<Entry>, e: Entry)
    ensures forall x :: x in Emplace(q, e) ==> x == e || x in q
  {
    var k := UpperBound(q, e.estimate);
    assert q == q[..k] + q[k..];
  }

  /** The multimap with the entry of cell `i` erased, the others kept in
   *  order. */
  function Without(q: seq<Entry>, i: Index): seq<Entry>
  {
    if |q| == 0 then []
    else if q[0].index == i then Without(q[1..], i)
    else [q[0]] + Without(q[1..], i)
  }

  /** Erasing keeps only entries that were there, none of them for `i`. */
  lemma {:induction false} WithoutMembers(q: seq<Entry>, i: Index)
    ensures forall x :: x in Without(q, i) ==> x in q && x.index != i
    decreases |q|
  {
    if |q| > 0 {
      WithoutMembers(q[1..], i);
      assert q == [q[0]] + q[1..];
    }
  }

  /** Erasing keeps the keys in order. */
  lemma {:induction false} WithoutSorted(q: seq<Entry>, i: Index)
    requires Sorted(q)
    ensures Sorted(Without(q, i))
    decreases |q|
  {
    if |q| > 0 && q[0].index != i {
      var rest := Without(q[1..], i);
      WithoutSorted(q[1..], i);
      WithoutMembers(q[1..], i);
      var r := [q[0]] + rest;
      forall j, k | 0 <= j < k < |r| ensures r[j].estimate <= r[k].estimate {
        if j == 0 {
          var m :| 0 <= m < |q[1..]| && q[1..][m] == r[k];
          assert q[m + 1] == r[k];
        }
      }
    } else if |q| > 0 {
      WithoutSorted(q[1..], i);
    }
  }

  /** Erasing keeps each cell pending at most once. */
  lemma {:induction false} WithoutDistinct(q: seq<Entry>, i: Index)
    requires Distinct(q)
    ensures Distinct(Without(q, i))
    decreases |q|
  {
    if |q| > 0 && q[0].index != i {
      var rest := Without(q[1..], i);
      WithoutDistinct(q[1..], i);
      WithoutMembers(q[1..], i);
      var r := [q[0]] + rest;
      forall j, k | 0 <= j < k < |r| ensures r[j].index != r[k].index {
        if j == 0 {
          var m :| 0 <= m < |q[1..]| && q[1..][m] == r[k];
          assert q[m + 1] == r[k];
        }
      }
    } else if |q| > 0 {
      WithoutDistinct(q[1..], i);
    }
  }

  /** Erasing removes exactly cell `i` from the pending ones. */
  lemma {:induction false} WithoutQueued(q: seq<Entry>, i: Index)
    ensures Queued(Without(q, i)) == Queued(q) - {i}
    decreases |q|
  {
    if |q| > 0 {
      WithoutQueued(q[1..], i);
      assert q == [q[0]] + q[1..];
      QueuedCons(q[0], q[1..]);
      if q[0].index != i {
        QueuedCons(q[0], Without(q[1..], i));
      }
    }
  }

  /** The corrected re-route: the cell's entry is erased and emplaced again
   *  under its new estimate. */
  function Rekey(q: seq<Entry>, e: Entry): seq<Entry>
  {
    Emplace(Without(q, e.index), e)
  }

  /** Re-keying a pending cell keeps the multimap sorted and distinct and
   *  the set of pending cells as it was; only that cell's entry changes. */
  lemma RekeyFacts(q: seq<Entry>, e: Entry)
    requires Sorted(q) && Distinct(q) && e.index in Queued(q)
    ensures Sorted(Rekey(q, e)) && Distinct(Rekey(q, e)) && Queued(Rekey(q, e)) == Queued(q)
    ensures forall x :: x in Rekey(q, e) ==> x == e || (x in q && x.index != e.index)
  {
    WithoutSorted(q, e.index);
    WithoutDistinct(q, e.index);
    WithoutQueued(q, e.index);
    WithoutMembers(q, e.index);
    EmplaceFacts(Without(q, e.index), e);
    EmplaceMembers(Without(q, e.index), e);
  }

  // ---------------------------------------------------------------------
  // The steps of the search, as functions of the state

  /** enqueue(position, came_from, target, cost): a node neither open nor
   *  closed becomes open with the given cost and predecessor, and is
   *  emplaced with its estimated total cost; any other node is skipped. */
  function Enqueued(s: Search, position: Index, cameFrom: Index, target: Index, cost: nat): Search
    requires position in s.traceback
  {
    var n := s.traceback[position];
    if n.closed || n.open then s
    else Search(s.traceback[position := n.(cost := cost, open := true, cameFrom := cameFrom)],
                Emplace(s.pending, Entry(cost + Distance(position, target), position)))
  }

  /** One neighbour in the loop of expand: closed ones are skipped, new ones
   *  enqueued, open ones re-routed through the current node when that is
   *  cheaper. As written (`rekey` false) a re-routed cell keeps its entry in
   *  the multimap under the old estimate; corrected (`rekey` true) the entry
   *  is re-keyed with the new cost plus the distance to the target. */
  function Relax(s: Search, current: Index, target: Index, item: Pair, rekey: bool): Search
    requires current in s.traceback && item.index in s.traceback
  {
    var neighbor := s.traceback[item.index];
    var newCost := s.traceback[current].cost + item.cost;
    if neighbor.closed then s
    else if !neighbor.open then Enqueued(s, item.index, current, target, newCost)
    else if neighbor.cost > newCost then
      Search(s.traceback[item.index := neighbor.(cameFrom := current, cost := newCost)],
             if rekey then Rekey(s.pending, Entry(newCost + Distance(item.index, target), item.index)) else s.pending)
    else s
  }

  function RelaxAll(s: Search, current: Index, target: Index, items: seq<Pair>, rekey: bool): (s': Search)
    requires current in s.traceback
    requires forall k :: 0 <= k < |items| ==> items[k].index in s.traceback
    ensures s'.traceback.Keys == s.traceback.Keys
    decreases |items|
  {
    if |items| == 0 then s
    else Relax(RelaxAll(s, current, target, items[..|items| - 1], rekey), current, target, items[|items| - 1], rekey)
  }

  /** The traceback has a node for every cell of the surface. */
  ghost predicate Covers(p: Projector, t: map<Index, Node>)
  {
    forall i :: i in t <==> InBounds(p, i)
  }

  /** The state after closing the cheapest pending cell, before its
   *  neighbours are looked at. */
  function Closed(s: Search): Search
    requires |s.pending| > 0 && s.pending[0].index in s.traceback
  {
    var c := s.pending[0].index;
    Search(s.traceback[c := s.traceback[c].(open := false, closed := true)], s.pending[1..])
  }

  /** expand(target): takes the cheapest pending cell off the multimap,
   *  closes it and relaxes its neighbours; nothing when nothing is
   *  pending. */
  function Expanded(p: Projector, s: Search, target: Index, rekey: bool): Search
    requires Covers(p, s.traceback)
    requires |s.pending| > 0 ==> s.pending[0].index in s.traceback
  {
    if |s.pending| == 0 then s
    else
      var c := s.pending[0].index;
      RelaxAll(Closed(s), c, target, Neighbors(p, c), rekey)
  }

  // ---------------------------------------------------------------------
  // The invariant of the search

  /** A node is never open and closed at once; every reached node but the
   *  source was reached from a closed neighbour, one step cheaper, and is
   *  passable. */
  ghost predicate NodeChained(p: Projector, source: Index, t: map<Index, Node>, i: Index)
    requires i in t
  {
    var n := t[i];
    && !(n.open && n.closed)
    && (Visited(n) && i != source ==>
          && n.cameFrom in t && t[n.cameFrom].closed && n.cost == t[n.cameFrom].cost + 1
          && Distance(n.cameFrom, i) == 1 && Passable(p, i))
  }

  ghost predicate Chained(p: Projector, source: Index, t: map<Index, Node>)
  {
    forall i :: i in t ==> NodeChained(p, source, t, i)
  }

  /** The pending multimap holds exactly the open cells, each once, in key
   *  order. */
  ghost predicate QueueExact(s: Search)
  {
    && Sorted(s.pending) && Distinct(s.pending)
    && Queued(s.pending) <= s.traceback.Keys
    && (forall i :: i in s.traceback ==> (s.traceback[i].open <==> i in Queued(s.pending)))
  }

  /** Everything but the frontier property. */
  ghost predicate Core(p: Projector, source: Index, s: Search)
  {
    && Covers(p, s.traceback) && QueueExact(s) && Chained(p, source, s.traceback)
    && source in s.traceback && Visited(s.traceback[source])
  }

  /** Every passable neighbour of a closed cell, other than `current`, has
   *  been reached, and unless it is closed itself it costs at most one more
   *  than that cell. */
  ghost predicate FrontierExcept(p: Projector, t: map<Index, Node>, current: Option<Index>)
  {
    forall i, n :: i in t && t[i].closed && Some(i) != current && n in t && Passable(p, n) && Distance(i, n) == 1
      ==> Visited(t[n]) && (t[n].closed || t[n].cost <= t[i].cost + 1)
  }

  ghost predicate Invariant(p: Projector, source: Index, s: Search)
  {
    Core(p, source, s) && FrontierExcept(p, s.traceback, None)
  }

  /** Nodes are reached and closed for good: the closed ones do not change
   *  at all and the costs of the reached ones only go down. */
  ghost predicate Grows(t: map<Index, Node>, t': map<Index, Node>)
  {
    && t'.Keys == t.Keys
    && forall i :: i in t ==>
         && t'[i].closed == t[i].closed
         && (t[i].closed ==> t'[i] == t[i])
         && (Visited(t[i]) ==> Visited(t'[i]) && t'[i].cost <= t[i].cost)
  }

  lemma GrowsTransitive(t: map<Index, Node>, t': map<Index, Node>, t'': map<Index, Node>)
    requires Grows(t, t') && Grows(t', t'')
    ensures Grows(t, t'')
  {
  }

  lemma FrontierGrows(p: Projector, t: map<Index, Node>, t': map<Index, Node>, current: Option<Index>)
    requires FrontierExcept(p, t, current) && Grows(t, t')
    ensures FrontierExcept(p, t', current)
  {
  }

  /** Changing one node that is not closed, into one that is not closed
   *  either and chained itself, keeps every node chained: no node was
   *  reached from it. */
  lemma ChainedUpdate(p: Projector, source: Index, t: map<Index, Node>, j: Index, n: Node)
    requires Chained(p, source, t) && j in t && !t[j].closed && !n.closed
    requires NodeChained(p, source, t[j := n], j)
    ensures Chained(p, source, t[j := n])
  {
    var t' := t[j := n];
    forall i | i in t' ensures NodeChained(p, source, t', i) {
      if i != j {
        assert NodeChained(p, source, t, i);
      }
    }
  }

  /** Enqueueing a fresh neighbour of a closed cell keeps the invariant
   *  core: the cell becomes open and pending exactly once. */
  lemma EnqueueKeeps(p: Projector, source: Index, s: Search, position: Index, cameFrom: Index, target: Index, cost: nat)
    requires Core(p, source, s) && position in s.traceback && !Visited(s.traceback[position])
    requires cameFrom in s.traceback && s.traceback[cameFrom].closed && cost == s.traceback[cameFrom].cost + 1
    requires Distance(cameFrom, position) == 1 && Passable(p, position)
    ensures var s' := Enqueued(s, position, cameFrom, target, cost);
      && Core(p, source, s') && Grows(s.traceback, s'.traceback) && s'.traceback[position].open
      && |s'.pending| == |s.pending| + 1
  {
    var t := s.traceback;
    var n := t[position].(cost := cost, open := true, cameFrom := cameFrom);
    var e := Entry(cost + Distance(position, target), position);
    var s' := Search(t[position := n], Emplace(s.pending, e));
    assert s' == Enqueued(s, position, cameFrom, target, cost);
    assert position != cameFrom;
    assert NodeChained(p, source, t[position := n], position);
    ChainedUpdate(p, source, t, position, n);
    QueueAfterEnqueue(s, position, n, e);
    EmplaceFacts(s.pending, e);
    assert Covers(p, s'.traceback);
    assert QueueExact(s');
    assert Chained(p, source, s'.traceback);
    assert source in s'.traceback && Visited(s'.traceback[source]);
    assert Grows(s.traceback, s'.traceback);
  }

  /** The multimap after an enqueue still holds exactly the open cells. */
  lemma QueueAfterEnqueue(s: Search, position: Index, n: Node, e: Entry)
    requires QueueExact(s) && position in s.traceback && !s.traceback[position].open
    requires n.open && e.index == position
    ensures QueueExact(Search(s.traceback[position := n], Emplace(s.pending, e)))
  {
    var t' := s.traceback[position := n];
    var q' := Emplace(s.pending, e);
    assert position !in Queued(s.pending);
    EmplaceFacts(s.pending, e);
    forall i | i in t' ensures t'[i].open <==> i in Queued(q') {
      if i != position {
        assert t'[i] == s.traceback[i];
      }
    }
  }

  /** Re-routing an open neighbour through a closed cell at a lower cost
   *  keeps the invariant core, whether its entry stays or is re-keyed: the
   *  multimap `q` holds the same cells as before, sorted and each once. */
  lemma LowerKeeps(p: Projector, source: Index, s: Search, position: Index, cameFrom: Index, cost: nat, q: seq<Entry>)
    requires Core(p, source, s) && position in s.traceback && s.traceback[position].open
    requires cameFrom in s.traceback && s.traceback[cameFrom].closed && cost == s.traceback[cameFrom].cost + 1
    requires Distance(cameFrom, position) == 1 && Passable(p, position) && cost < s.traceback[position].cost
    requires Sorted(q) && Distinct(q) && Queued(q) == Queued(s.pending)
    ensures var t' := s.traceback[position := s.traceback[position].(cameFrom := cameFrom, cost := cost)];
      Core(p, source, Search(t', q)) && Grows(s.traceback, t')
  {
    var t := s.traceback;
    var n := t[position].(cameFrom := cameFrom, cost := cost);
    assert position != cameFrom;
    assert NodeChained(p, source, t[position := n], position);
    ChainedUpdate(p, source, t, position, n);
  }

  /** Every pending entry is keyed by its cell's cost plus the distance to
   *  the target, as enqueue computes the key. */
  ghost predicate KeysExact(s: Search, target: Index)
  {
    forall e :: e in s.pending ==> KeyExact(s.traceback, e, target)
  }

  ghost predicate KeyExact(t: map<Index, Node>, e: Entry, target: Index)
  {
    e.index in t && e.estimate == t[e.index].cost + Distance(e.index, target)
  }

  /** An enqueue keys its entry exactly and changes no pending cell. */
  lemma EnqueueKeysExact(s: Search, position: Index, cameFrom: Index, target: Index, cost: nat)
    requires QueueExact(s) && KeysExact(s, target) && position in s.traceback
    ensures KeysExact(Enqueued(s, position, cameFrom, target, cost), target)
  {
    var n := s.traceback[position];
    if !(n.closed || n.open) {
      var e := Entry(cost + Distance(position, target), position);
      var t' := s.traceback[position := n.(cost := cost, open := true, cameFrom := cameFrom)];
      var s' := Search(t', Emplace(s.pending, e));
      assert s' == Enqueued(s, position, cameFrom, target, cost);
      EmplaceMembers(s.pending, e);
      forall x | x in s'.pending ensures KeyExact(t', x, target) {
        if x != e {
          var k :| 0 <= k < |s.pending| && s.pending[k] == x;
          assert s.pending[k].index in Queued(s.pending);
        }
      }
    }
  }

  /** As written, the re-route lowers the cell's cost but leaves its entry
   *  under the old estimate: that key is no longer the cell's cost plus its
   *  distance to the target. */
  lemma StaleKey(s: Search, current: Index, target: Index, item: Pair)
    requires QueueExact(s) && KeysExact(s, target) && current in s.traceback && item.index in s.traceback
    requires s.traceback[item.index].open && !s.traceback[item.index].closed
    requires s.traceback[item.index].cost > s.traceback[current].cost + item.cost
    ensures !KeysExact(Relax(s, current, target, item, false), target)
  {
    var i := item.index;
    assert i in Queued(s.pending);
    var k :| 0 <= k < |s.pending| && s.pending[k].index == i;
    RelaxLowers(s, current, target, item, false);
    var s' := Relax(s, current, target, item, false);
    assert s'.pending[k] in s'.pending;
  }

  /** One neighbour of a closed cell keeps the invariant core, is reached
   *  afterwards and, unless closed, costs at most one more than the current
   *  cell; with the re-keying re-route the keys stay exact. */
  lemma RelaxKeeps(p: Projector, source: Index, s: Search, current: Index, target: Index, item: Pair, rekey: bool)
    requires Core(p, source, s) && current in s.traceback && s.traceback[current].closed
    requires item.cost == 1 && InBounds(p, item.index) && Passable(p, item.index) && Distance(current, item.index) == 1
    ensures item.index in s.traceback
    ensures var s' := Relax(s, current, target, item, rekey);
      && Core(p, source, s') && Grows(s.traceback, s'.traceback) && Visited(s'.traceback[item.index])
      && (s'.traceback[item.index].closed || s'.traceback[item.index].cost <= s.traceback[current].cost + 1)
      && (rekey && KeysExact(s, target) ==> KeysExact(s', target))
  {
    var neighbor := s.traceback[item.index];
    if neighbor.closed {
      assert Relax(s, current, target, item, rekey) == s;
      GrowsReflexive(s.traceback);
    } else if !neighbor.open {
      RelaxFresh(p, source, s, current, target, item, rekey);
    } else {
      RelaxOpen(p, source, s, current, target, item, rekey);
    }
  }

  lemma RelaxFresh(p: Projector, source: Index, s: Search, current: Index, target: Index, item: Pair, rekey: bool)
    requires Core(p, source, s) && current in s.traceback && s.traceback[current].closed
    requires item.cost == 1 && Passable(p, item.index) && Distance(current, item.index) == 1
    requires item.index in s.traceback && !Visited(s.traceback[item.index])
    ensures var s' := Relax(s, current, target, item, rekey);
      && Core(p, source, s') && Grows(s.traceback, s'.traceback) && Visited(s'.traceback[item.index])
      && s'.traceback[item.index].cost == s.traceback[current].cost + 1
      && (KeysExact(s, target) ==> KeysExact(s', target))
  {
    var newCost := s.traceback[current].cost + item.cost;
    EnqueueKeeps(p, source, s, item.index, current, target, newCost);
    RelaxEnqueues(s, current, target, item, rekey);
    if KeysExact(s, target) {
      EnqueueKeysExact(s, item.index, current, target, newCost);
    }
  }

  /** A neighbour reached for the first time is enqueued. */
  lemma RelaxEnqueues(s: Search, current: Index, target: Index, item: Pair, rekey: bool)
    requires current in s.traceback && item.index in s.traceback && !Visited(s.traceback[item.index])
    ensures Relax(s, current, target, item, rekey)
         == Enqueued(s, item.index, current, target, s.traceback[current].cost + item.cost)
  {
  }

  lemma RelaxOpen(p: Projector, source: Index, s: Search, current: Index, target: Index, item: Pair, rekey: bool)
    requires Core(p, source, s) && current in s.traceback && s.traceback[current].closed
    requires item.cost == 1 && Passable(p, item.index) && Distance(current, item.index) == 1
    requires item.index in s.traceback && s.traceback[item.index].open
    ensures var s' := Relax(s, current, target, item, rekey);
      && Core(p, source, s') && Grows(s.traceback, s'.traceback) && Visited(s'.traceback[item.index])
      && s'.traceback[item.index].cost <= s.traceback[current].cost + 1
      && (rekey && KeysExact(s, target) ==> KeysExact(s', target))
  {
    if s.traceback[item.index].cost > s.traceback[current].cost + item.cost {
      RelaxLower(p, source, s, current, target, item, rekey);
    } else {
      assert Relax(s, current, target, item, rekey) == s;
      GrowsReflexive(s.traceback);
    }
  }

  /** An open neighbour now cheaper through the current cell. */
  lemma RelaxLower(p: Projector, source: Index, s: Search, current: Index, target: Index, item: Pair, rekey: bool)
    requires Core(p, source, s) && current in s.traceback && s.traceback[current].closed
    requires item.cost == 1 && Passable(p, item.index) && Distance(current, item.index) == 1
    requires item.index in s.traceback && s.traceback[item.index].open
    requires s.traceback[item.index].cost > s.traceback[current].cost + item.cost
    ensures var s' := Relax(s, current, target, item, rekey);
      && Core(p, source, s') && Grows(s.traceback, s'.traceback) && Visited(s'.traceback[item.index])
      && s'.traceback[item.index].cost == s.traceback[current].cost + 1
      && (rekey && KeysExact(s, target) ==> KeysExact(s', target))
  {
    var s' := Relax(s, current, target, item, rekey);
    RerouteQueue(s, current, target, item, rekey);
    LowerKeeps(p, source, s, item.index, current, s.traceback[current].cost + 1, s'.pending);
    if rekey && KeysExact(s, target) {
      RelaxLowerKeys(s, current, target, item);
    }
  }

  /** Either re-route leaves the multimap sorted and distinct, with the
   *  same cells pending. */
  lemma RerouteQueue(s: Search, current: Index, target: Index, item: Pair, rekey: bool)
    requires QueueExact(s) && current in s.traceback && item.index in s.traceback
    requires s.traceback[item.index].open && !s.traceback[item.index].closed
    requires s.traceback[item.index].cost > s.traceback[current].cost + item.cost
    ensures var t := s.traceback; var s' := Relax(s, current, target, item, rekey);
      && s'.traceback == t[item.index := t[item.index].(cameFrom := current, cost := t[current].cost + item.cost)]
      && Sorted(s'.pending) && Distinct(s'.pending) && Queued(s'.pending) == Queued(s.pending)
    ensures var e := Entry(s.traceback[current].cost + item.cost + Distance(item.index, target), item.index);
      rekey ==> forall x :: x in Relax(s, current, target, item, rekey).pending ==> x == e || (x in s.pending && x.index != item.index)
  {
    RelaxLowers(s, current, target, item, rekey);
    if rekey {
      var e := Entry(s.traceback[current].cost + item.cost + Distance(item.index, target), item.index);
      var q := Relax(s, current, target, item, rekey).pending;
      assert q == Rekey(s.pending, e);
      RekeyFacts(s.pending, e);
    }
  }

  /** The re-keying re-route keeps the keys exact. */
  lemma RelaxLowerKeys(s: Search, current: Index, target: Index, item: Pair)
    requires QueueExact(s) && KeysExact(s, target) && current in s.traceback && item.index in s.traceback
    requires s.traceback[item.index].open && !s.traceback[item.index].closed
    requires s.traceback[item.index].cost > s.traceback[current].cost + item.cost
    ensures KeysExact(Relax(s, current, target, item, true), target)
  {
    var t := s.traceback;
    var n := t[item.index].(cameFrom := current, cost := t[current].cost + item.cost);
    RerouteQueue(s, current, target, item, true);
    ReplacedKeysExact(s, Relax(s, current, target, item, true), item.index, n, target);
  }

  /** Replacing one cell's node and its entry by one keyed exactly for the
   *  new node keeps every key exact. */
  lemma ReplacedKeysExact(s: Search, s': Search, position: Index, n: Node, target: Index)
    requires KeysExact(s, target) && position in s.traceback && s'.traceback == s.traceback[position := n]
    requires forall x :: x in s'.pending ==> x == Entry(n.cost + Distance(position, target), position) || (x in s.pending && x.index != position)
    ensures KeysExact(s', target)
  {
    forall x | x in s'.pending ensures KeyExact(s'.traceback, x, target) {
      if x != Entry(n.cost + Distance(position, target), position) {
        assert KeyExact(s.traceback, x, target);
      }
    }
  }

  lemma RelaxLowers(s: Search, current: Index, target: Index, item: Pair, rekey: bool)
    requires current in s.traceback && item.index in s.traceback
    requires s.traceback[item.index].open && !s.traceback[item.index].closed
    requires s.traceback[item.index].cost > s.traceback[current].cost + item.cost
    ensures var t := s.traceback; var newCost := t[current].cost + item.cost;
      Relax(s, current, target, item, rekey)
        == Search(t[item.index := t[item.index].(cameFrom := current, cost := newCost)],
                  if rekey then Rekey(s.pending, Entry(newCost + Distance(item.index, target), item.index)) else s.pending)
  {
  }

  lemma GrowsReflexive(t: map<Index, Node>)
    ensures Grows(t, t)
  {
  }

  /** All neighbours, one at a time: the core and the frontier away from the
   *  current cell are kept, every neighbour is reached and, unless closed,
   *  costs at most one more than the current cell. */
  lemma {:induction false} RelaxAllKeeps(p: Projector, source: Index, s: Search, current: Index, target: Index, items: seq<Pair>, rekey: bool)
    requires Core(p, source, s) && current in s.traceback && s.traceback[current].closed
    requires FrontierExcept(p, s.traceback, Some(current))
    requires forall k :: 0 <= k < |items| ==>
      items[k].cost == 1 && InBounds(p, items[k].index) && Passable(p, items[k].index) && Distance(current, items[k].index) == 1
    ensures forall k :: 0 <= k < |items| ==> items[k].index in s.traceback
    ensures var s' := RelaxAll(s, current, target, items, rekey);
      && Core(p, source, s') && Grows(s.traceback, s'.traceback)
      && FrontierExcept(p, s'.traceback, Some(current))
      && (forall k :: 0 <= k < |items| ==>
            Visited(s'.traceback[items[k].index])
            && (s'.traceback[items[k].index].closed || s'.traceback[items[k].index].cost <= s.traceback[current].cost + 1))
      && (rekey && KeysExact(s, target) ==> KeysExact(s', target))
    decreases |items|
  {
    if |items| > 0 {
      var front := items[..|items| - 1];
      var item := items[|items| - 1];
      RelaxAllKeeps(p, source, s, current, target, front, rekey);
      var s1 := RelaxAll(s, current, target, front, rekey);
      RelaxKeeps(p, source, s1, current, target, item, rekey);
      var s2 := Relax(s1, current, target, item, rekey);
      assert s2 == RelaxAll(s, current, target, items, rekey);
      GrowsTransitive(s.traceback, s1.traceback, s2.traceback);
      FrontierGrows(p, s1.traceback, s2.traceback, Some(current));
      assert s1.traceback[current] == s.traceback[current];
      forall k | 0 <= k < |items|
        ensures Visited(s2.traceback[items[k].index])
        ensures s2.traceback[items[k].index].closed || s2.traceback[items[k].index].cost <= s.traceback[current].cost + 1
      {
        if k < |items| - 1 {
          assert items[k] == front[k];
        }
      }
    }
  }

  /** The cells not expanded yet. */
  function NotClosed(t: map<Index, Node>): set<Index>
  {
    set i | i in t && !t[i].closed
  }

  /** Closing the cheapest pending cell keeps the core; the frontier now
   *  holds away from that cell. */
  lemma CloseKeeps(p: Projector, source: Index, s: Search)
    requires Invariant(p, source, s) && |s.pending| > 0
    ensures s.pending[0].index in s.traceback
    ensures var s1 := Closed(s); var c := s.pending[0].index;
      && Core(p, source, s1) && s1.traceback[c].closed
      && FrontierExcept(p, s1.traceback, Some(c))
      && s.traceback[c].open && !s.traceback[c].closed
  {
    var c := s.pending[0].index;
    var t := s.traceback;
    assert c in Queued(s.pending);
    PopFacts(s.pending);
    var t1 := Closed(s).traceback;
    forall i | i in t1 ensures NodeChained(p, source, t1, i) {
      assert NodeChained(p, source, t, i);
    }
  }

  /** Taking the cheapest entry off keeps the other keys exact; from a
   *  multimap with a single entry, such as the constructor's, none is
   *  left. */
  lemma ClosedKeysExact(s: Search, target: Index)
    requires QueueExact(s) && |s.pending| > 0 && (KeysExact(s, target) || |s.pending| <= 1)
    ensures s.pending[0].index in s.traceback
    ensures KeysExact(Closed(s), target)
  {
    var c := s.pending[0].index;
    assert c in Queued(s.pending);
    forall x | x in s.pending[1..] ensures x in s.pending && x.index != c {
      var k :| 0 <= k < |s.pending[1..]| && s.pending[1..][k] == x;
      assert s.pending[k + 1] == x;
    }
  }

  /** expand keeps the invariant, closes the cheapest pending cell, which
   *  was not closed before, at the cost it had, and otherwise only reaches
   *  cells or lowers their costs; the re-keying expand leaves exact keys. */
  lemma ExpandKeeps(p: Projector, source: Index, s: Search, target: Index, rekey: bool)
    requires Invariant(p, source, s)
    ensures |s.pending| > 0 ==> s.pending[0].index in s.traceback
    ensures var s' := Expanded(p, s, target, rekey);
      && Invariant(p, source, s')
      && (|s.pending| > 0 ==>
            && s'.traceback[s.pending[0].index].closed
            && s'.traceback[s.pending[0].index].cost == s.traceback[s.pending[0].index].cost
            && NotClosed(s'.traceback) == NotClosed(s.traceback) - {s.pending[0].index}
            && NotClosed(s'.traceback) < NotClosed(s.traceback))
      && (forall i :: i in s.traceback && i !in NotClosed(s.traceback) ==> s'.traceback[i] == s.traceback[i])
      && (forall i :: i in s.traceback && Visited(s.traceback[i]) ==>
            Visited(s'.traceback[i]) && s'.traceback[i].cost <= s.traceback[i].cost)
      && (rekey && (KeysExact(s, target) || |s.pending| <= 1) ==> KeysExact(s', target))
  {
    if |s.pending| > 0 {
      var c := s.pending[0].index;
      CloseKeeps(p, source, s);
      var s1 := Closed(s);
      if KeysExact(s, target) || |s.pending| <= 1 {
        ClosedKeysExact(s, target);
      }
      var items := Neighbors(p, c);
      RelaxAllKeeps(p, source, s1, c, target, items, rekey);
      var s2 := RelaxAll(s1, c, target, items, rekey);
      assert s2 == Expanded(p, s, target, rekey);
      assert s2.traceback[c] == s1.traceback[c];
      FrontierCloses(p, s2.traceback, c, items);
      ExpandMonotone(s.traceback, s1.traceback, s2.traceback, c);
    } else {
      GrowsReflexive(s.traceback);
    }
  }

  /** Once every passable neighbour of `current` has been reached, at most
   *  one step dearer unless closed, the frontier holds everywhere. */
  lemma FrontierCloses(p: Projector, t: map<Index, Node>, current: Index, items: seq<Pair>)
    requires FrontierExcept(p, t, Some(current)) && current in t
    requires forall k :: 0 <= k < |items| ==>
      items[k].index in t && Visited(t[items[k].index])
      && (t[items[k].index].closed || t[items[k].index].cost <= t[current].cost + 1)
    requires forall n :: InBounds(p, n) && Passable(p, n) && Distance(current, n) == 1 ==> Pair(n, 1) in items
    requires forall n :: n in t ==> InBounds(p, n)
    ensures FrontierExcept(p, t, None)
  {
    forall i, n | i in t && t[i].closed && n in t && Passable(p, n) && Distance(i, n) == 1
      ensures Visited(t[n]) && (t[n].closed || t[n].cost <= t[i].cost + 1)
    {
      if i == current {
        var k :| 0 <= k < |items| && items[k] == Pair(n, 1);
      }
    }
  }

  /** Closing one open cell and then growing: the closed cells stay as they
   *  were, the newly closed one keeps its cost, reached cells stay reached
   *  at no higher cost, and one cell fewer is not closed. */
  lemma ExpandMonotone(t: map<Index, Node>, t1: map<Index, Node>, t2: map<Index, Node>, c: Index)
    requires c in t && t[c].open && !t[c].closed
    requires t1 == t[c := t[c].(open := false, closed := true)] && Grows(t1, t2)
    ensures t2[c].closed && t2[c].cost == t[c].cost
    ensures NotClosed(t2) == NotClosed(t) - {c} && c in NotClosed(t)
    ensures forall i :: i in t && i !in NotClosed(t) ==> t2[i] == t[i]
    ensures forall i :: i in t && Visited(t[i]) ==> Visited(t2[i]) && t2[i].cost <= t[i].cost
  {
    assert t1[c].closed;
    forall i | i in t && i != c ensures t1[i] == t[i] {
    }
  }

  // ---------------------------------------------------------------------
  // Paths

  /** A walk on the surface: it starts and ends where asked, stays inside
   *  the grid, and every later cell is passable and one step from the
   *  previous one. */
  ghost predicate IsWalk(p: Projector, path: seq<Index>, from: Index, to: Index)
  {
    && |path| >= 1 && path[0] == from && path[|path| - 1] == to
    && (forall k :: 0 <= k < |path| ==> InBounds(p, path[k]))
    && (forall k :: 0 < k < |path| ==> Passable(p, path[k]) && Distance(path[k - 1], path[k]) == 1)
  }

  ghost predicate Reachable(p: Projector, from: Index, to: Index)
  {
    exists path :: IsWalk(p, path, from, to)
  }

  /** The path the came-from links give, from the source to a reached cell;
   *  it is a walk. */
  ghost function PathTo(p: Projector, source: Index, t: map<Index, Node>, i: Index): (path: seq<Index>)
    requires Covers(p, t) && Chained(p, source, t) && i in t && Visited(t[i])
    ensures IsWalk(p, path, source, i)
    decreases t[i].cost
  {
    assert NodeChained(p, source, t, i);
    if i == source then [source]
    else PathTo(p, source, t, t[i].cameFrom) + [i]
  }

  /** With nothing open and the frontier kept, the closed cells include
   *  every cell a walk from a closed source reaches. */
  lemma {:induction false} WalkStaysClosed(p: Projector, t: map<Index, Node>, source: Index, path: seq<Index>, to: Index)
    requires Covers(p, t) && FrontierExcept(p, t, None)
    requires forall i :: i in t ==> !t[i].open
    requires source in t && t[source].closed
    requires IsWalk(p, path, source, to)
    ensures t[to].closed
    decreases |path|
  {
    if |path| > 1 {
      var front := path[..|path| - 1];
      assert IsWalk(p, front, source, front[|front| - 1]);
      WalkStaysClosed(p, t, source, front, front[|front| - 1]);
      assert Visited(t[to]);
    }
  }

  function Reverse(xs: seq<Index>): (r: seq<Index>)
    ensures |r| == |xs|
    ensures forall k :: 0 <= k < |xs| ==> r[k] == xs[|xs| - 1 - k]
  {
    seq(|xs|, k requires 0 <= k < |xs| => xs[|xs| - 1 - k])
  }

  /** The copy loop of reconstruct_path, from the last element back to the
   *  first. */
  method CopyReversed(xs: seq<Index>) returns (r: seq<Index>)
    ensures r == Reverse(xs)
  {
    r := [];
    var k := |xs|;
    while k > 0
      invariant 0 <= k <= |xs| && |r| == |xs| - k
      invariant forall j :: 0 <= j < |r| ==> r[j] == xs[|xs| - 1 - j]
    {
      k := k - 1;
      r := r + [xs[k]];
    }
  }

  lemma ReverseSnoc(xs: seq<Index>, x: Index)
    ensures Reverse(xs + [x]) == [x] + Reverse(xs)
  {
  }

  // ---------------------------------------------------------------------
  // The state at construction

  /** The traceback matrix as constructed: a blank node for every cell,
   *  filled row by row. */
  method Blanks(p: Projector) returns (t: map<Index, Node>)
    ensures forall i :: i in t <==> InBounds(p, i)
    ensures forall i :: i in t ==> t[i] == Blank
  {
    t := map[];
    var row := 0;
    while row < p.height
      invariant row <= p.height
      invariant forall i :: i in t <==> i.row < row && i.column < p.width
      invariant forall i :: i in t ==> t[i] == Blank
    {
      var column := 0;
      while column < p.width
        invariant column <= p.width
        invariant forall i :: i in t <==> (i.row < row && i.column < p.width) || (i.row == row && i.column < column)
        invariant forall i :: i in t ==> t[i] == Blank
      {
        t := t[Index(row, column) := Blank];
        column := column + 1;
      }
      row := row + 1;
    }
  }

  /** The state of pathfinder(projector, source, ec) for a source inside the
   *  grid: every cell blank except the source, which is open at cost 0 and
   *  reached from itself, and the source is the only pending cell, with
   *  estimate 0. */
  ghost predicate Fresh(p: Projector, source: Index, s: Search)
  {
    && (forall i :: i in s.traceback <==> InBounds(p, i))
    && (forall i :: i in s.traceback && i != source ==> s.traceback[i] == Blank)
    && source in s.traceback && s.traceback[source] == Node(0, true, false, source)
    && s.pending == [Entry(0, source)]
  }

  /** Enqueueing the source into the blank traceback gives that state. */
  lemma EnqueueSourceFresh(p: Projector, source: Index, t: map<Index, Node>)
    requires InBounds(p, source)
    requires forall i :: i in t <==> InBounds(p, i)
    requires forall i :: i in t ==> t[i] == Blank
    ensures Fresh(p, source, Enqueued(Search(t, []), source, source, source, 0))
  {
    var s := Enqueued(Search(t, []), source, source, source, 0);
    assert t[source] == Blank;
    assert s.traceback == t[source := Node(0, true, false, source)];
    assert s.pending == [Entry(0, source)];
  }

  /** The constructed state satisfies the search invariant. */
  lemma FreshInvariant(p: Projector, source: Index, s: Search)
    requires InBounds(p, source) && Fresh(p, source, s)
    ensures Invariant(p, source, s)
  {
    assert s.pending[0].index == source;
    assert Queued(s.pending) == {source};
  }

  // ---------------------------------------------------------------------
  // Shortest paths

  /** A closed cell costs less than any walk to it has cells: its cost is
   *  the number of steps of a shortest walk. */
  ghost predicate ClosedShortest(p: Projector, source: Index, t: map<Index, Node>)
  {
    forall i, walk :: i in t && t[i].closed && IsWalk(p, walk, source, i) ==> t[i].cost < |walk|
  }

  /** What makes the search for `target` optimal: the source costs 0, the
   *  keys are exact (the constructor's lone entry aside), and the closed
   *  cells are reached at their shortest cost. */
  ghost predicate Optimal(p: Projector, source: Index, s: Search, target: Index)
  {
    && source in s.traceback && s.traceback[source].cost == 0
    && (KeysExact(s, target) || |s.pending| <= 1)
    && ClosedShortest(p, source, s.traceback)
  }

  /** The constructed search is optimal for any target: nothing is closed
   *  yet. */
  lemma FreshOptimal(p: Projector, source: Index, s: Search, target: Index)
    requires Fresh(p, source, s)
    ensures Optimal(p, source, s, target)
  {
    forall i | i in s.traceback ensures !s.traceback[i].closed {
      if i != source {
        assert s.traceback[i] == Blank;
      }
    }
  }

  /** A walk of n cells spans an L1 distance of at most n - 1: the
   *  estimate never overshoots. */
  lemma {:induction false} WalkDistance(walk: seq<Index>)
    requires |walk| >= 1
    requires forall k :: 0 < k < |walk| ==> Distance(walk[k - 1], walk[k]) == 1
    ensures Distance(walk[0], walk[|walk| - 1]) <= |walk| - 1
    decreases |walk|
  {
    if |walk| > 1 {
      WalkDistance(walk[..|walk| - 1]);
      DistanceMetric(walk[0], walk[|walk| - 2], walk[|walk| - 1]);
    }
  }

  /** The first cell of a walk that is not closed, when its last one is
   *  not. */
  lemma FirstNotClosed(t: map<Index, Node>, walk: seq<Index>) returns (j: nat)
    requires |walk| >= 1 && forall k :: 0 <= k < |walk| ==> walk[k] in t
    requires !t[walk[|walk| - 1]].closed
    ensures j < |walk| && !t[walk[j]].closed
    ensures forall k :: 0 <= k < j ==> t[walk[k]].closed
  {
    j := 0;
    while t[walk[j]].closed
      invariant j < |walk| && forall k :: 0 <= k < j ==> t[walk[k]].closed
      decreases |walk| - j
    {
      j := j + 1;
    }
  }

  /** The cheapest pending cell is reached at its shortest cost. A walk to
   *  it leaves the closed cells at some cell y, reached at no more than its
   *  place j on the walk; y's exact key bounds the popped cell's key, and
   *  the rest of the walk bounds the distance from y to it. */
  lemma PopShortest(p: Projector, source: Index, s: Search, target: Index, walk: seq<Index>)
    requires Invariant(p, source, s) && Optimal(p, source, s, target) && |s.pending| > 0
    requires IsWalk(p, walk, source, s.pending[0].index)
    ensures s.pending[0].index in s.traceback
    ensures s.traceback[s.pending[0].index].cost < |walk|
  {
    var u := s.pending[0].index;
    assert u in Queued(s.pending);
    var j := LeaveClosed(p, source, s, target, walk, u);
    if walk[j] != u {
      PopThrough(p, s, target, walk, j);
    }
  }

  /** The case where the walk leaves the closed cells before the cheapest
   *  pending cell. */
  lemma PopThrough(p: Projector, s: Search, target: Index, walk: seq<Index>, j: nat)
    requires QueueExact(s) && |s.pending| > 0 && (KeysExact(s, target) || |s.pending| <= 1)
    requires |walk| >= 1 && walk[|walk| - 1] == s.pending[0].index
    requires forall k :: 0 < k < |walk| ==> Distance(walk[k - 1], walk[k]) == 1
    requires j < |walk| && walk[j] in s.traceback && walk[j] != s.pending[0].index
    requires s.traceback[walk[j]].open && s.traceback[walk[j]].cost <= j
    ensures s.pending[0].index in s.traceback && s.traceback[s.pending[0].index].cost < |walk|
  {
    var rest := walk[j..];
    forall k | 0 < k < |rest| ensures Distance(rest[k - 1], rest[k]) == 1 {
      assert rest[k - 1] == walk[j + k - 1] && rest[k] == walk[j + k];
    }
    WalkDistance(rest);
    KeyBound(s, target, walk[j], j, |walk| - 1 - j);
  }

  /** A walk from the source to a cell not closed leaves the closed cells
   *  at a reached cell whose cost is at most its place on the walk. */
  lemma LeaveClosed(p: Projector, source: Index, s: Search, target: Index, walk: seq<Index>, last: Index) returns (j: nat)
    requires Invariant(p, source, s) && Optimal(p, source, s, target)
    requires IsWalk(p, walk, source, last) && last in s.traceback && !s.traceback[last].closed
    ensures j < |walk| && walk[j] in s.traceback
    ensures Visited(s.traceback[walk[j]]) && !s.traceback[walk[j]].closed && s.traceback[walk[j]].cost <= j
  {
    var t := s.traceback;
    j := FirstNotClosed(t, walk);
    var y := walk[j];
    if j > 0 {
      var x := walk[j - 1];
      assert IsWalk(p, walk[..j], source, x);
      assert t[x].cost < j;
      assert t[x].closed && Passable(p, y) && Distance(x, y) == 1;
    }
  }

  /** With exact keys, the cheapest pending cell costs at most the cost of
   *  any other pending cell y plus a bound on the distance from y to it. */
  lemma KeyBound(s: Search, target: Index, y: Index, cost: nat, rest: nat)
    requires QueueExact(s) && |s.pending| > 0 && (KeysExact(s, target) || |s.pending| <= 1)
    requires y in Queued(s.pending) && y != s.pending[0].index
    requires y in s.traceback && s.traceback[y].cost <= cost
    requires Distance(y, s.pending[0].index) <= rest
    ensures s.pending[0].index in s.traceback && s.traceback[s.pending[0].index].cost <= cost + rest
  {
    var q := s.pending;
    var u := q[0].index;
    var m :| 0 <= m < |q| && q[m].index == y;
    assert q[0] in q && q[m] in q;
    assert KeyExact(s.traceback, q[0], target) && KeyExact(s.traceback, q[m], target);
    DistanceMetric(y, u, target);
  }

  /** The re-keying expand keeps the search optimal: the cell it closes is
   *  reached at its shortest cost, and the cells closed before stay as
   *  they were. */
  lemma ExpandOptimal(p: Projector, source: Index, s: Search, target: Index)
    requires Invariant(p, source, s) && Optimal(p, source, s, target)
    ensures Optimal(p, source, Expanded(p, s, target, true), target)
  {
    ExpandKeeps(p, source, s, target, true);
    if |s.pending| > 0 {
      ClosingOptimal(p, source, s, Expanded(p, s, target, true), target);
    }
  }

  /** Closing the cheapest pending cell, keeping the cells closed before
   *  and never raising a cost, with exact keys afterwards, keeps the
   *  search optimal. */
  lemma ClosingOptimal(p: Projector, source: Index, s: Search, s': Search, target: Index)
    requires Invariant(p, source, s) && Optimal(p, source, s, target) && |s.pending| > 0
    requires Invariant(p, source, s') && KeysExact(s', target)
    requires s.pending[0].index in s.traceback && s.pending[0].index in s'.traceback
    requires s'.traceback[s.pending[0].index].cost == s.traceback[s.pending[0].index].cost
    requires NotClosed(s'.traceback) == NotClosed(s.traceback) - {s.pending[0].index}
    requires forall i :: i in s.traceback && i !in NotClosed(s.traceback) ==> s'.traceback[i] == s.traceback[i]
    requires forall i :: i in s.traceback && Visited(s.traceback[i]) ==> s'.traceback[i].cost <= s.traceback[i].cost
    ensures Optimal(p, source, s', target)
  {
    var c := s.pending[0].index;
    forall i, walk | i in s'.traceback && s'.traceback[i].closed && IsWalk(p, walk, source, i)
      ensures s'.traceback[i].cost < |walk|
    {
      if i == c {
        PopShortest(p, source, s, target, walk);
      } else {
        StillClosed(s.traceback, s'.traceback, c, i);
      }
    }
  }

  /** A cell closed after closing `c` and not `c` itself was closed
   *  before. */
  lemma StillClosed(t: map<Index, Node>, t': map<Index, Node>, c: Index, i: Index)
    requires t'.Keys == t.Keys && NotClosed(t') == NotClosed(t) - {c}
    requires i in t' && t'[i].closed && i != c
    ensures i in t && i !in NotClosed(t)
  {
    assert i !in NotClosed(t');
  }

  /** The came-from chain to a reached cell has one cell more than the
   *  cell's cost, the source costing 0. */
  lemma {:induction false} PathToLength(p: Projector, source: Index, t: map<Index, Node>, i: Index)
    requires Covers(p, t) && Chained(p, source, t) && i in t && Visited(t[i])
    requires source in t && t[source].cost == 0
    ensures |PathTo(p, source, t, i)| == t[i].cost + 1
    decreases t[i].cost
  {
    assert NodeChained(p, source, t, i);
    if i != source {
      PathToLength(p, source, t, t[i].cameFrom);
    }
  }

  /** In an optimal search the came-from chain to a closed target is no
   *  longer than any walk to it. */
  lemma ClosedPathShortest(p: Projector, source: Index, s: Search, target: Index)
    requires Invariant(p, source, s) && Optimal(p, source, s, target)
    requires target in s.traceback && s.traceback[target].closed
    ensures forall walk :: IsWalk(p, walk, source, target) ==> |PathTo(p, source, s.traceback, target)| <= |walk|
  {
    PathToLength(p, source, s.traceback, target);
  }

  // ---------------------------------------------------------------------
  // The pathfinder object

  class Pathfinder {
    const projector: Projector
    const source: Index
    var traceback: map<Index, Node>
    var pending: seq<Entry>

    function State(): Search
      reads this
    {
      Search(traceback, pending)
    }

    ghost predicate Valid()
      reads this
    {
      Invariant(projector, source, State())
    }

    /** pathfinder(projector, source, ec) with a source inside the grid. */
    constructor (projector: Projector, source: Index)
      requires InBounds(projector, source)
      ensures this.projector == projector && this.source == source
      ensures Valid() && Fresh(projector, source, State())
    {
      this.projector := projector;
      this.source := source;
      var t := Blanks(projector);
      traceback := t;
      pending := [];
      new;
      Enqueue(source, source, source, 0);
      EnqueueSourceFresh(projector, source, t);
      FreshInvariant(projector, source, State());
    }

    /** The constructor as the free function `trace` uses it: a source
     *  outside the grid sets invalid_argument and no search takes place. */
    static method Create(projector: Projector, source: Index) returns (r: Result<Pathfinder>)
      ensures r.Err? <==> !InBounds(projector, source)
      ensures r.Err? ==> r.failure == InvalidArgument
      ensures r.Ok? ==> && fresh(r.value) && r.value.Valid()
                        && r.value.projector == projector && r.value.source == source
                        && Fresh(projector, source, r.value.State())
    {
      if !InBounds(projector, source) {
        return Err(InvalidArgument);
      }
      var router := new Pathfinder(projector, source);
      r := Ok(router);
    }

    /** enqueue(position, came_from, target, cost). */
    method Enqueue(position: Index, cameFrom: Index, target: Index, cost: nat)
      requires position in traceback
      modifies this
      ensures State() == Enqueued(old(State()), position, cameFrom, target, cost)
    {
      var node := traceback[position];
      if node.closed {
        return;
      }
      if node.open {
        return;
      }
      var estimate := cost + Distance(position, target);
      traceback := traceback[position := node.(cost := cost, open := true, cameFrom := cameFrom)];
      pending := Emplace(pending, Entry(estimate, position));
    }

    /** expand(target), as written or with the re-keying re-route. */
    method Expand(target: Index, rekey: bool)
      requires Valid()
      modifies this
      ensures Valid() && State() == Expanded(projector, old(State()), target, rekey)
      ensures old(|pending|) > 0 ==> NotClosed(traceback) < old(NotClosed(traceback))
    {
      ghost var s0 := State();
      ExpandKeeps(projector, source, s0, target, rekey);
      if |pending| == 0 {
        return;
      }
      var current := pending[0].index;
      pending := pending[1..];
      traceback := traceback[current := traceback[current].(open := false, closed := true)];
      assert State() == Closed(s0);
      var items := Neighbors(projector, current);
      RelaxNeighbors(current, target, items, rekey);
    }

    /** The loop of expand over the neighbours of the current cell. */
    method RelaxNeighbors(current: Index, target: Index, items: seq<Pair>, rekey: bool)
      requires current in traceback
      requires forall k :: 0 <= k < |items| ==> items[k].index in traceback
      modifies this
      ensures State() == RelaxAll(old(State()), current, target, items, rekey)
    {
      ghost var s1 := State();
      var k := 0;
      while k < |items|
        invariant 0 <= k <= |items|
        invariant traceback.Keys == s1.traceback.Keys
        invariant State() == RelaxAll(s1, current, target, items[..k], rekey)
      {
        assert items[..k + 1][..k] == items[..k];
        RelaxOne(current, target, items[k], rekey);
        k := k + 1;
      }
      assert items[..|items|] == items;
    }

    /** The body of that loop, for one neighbour. The corrected re-route
     *  also erases the neighbour's entry and emplaces it again under the new
     *  estimate. */
    method RelaxOne(current: Index, target: Index, item: Pair, rekey: bool)
      requires current in traceback && item.index in traceback
      modifies this
      ensures State() == Relax(old(State()), current, target, item, rekey)
    {
      var neighbor := traceback[item.index];
      if !neighbor.closed {
        var newCost := traceback[current].cost + item.cost;
        if !neighbor.open {
          Enqueue(item.index, current, target, newCost);
        } else if neighbor.cost > newCost {
          traceback := traceback[item.index := neighbor.(cameFrom := current, cost := newCost)];
          if rekey {
            pending := Rekey(pending, Entry(newCost + Distance(item.index, target), item.index));
          }
        }
      }
    }

    /** reconstruct_path(target, result): for a closed target, the cells
     *  from the target back to the source along the came-from links,
     *  reversed; otherwise the result is left as it was. */
    method ReconstructPath(target: Index, result: seq<Index>) returns (path: seq<Index>)
      requires Valid() && InBounds(projector, target)
      ensures traceback[target].closed ==> path == PathTo(projector, source, traceback, target)
      ensures traceback[target].closed ==> IsWalk(projector, path, source, target)
      ensures !traceback[target].closed ==> path == result
    {
      if !traceback[target].closed {
        return result;
      }
      var reversePath := [];
      var position := target;
      while position != source
        invariant position in traceback && Visited(traceback[position])
        invariant PathTo(projector, source, traceback, position) + Reverse(reversePath)
                  == PathTo(projector, source, traceback, target)
        decreases traceback[position].cost
      {
        assert NodeChained(projector, source, traceback, position);
        ReverseSnoc(reversePath, position);
        reversePath := reversePath + [position];
        position := traceback[position].cameFrom;
      }
      ReverseSnoc(reversePath, source);
      reversePath := reversePath + [source];
      path := CopyReversed(reversePath);
    }

    /** exhaust(): expands until nothing is pending; every cell a walk from
     *  the source reaches is then closed. */
    method Exhaust()
      requires Valid()
      modifies this
      ensures Valid() && pending == []
      ensures forall i, path :: IsWalk(projector, path, source, i) ==> traceback[i].closed
    {
      while |pending| > 0
        invariant Valid()
        decreases NotClosed(traceback)
      {
        Expand(source, false);
      }
      AllReachedClosed();
    }

    /** With nothing pending, the closed cells are exactly the reachable
     *  ones. */
    lemma AllReachedClosed()
      requires Valid() && pending == []
      ensures forall i, path :: IsWalk(projector, path, source, i) ==> traceback[i].closed
    {
      assert Queued(pending) == {};
      forall i, path | IsWalk(projector, path, source, i) ensures traceback[i].closed {
        WalkStaysClosed(projector, traceback, source, path, i);
      }
    }

    /** trace(target, result, ec) as written: the loop stops as soon as
     *  nothing is pending, without looking at the target once more. When
     *  the target is the last pending cell and its neighbours are all
     *  reached, the last expand closes it and host_unreachable is reported
     *  although a path exists. */
    method TraceAsWritten(target: Index) returns (r: Result<seq<Index>>)
      requires Valid()
      modifies this
      ensures Valid()
      ensures !InBounds(projector, target) ==> r == Err(ArgumentOutOfDomain)
      ensures r.Ok? ==> IsWalk(projector, r.value, source, target)
      ensures r.Err? ==> r.failure == ArgumentOutOfDomain || r.failure == HostUnreachable
      ensures r == Err(HostUnreachable) ==> pending == [] && (!traceback[target].closed ==> !Reachable(projector, source, target))
      ensures InBounds(projector, target) && LastStep(projector, old(State()), target) ==>
                r == Err(HostUnreachable) && traceback[target].closed
    {
      if !InBounds(projector, target) {
        return Err(ArgumentOutOfDomain);
      }
      ghost var s0 := State();
      while |pending| > 0
        invariant Valid()
        invariant LastStep(projector, s0, target) ==>
          State() == s0 || (pending == [] && traceback[target].closed)
        decreases NotClosed(traceback)
      {
        if traceback[target].closed {
          var path := ReconstructPath(target, []);
          return Ok(path);
        }
        if LastStep(projector, s0, target) && State() == s0 {
          LastStepCloses(projector, source, s0, target);
        }
        Expand(target, false);
      }
      if !traceback[target].closed {
        AllReachedClosed();
      }
      return Err(HostUnreachable);
    }

    /** trace(target, result, ec), corrected twice: a target closed by the
     *  last expand is found after the loop as well, so a path is returned
     *  exactly when the target is reachable; and expand re-keys a re-routed
     *  cell, so from a fresh pathfinder the path is a shortest one. */
    method Trace(target: Index) returns (r: Result<seq<Index>>)
      requires Valid()
      modifies this
      ensures Valid()
      ensures !InBounds(projector, target) ==> r == Err(ArgumentOutOfDomain)
      ensures r.Ok? ==> IsWalk(projector, r.value, source, target)
      ensures r.Err? ==> r.failure == ArgumentOutOfDomain || r.failure == HostUnreachable
      ensures InBounds(projector, target) ==> (r.Ok? <==> Reachable(projector, source, target))
      ensures old(Fresh(projector, source, State())) && r.Ok? ==>
                forall walk :: IsWalk(projector, walk, source, target) ==> |r.value| <= |walk|
    {
      if !InBounds(projector, target) {
        return Err(ArgumentOutOfDomain);
      }
      ghost var fresh0 := Fresh(projector, source, State());
      if fresh0 {
        FreshOptimal(projector, source, State(), target);
      }
      while |pending| > 0
        invariant Valid()
        invariant fresh0 ==> Optimal(projector, source, State(), target)
        decreases NotClosed(traceback)
      {
        if traceback[target].closed {
          var path := ReconstructPath(target, []);
          if fresh0 {
            ClosedPathShortest(projector, source, State(), target);
          }
          return Ok(path);
        }
        if fresh0 {
          ExpandOptimal(projector, source, State(), target);
        }
        Expand(target, true);
      }
      if traceback[target].closed {
        var path := ReconstructPath(target, []);
        if fresh0 {
          ClosedPathShortest(projector, source, State(), target);
        }
        return Ok(path);
      }
      AllReachedClosed();
      return Err(HostUnreachable);
    }
  }

  /** The target is the only pending cell and all its passable neighbours
   *  have been reached. */
  ghost predicate LastStep(p: Projector, s: Search, target: Index)
  {
    && InBounds(p, target)
    && |s.pending| == 1 && s.pending[0].index == target
    && var items := Neighbors(p, target);
       forall k :: 0 <= k < |items| ==> items[k].index in s.traceback && Visited(s.traceback[items[k].index])
  }

  /** From that state, one expand closes the target and empties the
   *  multimap. */
  lemma LastStepCloses(p: Projector, source: Index, s: Search, target: Index)
    requires Invariant(p, source, s) && LastStep(p, s, target)
    ensures target in s.traceback && !s.traceback[target].closed
    ensures Expanded(p, s, target, false).pending == []
    ensures Expanded(p, s, target, false).traceback[target].closed
  {
    assert target in Queued(s.pending);
    CloseKeeps(p, source, s);
    var s1 := Closed(s);
    PopFacts(s.pending);
    var items := Neighbors(p, target);
    forall k | 0 <= k < |items| ensures s1.traceback[items[k].index].closed {
      var n := items[k].index;
      assert n != target;
      assert n !in Queued(s.pending);
    }
    RelaxAllSkips(s1, target, target, items, false);
  }

  /** Neighbours that are all closed leave the state as it was. */
  lemma {:induction false} RelaxAllSkips(s: Search, current: Index, target: Index, items: seq<Pair>, rekey: bool)
    requires current in s.traceback
    requires forall k :: 0 <= k < |items| ==> items[k].index in s.traceback && s.traceback[items[k].index].closed
    ensures RelaxAll(s, current, target, items, rekey) == s
    decreases |items|
  {
    if |items| > 0 {
      RelaxAllSkips(s, current, target, items[..|items| - 1], rekey);
    }
  }

  /** On a one-cell grid the fresh pathfinder is in that state with the
   *  source as target, and the one-cell path is a walk to it: the
   *  as-written trace reports host_unreachable for a reachable target. */
  lemma SingleCellCounterexample(p: Projector, s: Search)
    requires p.height == 1 && p.width == 1 && Fresh(p, Index(0, 0), s)
    ensures InBounds(p, Index(0, 0))
    ensures LastStep(p, s, Index(0, 0))
    ensures IsWalk(p, [Index(0, 0)], Index(0, 0), Index(0, 0))
  {
    NoNeighbourInSingleCell(p);
    assert s.pending[0].index == Index(0, 0);
    LastStepWithoutNeighbours(p, s, Index(0, 0));
    SingleCellWalk(p);
  }

  lemma LastStepWithoutNeighbours(p: Projector, s: Search, target: Index)
    requires InBounds(p, target) && |s.pending| == 1 && s.pending[0].index == target
    requires |Neighbors(p, target)| == 0
    ensures LastStep(p, s, target)
  {
  }

  lemma SingleCellWalk(p: Projector)
    requires p.height == 1 && p.width == 1
    ensures IsWalk(p, [Index(0, 0)], Index(0, 0), Index(0, 0))
  {
    var path := [Index(0, 0)];
    assert |path| == 1;
    assert InBounds(p, path[0]);
  }

  /** A one-cell grid has no cell one step away from its cell. */
  lemma NoNeighbourInSingleCell(p: Projector)
    requires p.height == 1 && p.width == 1
    ensures |Neighbors(p, Index(0, 0))| == 0
  {
  }

  /** The free function trace(from, to, projector, path, ec): a source
   *  outside the grid gives invalid_argument, otherwise the search runs. */
  method TraceBetween(projector: Projector, from: Index, to: Index) returns (r: Result<seq<Index>>)
    ensures !InBounds(projector, from) ==> r == Err(InvalidArgument)
    ensures InBounds(projector, from) && !InBounds(projector, to) ==> r == Err(ArgumentOutOfDomain)
    ensures r.Ok? ==> IsWalk(projector, r.value, from, to)
    ensures InBounds(projector, from) && InBounds(projector, to) ==> (r.Ok? <==> Reachable(projector, from, to))
    ensures r.Ok? ==> forall walk :: IsWalk(projector, walk, from, to) ==> |r.value| <= |walk|
  {
    var router := Pathfinder.Create(projector, from);
    if router.Err? {
      return Err(router.failure);
    }
    r := router.value.Trace(to);
  }

  // ---------------------------------------------------------------------
  // The library's test grid

  /** The surface of the library's pathfinder test: 5 rows by 4 columns,
   *  with the cells (1, 2), (2, 1) and (3, 1) blocked; true is the blocked
   *  indicator. */
  function TestSurface(i: Index): bool
  {
    i == Index(1, 2) || i == Index(2, 1) || i == Index(3, 1)
  }

  const TestGrid := Projector(5, 4, TestSurface, true)

  /** The path the test expects from (2, 0) to (2, 2). */
  const TestPath := [Index(2, 0), Index(3, 0), Index(4, 0), Index(4, 1), Index(4, 2), Index(3, 2), Index(2, 2)]

  /** Breadth-first levels from (2, 0) on the test grid; the blocked cells
   *  get the largest level, 7. */
  function TestLevel(i: Index): nat
    requires InBounds(TestGrid, i)
  {
    [[2, 3, 4, 5], [1, 2, 7, 6], [0, 7, 6, 7], [1, 7, 5, 6], [2, 3, 4, 5]][i.row][i.column]
  }

  /** One step onto a passable cell raises the level by at most one. */
  lemma TestLevelStep(a: Index, b: Index)
    requires InBounds(TestGrid, a) && InBounds(TestGrid, b) && Passable(TestGrid, b) && Distance(a, b) == 1
    ensures TestLevel(b) <= TestLevel(a) + 1
  {
  }

  /** Along a walk from (2, 0) the level never exceeds the number of
   *  steps taken. */
  lemma {:induction false} TestWalkLevel(walk: seq<Index>, to: Index)
    requires IsWalk(TestGrid, walk, Index(2, 0), to)
    ensures TestLevel(to) <= |walk| - 1
    decreases |walk|
  {
    if |walk| > 1 {
      var front := walk[..|walk| - 1];
      assert IsWalk(TestGrid, front, Index(2, 0), front[|front| - 1]);
      TestWalkLevel(front, front[|front| - 1]);
      TestLevelStep(walk[|walk| - 2], to);
    }
  }

  /** The test's expected path is a walk of 7 cells, and no walk between
   *  the two cells is shorter. */
  lemma TestShortest()
    ensures IsWalk(TestGrid, TestPath, Index(2, 0), Index(2, 2)) && |TestPath| == 7
    ensures forall walk :: IsWalk(TestGrid, walk, Index(2, 0), Index(2, 2)) ==> |walk| >= 7
  {
    forall walk | IsWalk(TestGrid, walk, Index(2, 0), Index(2, 2)) ensures |walk| >= 7 {
      TestWalkLevel(walk, Index(2, 2));
    }
  }

  /** The library's test: tracing from (2, 0) to (2, 2) on the test grid
   *  finds a walk of 7 cells. */
  method TestTrace() returns (r: Result<seq<Index>>)
    ensures r.Ok? && |r.value| == 7 && IsWalk(TestGrid, r.value, Index(2, 0), Index(2, 2))
  {
    TestShortest();
    r := TraceBetween(TestGrid, Index(2, 0), Index(2, 2));
  }
}
