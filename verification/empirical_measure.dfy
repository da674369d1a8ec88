/** `empirical_measure<K>` over totally ordered 64-bit integer keys: a
 *  dictionary of counts kept in a `std::map`, the total count, the largest
 *  count and a key that has it, the smallest and largest observed keys, and
 *  the integer sum of the observations. What every field means is stated
 *  against the log of `observe(key, repeat)` calls that produced it. */
module EmpiricalMeasures {
  import opened Errors

  const KeyLowest: int := -0x8000_0000_0000_0000
  const KeyMax: int := 0x7FFF_FFFF_FFFF_FFFF

  newtype Key = x: int | -0x8000_0000_0000_0000 <= x <= 0x7FFF_FFFF_FFFF_FFFF

  /** One call observe(key, repeat). */
  datatype Obs = Obs(key: Key, repeat: nat)

  /** The fields of the measure: m_data, m_count_observations, m_max_height,
   *  m_most_likely_value, m_min, m_max and m_sum. */
  datatype Measure = Measure(data: map<Key, nat>, count: nat, maxHeight: nat, mostLikely: Key,
                             min: Key, max: Key, sum: int)

  /** count(key): the count of a key, 0 when it is absent from the map. */
  function Height(data: map<Key, nat>, key: Key): nat
  {
    if key in data then data[key] else 0
  }

  /** `repeat` observations of `key`, added up one at a time. */
  function Weight(repeat: nat, key: Key): int
    decreases repeat
  {
    if repeat == 0 then 0 else Weight(repeat - 1, key) + key as int
  }

  /** The product the linear module adds to its sum. */
  lemma {:induction false} WeightIsProduct(repeat: nat, key: Key)
    ensures Weight(repeat, key) == repeat * key as int
    decreases repeat
  {
    if repeat > 0 {
      WeightIsProduct(repeat - 1, key);
    }
  }

  /** A default-constructed measure. */
  function Empty(): Measure
  {
    Measure(map[], 0, 0, 0, KeyMax as Key, KeyLowest as Key, 0)
  }

  /** observe(key, repeat), followed by the on_observed hooks of the ordering
   *  and linear modules. */
  function Observed(m: Measure, key: Key, repeat: nat): Measure
  {
    if repeat == 0 then m
    else
      var h := Height(m.data, key) + repeat;
      Measure(m.data[key := h], m.count + repeat,
              if m.maxHeight < h then h else m.maxHeight,
              if m.maxHeight < h then key else m.mostLikely,
              if key < m.min then key else m.min,
              if key > m.max then key else m.max,
              m.sum + Weight(repeat, key))
  }

  /** clear(): the most likely value is left as it was. */
  function Cleared(m: Measure): Measure
  {
    Measure(map[], 0, 0, m.mostLikely, KeyMax as Key, KeyLowest as Key, 0)
  }

  /** A sequence of observe calls, in order. */
  function Replayed(m: Measure, log: seq<Obs>): Measure
    decreases |log|
  {
    if |log| == 0 then m else Observed(Replayed(m, log[..|log| - 1]), log[|log| - 1].key, log[|log| - 1].repeat)
  }

  // ~~ The meaning of the fields, in terms of the log ~~

  /** How often `key` was observed. */
  function CountIn(log: seq<Obs>, key: Key): nat
    decreases |log|
  {
    if |log| == 0 then 0
    else CountIn(log[..|log| - 1], key) + (if log[|log| - 1].key == key then log[|log| - 1].repeat else 0)
  }

  /** How many observations were made. */
  function TotalIn(log: seq<Obs>): nat
  {
    if |log| == 0 then 0 else log[0].repeat + TotalIn(log[1..])
  }

  /** The sum of all observations, each key counted `repeat` times. */
  function SumIn(log: seq<Obs>): int
  {
    if |log| == 0 then 0 else Weight(log[0].repeat, log[0].key) + SumIn(log[1..])
  }

  /** The keys observed at least once hold their counts; no other key is in
   *  the map. */
  ghost predicate Tallies(data: map<Key, nat>, log: seq<Obs>)
  {
    && (forall k :: Height(data, k) == CountIn(log, k))
    && (forall k :: k in data ==> data[k] > 0)
  }

  /** What each field of the measure means for the log that produced it. */
  ghost predicate Describes(m: Measure, log: seq<Obs>)
  {
    && Tallies(m.data, log)
    && m.count == TotalIn(log)
    && m.sum == SumIn(log)
    && (m.data == map[] <==> m.count == 0)
    // most_likely_count is the largest count, and most_likely_value has it
    && (forall k :: k in m.data ==> m.data[k] <= m.maxHeight)
    && (m.data == map[] ==> m.maxHeight == 0)
    && (m.data != map[] ==> m.mostLikely in m.data && m.data[m.mostLikely] == m.maxHeight)
    // min and max are the extreme observed keys, or the sentinels
    && (m.data == map[] ==> m.min as int == KeyMax && m.max as int == KeyLowest)
    && (m.data != map[] ==> m.min in m.data && m.max in m.data)
    && (forall k :: k in m.data ==> m.min <= k <= m.max)
  }

  /** The fields read back in terms of the log alone: empty() exactly when
   *  no key was observed, most_likely_count the largest count and
   *  most_likely_value a key that has it, min and max observed keys that
   *  bound every observed key. */
  lemma DescribedCounts(m: Measure, log: seq<Obs>)
    requires Describes(m, log)
    ensures m.count == 0 <==> forall k :: CountIn(log, k) == 0
    ensures forall k :: CountIn(log, k) <= m.maxHeight
    ensures m.count > 0 ==> CountIn(log, m.mostLikely) == m.maxHeight
    ensures m.count > 0 ==> CountIn(log, m.min) > 0 && CountIn(log, m.max) > 0
    ensures forall k :: CountIn(log, k) > 0 ==> m.min <= k <= m.max
  {
    forall k ensures CountIn(log, k) <= m.maxHeight {
      assert Height(m.data, k) == CountIn(log, k);
    }
    if m.data != map[] {
      var k :| k in m.data;
      assert Height(m.data, k) == CountIn(log, k) > 0;
    }
    if m.count > 0 {
      assert Height(m.data, m.mostLikely) == CountIn(log, m.mostLikely);
    }
    forall k | CountIn(log, k) > 0 ensures m.min <= k <= m.max {
      assert Height(m.data, k) == CountIn(log, k);
    }
  }

  lemma CountSplit(log: seq<Obs>, o: Obs, k: Key)
    ensures CountIn(log + [o], k) == CountIn(log, k) + (if o.key == k then o.repeat else 0)
  {
    assert (log + [o])[..|log|] == log;
  }

  /** One observe call keeps every field's meaning, for the log extended
   *  by that call. */
  lemma ObservedDescribes(m: Measure, log: seq<Obs>, key: Key, repeat: nat)
    requires Describes(m, log)
    ensures Describes(Observed(m, key, repeat), log + [Obs(key, repeat)])
  {
    var log' := log + [Obs(key, repeat)];
    assert log'[..|log|] == log;
    TotalSnoc(log, Obs(key, repeat));
    forall k ensures CountIn(log', k) == CountIn(log, k) + (if k == key then repeat else 0) {
      CountSplit(log, Obs(key, repeat), k);
    }
    if repeat > 0 {
      var m' := Observed(m, key, repeat);
      assert key in m'.data;
      forall k | k in m'.data ensures m'.min <= k <= m'.max {
        if k != key {
          assert k in m.data;
        }
      }
    }
  }

  /** Replaying any log from a measure keeps the meaning. */
  lemma {:induction false} ReplayedDescribes(m: Measure, log: seq<Obs>, more: seq<Obs>)
    requires Describes(m, log)
    ensures Describes(Replayed(m, more), log + more)
    decreases |more|
  {
    if |more| > 0 {
      var front := more[..|more| - 1];
      var last := more[|more| - 1];
      ReplayedDescribes(m, log, front);
      ObservedDescribes(Replayed(m, front), log + front, last.key, last.repeat);
      assert Replayed(m, more) == Observed(Replayed(m, front), last.key, last.repeat);
      assert log + front + [last] == log + more;
    } else {
      assert log + more == log;
    }
  }

  /** A fresh or cleared measure describes the empty log. */
  lemma ClearedDescribes(m: Measure)
    ensures Describes(Empty(), [])
    ensures Describes(Cleared(m), [])
  {
  }

  /** A tie does not move the most likely value: only a count strictly above
   *  the largest one replaces it. */
  lemma TieKeepsEarlier(m: Measure, log: seq<Obs>, key: Key, repeat: nat)
    requires Describes(m, log)
    ensures var m' := Observed(m, key, repeat);
      && (Height(m.data, key) + repeat <= m.maxHeight ==> m'.mostLikely == m.mostLikely && m'.maxHeight == m.maxHeight)
      && (Height(m.data, key) + repeat > m.maxHeight ==> m'.mostLikely == key && m'.maxHeight == CountIn(log, key) + repeat)
  {
  }

  // ~~ Iterating a std::map: ascending key order ~~

  /** The smallest key of a non-empty set. */
  ghost function Smallest(s: set<Key>): (k: Key)
    requires s != {}
    ensures k in s && forall j :: j in s ==> k <= j
    decreases |s|
  {
    var x :| x in s;
    if s - {x} == {} then
      assert s == {x};
      x
    else
      var y := Smallest(s - {x});
      assert forall j :: j in s ==> j == x || j in s - {x};
      if x < y then x else y
  }

  /** The entries of a dictionary in ascending key order, as observe calls. */
  ghost function Entries(d: map<Key, nat>): (e: seq<Obs>)
    decreases |d.Keys|
  {
    if d == map[] then []
    else
      var k := Smallest(d.Keys);
      [Obs(k, d[k])] + Entries(d - {k})
  }

  lemma CountPrefix(o: Obs, rest: seq<Obs>, k: Key)
    ensures CountIn([o] + rest, k) == (if o.key == k then o.repeat else 0) + CountIn(rest, k)
    decreases |rest|
  {
    if |rest| > 0 {
      var front := rest[..|rest| - 1];
      CountPrefix(o, front, k);
      assert ([o] + rest)[..|rest|] == [o] + front;
    }
  }

  /** Each key of the dictionary appears once among the entries, with its
   *  count. */
  lemma {:induction false} EntriesCount(d: map<Key, nat>, k: Key)
    ensures CountIn(Entries(d), k) == Height(d, k)
    decreases |d.Keys|
  {
    if d != map[] {
      var s := Smallest(d.Keys);
      EntriesCount(d - {s}, k);
      CountPrefix(Obs(s, d[s]), Entries(d - {s}), k);
    }
  }

  /** A log read from both ends: the total and the sum of a log with one
   *  more call in front. */
  lemma TotalPrefix(o: Obs, rest: seq<Obs>)
    ensures TotalIn([o] + rest) == o.repeat + TotalIn(rest)
    ensures SumIn([o] + rest) == Weight(o.repeat, o.key) + SumIn(rest)
  {
    assert ([o] + rest)[1..] == rest;
  }

  /** The entries of a non-empty dictionary, read from the smallest key. */
  lemma EntriesFront(d: map<Key, nat>)
    requires d != map[]
    ensures var s := Smallest(d.Keys);
      && TotalIn(Entries(d)) == d[s] + TotalIn(Entries(d - {s}))
      && SumIn(Entries(d)) == Weight(d[s], s) + SumIn(Entries(d - {s}))
  {
    var s := Smallest(d.Keys);
    TotalPrefix(Obs(s, d[s]), Entries(d - {s}));
  }

  lemma {:induction false} Distribute(a: nat, r: nat, k: Key)
    ensures Weight(a + r, k) == Weight(a, k) + Weight(r, k)
    decreases r
  {
    if r > 0 {
      Distribute(a, r - 1, k);
    }
  }

  lemma RemoveUpdate(d: map<Key, nat>, s: Key, key: Key, v: nat)
    requires s != key
    ensures d[key := v] - {s} == (d - {s})[key := v]
  {
  }

  /** Smallest picks the one key no larger than any other. */
  lemma SmallestUnique(s: set<Key>, k: Key)
    requires k in s && forall j :: j in s ==> k <= j
    ensures Smallest(s) == k
  {
  }

  /** Raising one count by `r` raises the total of the entries by `r` and
   *  their sum by `r` times the key, wherever the key sits in the order. */
  lemma {:induction false} EntriesBump(d: map<Key, nat>, key: Key, r: nat)
    ensures TotalIn(Entries(d[key := Height(d, key) + r])) == TotalIn(Entries(d)) + r
    ensures SumIn(Entries(d[key := Height(d, key) + r])) == SumIn(Entries(d)) + Weight(r, key)
    decreases |d.Keys|, 1
  {
    if d == map[] {
      BumpEmpty(key, r);
    } else {
      var s := Smallest(d.Keys);
      if key < s {
        BumpBelow(d, key, r);
      } else if key == s {
        BumpSmallest(d, key, r);
      } else {
        BumpInner(d, key, r);
      }
    }
  }

  lemma BumpEmpty(key: Key, r: nat)
    ensures TotalIn(Entries(map[key := r])) == r
    ensures SumIn(Entries(map[key := r])) == Weight(r, key)
  {
    var d' := map[key := r];
    SmallestUnique(d'.Keys, key);
    EntriesFront(d');
    assert d' - {key} == map[];
    assert Entries(map[]) == [];
  }

  /** A new key below all others goes in front. */
  lemma BumpBelow(d: map<Key, nat>, key: Key, r: nat)
    requires d != map[] && key < Smallest(d.Keys)
    ensures TotalIn(Entries(d[key := Height(d, key) + r])) == TotalIn(Entries(d)) + r
    ensures SumIn(Entries(d[key := Height(d, key) + r])) == SumIn(Entries(d)) + Weight(r, key)
  {
    assert key !in d;
    var d' := d[key := r];
    SmallestUnique(d'.Keys, key);
    EntriesFront(d');
    assert d' - {key} == d;
  }

  /** The smallest key is raised in place. */
  lemma BumpSmallest(d: map<Key, nat>, key: Key, r: nat)
    requires d != map[] && key == Smallest(d.Keys)
    ensures TotalIn(Entries(d[key := Height(d, key) + r])) == TotalIn(Entries(d)) + r
    ensures SumIn(Entries(d[key := Height(d, key) + r])) == SumIn(Entries(d)) + Weight(r, key)
  {
    var d' := d[key := d[key] + r];
    assert Smallest(d'.Keys) == key by {
      SmallestUnique(d'.Keys, key);
    }
    assert d' - {key} == d - {key};
    EntriesFront(d');
    EntriesFront(d);
    Distribute(d[key], r, key);
  }

  /** A key above the smallest: the smallest entry stays in front and the
   *  rest is raised. */
  lemma {:induction false} BumpInner(d: map<Key, nat>, key: Key, r: nat)
    requires d != map[] && Smallest(d.Keys) < key
    ensures TotalIn(Entries(d[key := Height(d, key) + r])) == TotalIn(Entries(d)) + r
    ensures SumIn(Entries(d[key := Height(d, key) + r])) == SumIn(Entries(d)) + Weight(r, key)
    decreases |d.Keys|, 0
  {
    var d' := d[key := Height(d, key) + r];
    var s := Smallest(d.Keys);
    var rest := d - {s};
    var rest' := rest[key := Height(rest, key) + r];
    assert Smallest(d'.Keys) == s by {
      SmallestUnique(d'.Keys, s);
    }
    assert d' - {s} == rest' && d'[s] == d[s] by {
      assert Height(rest, key) == Height(d, key);
      RemoveUpdate(d, s, key, Height(d, key) + r);
    }
    EntriesBump(rest, key, r);
    EntriesFront(d');
    EntriesFront(d);
  }

  /** The tally of a log as a map, one call at a time. */
  function Tally(log: seq<Obs>): map<Key, nat>
    decreases |log|
  {
    if |log| == 0 then map[]
    else
      var d := Tally(log[..|log| - 1]);
      var o := log[|log| - 1];
      if o.repeat == 0 then d else d[o.key := Height(d, o.key) + o.repeat]
  }

  lemma {:induction false} TallyTallies(log: seq<Obs>)
    ensures Tallies(Tally(log), log)
    decreases |log|
  {
    if |log| > 0 {
      var front := log[..|log| - 1];
      TallyTallies(front);
      forall k ensures Height(Tally(log), k) == CountIn(log, k) {
        CountSplit(front, log[|log| - 1], k);
        assert front + [log[|log| - 1]] == log;
      }
    }
  }

  /** Two maps that tally the same log are the same map. */
  lemma TalliesUnique(a: map<Key, nat>, b: map<Key, nat>, log: seq<Obs>)
    requires Tallies(a, log) && Tallies(b, log)
    ensures a == b
  {
    forall k | k in a ensures k in b && a[k] == b[k] {
      assert Height(a, k) == Height(b, k);
    }
    forall k | k in b ensures k in a {
      assert Height(a, k) == Height(b, k);
    }
  }

  /** The total and the sum of a log with one more call at the end. */
  lemma TotalSnoc(front: seq<Obs>, o: Obs)
    ensures TotalIn(front + [o]) == TotalIn(front) + o.repeat
    ensures SumIn(front + [o]) == SumIn(front) + Weight(o.repeat, o.key)
  {
    TotalAppend(front, [o]);
    assert [o][1..] == [];
  }

  /** The entries of the tally add up to the log they tally. */
  lemma {:induction false} TallyEntries(log: seq<Obs>)
    ensures TotalIn(Entries(Tally(log))) == TotalIn(log)
    ensures SumIn(Entries(Tally(log))) == SumIn(log)
    decreases |log|
  {
    if |log| > 0 {
      TallyEntries(log[..|log| - 1]);
      TallyEntriesStep(log);
    } else {
      assert Tally(log) == map[];
      assert Entries(map[]) == [];
    }
  }

  /** The last call of a log raises the totals of the tally's entries and
   *  those of the log by the same share. */
  lemma TallyEntriesStep(log: seq<Obs>)
    requires |log| > 0
    ensures var front := log[..|log| - 1];
      && TotalIn(Entries(Tally(log))) - TotalIn(Entries(Tally(front))) == TotalIn(log) - TotalIn(front)
      && SumIn(Entries(Tally(log))) - SumIn(Entries(Tally(front))) == SumIn(log) - SumIn(front)
  {
    var d := Tally(log[..|log| - 1]);
    var o := log[|log| - 1];
    TotalLast(log);
    if o.repeat > 0 {
      assert Tally(log) == d[o.key := Height(d, o.key) + o.repeat];
      BumpTo(d, o.key, o.repeat, Tally(log));
    } else {
      assert Tally(log) == d;
      assert Weight(o.repeat, o.key) == 0;
    }
  }

  lemma BumpTo(d: map<Key, nat>, key: Key, r: nat, d': map<Key, nat>)
    requires d' == d[key := Height(d, key) + r]
    ensures TotalIn(Entries(d')) == TotalIn(Entries(d)) + r
    ensures SumIn(Entries(d')) == SumIn(Entries(d)) + Weight(r, key)
  {
    EntriesBump(d, key, r);
  }

  /** The total and the sum of a log, read from its last call. */
  lemma TotalLast(log: seq<Obs>)
    requires |log| > 0
    ensures var o := log[|log| - 1];
      && TotalIn(log) == TotalIn(log[..|log| - 1]) + o.repeat
      && SumIn(log) == SumIn(log[..|log| - 1]) + Weight(o.repeat, o.key)
  {
    var front := log[..|log| - 1];
    assert log == front + [log[|log| - 1]];
    TotalSnoc(front, log[|log| - 1]);
  }

  /** The entries of a measure's dictionary add up to its count and sum. */
  lemma DescribedEntries(m: Measure, log: seq<Obs>)
    requires Describes(m, log)
    ensures TotalIn(Entries(m.data)) == m.count && SumIn(Entries(m.data)) == m.sum
  {
    TallyTallies(log);
    TalliesUnique(m.data, Tally(log), log);
    TallyEntries(log);
  }

  lemma {:induction false} TotalAppend(a: seq<Obs>, b: seq<Obs>)
    ensures TotalIn(a + b) == TotalIn(a) + TotalIn(b)
    ensures SumIn(a + b) == SumIn(a) + SumIn(b)
    decreases |a|
  {
    if |a| > 0 {
      TotalAppend(a[1..], b);
      assert (a + b)[1..] == a[1..] + b;
    } else {
      assert a + b == b;
    }
  }

  lemma {:induction false} CountAppend(a: seq<Obs>, b: seq<Obs>)
    ensures forall k :: CountIn(a + b, k) == CountIn(a, k) + CountIn(b, k)
    decreases |b|
  {
    if |b| > 0 {
      var front := b[..|b| - 1];
      CountAppend(a, front);
      assert (a + b)[..|a + b| - 1] == a + front;
    } else {
      assert a + b == a;
    }
  }

  /** merge(other): every count, the total and the sum of `other` are added
   *  to this measure's. */
  lemma MergeAdds(m: Measure, log: seq<Obs>, other: Measure, otherLog: seq<Obs>)
    requires Describes(m, log) && Describes(other, otherLog)
    ensures var merged := Replayed(m, Entries(other.data));
      && Describes(merged, log + Entries(other.data))
      && (forall k :: Height(merged.data, k) == Height(m.data, k) + Height(other.data, k))
      && merged.count == m.count + other.count
      && merged.sum == m.sum + other.sum
  {
    var e := Entries(other.data);
    ReplayedDescribes(m, log, e);
    DescribedEntries(other, otherLog);
    TotalAppend(log, e);
    CountAppend(log, e);
    forall k ensures CountIn(e, k) == Height(other.data, k) {
      EntriesCount(other.data, k);
    }
  }

  /** The ordered test: observing 2 three times, 0 seven times and 1 ten
   *  times in three calls makes 1 the most likely value, with 0 and 2 the
   *  extremes and 16 the sum. */
  lemma Associate(a: seq<Obs>, b: seq<Obs>, o: Obs)
    ensures a + (b + [o]) == a + b + [o]
  {
  }

  lemma ReplayedSnoc(m: Measure, log: seq<Obs>, o: Obs)
    ensures Replayed(m, log + [o]) == Observed(Replayed(m, log), o.key, o.repeat)
  {
    assert (log + [o])[..|log|] == log;
  }

  /** Taking the smallest entry off the dictionary still to be observed. */
  lemma EntriesNext(done: seq<Obs>, remaining: map<Key, nat>, d: map<Key, nat>)
    requires remaining != map[] && done + Entries(remaining) == Entries(d)
    ensures var k := Smallest(remaining.Keys);
      done + [Obs(k, remaining[k])] + Entries(remaining - {k}) == Entries(d)
  {
    var k := Smallest(remaining.Keys);
    assert Entries(remaining) == [Obs(k, remaining[k])] + Entries(remaining - {k});
  }

  lemma ReplayedStep(m: Measure, log: seq<Obs>, i: nat)
    requires i < |log|
    ensures Replayed(m, log[..i + 1]) == Observed(Replayed(m, log[..i]), log[i].key, log[i].repeat)
  {
    assert log[..i + 1][..i] == log[..i];
  }

  lemma OrderedTest(log: seq<Obs>)
    requires log == [Obs(2, 3), Obs(0, 7), Obs(1, 5), Obs(1, 1), Obs(1, 4)]
    ensures var m := Replayed(Empty(), log);
      && m.count == 20 && m.mostLikely == 1 && m.maxHeight == 10
      && m.min == 0 && m.max == 2 && m.sum == 16
  {
    OrderedTestStart(log);
    ReplayedStep(Empty(), log, 3);
    var m4 := Replayed(Empty(), log[..4]);
    assert Height(m4.data, 1) == 6 && m4.maxHeight == 7 && m4.mostLikely == 0 && m4.sum == 12;
    ReplayedStep(Empty(), log, 4);
    assert log[..5] == log;
  }

  /** The first three calls of the ordered test. */
  lemma OrderedTestStart(log: seq<Obs>)
    requires log == [Obs(2, 3), Obs(0, 7), Obs(1, 5), Obs(1, 1), Obs(1, 4)]
    ensures var m := Replayed(Empty(), log[..3]);
      && m.count == 15 && Height(m.data, 1) == 5 && m.maxHeight == 7 && m.mostLikely == 0
      && m.min == 0 && m.max == 2 && m.sum == 11
  {
    assert log[..0] == [];
    ReplayedStep(Empty(), log, 0);
    var m1 := Replayed(Empty(), log[..1]);
    assert m1.count == 3 && m1.maxHeight == 3 && m1.mostLikely == 2 && m1.min == 2 && m1.max == 2 && m1.sum == 6;
    ReplayedStep(Empty(), log, 1);
    var m2 := Replayed(Empty(), log[..2]);
    assert m2.count == 10 && m2.maxHeight == 7 && m2.mostLikely == 0 && m2.min == 0 && m2.max == 2 && m2.sum == 6;
    assert Height(m2.data, 1) == 0;
    ReplayedStep(Empty(), log, 2);
  }

  /** `empirical_measure<std::int64_t>`: the fields as above, and the log of
   *  calls since the last clear as ghost state. */
  class EmpiricalMeasure {
    var data: map<Key, nat>
    var countObservations: nat
    var maxHeight: nat
    var mostLikelyValue: Key
    var minKey: Key
    var maxKey: Key
    var sum: int
    ghost var log: seq<Obs>

    function State(): Measure
      reads this
    {
      Measure(data, countObservations, maxHeight, mostLikelyValue, minKey, maxKey, sum)
    }

    ghost predicate Valid()
      reads this
    {
      Describes(State(), log)
    }

    /** empirical_measure(): no observations. */
    constructor ()
      ensures Valid() && State() == Empty() && log == []
    {
      data, countObservations, maxHeight, mostLikelyValue := map[], 0, 0, 0;
      minKey, maxKey, sum := KeyMax as Key, KeyLowest as Key, 0;
      log := [];
      new;
      ClearedDescribes(State());
    }

    /** empirical_measure(keys, values): the pairs in order; keys and values
     *  of different lengths are a logic_error. */
    static method FromPairs(keys: seq<Key>, values: seq<nat>) returns (r: Result<EmpiricalMeasure>)
      ensures r.Err? <==> |keys| != |values|
      ensures r.Err? ==> r.failure == LogicError
      ensures r.Ok? ==> && fresh(r.value) && r.value.Valid()
                        && r.value.log == seq(|keys|, i requires 0 <= i < |keys| && |keys| == |values| => Obs(keys[i], values[i]))
    {
      if |keys| != |values| {
        return Err(LogicError);
      }
      var measure := new EmpiricalMeasure();
      var i := 0;
      while i < |keys|
        invariant 0 <= i <= |keys| && measure.Valid()
        invariant measure.log == seq(i, j requires 0 <= j < i => Obs(keys[j], values[j]))
      {
        measure.Observe(keys[i], values[i]);
        i := i + 1;
      }
      r := Ok(measure);
    }

    /** empirical_measure(dictionary): each entry observed in turn, in
     *  ascending key order. */
    static method FromDictionary(d: map<Key, nat>) returns (measure: EmpiricalMeasure)
      ensures fresh(measure) && measure.Valid() && measure.log == Entries(d)
      ensures measure.State() == Replayed(Empty(), Entries(d))
    {
      measure := new EmpiricalMeasure();
      measure.ObserveAll(d);
    }

    /** clear(). */
    method Clear()
      modifies this
      ensures Valid() && State() == Cleared(old(State())) && log == []
    {
      data := map[];
      countObservations := 0;
      maxHeight := 0;
      minKey, maxKey := KeyMax as Key, KeyLowest as Key;
      sum := 0;
      log := [];
      ClearedDescribes(old(State()));
    }

    /** observe(key, repeat). */
    method Observe(key: Key, repeat: nat)
      requires Valid()
      modifies this
      ensures Valid() && State() == Observed(old(State()), key, repeat)
      ensures log == old(log) + [Obs(key, repeat)]
    {
      ObservedDescribes(State(), log, key, repeat);
      log := log + [Obs(key, repeat)];
      UpdateFields(key, repeat);
    }

    /** The body of observe and of the two on_observed hooks. */
    method UpdateFields(key: Key, repeat: nat)
      modifies this
      ensures State() == Observed(old(State()), key, repeat) && log == old(log)
    {
      if repeat == 0 {
        return;
      }
      var newHeight := (if key in data then data[key] else 0) + repeat;
      data := data[key := newHeight];
      countObservations := countObservations + repeat;
      if maxHeight < newHeight {
        maxHeight := newHeight;
        mostLikelyValue := key;
      }
      if key < minKey {
        minKey := key;
      }
      if key > maxKey {
        maxKey := key;
      }
      WeightIsProduct(repeat, key);
      sum := sum + repeat * key as int;
    }

    /** empty(): no observation since the last clear. */
    function IsEmpty(): (b: bool)
      requires Valid()
      reads this
      ensures b <==> TotalIn(log) == 0
      ensures b <==> forall k :: CountIn(log, k) == 0
    {
      DescribedCounts(State(), log);
      countObservations == 0
    }

    /** count(). */
    function Count(): (n: nat)
      requires Valid()
      reads this
      ensures n == TotalIn(log)
    {
      countObservations
    }

    /** count(key): 0 for a key never observed. */
    function CountOf(key: Key): (n: nat)
      requires Valid()
      reads this
      ensures n == CountIn(log, key)
    {
      if key in data then data[key] else 0
    }

    /** most_likely_count(): the largest count of any key. */
    function MostLikelyCount(): (n: nat)
      requires Valid()
      reads this
      ensures forall k :: CountIn(log, k) <= n
      ensures TotalIn(log) > 0 ==> exists k :: CountIn(log, k) == n
    {
      DescribedCounts(State(), log);
      maxHeight
    }

    /** min(): the smallest observed key, the largest Key before any. */
    function Min(): (k: Key)
      requires Valid()
      reads this
      ensures TotalIn(log) > 0 ==> CountIn(log, k) > 0 && forall j :: CountIn(log, j) > 0 ==> k <= j
      ensures TotalIn(log) == 0 ==> k as int == KeyMax
    {
      DescribedCounts(State(), log);
      minKey
    }

    /** max(): the largest observed key, the lowest Key before any. */
    function Max(): (k: Key)
      requires Valid()
      reads this
      ensures TotalIn(log) > 0 ==> CountIn(log, k) > 0 && forall j :: CountIn(log, j) > 0 ==> j <= k
      ensures TotalIn(log) == 0 ==> k as int == KeyLowest
    {
      DescribedCounts(State(), log);
      maxKey
    }

    /** merge(other): the entries of `other`, read before any of them is
     *  observed (so merging a measure into itself doubles it). */
    method Merge(other: EmpiricalMeasure)
      requires Valid() && other.Valid()
      modifies this
      ensures Valid() && State() == Replayed(old(State()), Entries(old(other.data)))
      ensures log == old(log) + Entries(old(other.data))
      ensures forall k :: Height(data, k) == Height(old(data), k) + Height(old(other.data), k)
      ensures countObservations == old(countObservations) + old(other.countObservations)
      ensures sum == old(sum) + old(other.sum)
    {
      MergeAdds(State(), log, other.State(), other.log);
      ObserveAll(other.data);
    }

    /** The loop of merge and of the dictionary constructor. */
    method ObserveAll(d: map<Key, nat>)
      requires Valid()
      modifies this
      ensures Valid() && State() == Replayed(old(State()), Entries(d))
      ensures log == old(log) + Entries(d)
    {
      ReplayedDescribes(State(), log, Entries(d));
      ghost var start, log0 := State(), log;
      var remaining := d;
      ghost var done: seq<Obs> := [];
      while remaining != map[]
        invariant done + Entries(remaining) == Entries(d)
        invariant State() == Replayed(start, done)
        invariant log == log0 + done
        decreases |remaining.Keys|
      {
        ghost var s := Smallest(remaining.Keys);
        var k :| k in remaining && forall j :: j in remaining ==> k <= j;
        assert k == s;
        EntriesNext(done, remaining, d);
        ReplayedSnoc(start, done, Obs(k, remaining[k]));
        ghost var before := State();
        UpdateFields(k, remaining[k]);
        assert State() == Observed(before, k, remaining[k]);
        ghost var o := Obs(k, remaining[k]);
        Associate(log0, done, o);
        done, log := done + [o], log + [o];
        remaining := remaining - {k};
      }
      assert done == Entries(d);
    }
  }
}
