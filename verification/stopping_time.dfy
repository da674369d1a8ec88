/** Threshold stopping rules over a stream of statistics: `stopping_time`,
 *  which stops when the observed value exceeds a threshold, and (through the
 *  shared specification here) `one_sided_stopping_time`, which stops when the
 *  statistic reaches one. Every threshold gets its own stopping time; the
 *  thresholds are kept sorted so that crossing a threshold means crossing all
 *  smaller ones too. */
module StoppingTimes {

  /** The comparison that counts as crossing: `stopping_time` breaks on
   *  `statistic <= threshold` (so crossing is `>`), `one_sided_stopping_time`
   *  on `statistic < threshold` (so crossing is `>=`). */
  datatype Crossing = Exceeds | Reaches

  predicate Crosses(c: Crossing, statistic: int, threshold: int)
  {
    match c
    case Exceeds => statistic > threshold
    case Reaches => statistic >= threshold
  }

  /** A statistic that crosses a threshold crosses every smaller one. */
  lemma CrossesSmaller(c: Crossing, statistic: int, lower: int, upper: int)
    requires lower <= upper && Crosses(c, statistic, upper)
    ensures Crosses(c, statistic, lower)
  {
  }

  // ~~ Sorted thresholds (the effect of ordered_vector::sort) ~~

  predicate Sorted(s: seq<int>)
  {
    forall i, j :: 0 <= i < j < |s| ==> s[i] <= s[j]
  }

  /** Places `x` into an already sorted sequence. */
  function Insert(x: int, s: seq<int>): (r: seq<int>)
    requires Sorted(s)
    ensures Sorted(r) && multiset(r) == multiset(s) + multiset{x}
  {
    if |s| == 0 || x <= s[0] then [x] + s
    else
      var rest := Insert(x, s[1..]);
      InsertBehind(s, x, rest);
      [s[0]] + rest
  }

  /** The head of a sorted sequence stays first when a larger value is
   *  inserted into its tail. */
  lemma InsertBehind(s: seq<int>, x: int, rest: seq<int>)
    requires Sorted(s) && |s| > 0 && s[0] < x
    requires Sorted(rest) && multiset(rest) == multiset(s[1..]) + multiset{x}
    ensures Sorted([s[0]] + rest) && multiset([s[0]] + rest) == multiset(s) + multiset{x}
  {
    assert s == [s[0]] + s[1..];
    forall i | 0 <= i < |rest|
      ensures s[0] <= rest[i]
    {
      BelowMember(s, x, rest[i], multiset(rest));
    }
  }

  lemma BelowMember(s: seq<int>, x: int, v: int, m: multiset<int>)
    requires Sorted(s) && |s| > 0 && s[0] < x
    requires m == multiset(s[1..]) + multiset{x} && v in m
    ensures s[0] <= v
  {
    if v != x {
      assert v in s[1..];
      var j :| 0 <= j < |s[1..]| && s[1..][j] == v;
      assert s[j + 1] == v;
    }
  }

  /** The thresholds in ascending order: a sorted permutation of the input. */
  function SortedCopy(s: seq<int>): (r: seq<int>)
    ensures Sorted(r) && multiset(r) == multiset(s) && |r| == |s|
  {
    if |s| == 0 then []
    else
      assert s == [s[0]] + s[1..];
      Insert(s[0], SortedCopy(s[1..]))
  }

  function Zeros(n: nat): (z: seq<nat>)
    ensures |z| == n && forall i :: 0 <= i < n ==> z[i] == 0
  {
    seq(n, i => 0)
  }

  // ~~ The state of a rule ~~

  /** The thresholds, the stopping time recorded for each (0 while it has not
   *  been crossed), the first uncrossed index and the observation count. */
  datatype Rule = Rule(thresholds: seq<int>, when: seq<nat>, uncrossed: nat, count: nat)
  {
    predicate Valid()
    {
      Sorted(thresholds) && |when| == |thresholds| && uncrossed <= |thresholds|
    }

    /** is_stopped(): every threshold has been crossed. */
    predicate Stopped()
    {
      uncrossed == |thresholds|
    }
  }

  /** The state right after construction or reset: nothing crossed, nothing
   *  observed. */
  predicate Fresh(r: Rule)
  {
    r.Valid() && r.when == Zeros(|r.thresholds|) && r.uncrossed == 0 && r.count == 0
  }

  /** initialize(thresholds): sorted thresholds, a zero stopping time for
   *  each, counters at zero. */
  function Initial(thresholds: seq<int>): (r: Rule)
    ensures Fresh(r) && multiset(r.thresholds) == multiset(thresholds)
  {
    Rule(SortedCopy(thresholds), Zeros(|thresholds|), 0, 0)
  }

  /** The first index at or after `index` whose threshold `statistic` does not
   *  cross (the size when it crosses all of them). */
  function Advance(c: Crossing, thresholds: seq<int>, index: nat, statistic: int): (j: nat)
    requires index <= |thresholds|
    ensures index <= j <= |thresholds|
    ensures forall k :: index <= k < j ==> Crosses(c, statistic, thresholds[k])
    ensures j < |thresholds| ==> !Crosses(c, statistic, thresholds[j])
    decreases |thresholds| - index
  {
    if index == |thresholds| || !Crosses(c, statistic, thresholds[index]) then index
    else Advance(c, thresholds, index + 1, statistic)
  }

  /** `when` with the stopping times in [from, to) set to `time`. */
  function Record(when: seq<nat>, from: nat, to: nat, time: nat): (w: seq<nat>)
    ensures |w| == |when|
  {
    seq(|when|, k requires 0 <= k < |when| => if from <= k < to then time else when[k])
  }

  /** check_for_stopping(statistic, time): every uncrossed threshold the
   *  statistic crosses, smallest first, is stopped at `time`. */
  function Check(c: Crossing, r: Rule, statistic: int, time: nat): (r': Rule)
    requires r.Valid()
    ensures r'.Valid() && r'.thresholds == r.thresholds && r'.count == r.count
  {
    var j := Advance(c, r.thresholds, r.uncrossed, statistic);
    r.(when := Record(r.when, r.uncrossed, j, time), uncrossed := j)
  }

  /** observe(value): records stopping only while running, and always counts
   *  the observation. */
  function Observed(c: Crossing, r: Rule, statistic: int): (r': Rule)
    requires r.Valid()
    ensures r'.Valid() && r'.thresholds == r.thresholds && r'.count == r.count + 1
  {
    (if !r.Stopped() then Check(c, r, statistic, r.count + 1) else r).(count := r.count + 1)
  }

  /** Observing a sequence one value at a time. */
  function ObservedAll(c: Crossing, r: Rule, stats: seq<int>): (r': Rule)
    requires r.Valid()
    ensures r'.Valid() && r'.thresholds == r.thresholds && r'.count == r.count + |stats|
    decreases |stats|
  {
    if |stats| == 0 then r else ObservedAll(c, Observed(c, r, stats[0]), stats[1..])
  }

  /** The loop of the block observe: checks each value at its own time and
   *  leaves as soon as the rule has stopped. */
  function BlockFrom(c: Crossing, r: Rule, stats: seq<int>, time: nat): (r': Rule)
    requires r.Valid()
    ensures r'.Valid() && r'.thresholds == r.thresholds && r'.count == r.count
    decreases |stats|
  {
    if |stats| == 0 then r
    else
      var r1 := Check(c, r, stats[0], time);
      if r1.Stopped() then r1 else BlockFrom(c, r1, stats[1..], time + 1)
  }

  lemma BlockFromStep(c: Crossing, r: Rule, stats: seq<int>, time: nat)
    requires r.Valid() && |stats| > 0
    ensures var r1 := Check(c, r, stats[0], time);
      BlockFrom(c, r, stats, time) == if r1.Stopped() then r1 else BlockFrom(c, r1, stats[1..], time + 1)
  {
  }

  /** observe(values): the loop runs only while running; the count advances
   *  by the block size regardless. */
  function ObservedBlock(c: Crossing, r: Rule, stats: seq<int>): (r': Rule)
    requires r.Valid()
  {
    (if !r.Stopped() then BlockFrom(c, r, stats, r.count + 1) else r).(count := r.count + |stats|)
  }

  /** Reset: the thresholds stay, everything recorded is cleared. */
  function Cleared(r: Rule): (r': Rule)
    requires r.Valid()
    ensures Fresh(r') && r'.thresholds == r.thresholds
  {
    Rule(r.thresholds, Zeros(|r.thresholds|), 0, 0)
  }

  // ~~ What the rule computes ~~

  /** Crossing is tried in order from the first uncrossed threshold; since the
   *  thresholds are sorted, exactly the uncrossed thresholds the statistic
   *  crosses become crossed, and nothing crossed before is touched. */
  lemma CheckSpec(c: Crossing, r: Rule, statistic: int, time: nat)
    requires r.Valid()
    ensures var r' := Check(c, r, statistic, time);
      && r.uncrossed <= r'.uncrossed <= |r.thresholds|
      && (forall k :: r.uncrossed <= k < |r.thresholds| ==>
            (k < r'.uncrossed <==> Crosses(c, statistic, r.thresholds[k])))
      && (forall k :: 0 <= k < |r.when| ==>
            r'.when[k] == if r.uncrossed <= k < r'.uncrossed then time else r.when[k])
  {
    var j := Advance(c, r.thresholds, r.uncrossed, statistic);
    forall k | j <= k < |r.thresholds| && Crosses(c, statistic, r.thresholds[k])
      ensures false
    {
      CrossesSmaller(c, statistic, r.thresholds[j], r.thresholds[k]);
    }
  }

  /** Once every threshold has been crossed an observation only counts. */
  lemma StoppedObserve(c: Crossing, r: Rule, stats: seq<int>)
    requires r.Valid() && r.Stopped()
    ensures ObservedAll(c, r, stats) == r.(count := r.count + |stats|)
    decreases |stats|
  {
    if |stats| > 0 {
      StoppedObserve(c, Observed(c, r, stats[0]), stats[1..]);
    }
  }

  /** The block loop does not depend on the observation count. */
  lemma BlockFromCount(c: Crossing, r: Rule, stats: seq<int>, time: nat, count: nat)
    requires r.Valid()
    ensures BlockFrom(c, r.(count := count), stats, time) == BlockFrom(c, r, stats, time).(count := count)
    decreases |stats|
  {
    if |stats| > 0 {
      var r1 := Check(c, r, stats[0], time);
      if !r1.Stopped() {
        BlockFromCount(c, r1, stats[1..], time + 1, count);
      }
    }
  }

  /** Observing a block is the same as observing its values one at a time. */
  lemma {:induction false} BlockIsRepeated(c: Crossing, r: Rule, stats: seq<int>)
    requires r.Valid()
    ensures ObservedBlock(c, r, stats) == ObservedAll(c, r, stats)
    decreases |stats|
  {
    if |stats| == 0 {
    } else if r.Stopped() {
      StoppedObserve(c, r, stats);
    } else {
      var r1 := Check(c, r, stats[0], r.count + 1);
      var next := r1.(count := r.count + 1);
      assert Observed(c, r, stats[0]) == next;
      if r1.Stopped() {
        StoppedObserve(c, next, stats[1..]);
      } else {
        BlockIsRepeated(c, next, stats[1..]);
        BlockFromCount(c, r1, stats[1..], r.count + 2, r.count + 1);
      }
    }
  }

  /** The reference definition of a stopping time: the (1-based) index of the
   *  first statistic that crosses the threshold, or 0 if none does. */
  function FirstCrossing(c: Crossing, stats: seq<int>, threshold: int): (n: nat)
    ensures n <= |stats|
    ensures n == 0 <==> forall i :: 0 <= i < |stats| ==> !Crosses(c, stats[i], threshold)
    ensures n > 0 ==> Crosses(c, stats[n - 1], threshold)
    ensures forall i :: 0 <= i < n - 1 ==> !Crosses(c, stats[i], threshold)
    decreases |stats|
  {
    if |stats| == 0 then 0
    else
      var before := FirstCrossing(c, stats[..|stats| - 1], threshold);
      if before > 0 then before
      else if Crosses(c, stats[|stats| - 1], threshold) then |stats|
      else 0
  }

  /** A rule that has observed `stats` from a fresh state: each crossed
   *  threshold holds its first crossing time, each uncrossed one holds 0 and
   *  has never been crossed. */
  predicate Tracks(c: Crossing, r: Rule, stats: seq<int>)
  {
    && r.Valid() && r.count == |stats|
    && (forall k :: 0 <= k < r.uncrossed ==>
          r.when[k] == FirstCrossing(c, stats, r.thresholds[k]) && r.when[k] > 0)
    && (forall k :: r.uncrossed <= k < |r.thresholds| ==>
          r.when[k] == 0 && FirstCrossing(c, stats, r.thresholds[k]) == 0)
  }

  lemma TracksStep(c: Crossing, r: Rule, stats: seq<int>, x: int)
    requires Tracks(c, r, stats)
    ensures Tracks(c, Observed(c, r, x), stats + [x])
  {
    var next := stats + [x];
    assert next[..|next| - 1] == stats;
    var r' := Observed(c, r, x);
    if !r.Stopped() {
      CheckSpec(c, r, x, r.count + 1);
    }
  }

  lemma {:induction false} TracksAll(c: Crossing, r: Rule, stats: seq<int>, more: seq<int>)
    requires Tracks(c, r, stats)
    ensures Tracks(c, ObservedAll(c, r, more), stats + more)
    decreases |more|
  {
    if |more| == 0 {
      assert stats + more == stats;
    } else {
      var next := Observed(c, r, more[0]);
      TracksStep(c, r, stats, more[0]);
      TracksAll(c, next, stats + [more[0]], more[1..]);
      assert stats + [more[0]] + more[1..] == stats + more;
      assert ObservedAll(c, r, more) == ObservedAll(c, next, more[1..]);
    }
  }

  /** After observing `stats` from a fresh rule, the stopping time recorded
   *  for every threshold is the first time the statistic crossed it, and the
   *  rule has stopped exactly when every threshold has been crossed. */
  lemma ObservedWhen(c: Crossing, r: Rule, stats: seq<int>)
    requires Fresh(r)
    ensures var r' := ObservedAll(c, r, stats);
      && r'.count == |stats| && r'.thresholds == r.thresholds
      && (forall k :: 0 <= k < |r.thresholds| ==> r'.when[k] == FirstCrossing(c, stats, r.thresholds[k]))
      && (r'.Stopped() <==> forall k :: 0 <= k < |r.thresholds| ==> FirstCrossing(c, stats, r.thresholds[k]) > 0)
  {
    TracksAll(c, r, [], stats);
    assert [] + stats == stats;
    var r' := ObservedAll(c, r, stats);
    if !r'.Stopped() {
      assert FirstCrossing(c, stats, r.thresholds[r'.uncrossed]) == 0;
    }
  }

  /** A first crossing pinned down by its defining properties. */
  lemma FirstCrossingAt(c: Crossing, stats: seq<int>, threshold: int, n: nat)
    requires 1 <= n <= |stats| && Crosses(c, stats[n - 1], threshold)
    requires forall i :: 0 <= i < n - 1 ==> !Crosses(c, stats[i], threshold)
    ensures FirstCrossing(c, stats, threshold) == n
  {
  }

  /** Sorting thresholds that are already sorted keeps them as they are. */
  lemma {:induction false} SortedCopyOfSorted(s: seq<int>)
    requires Sorted(s)
    ensures SortedCopy(s) == s
    decreases |s|
  {
    if |s| > 0 {
      SortedCopyOfSorted(s[1..]);
      assert [s[0]] + s[1..] == s;
    }
  }

  /** The border-crossing test: thresholds {1, 2, 5} and the process
   *  0, -1, 1, 2, 0, 3, 3 stop at times 4 and 6, and never for 5. */
  lemma BorderCrossingTest(thresholds: seq<int>, process: seq<int>)
    requires thresholds == [1, 2, 5] && process == [0, -1, 1, 2, 0, 3, 3]
    ensures var r := ObservedAll(Exceeds, Initial(thresholds), process);
      r.when == [4, 6, 0] && !r.Stopped()
  {
    SortedCopyOfSorted(thresholds);
    TestCrossings(process);
    BorderCrossing(Initial(thresholds), process);
  }

  lemma TestCrossings(stats: seq<int>)
    requires stats == [0, -1, 1, 2, 0, 3, 3]
    ensures FirstCrossing(Exceeds, stats, 1) == 4 && FirstCrossing(Exceeds, stats, 2) == 6
    ensures FirstCrossing(Exceeds, stats, 5) == 0
  {
    FirstCrossingAt(Exceeds, stats, 1, 4);
    FirstCrossingAt(Exceeds, stats, 2, 6);
  }

  lemma ThreeTimes(w: seq<nat>, a: nat, b: nat, c: nat)
    requires |w| == 3 && w[0] == a && w[1] == b && w[2] == c
    ensures w == [a, b, c]
  {
  }

  lemma BorderCrossing(r0: Rule, stats: seq<int>)
    requires Fresh(r0) && |r0.thresholds| == 3
    requires r0.thresholds[0] == 1 && r0.thresholds[1] == 2 && r0.thresholds[2] == 5
    requires FirstCrossing(Exceeds, stats, 1) == 4 && FirstCrossing(Exceeds, stats, 2) == 6
    requires FirstCrossing(Exceeds, stats, 5) == 0
    ensures var r := ObservedAll(Exceeds, r0, stats);
      r.when == [4, 6, 0] && !r.Stopped()
  {
    ObservedWhen(Exceeds, r0, stats);
    var r := ObservedAll(Exceeds, r0, stats);
    assert FirstCrossing(Exceeds, stats, r0.thresholds[2]) == 0;
    ThreeTimes(r.when, 4, 6, 0);
  }

  // ~~ stopping_time ~~

  /** `stopping_time<T>`: the rule that stops when an observed value exceeds
   *  a threshold. */
  class StoppingTime {
    var countObservations: nat
    var thresholds: seq<int>
    var whenStopped: seq<nat>
    var firstUncrossedIndex: nat

    function State(): Rule
      reads this
    {
      Rule(thresholds, whenStopped, firstUncrossedIndex, countObservations)
    }

    predicate Valid()
      reads this
    {
      State().Valid()
    }

    /** The default rule: no thresholds, so it is stopped from the start. */
    constructor ()
      ensures State() == Initial([]) && IsStopped()
    {
      thresholds, whenStopped := [], [];
      firstUncrossedIndex, countObservations := 0, 0;
    }

    /** stopping_time(thresholds): initialize, then validate (a finiteness
     *  check that integers always pass). */
    constructor Of(given: seq<int>)
      ensures State() == Initial(given)
    {
      thresholds := given;
      whenStopped := Zeros(|given|);
      firstUncrossedIndex, countObservations := 0, 0;
      new;
      thresholds := SortedCopy(thresholds);
    }

    predicate IsStopped()
      reads this
    {
      firstUncrossedIndex == |thresholds|
    }

    /** when(threshold_index). */
    function When(index: nat): nat
      requires index < |whenStopped|
      reads this
    {
      whenStopped[index]
    }

    method Reset()
      requires Valid()
      modifies this
      ensures State() == Cleared(old(State()))
    {
      countObservations := 0;
      whenStopped := Zeros(|whenStopped|);
      firstUncrossedIndex := 0;
    }

    method CheckForStopping(statistic: int, time: nat)
      requires Valid()
      modifies this
      ensures State() == Check(Exceeds, old(State()), statistic, time)
    {
      ghost var start := firstUncrossedIndex;
      ghost var j := Advance(Exceeds, thresholds, start, statistic);
      while firstUncrossedIndex < |thresholds|
        invariant start <= firstUncrossedIndex <= j
        invariant thresholds == old(thresholds) && countObservations == old(countObservations)
        invariant whenStopped == Record(old(whenStopped), start, firstUncrossedIndex, time)
        decreases |thresholds| - firstUncrossedIndex
      {
        if statistic <= thresholds[firstUncrossedIndex] {
          break;
        }
        whenStopped := whenStopped[firstUncrossedIndex := time];
        firstUncrossedIndex := firstUncrossedIndex + 1;
      }
    }

    method Observe(value: int)
      requires Valid()
      modifies this
      ensures State() == Observed(Exceeds, old(State()), value)
    {
      if !IsStopped() {
        CheckForStopping(value, countObservations + 1);
      }
      countObservations := countObservations + 1;
    }

    method ObserveBlock(values: seq<int>)
      requires Valid()
      modifies this
      ensures State() == ObservedBlock(Exceeds, old(State()), values)
    {
      var n := |values|;
      if !IsStopped() {
        CheckBlock(values, countObservations + 1);
      }
      countObservations := countObservations + n;
    }

    /** The loop of the block observe: each value is checked at its own
     *  time, until the rule stops. */
    method CheckBlock(values: seq<int>, start: nat)
      requires Valid() && !IsStopped()
      modifies this
      ensures State() == BlockFrom(Exceeds, old(State()), values, start)
    {
      var time := start;
      var i := 0;
      while i < |values|
        invariant 0 <= i <= |values| && time == start + i
        invariant Valid() && !IsStopped()
        invariant BlockFrom(Exceeds, old(State()), values, start) == BlockFrom(Exceeds, State(), values[i..], time)
      {
        ghost var before := State();
        CheckForStopping(values[i], time);
        BlockFromStep(Exceeds, before, values[i..], time);
        if IsStopped() {
          return;
        }
        assert values[i..][1..] == values[i + 1..];
        time := time + 1;
        i := i + 1;
      }
    }

    /** operator==: the same count and the same thresholds. */
    predicate Equals(other: StoppingTime)
      reads this, other
    {
      countObservations == other.countObservations && thresholds == other.thresholds
    }
  }
}
