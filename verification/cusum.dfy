/** The classical CUSUM chart: a one-sided stopping rule whose statistic is
 *  the previous statistic, floored at 0, plus the newest observation. */
module Cusums {
  import opened StoppingTimes
  import opened OneSidedStoppingTimes

  /** Sum of a sequence of observations. */
  function Sum(s: seq<int>): int
    decreases |s|
  {
    if |s| == 0 then 0 else Sum(s[..|s| - 1]) + s[|s| - 1]
  }

  /** A suffix sum extended by one more observation. */
  lemma SumExtended(xs: seq<int>, k: nat)
    requires k < |xs|
    ensures Sum(xs[k..]) == Sum(xs[k..|xs| - 1]) + xs[|xs| - 1]
  {
    assert xs[k..][..|xs[k..]| - 1] == xs[k..|xs| - 1];
  }

  /** update_statistic(value): one step of the recursion. */
  function Next(previous: int, value: int): int
  {
    (if previous < 0 then 0 else previous) + value
  }

  /** The statistic after the observations `xs`, one update at a time. */
  function Updated(statistic: int, xs: seq<int>): int
    decreases |xs|
  {
    if |xs| == 0 then statistic else Next(Updated(statistic, xs[..|xs| - 1]), xs[|xs| - 1])
  }

  /** The statistic after each observation of a block. */
  function Trace(statistic: int, xs: seq<int>): (t: seq<int>)
    ensures |t| == |xs|
  {
    seq(|xs|, k requires 0 <= k < |xs| => Updated(statistic, xs[..k + 1]))
  }

  /** Started from 0, the CUSUM statistic is the largest sum of a non-empty
   *  run of the most recent observations. */
  lemma {:induction false} LargestRecentSum(xs: seq<int>)
    requires |xs| > 0
    ensures forall k :: 0 <= k < |xs| ==> Updated(0, xs) >= Sum(xs[k..])
    ensures exists k :: 0 <= k < |xs| && Updated(0, xs) == Sum(xs[k..])
    decreases |xs|
  {
    var n := |xs|;
    var p := xs[..n - 1];
    var x := xs[n - 1];
    assert xs[n - 1..] == [x];
    assert Sum([x]) == Sum([x][..0]) + x;
    if n == 1 {
      assert Updated(0, xs) == Next(Updated(0, []), x);
    } else {
      LargestRecentSum(p);
      var previous := Updated(0, p);
      assert Updated(0, xs) == Next(previous, x);
      forall k | 0 <= k < n - 1
        ensures Sum(xs[k..]) == Sum(p[k..]) + x
      {
        SumExtended(xs, k);
        assert xs[k..n - 1] == p[k..];
      }
      if previous >= 0 {
        var k :| 0 <= k < n - 1 && previous == Sum(p[k..]);
        assert Updated(0, xs) == Sum(xs[k..]);
      } else {
        assert Updated(0, xs) == Sum(xs[n - 1..]);
      }
    }
  }

  /** The accumulation test: observing 2, 3, -7, 1, 2, 3, 4, 5, 5, -5 gives
   *  20 before the last observation and 15 after it. */
  lemma AccumulationTest(process: seq<int>)
    requires process == [2, 3, -7, 1, 2, 3, 4, 5, 5, -5]
    ensures Updated(0, process[..9]) == 20 && Updated(0, process) == 15
  {
    var expected := [0, 2, 5, -2, 1, 3, 6, 10, 15, 20, 15];
    assert process[..0] == [];
    for k := 0 to 10
      invariant Updated(0, process[..k]) == expected[k]
    {
      assert process[..k + 1][..k] == process[..k];
    }
    assert process[..10] == process;
  }

  /** `cusum<T>`: the chart owns its stopping rule. */
  class Cusum {
    const rule: OneSidedStoppingTime
    var statistic: int

    predicate Valid()
      reads this, rule
    {
      rule.Valid()
    }

    /** cusum(thresholds); the default chart has no thresholds. */
    constructor (thresholds: seq<int>)
      ensures fresh(rule) && Valid() && rule.State() == Initial(thresholds) && statistic == 0
    {
      rule := new OneSidedStoppingTime(thresholds);
      statistic := 0;
    }

    method UpdateStatistic(value: int) returns (s: int)
      modifies this
      ensures s == statistic == Next(old(statistic), value)
    {
      var previous := statistic;
      if previous < 0 {
        previous := 0;
      }
      statistic := previous + value;
      s := statistic;
    }

    /** The block update: the same recursion applied to each value in turn. */
    method UpdateStatistics(values: seq<int>) returns (result: seq<int>)
      modifies this
      ensures result == Trace(old(statistic), values)
      ensures statistic == Updated(old(statistic), values)
    {
      result := values;
      var k := 0;
      while k < |values|
        invariant 0 <= k <= |values| && |result| == |values|
        invariant statistic == Updated(old(statistic), values[..k])
        invariant forall i :: 0 <= i < k ==> result[i] == Updated(old(statistic), values[..i + 1])
      {
        assert values[..k + 1][..k] == values[..k];
        var previous := statistic;
        if previous < 0 {
          previous := 0;
        }
        statistic := previous + values[k];
        result := result[k := statistic];
        k := k + 1;
      }
      assert values[..|values|] == values;
    }

    method OnReset()
      modifies this
      ensures statistic == 0
    {
      statistic := 0;
    }

    /** reset(): the rule's counters, then on_reset. */
    method Reset()
      requires Valid()
      modifies this, rule
      ensures Valid() && rule.State() == Cleared(old(rule.State())) && statistic == 0
    {
      rule.Reset();
      OnReset();
    }

    /** observe(value): the statistic moves only while the rule runs. */
    method Observe(value: int)
      requires Valid()
      modifies this, rule
      ensures Valid() && rule.State() == Observed(Reaches, old(rule.State()), Next(old(statistic), value))
      ensures statistic == if old(rule.State()).Stopped() then old(statistic) else Next(old(statistic), value)
    {
      var s := 0;
      if rule.IsRunning() {
        s := UpdateStatistic(value);
      }
      rule.Observe(s);
    }

    /** observe(values): the whole block updates the statistic while the
     *  rule runs; the rule then checks the block. */
    method ObserveBlock(values: seq<int>)
      requires Valid()
      modifies this, rule
      ensures Valid() && rule.State() == ObservedBlock(Reaches, old(rule.State()), Trace(old(statistic), values))
      ensures statistic == if old(rule.State()).Stopped() then old(statistic) else Updated(old(statistic), values)
    {
      var statistics := values;
      if rule.IsRunning() {
        statistics := UpdateStatistics(values);
      }
      rule.ObserveBlock(statistics);
    }
  }
}
