/** `one_sided_stopping_time`: the base of the detection charts. The chart
 *  turns each observation into a statistic (`update_statistic`, supplied by
 *  the derived chart) and the rule stops for every threshold the statistic
 *  reaches. The crossing logic is the one specified in `StoppingTimes`, with
 *  the non-strict comparison the code uses (the class's own doc comment
 *  writes the rule with a strict one). */
module OneSidedStoppingTimes {
  import opened StoppingTimes

  /** The two rules differ exactly on a statistic equal to the threshold:
   *  the one-sided rule stops on it, `stopping_time` does not. */
  lemma ReachingIsEnough(threshold: int, statistic: int)
    ensures var r := Initial([threshold]);
      && (Observed(Reaches, r, statistic).Stopped() <==> statistic >= threshold)
      && (Observed(Exceeds, r, statistic).Stopped() <==> statistic > threshold)
  {
    var r := Initial([threshold]);
    assert r.thresholds == [threshold];
    CheckSpec(Reaches, r, statistic, 1);
    CheckSpec(Exceeds, r, statistic, 1);
  }

  /** The rule part of a one-sided chart: the thresholds, the stopping times
   *  and the counters. The statistics come from the chart that owns it. */
  class OneSidedStoppingTime {
    var countObservations: nat
    var thresholds: seq<int>
    var whenStopped: seq<nat>
    var firstUncrossedIndex: nat

    function State(): Rule
      reads this
    {
      Rule(thresholds, whenStopped, firstUncrossedIndex, countObservations)
    }

    predicate Valid()
      reads this
    {
      State().Valid()
    }

    /** one_sided_stopping_time(thresholds): initialize only (no validation). */
    constructor (given: seq<int>)
      ensures State() == Initial(given)
    {
      thresholds := given;
      whenStopped := Zeros(|given|);
      firstUncrossedIndex, countObservations := 0, 0;
      new;
      thresholds := SortedCopy(thresholds);
    }

    predicate IsStopped()
      reads this
    {
      firstUncrossedIndex == |thresholds|
    }

    /** is_running(): the rule has not stopped for some threshold. */
    predicate IsRunning()
      reads this
      ensures IsRunning() <==> !State().Stopped()
    {
      !IsStopped()
    }

    /** The rule's part of reset(); the chart's on_reset is the owner's. */
    method Reset()
      requires Valid()
      modifies this
      ensures State() == Cleared(old(State()))
    {
      countObservations := 0;
      whenStopped := Zeros(|whenStopped|);
      firstUncrossedIndex := 0;
    }

    method CheckForStopping(statistic: int, time: nat)
      requires Valid()
      modifies this
      ensures State() == Check(Reaches, old(State()), statistic, time)
    {
      ghost var start := firstUncrossedIndex;
      ghost var j := Advance(Reaches, thresholds, start, statistic);
      while firstUncrossedIndex < |thresholds|
        invariant start <= firstUncrossedIndex <= j
        invariant thresholds == old(thresholds) && countObservations == old(countObservations)
        invariant whenStopped == Record(old(whenStopped), start, firstUncrossedIndex, time)
        decreases |thresholds| - firstUncrossedIndex
      {
        if statistic < thresholds[firstUncrossedIndex] {
          break;
        }
        whenStopped := whenStopped[firstUncrossedIndex := time];
        firstUncrossedIndex := firstUncrossedIndex + 1;
      }
    }

    /** observe(value) once the chart has produced `statistic` for it (the
     *  chart updates its statistic only while the rule is running). */
    method Observe(statistic: int)
      requires Valid()
      modifies this
      ensures State() == Observed(Reaches, old(State()), statistic)
    {
      if IsRunning() {
        CheckForStopping(statistic, countObservations + 1);
      }
      countObservations := countObservations + 1;
    }

    /** observe(values) once the chart has produced the block of statistics. */
    method ObserveBlock(statistics: seq<int>)
      requires Valid()
      modifies this
      ensures State() == ObservedBlock(Reaches, old(State()), statistics)
    {
      var n := |statistics|;
      if IsRunning() {
        CheckBlock(statistics, countObservations + 1);
      }
      countObservations := countObservations + n;
    }

    method CheckBlock(statistics: seq<int>, start: nat)
      requires Valid() && IsRunning()
      modifies this
      ensures State() == BlockFrom(Reaches, old(State()), statistics, start)
    {
      var time := start;
      var i := 0;
      while i < |statistics|
        invariant 0 <= i <= |statistics| && time == start + i
        invariant Valid() && IsRunning()
        invariant BlockFrom(Reaches, old(State()), statistics, start)
          == BlockFrom(Reaches, State(), statistics[i..], time)
      {
        ghost var before := State();
        CheckForStopping(statistics[i], time);
        BlockFromStep(Reaches, before, statistics[i..], time);
        if IsStopped() {
          return;
        }
        assert statistics[i..][1..] == statistics[i + 1..];
        time := time + 1;
        i := i + 1;
      }
    }
  }
}
