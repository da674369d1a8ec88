/** The window-limited CUSUM chart: a ring buffer of the last L observations
 *  and, as statistic, the largest sum of the most recent k of them over
 *  0 <= k <= L. */
module WindowLimitedCusums {
  import opened Errors
  import opened StoppingTimes
  import opened OneSidedStoppingTimes
  import opened SlidingArrays
  import opened Cusums

  /** The larger of 0 and the sums of the first 1..p entries of `w`, as the
   *  two loops of update_statistic accumulate it. */
  function PeakSum(w: seq<int>, p: nat): int
    requires p <= |w|
  {
    if p == 0 then 0
    else
      var s := Sum(w[..p]);
      var m := PeakSum(w, p - 1);
      if s > m then s else m
  }

  /** The peak is the largest of the sums of the first k entries, 0 <= k <= p
   *  (the empty sum being 0). */
  lemma {:induction false} PeakSumIsLargest(w: seq<int>, p: nat)
    requires p <= |w|
    ensures forall k :: 0 <= k <= p ==> PeakSum(w, p) >= Sum(w[..k])
    ensures exists k :: 0 <= k <= p && PeakSum(w, p) == Sum(w[..k])
  {
    assert Sum(w[..0]) == 0;
    if p > 0 {
      PeakSumIsLargest(w, p - 1);
    }
  }

  /** The window from the newest observation to the oldest: the newest index
   *  to the end of the buffer, then the start of the buffer. */
  function Ring(h: seq<int>, newest: nat): (w: seq<int>)
    requires newest <= |h|
    ensures |w| == |h|
  {
    h[newest..] + h[..newest]
  }

  /** Stepping the newest index back by one (modulo L) and writing the value
   *  there pushes the value in front of the window and drops the oldest. */
  lemma RingStep(h: seq<int>, newest: nat, value: int)
    requires newest < |h|
    ensures var n' := (newest + (|h| - 1)) % |h|;
      Ring(h[n' := value], n') == DisplacedFront(Ring(h, newest), value)
  {
    if newest == 0 {
      assert (newest + (|h| - 1)) % |h| == |h| - 1;
      RingWrap(h, value);
    } else {
      assert (newest + (|h| - 1)) % |h| == newest - 1;
      RingInner(h, newest, value);
    }
  }

  lemma RingWrap(h: seq<int>, value: int)
    requires |h| > 0
    ensures Ring(h[|h| - 1 := value], |h| - 1) == DisplacedFront(Ring(h, 0), value)
  {
    var h' := h[|h| - 1 := value];
    assert h'[|h| - 1..] == [value];
    assert h'[..|h| - 1] == h[..|h| - 1];
    assert Ring(h, 0) == h;
  }

  lemma RingInner(h: seq<int>, newest: nat, value: int)
    requires 0 < newest < |h|
    ensures Ring(h[newest - 1 := value], newest - 1) == DisplacedFront(Ring(h, newest), value)
  {
    var h' := h[newest - 1 := value];
    var w := Ring(h, newest);
    assert h'[newest - 1..] == [value] + h[newest..];
    assert h'[..newest - 1] == h[..newest - 1];
    assert w[..|w| - 1] == h[newest..] + h[..newest - 1];
  }

  /** The window after a block of observations, one at a time. */
  function Slid(w: seq<int>, xs: seq<int>): (w': seq<int>)
    ensures |w'| == |w|
    decreases |xs|
  {
    if |xs| == 0 then w else DisplacedFront(Slid(w, xs[..|xs| - 1]), xs[|xs| - 1])
  }

  /** The statistic after each observation of a block. */
  function Peaks(w: seq<int>, xs: seq<int>): (t: seq<int>)
    ensures |t| == |xs|
  {
    seq(|xs|, k requires 0 <= k < |xs| => PeakSum(Slid(w, xs[..k + 1]), |w|))
  }

  /** One more entry of the window: the running sum grows by it and the
   *  peak is kept unless the new sum is larger. */
  lemma PeakStep(w: seq<int>, p: nat)
    requires p < |w|
    ensures Sum(w[..p + 1]) == Sum(w[..p]) + w[p]
    ensures PeakSum(w, p + 1) == if Sum(w[..p + 1]) > PeakSum(w, p) then Sum(w[..p + 1]) else PeakSum(w, p)
  {
    assert w[..p + 1][..p] == w[..p];
  }

  /** The statistic of a window: the loops of update_statistic over the
   *  buffer, from the newest index to the end and then from the start. */
  method Peak(h: array<int>, newest: nat) returns (max: int)
    requires newest < h.Length
    ensures max == PeakSum(Ring(h[..], newest), h.Length)
  {
    ghost var w := Ring(h[..], newest);
    assert Sum(w[..0]) == 0;
    var sum;
    sum, max := Accumulate(h, newest, h.Length, w, 0, 0, 0);
    sum, max := Accumulate(h, 0, newest, w, h.Length - newest, sum, max);
  }

  /** One of the two loops: adds h[lo..hi), which sits at w[p0..], to the
   *  running sum and keeps the running peak. */
  method Accumulate(h: array<int>, lo: nat, hi: nat, ghost w: seq<int>, ghost p0: nat, sum0: int, max0: int)
    returns (sum: int, max: int)
    requires lo <= hi <= h.Length && p0 + (hi - lo) <= |w|
    requires forall i :: lo <= i < hi ==> h[i] == w[p0 + i - lo]
    requires sum0 == Sum(w[..p0]) && max0 == PeakSum(w, p0)
    ensures sum == Sum(w[..p0 + (hi - lo)]) && max == PeakSum(w, p0 + (hi - lo))
  {
    sum, max := sum0, max0;
    var i := lo;
    while i < hi
      invariant lo <= i <= hi
      invariant sum == Sum(w[..p0 + (i - lo)]) && max == PeakSum(w, p0 + (i - lo))
    {
      PeakStep(w, p0 + (i - lo));
      sum := sum + h[i];
      if sum > max {
        max := sum;
      }
      i := i + 1;
    }
  }

  /** `window_limited_cusum<T>`: the chart owns its stopping rule and the
   *  ring buffer of recent observations. */
  class WindowLimitedCusum {
    const rule: OneSidedStoppingTime
    const history: array<int>
    var newestIndex: nat
    /** Cached history.size() - 1. */
    const minusOne: nat

    predicate Valid()
      reads this, rule, history
    {
      && rule.Valid()
      && history.Length >= 1 && minusOne == history.Length - 1
      && newestIndex < history.Length
    }

    /** The recent observations, newest first. */
    function Window(): (w: seq<int>)
      requires Valid()
      reads this, rule, history
      ensures |w| == history.Length
    {
      Ring(history[..], newestIndex)
    }

    /** window_limited_cusum(window_size, thresholds): a zero history of the
     *  given length; a window of size 0 does not validate. */
    static method Create(windowSize: nat, thresholds: seq<int>) returns (r: Result<WindowLimitedCusum>)
      ensures r.Err? <==> windowSize == 0
      ensures r.Err? ==> r.failure == LogicError
      ensures r.Ok? ==> && fresh(r.value) && fresh(r.value.rule) && fresh(r.value.history)
                        && r.value.Valid() && r.value.rule.State() == Initial(thresholds)
                        && r.value.Window() == Zeros(windowSize)
    {
      if windowSize == 0 {
        return Err(LogicError);
      }
      var chart := new WindowLimitedCusum(windowSize, thresholds);
      r := Ok(chart);
    }

    constructor (windowSize: nat, thresholds: seq<int>)
      requires windowSize >= 1
      ensures fresh(rule) && fresh(history) && Valid()
      ensures rule.State() == Initial(thresholds) && Window() == Zeros(windowSize)
    {
      rule := new OneSidedStoppingTime(thresholds);
      history := new int[windowSize](i => 0);
      minusOne := windowSize - 1;
      newestIndex := 0;
      new;
      assert history[..] == Zeros(windowSize);
    }

    /** update_statistic(value): the value overwrites the oldest entry, which
     *  becomes the newest, and the statistic is the window's peak sum. */
    method UpdateStatistic(value: int) returns (s: int)
      requires Valid()
      modifies this, history
      ensures Valid() && newestIndex == (old(newestIndex) + history.Length - 1) % history.Length
      ensures Window() == DisplacedFront(old(Window()), value)
      ensures s == PeakSum(Window(), history.Length)
    {
      ghost var h := history[..];
      RingStep(h, newestIndex, value);
      newestIndex := (newestIndex + minusOne) % history.Length;
      history[newestIndex] := value;
      assert history[..] == h[newestIndex := value];
      s := Peak(history, newestIndex);
    }

    /** The block update: each value in turn, as update_statistic does it. */
    method UpdateStatistics(values: seq<int>) returns (result: seq<int>)
      requires Valid()
      modifies this, history
      ensures Valid() && Window() == Slid(old(Window()), values)
      ensures result == Peaks(old(Window()), values)
    {
      ghost var w0 := Window();
      result := values;
      var k := 0;
      while k < |values|
        invariant 0 <= k <= |values| && |result| == |values|
        invariant Valid() && Window() == Slid(w0, values[..k])
        invariant forall i :: 0 <= i < k ==> result[i] == PeakSum(Slid(w0, values[..i + 1]), |w0|)
      {
        assert values[..k + 1][..k] == values[..k];
        var s := UpdateStatistic(values[k]);
        result := result[k := s];
        k := k + 1;
      }
      assert values[..|values|] == values;
    }

    /** on_reset(): a zero history and the newest index back at 0. */
    method OnReset()
      requires Valid()
      modifies this, history
      ensures Valid() && newestIndex == 0 && Window() == Zeros(history.Length)
    {
      var i := 0;
      while i < history.Length
        invariant 0 <= i <= history.Length
        invariant forall j :: 0 <= j < i ==> history[j] == 0
      {
        history[i] := 0;
        i := i + 1;
      }
      newestIndex := 0;
      assert history[..] == Zeros(history.Length);
    }

    /** reset(): the rule's counters, then on_reset. */
    method Reset()
      requires Valid()
      modifies this, rule, history
      ensures Valid() && rule.State() == Cleared(old(rule.State()))
      ensures newestIndex == 0 && Window() == Zeros(history.Length)
    {
      rule.Reset();
      OnReset();
    }

    /** observe(value): the window moves only while the rule runs. */
    method Observe(value: int)
      requires Valid()
      modifies this, rule, history
      ensures Valid()
      ensures rule.State() == Observed(Reaches, old(rule.State()), PeakSum(DisplacedFront(old(Window()), value), history.Length))
      ensures Window() == if old(rule.State()).Stopped() then old(Window()) else DisplacedFront(old(Window()), value)
    {
      var s := 0;
      if rule.IsRunning() {
        s := UpdateStatistic(value);
      }
      rule.Observe(s);
    }

    /** observe(values): the whole block moves the window while the rule
     *  runs; the rule then checks the block. */
    method ObserveBlock(values: seq<int>)
      requires Valid()
      modifies this, rule, history
      ensures Valid()
      ensures rule.State() == ObservedBlock(Reaches, old(rule.State()), Peaks(old(Window()), values))
      ensures Window() == if old(rule.State()).Stopped() then old(Window()) else Slid(old(Window()), values)
    {
      var statistics := values;
      if rule.IsRunning() {
        statistics := UpdateStatistics(values);
      }
      rule.ObserveBlock(statistics);
    }
  }
}
