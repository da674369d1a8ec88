/** A process of independent observations with a transient change
 *  (`sequential::iid_transient_process`): the observations with index from
 *  the first to the last under-change index, both included, are drawn from
 *  the under-change distribution, every other one from the no-change
 *  distribution. The distributions, their samplers and engines are floating
 *  point and randomness; what is kept is which of the two samplers draws each
 *  observation. `count` is the number of observations generated so far,
 *  which the derived process reads from its base (see DiscreteProcesses). */
module TransientProcesses {
  import opened Errors
  import opened LibraryJson

  /** The sampler an observation is drawn from. */
  datatype Sampler = NoChange | UnderChange

  /** The sampler on_next() uses for the observation with this index. */
  function SamplerAt(first: nat, last: nat, index: nat): Sampler
  {
    if first <= index <= last then UnderChange else NoChange
  }

  /** The pre-change, under-change and post-change sizes of a block. */
  datatype Split = Split(pre: nat, under: nat, post: nat) {
    /** Position i of the block falls in the under-change part. */
    predicate Middle(i: nat) {
      pre <= i < pre + under
    }
  }

  /** The split on_next(values) computes for a block of `length` observations
   *  starting at index `count` that overlaps the change: with first <= last
   *  none of the unsigned subtractions wraps, the three parts fill the block,
   *  and the middle part holds exactly the indices under change. */
  function BlockSplit(first: nat, last: nat, count: nat, length: nat): (s: Split)
    requires first <= last && count <= last && first < count + length
    ensures s.pre + s.under + s.post == length
    ensures forall i :: 0 <= i < length ==> (s.Middle(i) <==> SamplerAt(first, last, count + i) == UnderChange)
  {
    var pre := if first > count then first - count else 0;
    var post := if count + length > last + 1 then count + length - last - 1 else 0;
    Split(pre, length - pre - post, post)
  }

  /** The parameters a process is compared, hashed and serialised by. */
  datatype Parameters<D> = Parameters(noChange: D, underChange: D, first: nat, last: nat)

  const Name := "iid transient"

  /** to_json: the type name, the two distributions (written by distJson),
   *  the first under-change index and the change duration. */
  function ParametersJson<D>(p: Parameters<D>, distJson: D -> Json): Json
    requires p.first <= p.last
  {
    Object(map[
      "type" := Text(Name),
      "no-change distribution" := distJson(p.noChange),
      "under-change distribution" := distJson(p.underChange),
      "first under-change index" := UnsignedInt(p.first),
      "change duration" := UnsignedInt(p.last - p.first + 1)])
  }

  /** required(j, key, x) for a distribution x, which readDist reads. */
  function RequiredDistribution<D>(j: Json, key: string, readDist: Json -> Option<D>): Option<D>
  {
    match Find(j, key)
    case None => None
    case Some(v) => if v.Discarded? then None else readDist(v)
  }

  /** The parameters the serializer's try_get accepts, or nothing when it
   *  returns false. The change is given either by its duration or by its
   *  last index, never both; a duration of 0, a last index before the first
   *  and a type name other than "iid transient" are refused. */
  function Parsed<D>(j: Json, readDist: Json -> Option<D>): Option<Parameters<D>>
  {
    var name := RequiredString(j, "type");
    var a := RequiredDistribution(j, "no-change distribution", readDist);
    var b := RequiredDistribution(j, "under-change distribution", readDist);
    var first := RequiredSize(j, "first under-change index");
    if name.None? || a.None? || b.None? || first.None? then None
    else
      var hasDuration := Contains(j, "change duration");
      var hasLast := Contains(j, "last under-change index");
      if hasDuration == hasLast then None
      else if hasDuration then
        var d := RequiredSize(j, "change duration");
        if d.None? || d.value == 0 || name.value != Name then None
        else Some(Parameters(a.value, b.value, first.value, first.value + d.value - 1))
      else
        var last := RequiredSize(j, "last under-change index");
        if last.None? || first.value > last.value || name.value != Name then None
        else Some(Parameters(a.value, b.value, first.value, last.value))
  }

  /** The parameters try_get leaves in its target, which held p: every field
   *  is written as soon as it has been read, before the checks that follow. */
  function Written<D>(j: Json, readDist: Json -> Option<D>, p: Parameters<D>): Parameters<D>
  {
    if RequiredString(j, "type").None? then p
    else
      match RequiredDistribution(j, "no-change distribution", readDist)
      case None => p
      case Some(a) =>
        match RequiredDistribution(j, "under-change distribution", readDist)
        case None => p.(noChange := a)
        case Some(b) =>
          match RequiredSize(j, "first under-change index")
          case None => p.(noChange := a, underChange := b)
          case Some(first) =>
            var q := p.(noChange := a, underChange := b, first := first);
            var hasDuration := Contains(j, "change duration");
            var hasLast := Contains(j, "last under-change index");
            if hasDuration == hasLast then q
            else if hasDuration then
              match RequiredSize(j, "change duration")
              case None => q
              case Some(d) => if d == 0 then q else q.(last := first + d - 1)
            else
              match RequiredSize(j, "last under-change index")
              case None => q
              case Some(last) => q.(last := last)
  }

  /** Whatever is accepted describes a change of at least one observation. */
  lemma ParsedOrdered<D>(j: Json, readDist: Json -> Option<D>)
    ensures Parsed(j, readDist).Some? ==> Parsed(j, readDist).value.first <= Parsed(j, readDist).value.last
  {
  }

  /** Exactly one of "change duration" and "last under-change index" is
   *  present in anything accepted, and a duration of 0 is refused. */
  lemma ParsedExactlyOne<D>(j: Json, readDist: Json -> Option<D>)
    ensures Parsed(j, readDist).Some? ==> Contains(j, "change duration") != Contains(j, "last under-change index")
    ensures Find(j, "change duration") == Some(UnsignedInt(0)) ==> Parsed(j, readDist).None?
  {
  }

  /** On success the written parameters are the accepted ones. */
  lemma WrittenOnSuccess<D>(j: Json, readDist: Json -> Option<D>, p: Parameters<D>)
    requires Parsed(j, readDist).Some?
    ensures Written(j, readDist, p) == Parsed(j, readDist).value
  {
  }

  /** Writing the parameters and reading them back gives them again, when
   *  the distributions themselves survive the trip. */
  lemma RoundTrip<D>(p: Parameters<D>, distJson: D -> Json, readDist: Json -> Option<D>)
    requires p.first <= p.last
    requires !distJson(p.noChange).Discarded? && readDist(distJson(p.noChange)) == Some(p.noChange)
    requires !distJson(p.underChange).Discarded? && readDist(distJson(p.underChange)) == Some(p.underChange)
    ensures Parsed(ParametersJson(p, distJson), readDist) == Some(p)
  {
    var j := ParametersJson(p, distJson);
    assert RequiredString(j, "type") == Some(Name);
    assert RequiredSize(j, "first under-change index") == Some(p.first);
    assert RequiredSize(j, "change duration") == Some(p.last - p.first + 1);
    assert !Contains(j, "last under-change index");
  }

  /** A last index before the first is refused, yet try_get has already
   *  written both indices: a default process (first and last index 0) is
   *  left with first index 7 and last index 3. */
  lemma StaleIndices()
    ensures
      var j := Object(map[
        "type" := Text(Name),
        "no-change distribution" := Null,
        "under-change distribution" := Null,
        "first under-change index" := UnsignedInt(7),
        "last under-change index" := UnsignedInt(3)]);
      var readDist := (v: Json) => Some(0);
      && Parsed(j, readDist) == None
      && Written(j, readDist, Parameters(0, 0, 0, 0)) == Parameters(0, 0, 7, 3)
  {
  }

  class TransientProcess<D(==)> {
    var noChange: D
    var underChange: D
    var first: nat
    var last: nat

    ghost predicate Valid()
      reads this
    {
      first <= last
    }

    function Params(): Parameters<D>
      reads this
    {
      Parameters(noChange, underChange, first, last)
    }

    /** iid_transient_process(): default distributions (given here), change
     *  at index 0 lasting one observation. */
    constructor Default(noChange: D, underChange: D)
      ensures Params() == Parameters(noChange, underChange, 0, 0) && Valid()
    {
      this.noChange := noChange;
      this.underChange := underChange;
      first := 0;
      last := 0;
    }

    /** iid_transient_process(no_change, under_change, first, duration): a
     *  duration of 0 throws std::logic_error; otherwise the change covers
     *  `duration` observations from index `first`. */
    static method Create(noChange: D, underChange: D, first: nat, duration: nat) returns (r: Result<TransientProcess<D>>)
      ensures r.Err? <==> duration == 0
      ensures r.Err? ==> r.failure == LogicError
      ensures r.Ok? ==> fresh(r.value) && r.value.Valid()
      ensures r.Ok? ==> r.value.Params() == Parameters(noChange, underChange, first, first + duration - 1)
      ensures r.Ok? ==> r.value.ChangeDuration() == duration
    {
      if duration == 0 {
        return Err(LogicError);
      }
      var x := new TransientProcess.Default(noChange, underChange);
      x.first, x.last := first, first + duration - 1;
      r := Ok(x);
    }

    /** change_duration(): the number of observations under change. */
    function ChangeDuration(): (d: nat)
      requires Valid()
      reads this
      ensures d >= 1 && first + d - 1 == last
    {
      last - first + 1
    }

    /** operator ==: the parameters agree. */
    function Equals(other: TransientProcess<D>): (b: bool)
      reads this, other
      ensures b <==> Params() == other.Params()
    {
      noChange == other.noChange && underChange == other.underChange
        && first == other.first && last == other.last
    }

    /** on_next(): the sampler for the observation with index `count`. */
    method OnNext(count: nat) returns (s: Sampler)
      ensures s == UnderChange <==> first <= count <= last
    {
      s := if count >= first && count <= last then UnderChange else NoChange;
    }

    /** on_next(values): the block starting at index `count` is drawn exactly
     *  as the same number of single on_next() calls would draw it. */
    method OnNextBlock(count: nat, values: array<Sampler>)
      requires Valid()
      modifies values
      ensures forall i :: 0 <= i < values.Length ==> values[i] == SamplerAt(first, last, count + i)
    {
      var length := values.Length;
      if count > last {
        FillRange(values, 0, length, NoChange);
      } else if count + length <= first {
        FillRange(values, 0, length, NoChange);
      } else {
        var s := BlockSplit(first, last, count, length);
        var preUnder := s.pre + s.under;
        FillRange(values, 0, s.pre, NoChange);
        FillRange(values, s.pre, preUnder, UnderChange);
        FillRange(values, preUnder, length, NoChange);
      }
    }

    function ToJson(distJson: D -> Json): (j: Json)
      requires Valid()
      reads this
    {
      ParametersJson(Params(), distJson)
    }

    /** The serializer's try_get as written: it returns whether j is accepted
     *  and writes every field it reads, even when it goes on to refuse j. */
    method TryGetAsWritten(j: Json, readDist: Json -> Option<D>) returns (ok: bool)
      modifies this
      ensures ok <==> Parsed(j, readDist).Some?
      ensures Params() == Written(j, readDist, old(Params()))
    {
      var name := RequiredString(j, "type");
      if name.None? {
        return false;
      }
      var a := RequiredDistribution(j, "no-change distribution", readDist);
      if a.None? {
        return false;
      }
      noChange := a.value;
      var b := RequiredDistribution(j, "under-change distribution", readDist);
      if b.None? {
        return false;
      }
      underChange := b.value;
      var f := RequiredSize(j, "first under-change index");
      if f.None? {
        return false;
      }
      first := f.value;
      var hasDuration := Contains(j, "change duration");
      var hasLast := Contains(j, "last under-change index");
      if hasDuration && hasLast {
        return false;
      }
      if !hasDuration && !hasLast {
        return false;
      }
      if hasDuration {
        var d := RequiredSize(j, "change duration");
        if d.None? || d.value == 0 {
          return false;
        }
        last := first + d.value - 1;
      }
      if hasLast {
        var l := RequiredSize(j, "last under-change index");
        if l.None? {
          return false;
        }
        last := l.value;
        if first > last {
          return false;
        }
      }
      ok := name.value == Name;
    }

    /** try_get reading into locals and assigning only what it accepts: a
     *  refused value leaves the process as it was, so it stays valid. */
    method TryGet(j: Json, readDist: Json -> Option<D>) returns (ok: bool)
      requires Valid()
      modifies this
      ensures Valid()
      ensures ok <==> Parsed(j, readDist).Some?
      ensures ok ==> Params() == Parsed(j, readDist).value
      ensures !ok ==> Params() == old(Params())
    {
      var p := Parsed(j, readDist);
      if p.None? {
        return false;
      }
      ParsedOrdered(j, readDist);
      noChange, underChange, first, last := p.value.noChange, p.value.underChange, p.value.first, p.value.last;
      ok := true;
    }
  }

  /** Processes with equal parameters draw every observation from the same
   *  sampler. */
  lemma EqualSchedules<D>(x: TransientProcess<D>, y: TransientProcess<D>, index: nat)
    requires x.Equals(y)
    ensures SamplerAt(x.first, x.last, index) == SamplerAt(y.first, y.last, index)
  {
  }

  /** Sets values[from..to] to s and leaves the rest alone. */
  method FillRange(values: array<Sampler>, from: nat, to: nat, s: Sampler)
    requires from <= to <= values.Length
    modifies values
    ensures forall i :: from <= i < to ==> values[i] == s
    ensures forall i :: 0 <= i < values.Length && !(from <= i < to) ==> values[i] == old(values[i])
  {
    for i := from to to
      invariant forall k :: from <= k < i ==> values[k] == s
      invariant forall k :: 0 <= k < values.Length && !(from <= k < i) ==> values[k] == old(values[k])
    {
      values[i] := s;
    }
  }
}
