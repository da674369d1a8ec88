/** A closed interval of integers (`algebra::interval`): two endpoints, the
 *  left one never exceeding the right one, written to JSON as
 *  {"from": a, "to": b} and read back from that form or from a two-element
 *  array [a, b]. */
module Intervals {
  import opened Errors
  import opened LibraryJson

  /** to_json: the endpoints under "from" and "to", as signed integers. */
  function IntervalJson(from: int, to: int): Json
  {
    Object(map["from" := SignedInt(from), "to" := SignedInt(to)])
  }

  /** The endpoints the serializer's try_get accepts, or nothing when it
   *  returns false: an array must hold exactly two integers, any other value
   *  must carry integers under "from" and "to", and the left endpoint may not
   *  exceed the right one. */
  function Parsed(j: Json): Option<(int, int)>
  {
    if j.Array? then
      match GetInts(j)
      case None => None
      case Some(v) => if |v| != 2 || v[0] > v[1] then None else Some((v[0], v[1]))
    else
      match (RequiredInt(j, "from"), RequiredInt(j, "to"))
      case (Some(a), Some(b)) => if a > b then None else Some((a, b))
      case _ => None
  }

  /** The endpoints try_get leaves in its target, which started out as
   *  (from, to): it writes each endpoint as soon as it has read it, before it
   *  compares the two. */
  function Written(j: Json, from: int, to: int): (int, int)
  {
    if j.Array? then
      match GetInts(j)
      case Some(v) => if |v| == 2 then (v[0], v[1]) else (from, to)
      case None => (from, to)
    else
      match RequiredInt(j, "from")
      case None => (from, to)
      case Some(a) =>
        match RequiredInt(j, "to")
        case None => (a, to)
        case Some(b) => (a, b)
  }

  /** Whatever is accepted is an interval. */
  lemma ParsedOrdered(j: Json)
    ensures Parsed(j).Some? ==> Parsed(j).value.0 <= Parsed(j).value.1
  {
  }

  /** On success the written endpoints are the accepted ones, whatever the
   *  target held before. */
  lemma WrittenOnSuccess(j: Json, from: int, to: int)
    requires Parsed(j).Some?
    ensures Written(j, from, to) == Parsed(j).value
  {
  }

  /** Writing an interval and reading it back gives the same endpoints; a
   *  pair with the left endpoint larger is refused. */
  lemma RoundTrip(from: int, to: int)
    ensures Parsed(IntervalJson(from, to)) == if from <= to then Some((from, to)) else None
  {
    assert RequiredInt(IntervalJson(from, to), "from") == Some(from);
    assert RequiredInt(IntervalJson(from, to), "to") == Some(to);
  }

  /** The array form: [a, b] reads as the interval from a to b; an array of
   *  any other length is refused. */
  lemma ArrayForm(items: seq<Json>, a: int, b: int)
    ensures Parsed(Array([SignedInt(a), SignedInt(b)])) == if a <= b then Some((a, b)) else None
    ensures |items| != 2 ==> Parsed(Array(items)) == None
  {
    IntPair(SignedInt(a), SignedInt(b));
  }

  /** The array [2, 1] is refused, yet try_get has already written both
   *  endpoints: the target is left holding 2 and 1. */
  lemma StaleEndpoints()
    ensures Parsed(Array([UnsignedInt(2), UnsignedInt(1)])) == None
    ensures Written(Array([UnsignedInt(2), UnsignedInt(1)]), 0, 0) == (2, 1)
  {
    IntPair(UnsignedInt(2), UnsignedInt(1));
  }

  /** Equal intervals hash alike. */
  lemma HashConsistent(x: Interval, y: Interval, valueHash: int -> bv64)
    requires x.Equals(y)
    ensures x.Hash(valueHash) == y.Hash(valueHash)
  {
  }

  class Interval {
    var from: int
    var to: int

    ghost predicate Valid()
      reads this
    {
      from <= to
    }

    /** interval(): both endpoints value-initialised. */
    constructor ()
      ensures from == 0 && to == 0 && Valid()
    {
      from := 0;
      to := 0;
    }

    /** interval(from, to): a left endpoint beyond the right one throws
     *  std::logic_error. */
    static method Create(from: int, to: int) returns (r: Result<Interval>)
      ensures r.Err? <==> from > to
      ensures r.Err? ==> r.failure == LogicError
      ensures r.Ok? ==> fresh(r.value) && r.value.from == from && r.value.to == to && r.value.Valid()
    {
      if from > to {
        return Err(LogicError);
      }
      var x := new Interval();
      x.from, x.to := from, to;
      r := Ok(x);
    }

    function ToJson(): (j: Json)
      reads this
      ensures Parsed(j) == if from <= to then Some((from, to)) else None
    {
      RoundTrip(from, to);
      IntervalJson(from, to)
    }

    /** operator ==: equal exactly when the JSON forms are equal. */
    function Equals(other: Interval): (b: bool)
      reads this, other
      ensures b <==> ToJson() == other.ToJson()
    {
      if from == other.from && to == other.to then true
      else
        assert ToJson().members["from"] != other.ToJson().members["from"]
            || ToJson().members["to"] != other.ToJson().members["to"];
        false
    }

    /** operator !=. */
    function NotEquals(other: Interval): (b: bool)
      reads this, other
      ensures b <==> ToJson() != other.ToJson()
    {
      !Equals(other)
    }

    /** std::hash<interval>: the hash of the left endpoint shifted by four
     *  bits, exclusive-or the hash of the right one. */
    function Hash(valueHash: int -> bv64): bv64
      reads this
    {
      (valueHash(from) << 4) ^ valueHash(to)
    }

    /** noexcept_json_serializer<interval>::try_get as written: it returns
     *  whether j is accepted, and writes the endpoints it reads into this
     *  interval even when it goes on to return false. */
    method TryGetAsWritten(j: Json) returns (ok: bool)
      modifies this
      ensures ok <==> Parsed(j).Some?
      ensures (from, to) == Written(j, old(from), old(to))
    {
      if j.Array? {
        var pair := GetInts(j);
        if pair.None? || |pair.value| != 2 {
          return false;
        }
        from := pair.value[0];
        to := pair.value[|pair.value| - 1];
      } else {
        var a := RequiredInt(j, "from");
        if a.None? {
          return false;
        }
        from := a.value;
        var b := RequiredInt(j, "to");
        if b.None? {
          return false;
        }
        to := b.value;
      }
      ok := from <= to;
    }

    /** try_get reading into locals and assigning only what it accepts: a
     *  refused value leaves the interval as it was, so it stays valid. */
    method TryGet(j: Json) returns (ok: bool)
      requires Valid()
      modifies this
      ensures Valid()
      ensures ok <==> Parsed(j).Some?
      ensures ok ==> (from, to) == Parsed(j).value
      ensures !ok ==> from == old(from) && to == old(to)
    {
      var a: int, b: int;
      if j.Array? {
        var pair := GetInts(j);
        if pair.None? || |pair.value| != 2 {
          return false;
        }
        a, b := pair.value[0], pair.value[|pair.value| - 1];
      } else {
        var x := RequiredInt(j, "from");
        if x.None? {
          return false;
        }
        var y := RequiredInt(j, "to");
        if y.None? {
          return false;
        }
        a, b := x.value, y.value;
      }
      if a > b {
        return false;
      }
      from, to := a, b;
      ok := true;
    }
  }
}
