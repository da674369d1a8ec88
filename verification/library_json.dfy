/** The few queries of `noexcept_json` that the library's own serializers
 *  (`noexcept_json_serializer<...>::try_get`) make on an nlohmann::json
 *  value. A value keeps nlohmann's distinction between a signed integer
 *  (`number_integer`) and an unsigned one (`number_unsigned`): text parsing
 *  stores a negative number as the former and any other integer as the
 *  latter, while converting a C++ value keeps the signedness of its type.
 *  Floating-point numbers carry no value here. */
module LibraryJson {
  import opened Errors

  datatype Json =
    | Null
    | Boolean(b: bool)
    | SignedInt(i: int)
    | UnsignedInt(n: nat)
    | Float
    | Text(s: string)
    | Array(items: seq<Json>)
    | Object(members: map<string, Json>)
    | Discarded

  /** try_find(j, key): the member under key; nothing for a discarded value,
   *  a value that is not an object, or a missing key. */
  function Find(j: Json, key: string): (r: Option<Json>)
    ensures r.Some? <==> j.Object? && key in j.members
    ensures r.Some? ==> r.value == j.members[key]
  {
    if j.Object? && key in j.members then Some(j.members[key]) else None
  }

  /** j.contains(key). */
  predicate Contains(j: Json, key: string)
  {
    Find(j, key).Some?
  }

  /** try_get into a signed integer type: either kind of integer is read. */
  function GetInt(j: Json): (r: Option<int>)
    ensures r.Some? <==> j.SignedInt? || j.UnsignedInt?
    ensures j.SignedInt? ==> r == Some(j.i)
    ensures j.UnsignedInt? ==> r == Some(j.n)
  {
    match j
    case SignedInt(i) => Some(i)
    case UnsignedInt(n) => Some(n)
    case _ => None
  }

  /** try_get into std::size_t: an unsigned type refuses `number_integer`. */
  function GetSize(j: Json): (r: Option<nat>)
    ensures r.Some? <==> j.UnsignedInt?
    ensures r.Some? ==> r.value == j.n
  {
    if j.UnsignedInt? then Some(j.n) else None
  }

  /** try_get into std::string. */
  function GetString(j: Json): (r: Option<string>)
    ensures r.Some? <==> j.Text?
    ensures r.Some? ==> r.value == j.s
  {
    if j.Text? then Some(j.s) else None
  }

  /** try_get into std::vector of a signed integer type: an array each of
   *  whose items is an integer. */
  function GetInts(j: Json): (r: Option<seq<int>>)
    ensures r.Some? <==> j.Array? && forall k :: 0 <= k < |j.items| ==> GetInt(j.items[k]).Some?
    ensures r.Some? ==> |r.value| == |j.items| && forall k :: 0 <= k < |r.value| ==> Some(r.value[k]) == GetInt(j.items[k])
  {
    if j.Array? then IntItems(j.items) else None
  }

  function IntItems(items: seq<Json>): (r: Option<seq<int>>)
    ensures r.Some? <==> forall k :: 0 <= k < |items| ==> GetInt(items[k]).Some?
    ensures r.Some? ==> |r.value| == |items| && forall k :: 0 <= k < |r.value| ==> Some(r.value[k]) == GetInt(items[k])
  {
    if items == [] then Some([])
    else
      var front := IntItems(items[..|items| - 1]);
      var last := GetInt(items[|items| - 1]);
      if front.Some? && last.Some? then Some(front.value + [last.value]) else None
  }

  /** A two-item array of integers reads as the pair of them. */
  lemma IntPair(x: Json, y: Json)
    requires GetInt(x).Some? && GetInt(y).Some?
    ensures GetInts(Array([x, y])) == Some([GetInt(x).value, GetInt(y).value])
  {
    assert [x][..0] == [];
    assert IntItems([]) == Some([]);
    assert IntItems([x]) == Some([] + [GetInt(x).value]);
    assert [] + [GetInt(x).value] == [GetInt(x).value];
    var xy := [x, y];
    assert xy[..|xy| - 1] == [x] && xy[|xy| - 1] == y;
    assert IntItems(xy[..|xy| - 1]) == Some([GetInt(x).value]);
    assert GetInt(xy[|xy| - 1]) == Some(GetInt(y).value);
    assert IntItems(xy) == Some([GetInt(x).value] + [GetInt(y).value]);
    assert [GetInt(x).value] + [GetInt(y).value] == [GetInt(x).value, GetInt(y).value];
  }

  /** required(j, key, x) for a signed integer x. */
  function RequiredInt(j: Json, key: string): (r: Option<int>)
    ensures r.Some? ==> Find(j, key).Some? && GetInt(Find(j, key).value) == r
    ensures Find(j, key).Some? && GetInt(Find(j, key).value).Some? ==> r.Some?
  {
    match Find(j, key)
    case None => None
    case Some(v) => GetInt(v)
  }

  /** required(j, key, x) for a std::size_t x. */
  function RequiredSize(j: Json, key: string): (r: Option<nat>)
    ensures r.Some? ==> Find(j, key).Some? && GetSize(Find(j, key).value) == r
    ensures Find(j, key).Some? && GetSize(Find(j, key).value).Some? ==> r.Some?
  {
    match Find(j, key)
    case None => None
    case Some(v) => GetSize(v)
  }

  /** required(j, key, x) for a std::string x. */
  function RequiredString(j: Json, key: string): (r: Option<string>)
    ensures r.Some? ==> Find(j, key).Some? && GetString(Find(j, key).value) == r
    ensures Find(j, key).Some? && GetString(Find(j, key).value).Some? ==> r.Some?
  {
    match Find(j, key)
    case None => None
    case Some(v) => GetString(v)
  }
}
