/** JSON values as Newtonsoft's `JToken` tree holds them, and the explicit
    conversions the loaders apply to them. An object is a map from key to
    value; key order is not modelled. */
module Json {
  import opened Base
  import opened Text

  datatype Json =
    | JNull
    | JBool(b: bool)
    | JInt(i: int)
    | JNum(r: real)
    | JStr(s: string)
    | JArr(items: seq<Json>)
    | JObj(fields: map<string, Json>)

  type JObject = map<string, Json>

  /** `obj[key] as JArray`: the items when the key holds an array. */
  function ArrayField(obj: JObject, key: string): Option<seq<Json>>
  {
    if key in obj && obj[key].JArr? then Some(obj[key].items) else None
  }

  /** The explicit `(int)` conversion of a token; `None` where Newtonsoft
      throws (out of range, null, a container, a string that is not an
      integer). Floats round half to even, as `Convert.ToInt32` does. */
  function CastInt(j: Json): (r: Option<int>)
    ensures r.Some? ==> IsInt32(r.value)
  {
    match j
    case JInt(i) => if IsInt32(i) then Some(i) else None
    case JNum(x) => var n := RoundHalfEven(x); if IsInt32(n) then Some(n) else None
    case JBool(b) => Some(if b then 1 else 0)
    case JStr(s) => ParseInt32(s)
    case _ => None
  }

  /** The explicit `(float)` conversion of a token; `None` where Newtonsoft
      throws. */
  function CastReal(j: Json): Option<real>
  {
    match j
    case JInt(i) => Some(i as real)
    case JNum(x) => Some(x)
    case JBool(b) => Some(if b then 1.0 else 0.0)
    case JStr(s) => ParseReal(s)
    case _ => None
  }

  /** `items.Select(x => (int)x).ToArray()`: `None` as soon as one item
      fails to convert. */
  function CastInts(items: seq<Json>): (r: Option<seq<int>>)
    ensures r.Some? ==> |r.value| == |items|
    ensures r.Some? <==> forall k :: 0 <= k < |items| ==> CastInt(items[k]).Some?
    ensures r.Some? ==> forall k :: 0 <= k < |items| ==> r.value[k] == CastInt(items[k]).value
  {
    if items == [] then Some([])
    else
      var head := CastInt(items[0]);
      var tail := CastInts(items[1..]);
      if head.None? || tail.None? then
        assert head.None? ==> !CastInt(items[0]).Some?;
        None
      else Some([head.value] + tail.value)
  }

  /** `new JArray(v.x, v.y, v.z)`. */
  function V3(v: Vec3): Json { JArr([JNum(v.x), JNum(v.y), JNum(v.z)]) }
}
