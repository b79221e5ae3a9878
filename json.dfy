/** An already-parsed JSON document, as Foundation's JSONSerialization hands
    it to the app, and the conditional casts (`as? Int`, `as? String`,
    `as? [String]`, `as? [String: Any]`, `as? [[String: Any]]`) the validator
    applies to it. Text parsing itself is not modelled. */
module Json {
  import opened Wrappers

  /** Swift's `Int` on the 64-bit platforms the app runs on. */
  const IntMin: int := -0x8000_0000_0000_0000
  const IntMax: int := 0x7FFF_FFFF_FFFF_FFFF

  predicate InIntRange(n: int) {
    IntMin <= n <= IntMax
  }

  /** A JSON value. Numbers written without a fraction or exponent are
      `JInt`; every other number is `JReal`. */
  datatype Json =
    | JNull
    | JBool(b: bool)
    | JInt(i: int)
    | JReal(r: real)
    | JString(s: string)
    | JArray(items: seq<Json>)
    | JObject(fields: map<string, Json>)

  /** What `JSONSerialization.jsonObject(with:)` produced: a value, or an
      error for text that is not JSON. */
  datatype Decoded = Malformed | Parsed(value: Json)

  /** `value as? Int`: only an integer that fits in a Swift `Int` casts. */
  function AsInt(v: Json): (r: Option<int>)
    ensures r.Some? <==> v.JInt? && InIntRange(v.i)
    ensures r.Some? ==> r.value == v.i
  {
    match v
    case JInt(n) => if InIntRange(n) then Some(n) else None
    case _ => None
  }

  /** `value as? String` */
  function AsString(v: Json): (r: Option<string>)
    ensures r.Some? <==> v.JString?
    ensures r.Some? ==> r.value == v.s
  {
    match v
    case JString(s) => Some(s)
    case _ => None
  }

  /** `value as? [String: Any]` */
  function AsObject(v: Json): (r: Option<map<string, Json>>)
    ensures r.Some? <==> v.JObject?
    ensures r.Some? ==> r.value == v.fields
  {
    match v
    case JObject(m) => Some(m)
    case _ => None
  }

  predicate AllStrings(items: seq<Json>) {
    forall k :: 0 <= k < |items| ==> items[k].JString?
  }

  predicate AllObjects(items: seq<Json>) {
    forall k :: 0 <= k < |items| ==> items[k].JObject?
  }

  /** `value as? [String]`: an array every element of which is a string. */
  function AsStringArray(v: Json): (r: Option<seq<string>>)
    ensures r.Some? <==> v.JArray? && AllStrings(v.items)
    ensures r.Some? ==> |r.value| == |v.items|
    ensures r.Some? ==> forall k :: 0 <= k < |r.value| ==> v.items[k] == JString(r.value[k])
  {
    match v
    case JArray(items) =>
      if AllStrings(items) then Some(seq(|items|, k requires 0 <= k < |items| => items[k].s))
      else None
    case _ => None
  }

  /** `value as? [[String: Any]]`: an array every element of which is an
      object. */
  function AsObjectArray(v: Json): (r: Option<seq<map<string, Json>>>)
    ensures r.Some? <==> v.JArray? && AllObjects(v.items)
    ensures r.Some? ==> |r.value| == |v.items|
    ensures r.Some? ==> forall k :: 0 <= k < |r.value| ==> v.items[k] == JObject(r.value[k])
  {
    match v
    case JArray(items) =>
      if AllObjects(items) then Some(seq(|items|, k requires 0 <= k < |items| => items[k].fields))
      else None
    case _ => None
  }

  /** `dict[key] as? T` where a missing key gives nil: these look a key up
      and cast what is there. */
  function IntField(m: map<string, Json>, key: string): (r: Option<int>)
    ensures r.Some? <==> key in m && m[key].JInt? && InIntRange(m[key].i)
    ensures r.Some? ==> r.value == m[key].i
  {
    if key in m then AsInt(m[key]) else None
  }

  function StringField(m: map<string, Json>, key: string): (r: Option<string>)
    ensures r.Some? <==> key in m && m[key].JString?
    ensures r.Some? ==> r.value == m[key].s
  {
    if key in m then AsString(m[key]) else None
  }
}
