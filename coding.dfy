/** Foundation values the models store (`UUID`, `Date`) and an abstract
    picture of what Swift's `Codable` machinery writes: a keyed container is
    a map from coding-key strings to wire values. The concrete JSON text the
    encoder produces is not modelled. */
module Coding {
  import opened Wrappers

  /** A 128-bit UUID. */
  newtype Uuid = x: int | 0 <= x < 0x1_0000_0000_0000_0000_0000_0000_0000_0000

  /** A `Date`: seconds since Foundation's reference date. */
  datatype Date = Date(secondsSinceReference: real)

  /** A value as an encoder container holds it. */
  datatype Wire =
    | WUuid(u: Uuid)
    | WInt(i: int)
    | WReal(r: real)
    | WString(s: string)
    | WDate(d: Date)
    | WList(items: seq<Wire>)
    | WKeyed(entries: map<string, Wire>)

  /** The two ways `KeyedDecodingContainer.decode` fails here. */
  datatype DecodeError = KeyNotFound(key: string) | TypeMismatch(key: string)

  function UuidOf(w: Wire): Option<Uuid> {
    if w.WUuid? then Some(w.u) else None
  }

  function IntOf(w: Wire): Option<int> {
    if w.WInt? then Some(w.i) else None
  }

  function RealOf(w: Wire): Option<real> {
    if w.WReal? then Some(w.r) else None
  }

  function StringOf(w: Wire): Option<string> {
    if w.WString? then Some(w.s) else None
  }

  function DateOf(w: Wire): Option<Date> {
    if w.WDate? then Some(w.d) else None
  }

  /** `[String]` on the wire. */
  function StringList(ss: seq<string>): (w: Wire)
    ensures w.WList? && |w.items| == |ss|
  {
    WList(seq(|ss|, k requires 0 <= k < |ss| => WString(ss[k])))
  }

  function StringsOf(w: Wire): (r: Option<seq<string>>)
    ensures r.Some? ==> StringList(r.value) == w
  {
    if w.WList? && forall k :: 0 <= k < |w.items| ==> w.items[k].WString? then
      Some(seq(|w.items|, k requires 0 <= k < |w.items| => w.items[k].s))
    else None
  }

  /** Decoding a `[String]` gives back exactly the list that was encoded. */
  lemma StringListRoundTrip(ss: seq<string>)
    ensures StringsOf(StringList(ss)) == Some(ss)
  {
    var w := StringList(ss);
    assert forall k :: 0 <= k < |w.items| ==> w.items[k] == WString(ss[k]);
    var back := seq(|w.items|, k requires 0 <= k < |w.items| => w.items[k].s);
    assert back == ss;
  }

  /** `container.decode(T.self, forKey: key)`: a missing key and a value of
      another type both throw. */
  function Required<T>(c: map<string, Wire>, key: string, cast: Wire -> Option<T>): (r: Result<T, DecodeError>)
    ensures key !in c ==> r == Err(KeyNotFound(key))
    ensures key in c && cast(c[key]).Some? ==> r == Ok(cast(c[key]).value)
    ensures key in c && cast(c[key]).None? ==> r == Err(TypeMismatch(key))
  {
    if key !in c then Err(KeyNotFound(key))
    else match cast(c[key])
      case Some(v) => Ok(v)
      case None => Err(TypeMismatch(key))
  }

  /** `container.decodeIfPresent(T.self, forKey: key)`: a missing key gives
      nil, a value of another type throws. */
  function Optional<T>(c: map<string, Wire>, key: string, cast: Wire -> Option<T>): (r: Result<Option<T>, DecodeError>)
    ensures key !in c ==> r == Ok(None)
    ensures key in c && cast(c[key]).Some? ==> r == Ok(Some(cast(c[key]).value))
    ensures key in c && cast(c[key]).None? ==> r == Err(TypeMismatch(key))
  {
    if key !in c then Ok(None)
    else match cast(c[key])
      case Some(v) => Ok(Some(v))
      case None => Err(TypeMismatch(key))
  }
}
