/** A JSON value, as far as the library's Codable conformances look into it.  Numbers
    and booleans are never read by the core and are lumped together as `JOther`. */
module Json {
  import opened Wrappers
  import opened Errors

  datatype JSON =
    | JNull
    | JString(str: string)
    | JArray(items: seq<JSON>)
    | JObject(fields: map<string, JSON>)
    | JOther

  /** The JSON array that encodes a `[String]`. */
  function StringsOf(xs: seq<string>): (r: seq<JSON>)
    ensures |r| == |xs|
    ensures forall i :: 0 <= i < |xs| ==> r[i] == JString(xs[i])
  {
    seq(|xs|, i requires 0 <= i < |xs| => JString(xs[i]))
  }

  /** The JSON object that encodes a `[String: String]`. */
  function StringMapOf(m: map<string, string>): (r: map<string, JSON>)
    ensures r.Keys == m.Keys
    ensures forall k :: k in m ==> r[k] == JString(m[k])
  {
    map k | k in m :: JString(m[k])
  }

  predicate AllStrings(items: seq<JSON>) {
    forall i :: 0 <= i < |items| ==> items[i].JString?
  }

  predicate AllStringValues(fields: map<string, JSON>) {
    forall k :: k in fields ==> fields[k].JString?
  }

  /** `decode(String.self)` on a single-value container. */
  function AsString(j: JSON): (r: Option<string>)
    ensures r.Some? <==> j.JString?
    ensures r.Some? ==> j == JString(r.value)
  {
    if j.JString? then Some(j.str) else None
  }

  /** `decode([String].self)`: succeeds exactly on an array of strings. */
  function AsStringArray(j: JSON): (r: Option<seq<string>>)
    ensures r.Some? <==> j.JArray? && AllStrings(j.items)
    ensures r.Some? ==> j == JArray(StringsOf(r.value))
  {
    if j.JArray? && AllStrings(j.items) then
      var items := j.items;
      var xs := seq(|items|, i requires 0 <= i < |items| && items[i].JString? => items[i].str);
      assert StringsOf(xs) == items;
      Some(xs)
    else
      None
  }

  /** `decode([String: String].self)`: succeeds exactly on an object whose values are strings. */
  function AsStringMap(j: JSON): (r: Option<map<string, string>>)
    ensures r.Some? <==> j.JObject? && AllStringValues(j.fields)
    ensures r.Some? ==> j == JObject(StringMapOf(r.value))
  {
    if j.JObject? && AllStringValues(j.fields) then
      var fields := j.fields;
      var m := map k | k in fields :: fields[k].str;
      assert StringMapOf(m) == fields;
      Some(m)
    else
      None
  }

  /** `decode(String.self, forKey:)` on a keyed container: a missing key, a null and a
      value of another type are three different errors. */
  function RequiredString(fields: map<string, JSON>, key: string): (r: Result<string, Error>)
    ensures r.Success? <==> key in fields && fields[key].JString?
    ensures r.Success? ==> fields[key] == JString(r.value)
    ensures r.Failure? && key !in fields ==> r.error == KeyNotFound(key)
  {
    if key !in fields then Failure(KeyNotFound(key))
    else match fields[key]
      case JString(s) => Success(s)
      case JNull => Failure(ValueNotFound(key))
      case _ => Failure(TypeMismatch)
  }

  /** `decodeIfPresent(String.self, forKey:)`: a missing key and a null are both absent. */
  function OptionalString(fields: map<string, JSON>, key: string): (r: Result<Option<string>, Error>)
    ensures r == Success(None) <==> key !in fields || fields[key] == JNull
    ensures r.Success? && r.value.Some? <==> key in fields && fields[key].JString?
    ensures r.Success? && r.value.Some? ==> fields[key] == JString(r.value.value)
    ensures r.Failure? ==> r.error == TypeMismatch
  {
    if key !in fields then Success(None)
    else match fields[key]
      case JNull => Success(None)
      case JString(s) => Success(Some(s))
      case _ => Failure(TypeMismatch)
  }

  /** `decodeIfPresent([String].self, forKey:)`. */
  function OptionalStrings(fields: map<string, JSON>, key: string): (r: Result<Option<seq<string>>, Error>)
    ensures r == Success(None) <==> key !in fields || fields[key] == JNull
    ensures r.Success? && r.value.Some? ==> fields[key] == JArray(StringsOf(r.value.value))
    ensures r.Failure? ==> r.error == TypeMismatch
  {
    if key !in fields then Success(None)
    else if fields[key] == JNull then Success(None)
    else match AsStringArray(fields[key])
      case Some(xs) => Success(Some(xs))
      case None => Failure(TypeMismatch)
  }

  lemma StringArrayRoundTrip(xs: seq<string>)
    ensures AsStringArray(JArray(StringsOf(xs))) == Some(xs)
  {
    var r := AsStringArray(JArray(StringsOf(xs)));
    assert r.Some?;
    assert |r.value| == |xs|;
    forall i | 0 <= i < |xs| ensures r.value[i] == xs[i] {
      assert StringsOf(r.value)[i] == StringsOf(xs)[i];
    }
    assert r.value == xs;
  }

  lemma StringMapRoundTrip(m: map<string, string>)
    ensures AsStringMap(JObject(StringMapOf(m))) == Some(m)
  {
    var r := AsStringMap(JObject(StringMapOf(m)));
    assert r.Some?;
    assert r.value.Keys == m.Keys;
    forall k | k in m ensures r.value[k] == m[k] {
      assert StringMapOf(r.value)[k] == StringMapOf(m)[k];
    }
    assert r.value == m;
  }
}

/** The foreign encoders the core calls but does not implement: Base58-BTC (BaseX),
    multibase with the base58btc base (BaseEncoding), unpadded base64url (section 5 of
    RFC 4648), UTF-8, and the JSON text serialisation of Foundation's encoder/decoder.
    They are passed around as one record; `Lawful` states the only thing the model
    assumes of them, that decoding an encoding gives back what was encoded. */
module Encodings {
  import opened Wrappers
  import opened Json

  type byte = x: int | 0 <= x < 256
  type bytes = seq<byte>

  datatype Codecs = Codecs(
    base58Encode: bytes -> string,
    base58Decode: string -> Option<bytes>,
    multibaseEncode: bytes -> string,
    multibaseDecode: string -> Option<bytes>,
    base64UrlEncode: bytes -> string,
    base64UrlDecode: string -> Option<bytes>,
    utf8Encode: string -> bytes,
    utf8Decode: bytes -> Option<string>,
    jsonSerialize: JSON -> bytes,
    jsonParse: bytes -> Option<JSON>)

  ghost predicate Lawful(c: Codecs) {
    && (forall b :: c.base58Decode(c.base58Encode(b)) == Some(b))
    && (forall b :: c.multibaseDecode(c.multibaseEncode(b)) == Some(b))
    && (forall b :: c.base64UrlDecode(c.base64UrlEncode(b)) == Some(b))
    && (forall s :: c.utf8Decode(c.utf8Encode(s)) == Some(s))
    && (forall j :: c.jsonParse(c.jsonSerialize(j)) == Some(j))
  }
}
