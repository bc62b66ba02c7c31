/** JSON Web Keys (section 4 of RFC 7517) as the library builds them: octet key pairs
    (section 2 of RFC 8037) holding an X25519 or Ed25519 public key. */
module Jwks {
  import opened Wrappers
  import opened Errors
  import opened Json
  import opened Encodings
  import opened MaterialTypes

  /** The `JWK` record; `keyOps` and `x5tS256` are the members `key_ops` and `x5t_S256`,
      and `x5u` holds the text of the URL. */
  datatype JWK = JWK(
    kty: string,
    use: Option<string>,
    keyOps: Option<seq<string>>,
    alg: Option<string>,
    kid: Option<string>,
    x5u: Option<string>,
    x5c: Option<seq<string>>,
    x5t: Option<string>,
    x5tS256: Option<string>,
    n: Option<string>,
    e: Option<string>,
    crv: Option<string>,
    x: Option<string>,
    y: Option<string>,
    d: Option<string>,
    k: Option<string>)

  /** Every member other than `kty`, `crv` and `x` is absent. */
  predicate OnlyOctetKeyPairFields(j: JWK) {
    && j.use.None? && j.keyOps.None? && j.alg.None? && j.kid.None? && j.x5u.None?
    && j.x5c.None? && j.x5t.None? && j.x5tS256.None? && j.n.None? && j.e.None?
    && j.y.None? && j.d.None? && j.k.None?
  }

  /** `JWK(key:type:)`: an `OKP` key whose `x` is the unpadded base64url text of the key
      and whose curve follows the axis; only the two `JsonWebKey2020` types are accepted. */
  function FromKey(key: bytes, keyType: KnownType, c: Codecs): (r: Result<JWK, Error>)
    ensures r.Success? <==> IsJsonWebKey2020(keyType)
    ensures r.Failure? ==> r.error == InvalidJWKMaterialType(RawValue(keyType))
    ensures r.Success? ==> r.value.kty == "OKP" && r.value.x == Some(c.base64UrlEncode(key))
    ensures r.Success? ==> (r.value.crv == Some("X25519") <==> keyType.Agreement?)
    ensures r.Success? ==> (r.value.crv == Some("Ed25519") <==> keyType.Authentication?)
    ensures r.Success? ==> OnlyOctetKeyPairFields(r.value)
  {
    var x := c.base64UrlEncode(key);
    var crv :-
      match keyType
      case Agreement(JsonWebKey2020) => Success("X25519")
      case Authentication(JsonWebKey2020) => Success("Ed25519")
      case _ => Failure(InvalidJWKMaterialType(RawValue(keyType)));
    Success(JWK("OKP", None, None, None, None, None, None, None, None, None, None, Some(crv), Some(x), None, None, None))
  }

  /** The key is recovered from `x` by base64url decoding. */
  lemma FromKeyRecoversKey(key: bytes, keyType: KnownType, c: Codecs)
    requires Lawful(c) && IsJsonWebKey2020(keyType)
    ensures c.base64UrlDecode(FromKey(key, keyType, c).value.x.value) == Some(key)
  {
  }

  function StringMember(v: Option<string>): Option<JSON> {
    if v.Some? then Some(JString(v.value)) else None
  }

  function StringsMember(v: Option<seq<string>>): Option<JSON> {
    if v.Some? then Some(JArray(StringsOf(v.value))) else None
  }

  /** The members of the synthesized `encode(to:)`, absent properties as `None`. */
  function Members(j: JWK): map<string, Option<JSON>> {
    map[
      "kty" := Some(JString(j.kty)), "use" := StringMember(j.use),
      "key_ops" := StringsMember(j.keyOps), "alg" := StringMember(j.alg),
      "kid" := StringMember(j.kid), "x5u" := StringMember(j.x5u),
      "x5c" := StringsMember(j.x5c), "x5t" := StringMember(j.x5t),
      "x5t_S256" := StringMember(j.x5tS256), "n" := StringMember(j.n),
      "e" := StringMember(j.e), "crv" := StringMember(j.crv), "x" := StringMember(j.x),
      "y" := StringMember(j.y), "d" := StringMember(j.d), "k" := StringMember(j.k)]
  }

  /** The synthesized `encode(to:)`: one member per present property, absent ones omitted. */
  function ToJson(j: JWK): (r: JSON)
    ensures r.JObject? && r.fields.Keys <= Members(j).Keys
    ensures "kty" in r.fields && r.fields["kty"] == JString(j.kty)
    ensures forall key :: key in r.fields <==> key in Members(j) && Members(j)[key].Some?
    ensures forall key :: key in r.fields ==> r.fields[key] == Members(j)[key].value
  {
    var m := Members(j);
    JObject(map key | key in m && m[key].Some? :: m[key].value)
  }

  /** The synthesized `init(from:)`: `kty` is required, every other member optional, and
      the first member of the wrong type stops decoding. */
  function FromJson(json: JSON): (r: Result<JWK, Error>)
    ensures r.Success? ==> json.JObject? && "kty" in json.fields && json.fields["kty"] == JString(r.value.kty)
    ensures !json.JObject? ==> r == Failure(TypeMismatch)
  {
    if !json.JObject? then Failure(TypeMismatch)
    else
      var f := json.fields;
      var kty :- RequiredString(f, "kty");
      var use :- OptionalString(f, "use");
      var keyOps :- OptionalStrings(f, "key_ops");
      var alg :- OptionalString(f, "alg");
      var kid :- OptionalString(f, "kid");
      var x5u :- OptionalString(f, "x5u");
      var x5c :- OptionalStrings(f, "x5c");
      var x5t :- OptionalString(f, "x5t");
      var x5tS256 :- OptionalString(f, "x5t_S256");
      var n :- OptionalString(f, "n");
      var e :- OptionalString(f, "e");
      var crv :- OptionalString(f, "crv");
      var x :- OptionalString(f, "x");
      var y :- OptionalString(f, "y");
      var d :- OptionalString(f, "d");
      var k :- OptionalString(f, "k");
      Success(JWK(kty, use, keyOps, alg, kid, x5u, x5c, x5t, x5tS256, n, e, crv, x, y, d, k))
  }

  lemma StringMemberRoundTrip(j: JWK, key: string, v: Option<string>)
    requires key in Members(j) && Members(j)[key] == StringMember(v)
    ensures OptionalString(ToJson(j).fields, key) == Success(v)
  {
  }

  lemma StringsMemberRoundTrip(j: JWK, key: string, v: Option<seq<string>>)
    requires key in Members(j) && Members(j)[key] == StringsMember(v)
    ensures OptionalStrings(ToJson(j).fields, key) == Success(v)
  {
    if v.Some? {
      StringArrayRoundTrip(v.value);
    }
  }

  lemma CommonMembersRoundTrip(j: JWK)
    ensures var f := ToJson(j).fields;
      && RequiredString(f, "kty") == Success(j.kty)
      && OptionalString(f, "use") == Success(j.use)
      && OptionalStrings(f, "key_ops") == Success(j.keyOps)
      && OptionalString(f, "alg") == Success(j.alg)
      && OptionalString(f, "kid") == Success(j.kid)
  {
    StringMemberRoundTrip(j, "use", j.use);
    StringsMemberRoundTrip(j, "key_ops", j.keyOps);
    StringMemberRoundTrip(j, "alg", j.alg);
    StringMemberRoundTrip(j, "kid", j.kid);
  }

  lemma CertificateMembersRoundTrip(j: JWK)
    ensures var f := ToJson(j).fields;
      && OptionalString(f, "x5u") == Success(j.x5u)
      && OptionalStrings(f, "x5c") == Success(j.x5c)
      && OptionalString(f, "x5t") == Success(j.x5t)
      && OptionalString(f, "x5t_S256") == Success(j.x5tS256)
  {
    StringMemberRoundTrip(j, "x5u", j.x5u);
    StringsMemberRoundTrip(j, "x5c", j.x5c);
    StringMemberRoundTrip(j, "x5t", j.x5t);
    StringMemberRoundTrip(j, "x5t_S256", j.x5tS256);
  }

  lemma KeyMembersRoundTrip(j: JWK)
    ensures var f := ToJson(j).fields;
      && OptionalString(f, "n") == Success(j.n)
      && OptionalString(f, "e") == Success(j.e)
      && OptionalString(f, "crv") == Success(j.crv)
      && OptionalString(f, "x") == Success(j.x)
  {
    StringMemberRoundTrip(j, "n", j.n);
    StringMemberRoundTrip(j, "e", j.e);
    StringMemberRoundTrip(j, "crv", j.crv);
    StringMemberRoundTrip(j, "x", j.x);
  }

  lemma PrivateMembersRoundTrip(j: JWK)
    ensures var f := ToJson(j).fields;
      && OptionalString(f, "y") == Success(j.y)
      && OptionalString(f, "d") == Success(j.d)
      && OptionalString(f, "k") == Success(j.k)
  {
    StringMemberRoundTrip(j, "y", j.y);
    StringMemberRoundTrip(j, "d", j.d);
    StringMemberRoundTrip(j, "k", j.k);
  }

  /** Decoding an encoded key gives it back. */
  lemma FromToJson(j: JWK)
    ensures FromJson(ToJson(j)) == Success(j)
  {
    CommonMembersRoundTrip(j);
    CertificateMembersRoundTrip(j);
    KeyMembersRoundTrip(j);
    PrivateMembersRoundTrip(j);
  }
}
