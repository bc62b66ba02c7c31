/** `VerificationMaterial`: a public key held as bytes in one of three formats (a JWK as
    JSON, Base58-BTC text, multibase text over a multicodec-tagged key), with the
    conversions between them. */
module Materials {
  import opened Wrappers
  import opened Errors
  import opened Json
  import opened Encodings
  import opened MaterialTypes
  import opened Multicodec
  import opened Jwks

  datatype Format = Jwk | Base58 | Multibase

  datatype Material = Material(format: Format, value: bytes)

  /** `init(format:key:type:)`: the JSON of the key's JWK, the UTF-8 of its Base58 text, or
      the UTF-8 of the multibase text of the key tagged with the codec of its axis.  Only
      the JWK form can fail, for a type other than `JsonWebKey2020`. */
  function Init(format: Format, key: bytes, keyType: KnownType, c: Codecs): (r: Result<Material, Error>)
    ensures r.Success? <==> format != Jwk || IsJsonWebKey2020(keyType)
    ensures r.Success? ==> r.value.format == format
    ensures r.Failure? ==> r.error == InvalidJWKMaterialType(RawValue(keyType))
  {
    match format
    case Jwk =>
      var jwk :- FromKey(key, keyType, c);
      Success(Material(Jwk, c.jsonSerialize(ToJson(jwk))))
    case Base58 =>
      Success(Material(Base58, c.utf8Encode(c.base58Encode(key))))
    case Multibase =>
      Success(Material(Multibase, c.utf8Encode(c.multibaseEncode(ToMulticodecForKeyType(key, keyType)))))
  }

  /** The errors Foundation's JSON decoder reports. */
  predicate IsJsonDecodingError(e: Error) {
    e == DataCorrupted || e == TypeMismatch || e.KeyNotFound? || e.ValueNotFound?
  }

  /** `decodedKey()`: the raw key.  A JWK must parse and carry a base64url `x`; Base58 and
      multibase text must be UTF-8 and decode; a multibase key must carry a known tag. */
  function DecodedKey(m: Material, c: Codecs): (r: Result<bytes, Error>)
    ensures m.format == Jwk && r.Failure? ==>
      r.error == UnsupportedJWKKeyDecoding || IsJsonDecodingError(r.error)
    ensures m.format != Jwk ==> (r == Failure(InvalidBase64URLKey) <==> c.utf8Decode(m.value).None?)
    ensures m.format == Base58 && r.Failure? ==>
      r.error == InvalidBase64URLKey || r.error == Base58DecodingFailed
    ensures m.format == Multibase && r.Failure? ==>
      r.error == InvalidBase64URLKey || r.error == MultibaseDecodingFailed || r.error == InvalidCodec
    ensures m.format == Base58 && c.utf8Decode(m.value).Some? ==>
      var key := c.base58Decode(c.utf8Decode(m.value).value);
      r == if key.Some? then Success(key.value) else Failure(Base58DecodingFailed)
    ensures m.format == Multibase && c.utf8Decode(m.value).Some? ==>
      var tagged := c.multibaseDecode(c.utf8Decode(m.value).value);
      && (tagged.None? ==> r == Failure(MultibaseDecodingFailed))
      && (tagged.Some? && FromMulticodec(tagged.value).Failure? ==> r == Failure(InvalidCodec))
      && (tagged.Some? && FromMulticodec(tagged.value).Success? ==> r == Success(FromMulticodec(tagged.value).value.1))
    ensures m.format == Jwk && c.jsonParse(m.value).None? ==> r == Failure(DataCorrupted)
    ensures m.format == Jwk && r.Success? ==>
      && c.jsonParse(m.value).Some? && FromJson(c.jsonParse(m.value).value).Success?
      && var x := FromJson(c.jsonParse(m.value).value).value.x;
         x.Some? && c.base64UrlDecode(x.value) == Some(r.value)
  {
    match m.format
    case Jwk =>
      var json :- if c.jsonParse(m.value).Some? then Success(c.jsonParse(m.value).value) else Failure(DataCorrupted);
      var jwk :- FromJson(json);
      if jwk.x.None? || c.base64UrlDecode(jwk.x.value).None? then Failure(UnsupportedJWKKeyDecoding)
      else Success(c.base64UrlDecode(jwk.x.value).value)
    case Base58 =>
      var text :- if c.utf8Decode(m.value).Some? then Success(c.utf8Decode(m.value).value) else Failure(InvalidBase64URLKey);
      if c.base58Decode(text).Some? then Success(c.base58Decode(text).value) else Failure(Base58DecodingFailed)
    case Multibase =>
      var text :- if c.utf8Decode(m.value).Some? then Success(c.utf8Decode(m.value).value) else Failure(InvalidBase64URLKey);
      var tagged :- if c.multibaseDecode(text).Some? then Success(c.multibaseDecode(text).value) else Failure(MultibaseDecodingFailed);
      var (_, data) :- FromMulticodec(tagged);
      Success(data)
  }

  /** Whatever format it is stored in, the key comes back out. */
  lemma DecodedKeyInit(format: Format, key: bytes, keyType: KnownType, c: Codecs)
    requires Lawful(c) && Init(format, key, keyType, c).Success?
    ensures DecodedKey(Init(format, key, keyType, c).value, c) == Success(key)
  {
    if format == Jwk {
      FromToJson(FromKey(key, keyType, c).value);
    }
  }

  /** The type a Base58 key is re-tagged with: the 2019/2018 types of the axis. */
  function Base58TypeFor(t: KnownType): (r: KnownType)
    ensures IsAuthentication(r) == IsAuthentication(t)
  {
    match t
    case Agreement(_) => Agreement(X25519KeyAgreementKey2019)
    case Authentication(_) => Authentication(Ed25519VerificationKey2018)
  }

  /** The type a JWK is re-tagged with: `JsonWebKey2020` on the axis. */
  function JwkTypeFor(t: KnownType): (r: KnownType)
    ensures IsAuthentication(r) == IsAuthentication(t)
    ensures IsJsonWebKey2020(r)
  {
    match t
    case Agreement(_) => Agreement(AgreementType.JsonWebKey2020)
    case Authentication(_) => Authentication(AuthenticationType.JsonWebKey2020)
  }

  /** The type a multibase key is re-tagged with: the 2020 types of the axis. */
  function MultibaseTypeFor(t: KnownType): (r: KnownType)
    ensures IsAuthentication(r) == IsAuthentication(t)
  {
    match t
    case Agreement(_) => Agreement(X25519KeyAgreementKey2020)
    case Authentication(_) => Authentication(Ed25519VerificationKey2020)
  }

  /** `convertToBase58(type:)`: unchanged when already Base58, else the decoded key
      re-encoded; it fails exactly when the key cannot be decoded. */
  function ConvertToBase58(m: Material, t: KnownType, c: Codecs): (r: Result<Material, Error>)
    ensures m.format == Base58 ==> r == Success(m)
    ensures m.format != Base58 ==> (r.Success? <==> DecodedKey(m, c).Success?)
    ensures r.Success? ==> r.value.format == Base58
    ensures r.Failure? ==> r == Failure(DecodedKey(m, c).error)
  {
    if m.format == Base58 then Success(m)
    else
      var key :- DecodedKey(m, c);
      Init(Base58, key, Base58TypeFor(t), c)
  }

  /** `convertToJWK(type:)`: as above; the normalised type is always a `JsonWebKey2020`,
      so conversion never fails with `invalidJWKMaterialType`. */
  function ConvertToJwk(m: Material, t: KnownType, c: Codecs): (r: Result<Material, Error>)
    ensures m.format == Jwk ==> r == Success(m)
    ensures m.format != Jwk ==> (r.Success? <==> DecodedKey(m, c).Success?)
    ensures r.Success? ==> r.value.format == Jwk
    ensures r.Failure? ==> r == Failure(DecodedKey(m, c).error)
  {
    if m.format == Jwk then Success(m)
    else
      var key :- DecodedKey(m, c);
      Init(Jwk, key, JwkTypeFor(t), c)
  }

  /** `convertToMultibase(type:)`: as above. */
  function ConvertToMultibase(m: Material, t: KnownType, c: Codecs): (r: Result<Material, Error>)
    ensures m.format == Multibase ==> r == Success(m)
    ensures m.format != Multibase ==> (r.Success? <==> DecodedKey(m, c).Success?)
    ensures r.Success? ==> r.value.format == Multibase
    ensures r.Failure? ==> r == Failure(DecodedKey(m, c).error)
  {
    if m.format == Multibase then Success(m)
    else
      var key :- DecodedKey(m, c);
      Init(Multibase, key, MultibaseTypeFor(t), c)
  }

  /** Converting twice is converting once. */
  lemma ConvertIdempotent(m: Material, t: KnownType, t2: KnownType, c: Codecs)
    ensures ConvertToBase58(m, t, c).Success? ==>
      ConvertToBase58(ConvertToBase58(m, t, c).value, t2, c) == ConvertToBase58(m, t, c)
    ensures ConvertToJwk(m, t, c).Success? ==>
      ConvertToJwk(ConvertToJwk(m, t, c).value, t2, c) == ConvertToJwk(m, t, c)
    ensures ConvertToMultibase(m, t, c).Success? ==>
      ConvertToMultibase(ConvertToMultibase(m, t, c).value, t2, c) == ConvertToMultibase(m, t, c)
  {
  }

  /** Conversion keeps the raw key. */
  lemma ConvertKeepsKey(m: Material, t: KnownType, c: Codecs)
    requires Lawful(c)
    ensures ConvertToBase58(m, t, c).Success? ==> DecodedKey(ConvertToBase58(m, t, c).value, c) == DecodedKey(m, c)
    ensures ConvertToJwk(m, t, c).Success? ==> DecodedKey(ConvertToJwk(m, t, c).value, c) == DecodedKey(m, c)
    ensures ConvertToMultibase(m, t, c).Success? ==> DecodedKey(ConvertToMultibase(m, t, c).value, c) == DecodedKey(m, c)
  {
    if DecodedKey(m, c).Success? {
      var key := DecodedKey(m, c).value;
      DecodedKeyInit(Base58, key, Base58TypeFor(t), c);
      DecodedKeyInit(Jwk, key, JwkTypeFor(t), c);
      DecodedKeyInit(Multibase, key, MultibaseTypeFor(t), c);
    }
  }

  /** A key converted to a JWK carries the curve of the requested axis. */
  lemma ConvertToJwkCurve(m: Material, t: KnownType, c: Codecs)
    requires Lawful(c) && m.format != Jwk && ConvertToJwk(m, t, c).Success?
    ensures c.jsonParse(ConvertToJwk(m, t, c).value.value).Some?
    ensures var jwk := FromJson(c.jsonParse(ConvertToJwk(m, t, c).value.value).value);
      jwk.Success? && jwk.value.crv == Some(if t.Agreement? then "X25519" else "Ed25519")
  {
    var jwk := FromKey(DecodedKey(m, c).value, JwkTypeFor(t), c).value;
    FromToJson(jwk);
  }

  /** A key converted to multibase is tagged with the codec of the requested axis. */
  lemma ConvertToMultibaseCodec(m: Material, t: KnownType, c: Codecs)
    requires Lawful(c) && m.format != Multibase && ConvertToMultibase(m, t, c).Success?
    ensures var text := c.utf8Decode(ConvertToMultibase(m, t, c).value.value);
      && text.Some? && c.multibaseDecode(text.value).Some?
      && FromMulticodec(c.multibaseDecode(text.value).value) == Success((CodecFor(t), DecodedKey(m, c).value))
  {
  }

  /** Round the three formats: Base58 to JWK to multibase and back keeps the key. */
  lemma ConversionCycle(m: Material, t: KnownType, c: Codecs)
    requires Lawful(c) && m.format == Base58 && DecodedKey(m, c).Success?
    ensures ConvertToJwk(m, t, c).Success?
    ensures ConvertToMultibase(ConvertToJwk(m, t, c).value, t, c).Success?
    ensures ConvertToBase58(ConvertToMultibase(ConvertToJwk(m, t, c).value, t, c).value, t, c).Success?
    ensures DecodedKey(ConvertToBase58(ConvertToMultibase(ConvertToJwk(m, t, c).value, t, c).value, t, c).value, c)
      == DecodedKey(m, c)
  {
    ConvertKeepsKey(m, t, c);
    var j := ConvertToJwk(m, t, c).value;
    ConvertKeepsKey(j, t, c);
    var mb := ConvertToMultibase(j, t, c).value;
    ConvertKeepsKey(mb, t, c);
  }

  /** `fromJWK(jwk:)`: the JSON of the JWK. */
  function FromJwk(jwk: JWK, c: Codecs): (r: Material)
    ensures r.format == Jwk
    ensures Lawful(c) ==> c.jsonParse(r.value) == Some(ToJson(jwk))
  {
    Material(Jwk, c.jsonSerialize(ToJson(jwk)))
  }

  /** The key of a material made from a JWK is its base64url-decoded `x`. */
  lemma DecodedKeyFromJwk(jwk: JWK, c: Codecs)
    requires Lawful(c)
    ensures DecodedKey(FromJwk(jwk, c), c) ==
      if jwk.x.Some? && c.base64UrlDecode(jwk.x.value).Some? then Success(c.base64UrlDecode(jwk.x.value).value)
      else Failure(UnsupportedJWKKeyDecoding)
  {
    FromToJson(jwk);
  }

  /** `fromKeyToMultibase(key:codec:)`: the multibase text of the key tagged with `codec`. */
  function FromKeyToMultibase(key: bytes, codec: Codec, c: Codecs): (r: Material)
    ensures r.format == Multibase
    ensures forall t :: CodecFor(t) == codec ==> Init(Multibase, key, t, c) == Success(r)
  {
    Material(Multibase, c.utf8Encode(c.multibaseEncode(ToMulticodec(key, codec))))
  }

  lemma DecodedKeyFromKeyToMultibase(key: bytes, codec: Codec, c: Codecs)
    requires Lawful(c)
    ensures DecodedKey(FromKeyToMultibase(key, codec, c), c) == Success(key)
  {
    FromToMulticodec(key, codec);
  }

  /** `fromKeyToBase58(key:)` exactly as written: the Base58 text is tagged as a JWK. */
  function FromKeyToBase58AsWritten(key: bytes, c: Codecs): (r: Material)
    ensures r.format == Jwk
    ensures r.value == FromKeyToBase58(key, c).value
  {
    Material(Jwk, c.utf8Encode(c.base58Encode(key)))
  }

  /** `fromKeyToBase58(key:)` as evidently intended: the same bytes tagged as Base58, which
      is what the initializer makes for any key type. */
  function FromKeyToBase58(key: bytes, c: Codecs): (r: Material)
    ensures r.format == Base58
    ensures forall t :: Init(Base58, key, t, c) == Success(r)
  {
    Material(Base58, c.utf8Encode(c.base58Encode(key)))
  }

  lemma DecodedKeyFromKeyToBase58(key: bytes, c: Codecs)
    requires Lawful(c)
    ensures DecodedKey(FromKeyToBase58(key, c), c) == Success(key)
  {
  }

  /** The discrepancy: the as-written material passes for a JWK, so conversion to a JWK
      leaves it alone, yet its bytes are Base58 text, which a JSON parser rejects, so its
      key cannot be read back. */
  lemma FromKeyToBase58Mistagged(key: bytes, t: KnownType, c: Codecs)
    requires Lawful(c)
    requires c.jsonParse(c.utf8Encode(c.base58Encode(key))).None?
    ensures ConvertToJwk(FromKeyToBase58AsWritten(key, c), t, c) == Success(FromKeyToBase58AsWritten(key, c))
    ensures DecodedKey(FromKeyToBase58AsWritten(key, c), c) == Failure(DataCorrupted)
    ensures DecodedKey(FromKeyToBase58(key, c), c) == Success(key)
  {
  }
}
