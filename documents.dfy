/** `DIDDocument`: the records of a DID document (section 5 of W3C DID Core 1.0) and the
    hand-written JSON conformances of its polymorphic parts: service endpoints
    (section 5.4), verification-method mappings and verification methods (section 5.2.1),
    each decoded by trying the shapes in a fixed order. */
module Documents {
  import opened Wrappers
  import opened Errors
  import opened Json
  import opened Encodings
  import opened Jwks
  import opened Materials

  /** `ServiceEndpoint.EndpointElement`: a URI string or a map. */
  datatype EndpointElement = StringValue(value: string) | MapValue(entries: map<string, string>)

  /** `ServiceEndpoint`: `string`, `set`, `map` or `combo`. */
  datatype ServiceEndpoint =
    | Str(value: string)
    | Set(items: seq<string>)
    | Map(entries: map<string, string>)
    | Combo(elements: seq<EndpointElement>)

  datatype Service = Service(
    id: string,
    serviceType: string,
    serviceEndpoint: ServiceEndpoint,
    routingKeys: Option<seq<string>>,
    accept: Option<seq<string>>)

  /** `VerificationMethod`; `type` is `methodType` here (`type` is a Dafny keyword). */
  datatype VerificationMethod = VerificationMethod(id: string, controller: string, methodType: string, material: Material)

  /** `VerificationMethodMapping`: `stringValue` (a reference by id) or an embedded
      `verificationMethod`. */
  datatype VerificationMethodMapping = Reference(value: string) | Embedded(vm: VerificationMethod)

  datatype DIDDocument = DIDDocument(
    id: string,
    alsoKnownAs: Option<string>,
    controller: Option<string>,
    verificationMethods: seq<VerificationMethod>,
    authentication: Option<seq<VerificationMethodMapping>>,
    assertionMethod: Option<seq<VerificationMethodMapping>>,
    capabilityDelegation: Option<seq<VerificationMethodMapping>>,
    keyAgreement: Option<seq<VerificationMethodMapping>>,
    services: Option<seq<Service>>)

  // ----- Endpoint elements -----

  /** `EndpointElement.encode(to:)`: dispatch on the case. */
  function EncodeElement(e: EndpointElement): JSON {
    match e
    case StringValue(s) => JString(s)
    case MapValue(m) => JObject(StringMapOf(m))
  }

  /** `EndpointElement.init(from:)`: a string, else a string map, else an error.  Whatever
      it accepts, encoding gives back. */
  function DecodeElement(j: JSON): (r: Result<EndpointElement, Error>)
    ensures r.Success? <==> j.JString? || (j.JObject? && AllStringValues(j.fields))
    ensures r.Success? ==> (r.value.StringValue? <==> j.JString?)
    ensures r.Success? ==> EncodeElement(r.value) == j
    ensures r.Failure? ==> r.error == TypeMismatch
  {
    match AsString(j)
    case Some(s) => Success(StringValue(s))
    case None =>
      match AsStringMap(j)
      case Some(m) => Success(MapValue(m))
      case None => Failure(TypeMismatch)
  }

  /** Decoding an encoded element gives it back. */
  lemma ElementRoundTrip(e: EndpointElement)
    ensures DecodeElement(EncodeElement(e)) == Success(e)
  {
    if e.MapValue? {
      StringMapRoundTrip(e.entries);
    }
  }

  /** `decode([EndpointElement].self)`: every item must decode; the first failure stops it. */
  function DecodeElements(items: seq<JSON>): (r: Result<seq<EndpointElement>, Error>)
    ensures r.Success? <==> forall i :: 0 <= i < |items| ==> DecodeElement(items[i]).Success?
    ensures r.Success? ==> |r.value| == |items| && forall i :: 0 <= i < |items| ==> DecodeElement(items[i]) == Success(r.value[i])
    ensures r.Failure? ==> r.error == TypeMismatch
  {
    if items == [] then Success([])
    else
      var head :- DecodeElement(items[0]);
      var tail :- DecodeElements(items[1..]);
      Success([head] + tail)
  }

  function EncodeElements(es: seq<EndpointElement>): (r: seq<JSON>)
    ensures |r| == |es| && forall i :: 0 <= i < |es| ==> r[i] == EncodeElement(es[i])
  {
    seq(|es|, i requires 0 <= i < |es| => EncodeElement(es[i]))
  }

  // ----- Service endpoints -----

  /** `ServiceEndpoint.encode(to:)`: dispatch on the case. */
  function EncodeEndpoint(e: ServiceEndpoint): JSON {
    match e
    case Str(s) => JString(s)
    case Set(items) => JArray(StringsOf(items))
    case Map(m) => JObject(StringMapOf(m))
    case Combo(elements) => JArray(EncodeElements(elements))
  }

  /** `ServiceEndpoint.init(from:)`: a string, then `[String]`, then `[String: String]`,
      then `[EndpointElement]`, the first that decodes winning.  A combo therefore comes
      only from an array that is not all strings, and what decodes re-encodes to itself. */
  function DecodeEndpoint(j: JSON): (r: Result<ServiceEndpoint, Error>)
    ensures j.JString? ==> r == Success(Str(j.str))
    ensures j.JArray? && AllStrings(j.items) ==> r.Success? && r.value.Set?
    ensures r.Success? && r.value.Combo? ==> j.JArray? && !AllStrings(j.items)
    ensures r.Success? ==> EncodeEndpoint(r.value) == j
    ensures r.Failure? ==> r.error == TypeMismatch
  {
    match AsString(j)
    case Some(s) => Success(Str(s))
    case None =>
      match AsStringArray(j)
      case Some(items) => Success(Set(items))
      case None =>
        match AsStringMap(j)
        case Some(m) => Success(Map(m))
        case None =>
          if !j.JArray? then Failure(TypeMismatch)
          else
            var elements :- DecodeElements(j.items);
            assert EncodeElements(elements) == j.items by {
              forall i | 0 <= i < |elements| ensures EncodeElements(elements)[i] == j.items[i] {
                assert EncodeElement(DecodeElement(j.items[i]).value) == j.items[i];
              }
            }
            Success(Combo(elements))
  }

  /** The values of the string elements, when every element is a string. */
  function ElementStrings(es: seq<EndpointElement>): seq<string>
    requires forall i :: 0 <= i < |es| ==> es[i].StringValue?
  {
    seq(|es|, i requires 0 <= i < |es| && es[i].StringValue? => es[i].value)
  }

  /** A combo of strings only is encoded as an array of strings, which reads back as a set. */
  lemma ComboOfStringsReadsAsSet(elements: seq<EndpointElement>)
    requires forall i :: 0 <= i < |elements| ==> elements[i].StringValue?
    ensures DecodeEndpoint(EncodeEndpoint(Combo(elements))) == Success(Set(ElementStrings(elements)))
  {
    assert EncodeElements(elements) == StringsOf(ElementStrings(elements));
    StringArrayRoundTrip(ElementStrings(elements));
  }

  /** A combo holding a map element is encoded as an array that is not all strings, which
      reads back element by element. */
  lemma ComboWithMapRoundTrip(elements: seq<EndpointElement>, i: int)
    requires 0 <= i < |elements| && elements[i].MapValue?
    ensures DecodeEndpoint(EncodeEndpoint(Combo(elements))) == Success(Combo(elements))
  {
    var items := EncodeElements(elements);
    assert !items[i].JString?;
    forall k | 0 <= k < |elements| ensures DecodeElement(items[k]) == Success(elements[k]) {
      ElementRoundTrip(elements[k]);
    }
    assert DecodeElements(items).value == elements;
  }

  /** Decoding an encoded endpoint gives it back, except a combo with no map element:
      its JSON is an array of strings, which reads back as a set. */
  lemma EndpointRoundTrip(e: ServiceEndpoint)
    ensures e.Combo? && (forall i :: 0 <= i < |e.elements| ==> e.elements[i].StringValue?) ==>
      DecodeEndpoint(EncodeEndpoint(e)) == Success(Set(ElementStrings(e.elements)))
    ensures !e.Combo? || (exists i :: 0 <= i < |e.elements| && e.elements[i].MapValue?) ==>
      DecodeEndpoint(EncodeEndpoint(e)) == Success(e)
  {
    match e
    case Str(s) =>
    case Set(items) =>
      StringArrayRoundTrip(items);
    case Map(m) =>
      StringMapRoundTrip(m);
    case Combo(elements) =>
      if forall i :: 0 <= i < |elements| ==> elements[i].StringValue? {
        ComboOfStringsReadsAsSet(elements);
      } else {
        var i :| 0 <= i < |elements| && elements[i].MapValue?;
        ComboWithMapRoundTrip(elements, i);
      }
  }

  // ----- Key names -----

  /** `VerificationMaterialFormat(fromKey:)`: exactly the three `publicKey*` names. */
  function FormatFromKey(key: string): (r: Result<Format, Error>)
    ensures r.Success? <==> key in {"publicKeyBase58", "publicKeyMultibase", "publicKeyJwk"}
    ensures r.Failure? ==> r.error == InvalidMaterialForm(key)
  {
    if key == "publicKeyBase58" then Success(Base58)
    else if key == "publicKeyMultibase" then Success(Multibase)
    else if key == "publicKeyJwk" then Success(Jwk)
    else Failure(InvalidMaterialForm(key))
  }

  /** `keyString` exactly as written: the JWK and multibase names are exchanged. */
  function KeyString(f: Format): string {
    match f
    case Base58 => "publicKeyBase58"
    case Jwk => "publicKeyMultibase"
    case Multibase => "publicKeyJwk"
  }

  /** `keyString` as evidently intended, and as the coding keys of `VerificationMethod`
      name the key members. */
  function KeyStringIntended(f: Format): string {
    match f
    case Base58 => "publicKeyBase58"
    case Jwk => "publicKeyJwk"
    case Multibase => "publicKeyMultibase"
  }

  /** The intended names and `init(fromKey:)` are inverse bijections. */
  lemma KeyStringIntendedRoundTrip(f: Format, key: string)
    ensures FormatFromKey(KeyStringIntended(f)) == Success(f)
    ensures FormatFromKey(key).Success? ==> KeyStringIntended(FormatFromKey(key).value) == key
  {
    var names := ["publicKeyBase58", "publicKeyMultibase", "publicKeyJwk"];
    assert names[0][9] != names[1][9] && names[1][9] != names[2][9] && names[0][9] != names[2][9];
  }

  /** The discrepancy: the name written for a JWK reads back as multibase and the other
      way round; only Base58 survives. */
  lemma KeyStringSwapped(f: Format)
    ensures FormatFromKey(KeyString(f)) == Success(f) <==> f == Base58
    ensures f == Jwk ==> FormatFromKey(KeyString(f)) == Success(Multibase)
    ensures f == Multibase ==> FormatFromKey(KeyString(f)) == Success(Jwk)
  {
    var names := ["publicKeyBase58", "publicKeyMultibase", "publicKeyJwk"];
    assert names[0][9] != names[1][9] && names[1][9] != names[2][9] && names[0][9] != names[2][9];
  }

  // ----- Verification methods -----

  /** A key member present as a string whose text base64url-decodes. */
  predicate Qualifies(fields: map<string, JSON>, key: string, c: Codecs) {
    key in fields && fields[key].JString? && c.base64UrlDecode(fields[key].str).Some?
  }

  /** The bytes of a key member: its string, base64url-decoded. */
  function KeyBytes(fields: map<string, JSON>, key: string, c: Codecs): bytes
    requires Qualifies(fields, key, c)
  {
    c.base64UrlDecode(fields[key].str).value
  }

  /** Lines 199-231: the first key member that is present and base64url-decodable wins; a
      member present as another type stops decoding, and none qualifying is corrupt data. */
  function DecodeKeyMember(fields: map<string, JSON>, c: Codecs): (r: Result<Material, Error>)
    ensures r.Success? ==>
      && Qualifies(fields, KeyStringIntended(r.value.format), c)
      && r.value.value == KeyBytes(fields, KeyStringIntended(r.value.format), c)
    ensures r.Success? && r.value.format != Base58 ==> !Qualifies(fields, "publicKeyBase58", c)
    ensures r.Success? && r.value.format == Multibase ==> !Qualifies(fields, "publicKeyJwk", c)
    ensures r.Failure? ==> r.error == TypeMismatch || r.error == DataCorrupted
  {
    var base58 :- OptionalString(fields, "publicKeyBase58");
    if base58.Some? && c.base64UrlDecode(base58.value).Some? then
      Success(Material(Base58, c.base64UrlDecode(base58.value).value))
    else
      var jwk :- OptionalString(fields, "publicKeyJwk");
      if jwk.Some? && c.base64UrlDecode(jwk.value).Some? then
        Success(Material(Jwk, c.base64UrlDecode(jwk.value).value))
      else
        var multibase :- OptionalString(fields, "publicKeyMultibase");
        if multibase.Some? && c.base64UrlDecode(multibase.value).Some? then
          Success(Material(Multibase, c.base64UrlDecode(multibase.value).value))
        else
          Failure(DataCorrupted)
  }

  /** `VerificationMethod.init(from:)`: string `id`, `controller` and `type`, then the key. */
  function DecodeMethod(j: JSON, c: Codecs): (r: Result<VerificationMethod, Error>)
    ensures !j.JObject? ==> r == Failure(TypeMismatch)
    ensures r.Success? ==> j.JObject?
    ensures j.JObject? && RequiredString(j.fields, "id").Failure? ==> r == Failure(RequiredString(j.fields, "id").error)
    ensures j.JObject? ==>
      (r.Success? <==>
        && RequiredString(j.fields, "id").Success?
        && RequiredString(j.fields, "controller").Success?
        && RequiredString(j.fields, "type").Success?
        && DecodeKeyMember(j.fields, c).Success?)
    ensures r.Success? ==>
      && RequiredString(j.fields, "id") == Success(r.value.id)
      && RequiredString(j.fields, "controller") == Success(r.value.controller)
      && RequiredString(j.fields, "type") == Success(r.value.methodType)
      && DecodeKeyMember(j.fields, c) == Success(r.value.material)
  {
    if !j.JObject? then Failure(TypeMismatch)
    else
      var f := j.fields;
      var id :- RequiredString(f, "id");
      var controller :- RequiredString(f, "controller");
      var methodType :- RequiredString(f, "type");
      var material :- DecodeKeyMember(f, c);
      Success(VerificationMethod(id, controller, methodType, material))
  }

  /** A key member that is absent, null or a string never stops decoding. */
  predicate Readable(fields: map<string, JSON>, key: string) {
    key !in fields || fields[key] == JNull || fields[key].JString?
  }

  /** With readable key members the first qualifying one wins, and with none qualifying
      decoding fails with corrupt data. */
  lemma DecodeKeyMemberPriority(fields: map<string, JSON>, c: Codecs)
    requires Readable(fields, "publicKeyBase58") && Readable(fields, "publicKeyJwk") && Readable(fields, "publicKeyMultibase")
    ensures DecodeKeyMember(fields, c) ==
      if Qualifies(fields, "publicKeyBase58", c) then Success(Material(Base58, KeyBytes(fields, "publicKeyBase58", c)))
      else if Qualifies(fields, "publicKeyJwk", c) then Success(Material(Jwk, KeyBytes(fields, "publicKeyJwk", c)))
      else if Qualifies(fields, "publicKeyMultibase", c) then Success(Material(Multibase, KeyBytes(fields, "publicKeyMultibase", c)))
      else Failure(DataCorrupted)
  {
  }

  /** The JSON written for a key member: UTF-8 text (null when the bytes are not UTF-8),
      or the object of the JWK the bytes hold. */
  function EncodeKeyValue(m: Material, c: Codecs): (r: Result<JSON, Error>)
    ensures m.format != Jwk ==> r.Success? && (r.value.JString? <==> c.utf8Decode(m.value).Some?)
    ensures m.format == Jwk && r.Success? ==> r.value.JObject?
  {
    match m.format
    case Jwk =>
      var json :- if c.jsonParse(m.value).Some? then Success(c.jsonParse(m.value).value) else Failure(DataCorrupted);
      var jwk :- FromJson(json);
      Success(ToJson(jwk))
    case _ =>
      Success(if c.utf8Decode(m.value).Some? then JString(c.utf8Decode(m.value).value) else JNull)
  }

  /** `VerificationMethod.encode(to:)`: `id`, `controller`, `type`, and one key member named
      after the format. */
  function EncodeMethod(vm: VerificationMethod, c: Codecs): (r: Result<JSON, Error>)
    ensures r.Success? <==> EncodeKeyValue(vm.material, c).Success?
    ensures r.Success? ==>
      && r.value.JObject?
      && r.value.fields.Keys == {"id", "controller", "type", KeyStringIntended(vm.material.format)}
      && r.value.fields[KeyStringIntended(vm.material.format)] == EncodeKeyValue(vm.material, c).value
      && r.value.fields["id"] == JString(vm.id)
      && r.value.fields["controller"] == JString(vm.controller)
      && r.value.fields["type"] == JString(vm.methodType)
  {
    var value :- EncodeKeyValue(vm.material, c);
    Success(JObject(map[
      "id" := JString(vm.id), "controller" := JString(vm.controller), "type" := JString(vm.methodType),
      KeyStringIntended(vm.material.format) := value]))
  }

  /** Encoding then decoding is no round trip: a JWK is written as an object, which the
      decoder, reading every key member as a string, rejects. */
  lemma MethodJwkRoundTripFails(vm: VerificationMethod, c: Codecs)
    requires vm.material.format == Jwk && EncodeMethod(vm, c).Success?
    ensures DecodeMethod(EncodeMethod(vm, c).value, c) == Failure(TypeMismatch)
  {
    var fields := EncodeMethod(vm, c).value.fields;
    assert "publicKeyBase58" !in fields;
    assert fields["publicKeyJwk"].JObject?;
  }

  /** Base58 and multibase text is read back through base64url, not through its own
      decoder: the bytes come back only if the text happens to be base64url. */
  lemma MethodTextRoundTrip(vm: VerificationMethod, c: Codecs)
    requires vm.material.format != Jwk
    ensures EncodeMethod(vm, c).Success?
    ensures DecodeMethod(EncodeMethod(vm, c).value, c) ==
      var text := c.utf8Decode(vm.material.value);
      if text.Some? && c.base64UrlDecode(text.value).Some? then
        Success(vm.(material := Material(vm.material.format, c.base64UrlDecode(text.value).value)))
      else
        Failure(DataCorrupted)
  {
    var fields := EncodeMethod(vm, c).value.fields;
    if vm.material.format == Base58 {
      assert "publicKeyJwk" !in fields && "publicKeyMultibase" !in fields;
    } else {
      assert "publicKeyBase58" !in fields && "publicKeyJwk" !in fields;
    }
  }

  // ----- Verification-method mappings -----

  /** `VerificationMethodMapping.init(from:)`: a string is a reference, anything else must
      be an embedded method. */
  function DecodeMapping(j: JSON, c: Codecs): (r: Result<VerificationMethodMapping, Error>)
    ensures j.JString? ==> r == Success(Reference(j.str))
    ensures !j.JString? ==> (r.Success? <==> DecodeMethod(j, c).Success?)
    ensures !j.JString? && r.Success? ==> r.value == Embedded(DecodeMethod(j, c).value)
  {
    match AsString(j)
    case Some(s) => Success(Reference(s))
    case None =>
      var vm :- DecodeMethod(j, c);
      Success(Embedded(vm))
  }

  /** `VerificationMethodMapping.encode(to:)`. */
  function EncodeMapping(m: VerificationMethodMapping, c: Codecs): (r: Result<JSON, Error>)
    ensures m.Reference? ==> r == Success(JString(m.value))
    ensures m.Embedded? ==> r == EncodeMethod(m.vm, c)
  {
    match m
    case Reference(s) => Success(JString(s))
    case Embedded(vm) => EncodeMethod(vm, c)
  }

  /** A reference survives encoding and decoding; an embedded method fares as its own
      encoding does. */
  lemma MappingRoundTrip(m: VerificationMethodMapping, c: Codecs)
    requires EncodeMapping(m, c).Success?
    ensures m.Reference? ==> DecodeMapping(EncodeMapping(m, c).value, c) == Success(m)
    ensures m.Embedded? && m.vm.material.format == Jwk ==>
      DecodeMapping(EncodeMapping(m, c).value, c) == Failure(TypeMismatch)
  {
    if m.Embedded? && m.vm.material.format == Jwk {
      MethodJwkRoundTripFails(m.vm, c);
    }
  }
}
