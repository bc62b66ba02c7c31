# didcore-swift in Dafny

A verified model of the core of didcore-swift, a Swift library for decentralized
identifiers (W3C DID Core 1.0). The model covers:

- **DIDs** (`did.dfy`). `DID(from:)` and `description`, which prints a DID back.
  `DIDs.Parse` is the intended, strictly anchored grammar `did:<method>:<method-id>`;
  `DIDs.ParseAsWritten` is the pattern as ICU runs it, which also accepts one trailing
  line terminator (see Findings).
- **DID URLs** (`didurl.dfy`). `DIDUrl(from:)`:
  - the four regex groups, with the ICU semantics of `[^…]`, `.` and `$`;
  - the method-id/path split done with Swift's `split(separator:maxSplits:)`;
  - the loop that folds query pairs into a dictionary;
  - the fragment.
- **Supporting text and JSON models.**
  - `text.dfy` holds Swift's `split` and the other text helpers.
  - `json.dfy` holds the JSON tree that the Codable containers read and write.
- **Multicodec tagging** (`multicodec.dfy`, `varint.dfy`). The two-entry codec table, and
  the unsigned varint (LEB128) in front of the key. The varint writer is a loop.
- **JWKs** (`jwk.dfy`). The octet-key-pair JWK built from raw key bytes (RFC 8037,
  section 2), and its synthesized Codable form.
- **Verification material** (`materialtypes.dfy`, `material.dfy`):
  - the key-type names;
  - `VerificationMaterial.init(format:key:type:)` and `decodedKey()`;
  - the three `convertTo*` conversions;
  - the `fromJWK`/`fromKeyToMultibase`/`fromKeyToBase58` factories.
- **DID-document decoders** (`documents.dfy`). The hand-written JSON conformances:
  - service endpoints and their elements;
  - verification-method mappings and verification methods;
  - the key-name table;
  - the document record types.

### Modelling choices

- **Foreign encoders.** Base58-BTC, multibase, base64url, UTF-8 and JSON bytes↔tree come
  from packages outside the library. They are fields of a `Codecs` record that is passed
  in as a parameter. The ghost predicate `Lawful(c)` states their round-trip laws, and
  the lemmas that need those laws require it.
- **Errors.** Decoding errors are `Result` values carrying the library's `DIDCoreError`
  cases plus the `DecodingError` kinds.
- **Index trap.** The trap in `DIDUrl(from:)` is an outcome of its own.

Each member's contract is proved with Dafny.

## Model

| member | source | states |
|---|---|---|
| DIDs.Parse | Sources/DIDCore/DID/DID.swift:21-38 | the intended reading of the pattern, with `$` at the very end (the code as written is `DIDs.ParseAsWritten`): an accepted string yields schema `did`, a method over `[a-z0-9]+` and an id over `[\w.\-%]+`, and its description is the string itself |
| DIDs.ParseAcceptsExactly | Sources/DIDCore/DID/DID.swift:22-28 | parsing succeeds iff the string is `did:` + a method + `:` + an id of those classes |
| DIDs.ParseDescription | Sources/DIDCore/DID/DID.swift:21-54 | a DID with schema `did` and fields of those classes parses from its own description back to itself |
| DIDs.ParseParts | Sources/DIDCore/DID/DID.swift:35-37 | the fields are exactly the two captured segments |
| DIDs.ParseAt | Sources/DIDCore/DID/DID.swift:22-37 | with a colon-free method part, parsing succeeds exactly when both parts are in their classes |
| DIDs.ParseNeedsSecondColon | Sources/DIDCore/DID/DID.swift:22-28 | a string with no colon after `did:` is rejected |
| DIDs.ParseAcceptsTestDIDs | Tests/DIDCoreTests/DIDParsingTests.swift:6-39 | the four valid DIDs of the tests parse, and each prints back as itself |
| DIDs.ParseRejectsTestPrefixes | Tests/DIDCoreTests/DIDParsingTests.swift:13-32 | `didexample:…`, `DID:EXAMPLE:…` and `:example:…` are rejected |
| DIDs.ParseRejectsTestParts | Tests/DIDCoreTests/DIDParsingTests.swift:13-32 | `did::…` (empty method) and `did:example::…` (colon in the id) are rejected |
| DIDs.ParseRejectsTestNoSecondColon | Tests/DIDCoreTests/DIDParsingTests.swift:13-32 | `did:example123456789abcdefghi` is rejected |
| DIDs.ParseRejectsSuffix | Sources/DIDCore/DID/DID.swift:22 | a description followed by a character outside the id class no longer parses |
| DIDs.ParseAsWritten | Sources/DIDCore/DID/DID.swift:22-37 | as ICU runs it, `$` lets an accepted string end in one line terminator or CR LF that the DID does not contain |
| DIDs.ParseAsWrittenAgrees | Sources/DIDCore/DID/DID.swift:22-37 | without a final line terminator, the ICU reading and the intended grammar agree |
| DIDs.ParseAsWrittenAcceptsTerminator | Sources/DIDCore/DID/DID.swift:22-37 | a valid description plus a trailing terminator is rejected by the grammar but accepted as written, giving the same DID |
| DIDs.ParseAsWrittenDropsNewline | Sources/DIDCore/DID/DID.swift:22-54 | `did:example:123\n` parses as written, and its description differs from the input |
| Varint.PutUVarInt | Sources/DIDCore/Helper/Multicodec.swift:18 | the writer loop produces the unsigned varint of the value, 1 to 10 bytes long |
| Varint.ReadUVarInt | Sources/DIDCore/Helper/Multicodec.swift:24 | a successful read consumes at most 10 bytes and agrees with reading the groups; it fails exactly when no final group comes within 10 bytes or the value does not fit 64 bits |
| Varint.ReadPutUVarInt | Sources/DIDCore/Helper/Multicodec.swift:16-29 | reading the varint of any 64-bit value, whatever follows, returns the value and the varint's length |
| Varint.ReadGroupsMinimal | Sources/DIDCore/Helper/Multicodec.swift:24 | a read varint whose last byte is not a zero continuation group is exactly the encoding of the value read |
| Varint.UVarIntFits | Sources/DIDCore/Helper/Multicodec.swift:18 | a 64-bit value takes at most 10 bytes |
| Multicodec.CodecFromRaw | Sources/DIDCore/Helper/Multicodec.swift:11-14 | exactly 0xEC and 0xED are codecs, and the codec found has that code |
| Multicodec.CodecRawRoundTrip | Sources/DIDCore/Helper/Multicodec.swift:11-14 | each codec is found again from its code |
| Multicodec.TagIsTwoBytes | Sources/DIDCore/Helper/Multicodec.swift:12-18 | both tags are two bytes: the code, then 1 |
| Multicodec.ToMulticodec | Sources/DIDCore/Helper/Multicodec.swift:16-21 | the output is the two-byte tag followed by the untouched value |
| Multicodec.FromMulticodec | Sources/DIDCore/Helper/Multicodec.swift:23-29 | succeeds iff a varint is read and names a codec; returns that codec and the input without the varint's bytes; otherwise `invalidCodec` |
| Multicodec.FromToMulticodec | Sources/DIDCore/Helper/Multicodec.swift:16-29 | stripping a tag gives back the codec and the value |
| Multicodec.FromMulticodecShape | Sources/DIDCore/Helper/Multicodec.swift:23-29 | a buffer read with a two-byte varint is the codec's tag followed by the data returned |
| Multicodec.CodecFor | Sources/DIDCore/Helper/Multicodec.swift:42-49 | total: authentication types give ED25519 and agreement types give X25519 |
| Multicodec.ToMulticodecForKeyType | Sources/DIDCore/Helper/Multicodec.swift:38-40 | the key-type overload tags with the axis's codec, and stripping that tag gives back the codec and the value |
| Multicodec.FromMulticodecAsWritten | Sources/DIDCore/Helper/Multicodec.swift:23-27 | as written, `Int(prefix)` traps exactly when the varint's value is 2^63 or more, and otherwise agrees with the corrected reader |
| Multicodec.FromMulticodecTraps | Sources/DIDCore/Helper/Multicodec.swift:24-25 | nine `0x80` bytes and a `0x01` trap as written, where the corrected reader reports `invalidCodec` |
| MaterialTypes.AgreementFromRaw | Sources/DIDCore/DIDDocument/VerificationMaterial.swift:20-24 | finds the agreement type named by the string, if there is one |
| MaterialTypes.AuthenticationFromRaw | Sources/DIDCore/DIDDocument/VerificationMaterial.swift:26-36 | finds the authentication type named by the string, if there is one |
| MaterialTypes.FromRawValue | Sources/DIDCore/DIDDocument/VerificationMaterial.swift:41-49 | a found type has the given name; nil iff no type has it; an authentication result means no agreement type has that name |
| MaterialTypes.RawValueRoundTrip | Sources/DIDCore/DIDDocument/VerificationMaterial.swift:41-58 | name then parse gives every type back, except `.authentication(.jsonWebKey2020)`, which comes back as `.agreement(.jsonWebKey2020)` |
| MaterialTypes.IsAuthentication | Sources/DIDCore/DIDDocument/VerificationMaterial.swift:60-67 | true exactly for the authentication axis |
| MaterialTypes.IsAgreement | Sources/DIDCore/DIDDocument/VerificationMaterial.swift:69-76 | true exactly for the agreement axis |
| MaterialTypes.OneAxis | Sources/DIDCore/DIDDocument/VerificationMaterial.swift:60-76 | `isAuthentication == !isAgreement` |
| Jwks.FromKey | Sources/DIDCore/Helper/JWK.swift:73-86 | `kty` is `OKP` and `x` is the base64url text of the key; `crv` is X25519 or Ed25519 exactly for the two `JsonWebKey2020` types; every other member is absent; other types fail with `invalidJWKMaterialType(rawValue)` |
| Jwks.FromKeyRecoversKey | Sources/DIDCore/Helper/JWK.swift:75 | base64url-decoding `x` gives back the key |
| Jwks.ToJson | Sources/DIDCore/Helper/JWK.swift:89 | the object holds exactly the present members, under their property names |
| Jwks.FromJson | Sources/DIDCore/Helper/JWK.swift:89 | a decoded key comes from an object whose `kty` is its `kty`; a non-object is a type mismatch |
| Jwks.FromToJson | Sources/DIDCore/Helper/JWK.swift:10-89 | decoding an encoded JWK gives it back |
| Materials.Init | Sources/DIDCore/DIDDocument/VerificationMaterial.swift:124-143 | stores the requested format; fails only for a JWK of a type other than `JsonWebKey2020`, with `invalidJWKMaterialType(rawValue)` |
| Materials.DecodedKey | Sources/DIDCore/DIDDocument/VerificationMaterial.swift:145-169 | non-UTF-8 Base58 or multibase text gives exactly `invalidBase64URLKey`; Base58 text succeeds iff its decoder does, with that key, else the Base58 error; multibase text fails with the multibase error if undecodable, with `invalidCodec` if no multicodec tag can be read, and otherwise gives the bytes after the tag; unparsable JWK JSON is corrupt data, and a JWK key is the decoded `x` |
| Materials.DecodedKeyInit | Sources/DIDCore/DIDDocument/VerificationMaterial.swift:124-169 | the key is recovered from material built by `init(format:key:type:)` |
| Materials.Base58TypeFor | Sources/DIDCore/DIDDocument/VerificationMaterial.swift:174-180 | the normalised type keeps the axis |
| Materials.JwkTypeFor | Sources/DIDCore/DIDDocument/VerificationMaterial.swift:188-194 | the normalised type keeps the axis and is a `JsonWebKey2020` type |
| Materials.MultibaseTypeFor | Sources/DIDCore/DIDDocument/VerificationMaterial.swift:202-208 | the normalised type keeps the axis |
| Materials.ConvertToBase58 | Sources/DIDCore/DIDDocument/VerificationMaterial.swift:171-183 | returns material already in Base58 unchanged; otherwise succeeds iff the key decodes, with format Base58, and fails with `decodedKey`'s error |
| Materials.ConvertToJwk | Sources/DIDCore/DIDDocument/VerificationMaterial.swift:185-197 | returns material already a JWK unchanged; otherwise succeeds iff the key decodes, so it never fails with `invalidJWKMaterialType` |
| Materials.ConvertToMultibase | Sources/DIDCore/DIDDocument/VerificationMaterial.swift:199-211 | returns material already in multibase unchanged; otherwise succeeds iff the key decodes, with format multibase |
| Materials.ConvertIdempotent | Sources/DIDCore/DIDDocument/VerificationMaterial.swift:171-211 | converting a converted material again changes nothing |
| Materials.ConvertKeepsKey | Sources/DIDCore/DIDDocument/VerificationMaterial.swift:171-211 | every successful conversion keeps the decoded key |
| Materials.ConvertToJwkCurve | Sources/DIDCore/DIDDocument/VerificationMaterial.swift:185-197 | the JWK written by a conversion carries the axis's curve |
| Materials.ConvertToMultibaseCodec | Sources/DIDCore/DIDDocument/VerificationMaterial.swift:199-211 | the multibase written by a conversion carries the axis's multicodec tag in front of the key |
| Materials.ConversionCycle | Sources/DIDCore/DIDDocument/VerificationMaterial.swift:171-211 | Base58 to JWK to multibase and back to Base58 succeeds and keeps the key |
| Materials.FromJwk | Sources/DIDCore/DIDDocument/VerificationMaterial.swift:93-100 | a JWK material whose bytes parse back to the JWK's JSON |
| Materials.DecodedKeyFromJwk | Sources/DIDCore/DIDDocument/VerificationMaterial.swift:145-156 | the key of a JWK material is its decoded `x`; no `x`, or an undecodable one, gives `unsupportedJWKKeyDecoding` |
| Materials.FromKeyToMultibase | Sources/DIDCore/DIDDocument/VerificationMaterial.swift:102-111 | the same material as `init(format: .multibase)` for every type of the codec's axis |
| Materials.DecodedKeyFromKeyToMultibase | Sources/DIDCore/DIDDocument/VerificationMaterial.swift:102-111 | its key decodes back |
| Materials.FromKeyToBase58AsWritten | Sources/DIDCore/DIDDocument/VerificationMaterial.swift:113-122 | as written, the Base58 text is tagged `.jwk` |
| Materials.FromKeyToBase58 | Sources/DIDCore/DIDDocument/VerificationMaterial.swift:113-122 | corrected: the same material as `init(format: .base58)` for every type |
| Materials.DecodedKeyFromKeyToBase58 | Sources/DIDCore/DIDDocument/VerificationMaterial.swift:113-122 | its key decodes back |
| Materials.FromKeyToBase58Mistagged | Sources/DIDCore/DIDDocument/VerificationMaterial.swift:118-119 | the as-written result cannot be converted to a JWK (it is returned unchanged), and its key fails to decode as corrupt JSON |
| Json.AsString | Sources/DIDCore/DIDDocument/DIDDocument.swift:110 | decoding a string succeeds exactly on a JSON string, which it gives back |
| Json.AsStringArray | Sources/DIDCore/DIDDocument/DIDDocument.swift:112 | succeeds exactly on an array of strings, which it gives back |
| Json.AsStringMap | Sources/DIDCore/DIDDocument/DIDDocument.swift:114 | succeeds exactly on an object of string values, which it gives back |
| Json.RequiredString | Sources/DIDCore/DIDDocument/DIDDocument.swift:196-198 | a present string member succeeds; a missing one is `keyNotFound` |
| Json.OptionalString | Sources/DIDCore/DIDDocument/DIDDocument.swift:200 | absent or null gives nil, a string gives it, and anything else is a type mismatch |
| Json.StringArrayRoundTrip | Sources/DIDCore/DIDDocument/DIDDocument.swift:112-128 | an encoded string array decodes back |
| Json.StringMapRoundTrip | Sources/DIDCore/DIDDocument/DIDDocument.swift:114-130 | an encoded string map decodes back |
| Text.Split | Sources/DIDCore/DID/DIDUrl.swift:50 | every piece is non-empty and free of the separator |
| Text.SplitJoin | Sources/DIDCore/DID/DIDUrl.swift:50 | splitting `a + [sep] + b` is splitting `a`, then `b`: with a separator-free string giving itself and the empty string nothing, the pieces are the maximal separator-free runs |
| Text.SplitLosesOnlySeparators | Sources/DIDCore/DID/DIDUrl.swift:50 | the pieces concatenated are the input without its separators |
| Text.SplitOnce | Sources/DIDCore/DID/DIDUrl.swift:40 | at most two pieces; none iff the input is empty or only separators; leading separators are skipped and the first piece is split off |
| Text.SplitFirst | Sources/DIDCore/DID/DIDUrl.swift:40 | the first piece is non-empty and separator-free; a second piece is the non-empty rest after the separator |
| DIDUrls.MatchFragment | Sources/DIDCore/DID/DIDUrl.swift:24 | `(.*)$` captures text free of line terminators and leaves only what `$` may leave |
| DIDUrls.MatchSuffixSound | Sources/DIDCore/DID/DIDUrl.swift:24 | the query and fragment groups put back together give the matched text; the query has no `#` |
| DIDUrls.MatchSuffixComplete | Sources/DIDCore/DID/DIDUrl.swift:24 | any well-formed query and fragment are matched as themselves |
| DIDUrls.MatchGroupsSound | Sources/DIDCore/DID/DIDUrl.swift:24-28 | a match's groups are well formed, and together with an allowed line-terminator tail they make up the input |
| DIDUrls.MatchGroupsComplete | Sources/DIDCore/DID/DIDUrl.swift:24-28 | any well-formed groups are matched back from their text |
| DIDUrls.MethodIdAndPath | Sources/DIDCore/DID/DIDUrl.swift:37-42 | none iff the segment is empty or all `/`; otherwise the id is non-empty and `/`-free, and a path is `/` plus a non-empty rest; id and path make up the segment after its leading slashes |
| DIDUrls.BuildQueries | Sources/DIDCore/DID/DIDUrl.swift:51-56 | the loop builds exactly the fold of the pairs |
| DIDUrls.QueryFoldLookup | Sources/DIDCore/DID/DIDUrl.swift:51-56 | every stored key comes from a two-part pair, the last one binding it, and the value is that pair's |
| DIDUrls.QueryFoldLast | Sources/DIDCore/DID/DIDUrl.swift:51-56 | the last two-part pair binding a key decides its value |
| DIDUrls.QueryEntriesClean | Sources/DIDCore/DID/DIDUrl.swift:50-55 | stored keys and values are non-empty and free of `&`, `=` and `#` |
| DIDUrls.ParseDIDUrl | Sources/DIDCore/DID/DIDUrl.swift:23-70 | the step-by-step parse computes the specified outcome |
| DIDUrls.UrlSpecParsed | Sources/DIDCore/DID/DIDUrl.swift:23-70 | a parsed URL holds the DID of the groups, the folded queries, the path and the fragment |
| DIDUrls.UrlFields | Sources/DIDCore/DID/DIDUrl.swift:24-45 | schema `did` and the input's method, a non-empty method-id free of `/ ? #`, a path starting with `/`, a fragment free of line terminators |
| DIDUrls.UrlFragment | Sources/DIDCore/DID/DIDUrl.swift:64-69 | there is a fragment iff the input has a `#`, and it is the text after the first `#` up to an allowed tail |
| DIDUrls.UrlQueries | Sources/DIDCore/DID/DIDUrl.swift:48-60 | the queries are the fold of the text between the first `?` and the next `#` when a `?` comes first, otherwise empty |
| DIDUrls.UrlQueryEntries | Sources/DIDCore/DID/DIDUrl.swift:48-57 | every stored key and value is non-empty and free of `&`, `=` and `#` |
| DIDUrls.UrlOfParts | Sources/DIDCore/DID/DIDUrl.swift:23-70 | the text of well-formed parts parses back to those parts |
| DIDUrls.UrlOfGroups | Sources/DIDCore/DID/DIDUrl.swift:23-70 | the text of well-formed groups gives the outcome of those groups |
| DIDUrls.UrlOfDID | Sources/DIDCore/DID/DIDUrl.swift:23-70 | every valid DID's description parses as a URL with that DID and nothing else |
| DIDUrls.UrlAcceptsColonInId | Sources/DIDCore/DID/DIDUrl.swift:24-45 | a method-id containing `:` is accepted here, though `DID(from:)` rejects the same string |
| DIDUrls.UrlTrapsOnEmptyId | Sources/DIDCore/DID/DIDUrl.swift:40-41 | any well-formed match whose method-id group is empty or all `/` traps, whatever method, query, fragment or final terminator comes with it |
| DIDUrls.UrlBare | Sources/DIDCore/DID/DIDUrl.swift:23-70 | `did:<method>:<id>` with nothing after the id parses to that DID, with no queries, path or fragment |
| DIDUrls.UrlWithFragment | Sources/DIDCore/DID/DIDUrl.swift:23-70 | `did:<method>:<id>#<fragment>` parses to that DID and exactly that fragment |
| DIDUrls.UrlWithQuery | Sources/DIDCore/DID/DIDUrl.swift:48-57 | `?key=value` yields the one-entry dictionary |
| DIDUrls.UrlWithTwoQueries | Sources/DIDCore/DID/DIDUrl.swift:48-69 | two pairs and a fragment yield the two-entry dictionary and the fragment |
| DIDUrls.UrlTestPlain | Tests/DIDCoreTests/DIDUrlParsingTests.swift:13-20 | `did:example:123456789abcdefghi` parses with no queries, path or fragment |
| DIDUrls.UrlTestPath | Tests/DIDCoreTests/DIDUrlParsingTests.swift:22-29 | `did:example:123456/path` parses with path `/path` |
| DIDUrls.UrlTestQuery | Tests/DIDCoreTests/DIDUrlParsingTests.swift:31-38 | `did:example:123456?versionId=1` parses with `versionId` = `1` |
| DIDUrls.UrlTestFragment | Tests/DIDCoreTests/DIDUrlParsingTests.swift:40-47 | `did:example:123#public-key-0` parses with fragment `public-key-0` |
| DIDUrls.UrlTestQueriesAndFragment | Tests/DIDCoreTests/DIDUrlParsingTests.swift:49-57 | the fifth example yields both queries, fragment `degree` and no path |
| DIDUrls.UrlTestEmptyId | Sources/DIDCore/DID/DIDUrl.swift:40-41 | `did:example:` traps |
| Documents.DecodeElement | Sources/DIDCore/DIDDocument/DIDDocument.swift:162-170 | succeeds exactly on a string or a string map, a string first, and what it decodes re-encodes to the input |
| Documents.ElementRoundTrip | Sources/DIDCore/DIDDocument/DIDDocument.swift:162-180 | an encoded element decodes back |
| Documents.DecodeElements | Sources/DIDCore/DIDDocument/DIDDocument.swift:117 | an array of elements decodes iff every item does, item by item |
| Documents.DecodeEndpoint | Sources/DIDCore/DIDDocument/DIDDocument.swift:108-120 | a string is `.string`; an all-string array is always `.set`; a combo only comes from another array; what decodes re-encodes to the input |
| Documents.EndpointRoundTrip | Sources/DIDCore/DIDDocument/DIDDocument.swift:108-134 | `.string`, `.set`, `.map` and a combo with a map element come back unchanged; a combo of strings comes back as a `.set` |
| Documents.ComboOfStringsReadsAsSet | Sources/DIDCore/DIDDocument/DIDDocument.swift:112-132 | a combo of strings reads back as a `.set` |
| Documents.ComboWithMapRoundTrip | Sources/DIDCore/DIDDocument/DIDDocument.swift:117-132 | a combo holding a map element comes back unchanged |
| Documents.FormatFromKey | Sources/DIDCore/DIDDocument/DIDDocument.swift:254-265 | exactly the three `publicKey*` names succeed; others fail with `invalidMaterialForm(name)` |
| Documents.KeyStringIntendedRoundTrip | Sources/DIDCore/DIDDocument/DIDDocument.swift:254-273 | the intended names and `init(fromKey:)` are inverse bijections |
| Documents.KeyStringSwapped | Sources/DIDCore/DIDDocument/DIDDocument.swift:267-273 | as written, `keyString` survives `init(fromKey:)` only for Base58; JWK and multibase come back exchanged |
| Documents.DecodeKeyMember | Sources/DIDCore/DIDDocument/DIDDocument.swift:199-231 | the winning key member is present and base64url-decodable, and the material's value is its decoded bytes; earlier members did not qualify; failures are a type mismatch or corrupt data |
| Documents.DecodeKeyMemberPriority | Sources/DIDCore/DIDDocument/DIDDocument.swift:199-231 | with readable key members, the first qualifying one of Base58, JWK, multibase wins, and none qualifying is `dataCorrupted` |
| Documents.DecodeMethod | Sources/DIDCore/DIDDocument/DIDDocument.swift:193-232 | a non-object is a type mismatch; an object decodes iff its `id`, `controller` and `type` are strings and its key member decodes, a bad `id` giving that field's error; a decoded method carries those fields |
| Documents.EncodeKeyValue | Sources/DIDCore/DIDDocument/DIDDocument.swift:240-248 | Base58 and multibase are written as text (null when not UTF-8), a JWK as an object |
| Documents.EncodeMethod | Sources/DIDCore/DIDDocument/DIDDocument.swift:234-249 | writes exactly `id`, `controller`, `type` and the one key member named after the format, the first three as the method's own strings |
| Documents.MethodJwkRoundTripFails | Sources/DIDCore/DIDDocument/DIDDocument.swift:193-249 | an encoded JWK method fails to decode with a type mismatch |
| Documents.MethodTextRoundTrip | Sources/DIDCore/DIDDocument/DIDDocument.swift:193-249 | an encoded Base58 or multibase method decodes back only through base64url of its text, otherwise `dataCorrupted` |
| Documents.DecodeMapping | Sources/DIDCore/DIDDocument/DIDDocument.swift:139-147 | a string is a reference; anything else decodes iff it is a verification method |
| Documents.EncodeMapping | Sources/DIDCore/DIDDocument/DIDDocument.swift:149-157 | a reference is written as its string, an embedded method as the method |
| Documents.MappingRoundTrip | Sources/DIDCore/DIDDocument/DIDDocument.swift:139-157 | a reference comes back unchanged; an embedded JWK method fails with a type mismatch |

## Left out

- Foreign encoders: Base58-BTC (`BaseX`), multibase (`BaseEncoding`), base64url (`Data(base64URLEncoded:)`), UTF-8 and `JSONEncoder`/`JSONDecoder` at the byte level are parameters constrained only by their round-trip laws.
- JSON numbers and booleans are one opaque `JOther` case; the output formatting of `JSONEncoder.DIDDocumentEncoder` (sorted keys, slashes) is not modelled.
- `somethingWentWrong` (VerificationMaterial.swift:104-106, 114-116, 132-134, 138-140): UTF-8 encoding of a Swift string never fails, so the model's `utf8Encode` is total and these branches are unreachable.
- `DIDUrl.description` and `id`: they depend on `URLComponents` percent-encoding and on dictionary iteration order.
- The `ExpressibleByStringLiteral` initialisers of `DID` and `DIDUrl`: `fatalError` wrappers around the parsers.
- The synthesized `Codable` of `DIDDocument`, `Service` and `VerificationMaterial`: the records are modelled as datatypes only.
- `getJWKValue`: private and unused.
- The `putUVarInt`/`uVarInt` helpers are not part of this model; they are replaced by a multiformats unsigned varint with the Go reader's limits (at most 10 bytes, values below 2^64).
- Varint.ReadUVarInt: accepts non-minimal encodings such as `[0x80, 0x00]`, as the Go reader does; the multiformats rule rejecting them is not modelled.
- DIDs.IsIdChar: ICU's `\w` is Unicode-aware; the model reads it as ASCII `[A-Za-z0-9_]`.
- DIDUrls.UrlSpec: characters are Unicode scalars, not Swift grapheme clusters; only CR LF, which Swift treats as one character, is handled specially (in the `$` tail).
- Jwks.FromJson: `x5u` is read as a string; the URL validity check of Foundation's `URL` decoding is not modelled, and unknown members are ignored.
- Documents.DecodeElement: every decoding failure is reported as a type mismatch; Foundation reports `valueNotFound` for null instead.
- Documents.DecodeEndpoint: as for elements, all failures are reported as a type mismatch.
- Materials.DecodedKey: the errors of the foreign Base58 and multibase decoders are stood in for by one error each.
- Materials.DecodedKey: uses the corrected multicodec reader; `decodedKey()` as written traps on tags of 2^63 or more (see Findings).
- Documents.DecodeMethod: a null method is reported as a type mismatch; Foundation's `container(keyedBy:)` reports `valueNotFound`.
- The decoders are not modelled below the JSON tree: duplicate JSON members and the byte-level JSON syntax belong to Foundation.

## Findings

| source | as written | input that shows it | evidently intended | confidence | as-written member | corrected member |
|---|---|---|---|---|---|---|
| Sources/DIDCore/DID/DID.swift:22 | ICU's `$` also matches before a final line terminator, so the anchored pattern accepts a DID followed by a newline and drops the newline | `did:example:123\n` parses to `did:example:123`, whose description differs from the input | the whole string must be a DID, so description round-trips | not executed | DIDs.ParseAsWrittenDropsNewline | DIDs.ParseDescription |
| Sources/DIDCore/DIDDocument/DIDDocument.swift:270-271 | `keyString` gives `publicKeyMultibase` for `.jwk` and `publicKeyJwk` for `.multibase` | `.jwk`: `init(fromKey: keyString)` gives `.multibase` | `keyString` inverts `init(fromKey:)`, as the coding keys of `VerificationMethod` do | not executed | Documents.KeyStringSwapped | Documents.KeyStringIntendedRoundTrip |
| Sources/DIDCore/DIDDocument/VerificationMaterial.swift:118-119 | `fromKeyToBase58` tags its Base58 text `.jwk` | any key whose Base58 text is not JSON: `decodedKey()` fails with corrupt data, and `convertToJWK` returns it unchanged | format `.base58`, whose key decodes back | not executed | Materials.FromKeyToBase58Mistagged | Materials.DecodedKeyFromKeyToBase58 |
| Sources/DIDCore/Helper/Multicodec.swift:25 | `Int(prefix)` converts the 64-bit varint value and traps for values of 2^63 and more | bytes `80 80 80 80 80 80 80 80 80 01` (the varint of 2^63) | an unknown code is `invalidCodec` | not executed | Multicodec.FromMulticodecTraps | Multicodec.FromMulticodec |
