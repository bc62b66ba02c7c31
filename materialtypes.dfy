/** `KnownVerificationMaterialType`: a key type on one of two axes, key agreement or
    authentication, each a closed list of verification-method type names. */
module MaterialTypes {
  import opened Wrappers

  datatype AgreementType =
    | JsonWebKey2020
    | X25519KeyAgreementKey2019
    | X25519KeyAgreementKey2020

  datatype AuthenticationType =
    | JsonWebKey2020
    | Ed25519VerificationKey2018
    | Ed25519VerificationKey2020
    | EcdsaSecp256k1VerificationKey2019
    | Bls12381G1Key2020
    | Bls12382G2Key2020
    | PgpVerificationKey2021
    | EcdsaSecp256k1RecoveryMethod2020
    | VerifiableCondition2021

  datatype KnownType = Agreement(agreement: AgreementType) | Authentication(authentication: AuthenticationType)

  function AgreementRaw(a: AgreementType): string {
    match a
    case JsonWebKey2020 => "JsonWebKey2020"
    case X25519KeyAgreementKey2019 => "X25519KeyAgreementKey2019"
    case X25519KeyAgreementKey2020 => "X25519KeyAgreementKey2020"
  }

  function AuthenticationRaw(t: AuthenticationType): string {
    match t
    case JsonWebKey2020 => "JsonWebKey2020"
    case Ed25519VerificationKey2018 => "Ed25519VerificationKey2018"
    case Ed25519VerificationKey2020 => "Ed25519VerificationKey2020"
    case EcdsaSecp256k1VerificationKey2019 => "EcdsaSecp256k1VerificationKey2019"
    case Bls12381G1Key2020 => "Bls12381G1Key2020"
    case Bls12382G2Key2020 => "Bls12382G2Key2020"
    case PgpVerificationKey2021 => "PgpVerificationKey2021"
    case EcdsaSecp256k1RecoveryMethod2020 => "EcdsaSecp256k1RecoveryMethod2020"
    case VerifiableCondition2021 => "VerifiableCondition2021"
  }

  /** `AgreementType(rawValue:)`: the case whose name is `s`. */
  function AgreementFromRaw(s: string): (r: Option<AgreementType>)
    ensures r.Some? ==> AgreementRaw(r.value) == s
    ensures forall a: AgreementType :: AgreementRaw(a) == s ==> r == Some(a)
  {
    if s == "JsonWebKey2020" then Some(AgreementType.JsonWebKey2020)
    else if s == "X25519KeyAgreementKey2019" then Some(X25519KeyAgreementKey2019)
    else if s == "X25519KeyAgreementKey2020" then Some(X25519KeyAgreementKey2020)
    else None
  }

  /** `AuthenticationType(rawValue:)`: the case whose name is `s`. */
  function AuthenticationFromRaw(s: string): (r: Option<AuthenticationType>)
    ensures r.Some? ==> AuthenticationRaw(r.value) == s
    ensures forall t: AuthenticationType :: AuthenticationRaw(t) == s ==> r == Some(t)
  {
    if s == "JsonWebKey2020" then Some(AuthenticationType.JsonWebKey2020)
    else if s == "Ed25519VerificationKey2018" then Some(Ed25519VerificationKey2018)
    else if s == "Ed25519VerificationKey2020" then Some(Ed25519VerificationKey2020)
    else if s == "EcdsaSecp256k1VerificationKey2019" then Some(EcdsaSecp256k1VerificationKey2019)
    else if s == "Bls12381G1Key2020" then Some(Bls12381G1Key2020)
    else if s == "Bls12382G2Key2020" then Some(Bls12382G2Key2020)
    else if s == "PgpVerificationKey2021" then Some(PgpVerificationKey2021)
    else if s == "EcdsaSecp256k1RecoveryMethod2020" then Some(EcdsaSecp256k1RecoveryMethod2020)
    else if s == "VerifiableCondition2021" then Some(VerifiableCondition2021)
    else None
  }

  /** `rawValue`: the name of the case on either axis. */
  function RawValue(t: KnownType): string {
    match t
    case Agreement(a) => AgreementRaw(a)
    case Authentication(a) => AuthenticationRaw(a)
  }

  /** `init?(rawValue:)`: the agreement axis is tried first, then authentication. */
  function FromRawValue(s: string): (r: Option<KnownType>)
    ensures r.Some? ==> RawValue(r.value) == s
    ensures r.None? <==> forall t: KnownType :: RawValue(t) != s
    ensures r.Some? && r.value.Authentication? ==> forall a: AgreementType :: AgreementRaw(a) != s
  {
    match AgreementFromRaw(s)
    case Some(a) => Some(Agreement(a))
    case None =>
      match AuthenticationFromRaw(s)
      case Some(t) => Some(Authentication(t))
      case None => None
  }

  /** Reading a type back from its name gives it back, except for the one name shared by
      both axes, which always reads back as key agreement. */
  lemma RawValueRoundTrip(t: KnownType)
    ensures FromRawValue(RawValue(t)) == Some(t) <==> t != Authentication(AuthenticationType.JsonWebKey2020)
    ensures t == Authentication(AuthenticationType.JsonWebKey2020) ==>
      FromRawValue(RawValue(t)) == Some(Agreement(AgreementType.JsonWebKey2020))
  {
    if t.Authentication? && t != Authentication(AuthenticationType.JsonWebKey2020) {
      assert forall a: AgreementType :: AgreementRaw(a) != RawValue(t) by {
        forall a: AgreementType ensures AgreementRaw(a) != RawValue(t) {
          assert AgreementRaw(a)[0] != RawValue(t)[0];
        }
      }
    }
  }

  function IsAuthentication(t: KnownType): (r: bool)
    ensures r <==> t.Authentication?
  {
    match t
    case Agreement(_) => false
    case Authentication(_) => true
  }

  function IsAgreement(t: KnownType): (r: bool)
    ensures r <==> t.Agreement?
  {
    match t
    case Agreement(_) => true
    case Authentication(_) => false
  }

  /** Every type lies on exactly one axis. */
  lemma OneAxis(t: KnownType)
    ensures IsAuthentication(t) == !IsAgreement(t)
  {
  }

  /** The `jsonWebKey2020` case of either axis. */
  predicate IsJsonWebKey2020(t: KnownType) {
    t == Agreement(AgreementType.JsonWebKey2020) || t == Authentication(AuthenticationType.JsonWebKey2020)
  }
}
