/** Option and Result, the two failure-carrying wrappers the model uses for Swift's
    optionals (`init?`, `T?`) and for `throws`. */
module Wrappers {

  datatype Option<+T> = None | Some(value: T)

  datatype Result<+T, +E> = Success(value: T) | Failure(error: E) {
    predicate IsFailure() { Failure? }

    function PropagateFailure<U>(): Result<U, E>
      requires Failure?
    {
      Failure(error)
    }

    function Extract(): T
      requires Success?
    {
      value
    }
  }
}

/** The errors the core can report.  The first six are the cases of the library's own
    `DIDCoreError`; the others stand for the errors thrown by Foundation's JSON decoder
    and by the foreign Base58 and multibase decoders. */
module Errors {

  datatype Error =
    | SomethingWentWrong
    | InvalidJWKMaterialType(typeName: string)
    | InvalidCodec
    | InvalidMaterialForm(key: string)
    | UnsupportedJWKKeyDecoding
    | InvalidBase64URLKey
      // Foundation's `DecodingError` cases
    | KeyNotFound(key: string)
    | ValueNotFound(key: string)
    | TypeMismatch
    | DataCorrupted
      // thrown by the Base58-BTC and multibase packages on malformed text
    | Base58DecodingFailed
    | MultibaseDecodingFailed
}
