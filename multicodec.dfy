/** Multicodec tagging: a key is prefixed with the varint of its codec's code from the
    multiformats multicodec table (0xEC x25519-pub, 0xED ed25519-pub). */
module Multicodec {
  import opened Wrappers
  import opened Errors
  import opened Encodings
  import opened Varint
  import opened MaterialTypes

  datatype Codec = X25519 | ED25519

  /** `Codec.rawValue`: the multicodec code. */
  function CodecRaw(c: Codec): int {
    match c
    case X25519 => 0xEC
    case ED25519 => 0xED
  }

  /** `Codec(rawValue:)`: exactly the two codes of the table are codecs. */
  function CodecFromRaw(raw: int): (r: Option<Codec>)
    ensures r.Some? <==> raw == 0xEC || raw == 0xED
    ensures r.Some? ==> CodecRaw(r.value) == raw
  {
    if raw == 0xEC then Some(X25519) else if raw == 0xED then Some(ED25519) else None
  }

  lemma CodecRawRoundTrip(c: Codec)
    ensures CodecFromRaw(CodecRaw(c)) == Some(c)
  {
  }

  /** Both codes are written as two bytes: the low seven bits with the continuation bit
      (which gives the code's own byte back), then 1. */
  lemma TagIsTwoBytes(c: Codec)
    ensures UVarInt(CodecRaw(c)) == [CodecRaw(c), 1]
  {
    var n := CodecRaw(c);
    assert n % 0x80 + 0x80 == n && n / 0x80 == 1;
    assert UVarInt(1) == [1];
  }

  /** `toMulticodec(value:codec:)`: the varint of the code, then the value.  Both codes
      need two bytes, the low seven bits with the continuation bit and then 1. */
  function ToMulticodec(value: bytes, codec: Codec): (r: bytes)
    ensures |r| == |value| + 2
    ensures r[..2] == [CodecRaw(codec), 1] && r[2..] == value
  {
    TagIsTwoBytes(codec);
    UVarInt(CodecRaw(codec)) + value
  }

  /** `fromMulticodec(value:)`: reads the varint at the front, looks the code up in the
      table, and returns the codec with the bytes after the varint.  A varint that cannot
      be read, or a code outside the table, is `invalidCodec`. */
  function FromMulticodec(value: bytes): (r: Result<(Codec, bytes), Error>)
    ensures r.Failure? ==> r.error == InvalidCodec
    ensures r.Success? <==> ReadUVarInt(value).Some? && CodecFromRaw(ReadUVarInt(value).value.0).Some?
    ensures r.Success? ==>
      var (code, read) := ReadUVarInt(value).value;
      CodecRaw(r.value.0) == code && r.value.1 == value[read..]
  {
    match ReadUVarInt(value)
    case None => Failure(InvalidCodec)
    case Some((prefix, read)) =>
      match CodecFromRaw(prefix)
      case None => Failure(InvalidCodec)
      case Some(codec) => Success((codec, value[read..]))
  }

  /** Stripping the tag gives back the codec and the untouched value. */
  lemma FromToMulticodec(value: bytes, codec: Codec)
    ensures FromMulticodec(ToMulticodec(value, codec)) == Success((codec, value))
  {
    ReadPutUVarInt(CodecRaw(codec), value);
  }

  /** A tagged buffer whose varint ends at the second byte is the two-byte tag of the codec
      read, then the data returned. */
  lemma FromMulticodecShape(value: bytes)
    requires FromMulticodec(value).Success?
    requires |value| >= 2 && value[1] < 0x80
    ensures value == [CodecRaw(FromMulticodec(value).value.0), 1] + FromMulticodec(value).value.1
  {
    var (code, read) := ReadUVarInt(value).value;
    ReadGroupsMinimal(value, MaxVarintLen64);
    assert value[..read] == UVarInt(code);
    assert value == value[..read] + value[read..];
  }

  /** `getCodec(keyType:)`: total, by axis. */
  function CodecFor(keyType: KnownType): (r: Codec)
    ensures r == ED25519 <==> IsAuthentication(keyType)
    ensures r == X25519 <==> IsAgreement(keyType)
  {
    match keyType
    case Authentication(_) => ED25519
    case Agreement(_) => X25519
  }

  /** `toMulticodec(value:keyType:)`: tagged with the codec of the key type's axis. */
  function ToMulticodecForKeyType(value: bytes, keyType: KnownType): (r: bytes)
    ensures r == ToMulticodec(value, CodecFor(keyType))
    ensures FromMulticodec(r) == Success((CodecFor(keyType), value))
  {
    FromToMulticodec(value, CodecFor(keyType));
    ToMulticodec(value, CodecFor(keyType))
  }

  /** `fromMulticodec` exactly as written converts the 64-bit code with `Int(prefix)`,
      which traps for codes of 2^63 and more: `None` stands for the trap. */
  function FromMulticodecAsWritten(value: bytes): (r: Option<Result<(Codec, bytes), Error>>)
    ensures r.None? <==> ReadUVarInt(value).Some? && ReadUVarInt(value).value.0 >= TwoTo63
    ensures r.Some? ==> r.value == FromMulticodec(value)
  {
    match ReadUVarInt(value)
    case Some((prefix, _)) => if prefix >= TwoTo63 then None else Some(FromMulticodec(value))
    case None => Some(FromMulticodec(value))
  }

  const TwoTo63: nat := 0x8000_0000_0000_0000

  /** The discrepancy: nine continuation bytes and a final 1 encode 2^63, on which the
      conversion traps, where every other code outside the table is `invalidCodec`. */
  lemma FromMulticodecTraps(value: bytes)
    requires value == [0x80, 0x80, 0x80, 0x80, 0x80, 0x80, 0x80, 0x80, 0x80, 0x01]
    ensures FromMulticodecAsWritten(value).None?
    ensures FromMulticodec(value) == Failure(InvalidCodec)
  {
    assert Pow128(9) == TwoTo63;
    UVarIntPow128(9);
    assert value == UVarInt(TwoTo63) + [];
    ReadPutUVarInt(TwoTo63, []);
  }
}
