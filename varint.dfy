/** The unsigned variable-length integer of the multiformats project (LEB128): seven bits
    per byte, least significant group first, the high bit set on every byte but the last.
    The library calls `putUVarInt` and `uVarInt` without defining them; they are written
    here after Go's `encoding/binary` (`PutUvarint`, `Uvarint`), whose reader accepts at
    most ten bytes and rejects values of 2^64 and more. */
module Varint {
  import opened Wrappers
  import opened Encodings

  const MaxVarintLen64: nat := 10
  const TwoTo64: nat := 0x1_0000_0000_0000_0000

  /** Swift's `UInt64`. */
  type uint64 = x: int | 0 <= x < TwoTo64

  /** The encoding of `n`. */
  function UVarInt(n: nat): bytes
    decreases n
  {
    if n < 0x80 then [n] else [n % 0x80 + 0x80] + UVarInt(n / 0x80)
  }

  /** The continuation bit is set on every byte of an encoding except the last. */
  lemma {:induction false} UVarIntShape(n: nat)
    ensures |UVarInt(n)| >= 1 && UVarInt(n)[|UVarInt(n)| - 1] < 0x80
    ensures forall k :: 0 <= k < |UVarInt(n)| - 1 ==> UVarInt(n)[k] >= 0x80
    decreases n
  {
    if n >= 0x80 {
      UVarIntShape(n / 0x80);
    }
  }

  function Pow128(k: nat): nat {
    if k == 0 then 1 else 0x80 * Pow128(k - 1)
  }

  /** 128^k is written as k bytes holding only the continuation bit, then 1. */
  lemma {:induction false} UVarIntPow128(k: nat)
    ensures UVarInt(Pow128(k)) == seq(k, _ => 0x80) + [1]
  {
    if k > 0 {
      var p := Pow128(k - 1);
      var x := Pow128(k);
      assert x == 0x80 * p;
      UVarIntPow128(k - 1);
      PowPositive(k - 1);
      assert x % 0x80 == 0 && x / 0x80 == p;
      UVarIntStep(x, 0, p);
      var zeros: bytes := seq(k - 1, _ => 0x80);
      assert seq(k, _ => 0x80) == [0x80] + zeros;
    }
  }

  lemma {:induction false} PowPositive(k: nat)
    ensures Pow128(k) >= 1
  {
    if k > 0 {
      PowPositive(k - 1);
    }
  }

  /** A value below 128^k takes at most k bytes. */
  lemma {:induction false} UVarIntLength(n: nat, k: nat)
    requires 1 <= k && n < Pow128(k)
    ensures |UVarInt(n)| <= k
    decreases k
  {
    if n >= 0x80 {
      assert k > 1;
      UVarIntLength(n / 0x80, k - 1);
    }
  }

  /** Every 64-bit value fits the reader's ten-byte limit. */
  lemma UVarIntFits(n: uint64)
    ensures |UVarInt(n)| <= MaxVarintLen64
  {
    assert Pow128(10) == 0x40_0000_0000_0000_0000;
    UVarIntLength(n, 10);
  }

  /** One step of the encoding: the low seven bits with the continuation bit, then the rest. */
  lemma UVarIntStep(x: nat, low: nat, high: nat)
    requires x >= 0x80 && low == x % 0x80 && high == x / 0x80
    ensures low + 0x80 < 0x100
    ensures UVarInt(x) == [low + 0x80] + UVarInt(high)
    ensures high < x
  {
  }

  /** `putUVarInt`: emits the low seven bits with the continuation bit while the value
      does not fit in seven bits, then the last byte. */
  method PutUVarInt(n: uint64) returns (buf: bytes)
    ensures buf == UVarInt(n)
    ensures 1 <= |buf| <= MaxVarintLen64
  {
    buf := [];
    var x: nat := n;
    while x >= 0x80
      invariant buf + UVarInt(x) == UVarInt(n)
      decreases x
    {
      var low, high := x % 0x80, x / 0x80;
      UVarIntStep(x, low, high);
      assert buf + [low + 0x80] + UVarInt(high) == buf + ([low + 0x80] + UVarInt(high));
      buf := buf + [low + 0x80];
      x := high;
    }
    buf := buf + [x];
    UVarIntFits(n);
  }

  /** The value of the varint at the front of `buf` and the number of bytes it takes,
      reading at most `limit` bytes; `None` when no byte without the continuation bit
      comes in time. */
  function ReadGroups(buf: bytes, limit: nat): (r: Option<(nat, nat)>)
    ensures r.Some? ==> 1 <= r.value.1 <= limit && r.value.1 <= |buf|
    ensures r.Some? ==> r.value.0 < Pow128(r.value.1)
    ensures r.Some? ==> buf[r.value.1 - 1] < 0x80
    ensures r.Some? && r.value.0 == 0 ==> buf[r.value.1 - 1] == 0
    decreases limit
  {
    if limit == 0 || buf == [] then None
    else if buf[0] < 0x80 then Some((buf[0], 1))
    else
      match ReadGroups(buf[1..], limit - 1)
      case None => None
      case Some((v, k)) => Some((buf[0] - 0x80 + 0x80 * v, k + 1))
  }

  /** `uVarInt`: the value and length of the varint at the front of `buf`, or `None` when
      the buffer ends too early, the varint is longer than ten bytes, or the value does
      not fit in 64 bits. */
  function ReadUVarInt(buf: bytes): (r: Option<(uint64, nat)>)
    ensures r.Some? ==> 1 <= r.value.1 <= |buf| && r.value.1 <= MaxVarintLen64
    ensures r.Some? ==> ReadGroups(buf, MaxVarintLen64) == Some((r.value.0 as nat, r.value.1))
    ensures r.None? ==> ReadGroups(buf, MaxVarintLen64).None? || ReadGroups(buf, MaxVarintLen64).value.0 >= TwoTo64
  {
    match ReadGroups(buf, MaxVarintLen64)
    case None => None
    case Some((v, k)) => if v < TwoTo64 then Some((v, k)) else None
  }

  lemma {:induction false} ReadGroupsUVarInt(n: nat, rest: bytes, limit: nat)
    requires |UVarInt(n)| <= limit
    ensures ReadGroups(UVarInt(n) + rest, limit) == Some((n, |UVarInt(n)|))
    decreases n
  {
    var buf := UVarInt(n) + rest;
    if n >= 0x80 {
      assert buf[1..] == UVarInt(n / 0x80) + rest;
      ReadGroupsUVarInt(n / 0x80, rest, limit - 1);
    }
  }

  /** Reading an encoding back gives the value and the encoding's length, whatever follows. */
  lemma ReadPutUVarInt(n: uint64, rest: bytes)
    ensures ReadUVarInt(UVarInt(n) + rest) == Some((n, |UVarInt(n)|))
  {
    UVarIntFits(n);
    ReadGroupsUVarInt(n, rest, MaxVarintLen64);
  }

  /** Conversely, a varint that is not padded with a zero last byte is the encoding of
      the value read from it. */
  lemma {:induction false} ReadGroupsMinimal(buf: bytes, limit: nat)
    requires ReadGroups(buf, limit).Some?
    requires var k := ReadGroups(buf, limit).value.1; k == 1 || buf[k - 1] != 0
    ensures buf[..ReadGroups(buf, limit).value.1] == UVarInt(ReadGroups(buf, limit).value.0)
    decreases limit
  {
    var r := ReadGroups(buf, limit).value;
    if buf[0] >= 0x80 {
      var t := ReadGroups(buf[1..], limit - 1).value;
      ReadGroupsMinimal(buf[1..], limit - 1);
      assert t.0 >= 1;
      var low := buf[0] - 0x80;
      assert r.0 == low + 0x80 * t.0 && 0 <= low < 0x80;
      assert r.0 % 0x80 == low && r.0 / 0x80 == t.0;
      UVarIntStep(r.0, low, t.0);
      assert buf[..r.1] == [buf[0]] + buf[1..][..t.1];
    }
  }
}
