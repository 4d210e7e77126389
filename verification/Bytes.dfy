/** Bytes, big-endian integers and bit masks, as the wire formats use them. */
module Bytes {
  type byte = x: int | 0 <= x < 0x100
  type uint16 = x: int | 0 <= x < 0x1_0000
  type uint32 = x: int | 0 <= x < 0x1_0000_0000

  const UINT32_MAX := 0xFFFF_FFFF
  const TWO_32 := 0x1_0000_0000
  const TWO_64 := 0x1_0000_0000_0000_0000

  function WriteU16(value: uint16): (r: seq<byte>)
    ensures |r| == 2
  {
    [value / 0x100, value % 0x100]
  }

  function WriteU32(value: uint32): (r: seq<byte>)
    ensures |r| == 4
  {
    [value / 0x100_0000, value / 0x1_0000 % 0x100, value / 0x100 % 0x100, value % 0x100]
  }

  function ReadU16(bytes: seq<byte>, at: nat): uint16
    requires at + 2 <= |bytes|
  {
    bytes[at] as int * 0x100 + bytes[at + 1] as int
  }

  function ReadU32(bytes: seq<byte>, at: nat): uint32
    requires at + 4 <= |bytes|
  {
    bytes[at] as int * 0x100_0000 + bytes[at + 1] as int * 0x1_0000 +
    bytes[at + 2] as int * 0x100 + bytes[at + 3] as int
  }

  lemma U16RoundTrip(value: uint16, before: seq<byte>, after: seq<byte>)
    ensures ReadU16(before + WriteU16(value) + after, |before|) == value
  {
  }

  lemma U32RoundTrip(value: uint32, before: seq<byte>, after: seq<byte>)
    ensures ReadU32(before + WriteU32(value) + after, |before|) == value
  {
    Digits(value);
    var bytes := before + WriteU32(value) + after;
    assert forall k | 0 <= k < 4 :: bytes[|before| + k] == WriteU32(value)[k];
  }

  lemma Digits(value: uint32)
    ensures value / 0x100_0000 * 0x100_0000 + value / 0x1_0000 % 0x100 * 0x1_0000 +
            value / 0x100 % 0x100 * 0x100 + value % 0x100 == value
  {
    var a, b := value / 0x100, value / 0x1_0000;
    assert value == a * 0x100 + value % 0x100;
    assert a / 0x100 == b && b / 0x100 == value / 0x100_0000;
  }

  /** The number whose bit i is bits[i]. */
  function MaskOf(bits: seq<bool>): nat {
    if bits == [] then 0 else (if bits[0] then 1 else 0) + 2 * MaskOf(bits[1..])
  }

  predicate TestBit(mask: nat, bit: nat) {
    if bit == 0 then mask % 2 == 1 else TestBit(mask / 2, bit - 1)
  }

  function Pow2(n: nat): (p: nat)
    ensures p >= 1
  {
    if n == 0 then 1 else 2 * Pow2(n - 1)
  }

  lemma {:induction false} MaskBits(bits: seq<bool>, bit: nat)
    requires bit < |bits|
    ensures TestBit(MaskOf(bits), bit) == bits[bit]
  {
    if bit > 0 {
      MaskBits(bits[1..], bit - 1);
    }
  }

  lemma {:induction false} MaskBound(bits: seq<bool>)
    ensures MaskOf(bits) < Pow2(|bits|)
  {
    if bits != [] {
      MaskBound(bits[1..]);
    }
  }

  /** Setting the next higher bit adds its power of two. */
  lemma {:induction false} MaskAppend(bits: seq<bool>, bit: bool)
    ensures MaskOf(bits + [bit]) == MaskOf(bits) + (if bit then Pow2(|bits|) else 0)
  {
    if bits != [] {
      assert (bits + [bit])[1..] == bits[1..] + [bit];
      MaskAppend(bits[1..], bit);
    }
  }
}
