/** What damage the checksum of a raw frame cannot miss. */
module FrameDamage {
  import opened Common
  import opened Bytes
  import opened Crc
  import opened LightFrames
  import CrcDivision

  /** How many bytes of a raw frame the checksum covers. */
  function Covered(raw: seq<byte>): nat
    requires |raw| == RAW_BYTES
  {
    HEADER_BYTES + ReadU16(raw, 12)
  }

  lemma NumberTells(x: bv32, y: bv32)
    requires x != y
    ensures Number(x) != Number(y)
  {
    NumberReturns(x);
    NumberReturns(y);
  }

  lemma NumberReturns(x: bv32)
    ensures (x as int) as bv32 == x
  {
  }

  lemma LengthSame(raw: seq<byte>, hurt: seq<byte>)
    requires |raw| == |hurt| == RAW_BYTES && hurt[12..14] == raw[12..14]
    ensures ReadU16(hurt, 12) == ReadU16(raw, 12)
  {
    assert hurt[12] == hurt[12..14][0] && raw[12] == raw[12..14][0];
    assert hurt[13] == hurt[12..14][1] && raw[13] == raw[12..14][1];
  }

  lemma ChecksumSame(raw: seq<byte>, hurt: seq<byte>, from: nat)
    requires |raw| == |hurt| == RAW_BYTES && from <= RAW_BYTES - 4 && hurt[from..] == raw[from..]
    ensures ReadU32(hurt, RAW_BYTES - 4) == ReadU32(raw, RAW_BYTES - 4)
  {
    assert forall i | RAW_BYTES - 4 <= i < RAW_BYTES :: hurt[i] == hurt[from..][i - from] && raw[i] == raw[from..][i - from];
  }

  /**
   A raw frame that reads well, damaged inside 32 consecutive bits of what the
   checksum covers, is refused; only its length field must be unharmed.
   */
  lemma BurstIsRefused(raw: seq<byte>, hurt: seq<byte>, at: nat, length: nat)
    requires |raw| == |hurt| == RAW_BYTES && ReadRaw(raw).0 == Ok
    requires hurt != raw && hurt[12..14] == raw[12..14] && length <= 32
    requires Covered(raw) <= RAW_BYTES && hurt[Covered(raw)..] == raw[Covered(raw)..]
    requires CrcDivision.AgreeOutside(raw[..Covered(raw)], hurt[..Covered(raw)], at, length)
    ensures ReadRaw(hurt).0 == if hurt[..3] == raw[..3] then ErrCrc else ErrHeader
  {
    hide Crc32, Number, ReadU16, ReadU32, CrcDivision.AgreeOutside;
    var covered := Covered(raw);
    LengthSame(raw, hurt);
    ChecksumSame(raw, hurt, covered);
    assert raw == raw[..covered] + raw[covered..] && hurt == hurt[..covered] + hurt[covered..];
    CrcDivision.BurstIsCaught(raw[..covered], hurt[..covered], at, length);
    NumberTells(Crc32(raw[..covered]), Crc32(hurt[..covered]));
    assert hurt[..3] == [hurt[0], hurt[1], hurt[2]] && raw[..3] == [raw[0], raw[1], raw[2]];
  }

  /** So is one with one wrong byte there. */
  lemma WrongByteIsRefused(raw: seq<byte>, i: nat, b: byte)
    requires |raw| == RAW_BYTES && ReadRaw(raw).0 == Ok && i < Covered(raw) <= RAW_BYTES && i != 12 && i != 13 && b != raw[i]
    ensures ReadRaw(raw[i := b]).0 == if i < 3 then ErrHeader else ErrCrc
  {
    hide Crc32, Number, ReadU16, ReadU32, ReadRaw, CrcDivision.AgreeOutside;
    var hurt, covered := raw[i := b], Covered(raw);
    var x, y := raw[..covered], hurt[..covered];
    assert x[..i] == y[..i] && x[i + 1..] == y[i + 1..];
    CrcDivision.BytesAreBits(x, y, i, 1);
    assert hurt[i] != raw[i];
    BurstIsRefused(raw, hurt, 8 * i, 8);
    if i < 3 {
      assert hurt[..3][i] != raw[..3][i];
    } else {
      assert hurt[..3] == raw[..3];
    }
  }
}
