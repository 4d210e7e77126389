/** The checksum of a frame, byte by byte. */
module Crc {
  import opened Bytes
  import opened CrcWords

  function Wide(b: byte): bv32 {
    (b as bv8) as bv32
  }

  function Mix(crc: bv32, b: byte): bv32 {
    crc ^ Wide(b)
  }

  function CrcSteps(crc: bv32, steps: nat): bv32 {
    if steps == 0 then crc else CrcStep(CrcSteps(crc, steps - 1))
  }

  function CrcState(bytes: seq<byte>): bv32 {
    if bytes == [] then 0xffff_ffff
    else CrcSteps(Mix(CrcState(bytes[..|bytes| - 1]), bytes[|bytes| - 1]), 8)
  }

  function Crc32(bytes: seq<byte>): bv32 {
    0xffff_ffff ^ CrcState(bytes)
  }

  method ComputeCrc(bytes: seq<byte>) returns (crc: bv32)
    ensures crc == Crc32(bytes)
  {
    hide CrcStep, Mix;
    var state: bv32 := 0xffff_ffff;
    for i := 0 to |bytes|
      invariant state == CrcState(bytes[..i])
    {
      state := Mix(state, bytes[i]);
      ghost var start := state;
      for bit := 0 to 8
        invariant state == CrcSteps(start, bit)
      {
        state := CrcStep(state);
      }
      assert bytes[..i + 1][..i] == bytes[..i];
    }
    assert bytes[..|bytes|] == bytes;
    crc := 0xffff_ffff ^ state;
  }
}
