/** Exclusive or of bytes, bit by bit. */
module ByteBits {
  import opened Bytes

  function Byte8(x: bv8): byte { x as int }

  /** Exclusive or of the lowest `bits` bits. */
  function XorLow(a: nat, b: nat, bits: nat): (x: nat)
    ensures x < Pow2(bits)
  {
    if bits == 0 then 0 else 2 * XorLow(a / 2, b / 2, bits - 1) + if a % 2 != b % 2 then 1 else 0
  }

  lemma {:induction false} XorCancels(a: nat, b: nat, bits: nat)
    requires a < Pow2(bits)
    ensures XorLow(XorLow(a, b, bits), b, bits) == a
  {
    if bits > 0 {
      XorCancels(a / 2, b / 2, bits - 1);
      var x := XorLow(a, b, bits);
      assert x / 2 == XorLow(a / 2, b / 2, bits - 1);
    }
  }

  function XorByte(a: byte, b: byte): byte {
    assert Pow2(8) == 256 by { ByteRange(); }
    XorLow(a, b, 8)
  }

  lemma ByteRange()
    ensures Pow2(8) == 256
  {
    assert Pow2(4) == 16;
  }

  lemma XorTwice(a: byte, b: byte)
    ensures XorByte(XorByte(a, b), b) == a
  {
    ByteRange();
    XorCancels(a, b, 8);
  }
}
