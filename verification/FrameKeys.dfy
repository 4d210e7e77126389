/** The key stream that whitens a raw frame. */
module FrameKeys {
  import opened Bytes
  import opened ByteBits
  import opened LightFrames

  lemma DrawIsNotZero(state: bv32)
    ensures DrawKey(state) != 0
  {
    var v: bv32 := if state == 0 then 0x6d2b_79f5 else state;
    FirstShift(v);
    SecondShift(v ^ (v << 13));
    ThirdShift((v ^ (v << 13)) ^ ((v ^ (v << 13)) >> 17));
  }

  lemma FirstShift(v: bv32)
    requires v != 0
    ensures v ^ (v << 13) != 0
  {
  }

  lemma SecondShift(v: bv32)
    requires v != 0
    ensures v ^ (v >> 17) != 0
  {
  }

  lemma ThirdShift(v: bv32)
    requires v != 0
    ensures v ^ (v << 5) != 0
  {
  }

  /** The generator of the key never runs dry. */
  lemma KeyIsNotZero(n: nat)
    ensures KeyState(n) != 0
  {
    hide DrawKey;
    if n > 0 {
      DrawIsNotZero(KeyState(n - 1));
    }
  }

  /** The key begins with these bytes. */
  lemma KeyBegins()
    ensures KeyByte(KeyState(1)) == 231 && KeyByte(KeyState(2)) == 144 && KeyByte(KeyState(3)) == 237 && KeyByte(KeyState(4)) == 167
  {
    assert KeyState(1) == 0xe72af33e;
    assert KeyState(2) == 0x90e09c98;
    assert KeyState(3) == 0xed087901;
    assert KeyState(4) == 0xa72d2ab5;
  }

  lemma {:induction false} XorOfZero(b: nat, bits: nat)
    requires b < Pow2(bits)
    ensures XorLow(0, b, bits) == b
  {
    if bits > 0 {
      XorOfZero(b / 2, bits - 1);
    }
  }

  /** Whitening is taking the key on: zeros become the key itself. */
  lemma ZerosShowKey(n: nat, i: nat)
    requires i < n
    ensures Keyed(Zeros(n))[i] == KeyByte(KeyState(i + 1))
  {
    hide KeyState, KeyByte;
    ByteRange();
    XorOfZero(KeyByte(KeyState(i + 1)), 8);
  }
}
