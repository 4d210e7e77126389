/** Bytes as bits, most significant first. */
module BitPacking {
  import opened Arithmetic
  import opened Bytes
  import opened ConvolutionalCode

  function BitOf(b: byte, k: nat): bit
    requires k < 8
  {
    b / Pow2(7 - k) % 2
  }

  function ToBits(bytes: seq<byte>): (bits: Word)
    ensures |bits| == 8 * |bytes|
  {
    seq(8 * |bytes|, i requires 0 <= i < 8 * |bytes| => BitOf(bytes[i / 8], i % 8))
  }

  /** The number the bits spell, the first one highest. */
  function Value(bits: Word): (v: nat)
    ensures v < Pow2(|bits|)
  {
    if bits == [] then 0 else 2 * Value(bits[..|bits| - 1]) + bits[|bits| - 1]
  }

  function ByteAt(bits: Word, i: nat): byte
    requires 8 * i + 8 <= |bits|
  {
    assert Pow2(8) == 256 by { Powers(); }
    Value(bits[8 * i..8 * i + 8])
  }

  function FromBits(bits: Word): (bytes: seq<byte>)
    requires |bits| % 8 == 0
    ensures |bytes| == |bits| / 8
  {
    seq(|bits| / 8, i requires 0 <= i < |bits| / 8 => ByteAt(bits, i))
  }

  lemma Powers()
    ensures Pow2(0) == 1 && Pow2(1) == 2 && Pow2(2) == 4 && Pow2(3) == 8 && Pow2(4) == 16
    ensures Pow2(5) == 32 && Pow2(6) == 64 && Pow2(7) == 128 && Pow2(8) == 256
  {
  }

  lemma Halves(b: nat, p: nat)
    requires p > 0
    ensures b / p == 2 * (b / (2 * p)) + b / p % 2
  {
    var q := b / (2 * p);
    var r := b % (2 * p);
    assert b == 2 * p * q + r;
    if r < p {
      assert b == p * (2 * q) + r;
      DivModUnique(b, p, 2 * q, r);
    } else {
      assert b == p * (2 * q + 1) + (r - p);
      DivModUnique(b, p, 2 * q + 1, r - p);
    }
  }

  lemma BitHalves(b: byte, k: nat)
    requires 1 <= k <= 8
    ensures b / Pow2(8 - k) == 2 * (b / Pow2(8 - (k - 1))) + BitOf(b, k - 1)
  {
    assert Pow2(8 - (k - 1)) == 2 * Pow2(8 - k);
    hide Pow2;
    Halves(b, Pow2(8 - k));
  }

  /** The first k bits of a byte spell its high part. */
  lemma {:induction false} HighBits(b: byte, bits: Word, k: nat)
    requires k <= 8 && |bits| == 8 && forall j | 0 <= j < 8 :: bits[j] == BitOf(b, j)
    ensures Value(bits[..k]) == b / Pow2(8 - k)
  {
    hide BitOf, Pow2;
    if k == 0 {
      Powers();
    } else {
      HighBits(b, bits, k - 1);
      BitHalves(b, k);
      ValueNext(bits, k - 1);
    }
  }

  lemma BitsOfByte(bytes: seq<byte>, i: nat)
    requires i < |bytes|
    ensures forall j | 0 <= j < 8 :: ToBits(bytes)[8 * i..8 * i + 8][j] == BitOf(bytes[i], j)
  {
    hide BitOf;
    forall j | 0 <= j < 8 ensures ToBits(bytes)[8 * i..8 * i + 8][j] == BitOf(bytes[i], j) {
      assert (8 * i + j) / 8 == i && (8 * i + j) % 8 == j;
    }
  }

  lemma FromBitsUndoes(bytes: seq<byte>)
    ensures FromBits(ToBits(bytes)) == bytes
  {
    hide BitOf, Value, ToBits, Pow2;
    forall i | 0 <= i < |bytes|
      ensures FromBits(ToBits(bytes))[i] == bytes[i]
    {
      var eight := ToBits(bytes)[8 * i..8 * i + 8];
      BitsOfByte(bytes, i);
      HighBits(bytes[i], eight, 8);
      assert eight[..8] == eight;
      Powers();
    }
  }

  method BytesToBits(bytes: seq<byte>, bits: array<bit>)
    requires bits.Length >= 8 * |bytes|
    modifies bits
    ensures bits[..8 * |bytes|] == ToBits(bytes)
    ensures bits[8 * |bytes|..] == old(bits[8 * |bytes|..])
  {
    hide BitOf;
    for i := 0 to |bytes|
      invariant bits[..8 * i] == ToBits(bytes)[..8 * i]
      invariant bits[8 * |bytes|..] == old(bits[8 * |bytes|..])
    {
      for j := 0 to 8
        invariant bits[..8 * i + j] == ToBits(bytes)[..8 * i + j]
        invariant bits[8 * |bytes|..] == old(bits[8 * |bytes|..])
      {
        assert (8 * i + j) / 8 == i && (8 * i + j) % 8 == j;
        bits[8 * i + j] := BitOf(bytes[i], j);
        assert bits[..8 * i + j + 1] == bits[..8 * i + j] + [BitOf(bytes[i], j)];
      }
    }
  }

  /** The bits filled up with zeros to whole bytes. */
  function Padded(bits: Word): (padded: Word)
    ensures |padded| == (|bits| + 7) / 8 * 8 && padded[..|bits|] == bits
  {
    bits + seq((|bits| + 7) / 8 * 8 - |bits|, _ => 0)
  }

  /** What a byte holds once `count` of its bits were put in. */
  function Partial(eight: Word, count: nat): nat
    requires count <= 8 == |eight|
  {
    Value(eight[..count]) * Pow2(8 - count)
  }

  lemma PartialNext(eight: Word, count: nat)
    requires count < 8 == |eight|
    ensures Partial(eight, count + 1) == Partial(eight, count) + eight[count] * Pow2(7 - count)
    ensures Partial(eight, count + 1) < 256
  {
    ValueNext(eight, count);
    assert Pow2(8 - count) == 2 * Pow2(7 - count);
    hide Value, Pow2;
    var v, p := Value(eight[..count]), Pow2(7 - count);
    Distribute(v, eight[count], p);
    PowersMultiply(Value(eight[..count + 1]), count + 1);
  }

  lemma ValueNext(bits: Word, count: nat)
    requires count < |bits|
    ensures Value(bits[..count + 1]) == 2 * Value(bits[..count]) + bits[count]
  {
    assert bits[..count + 1][..count] == bits[..count];
  }

  lemma Distribute(v: int, b: int, p: int)
    ensures (2 * v + b) * p == v * (2 * p) + b * p
  {
  }

  lemma PowersMultiply(v: nat, k: nat)
    requires k <= 8 && v < Pow2(k)
    ensures v * Pow2(8 - k) < 256
  {
    Powers();
  }

  lemma PartialEnds(eight: Word)
    requires |eight| == 8
    ensures Partial(eight, 0) == 0 && Partial(eight, 8) == Value(eight)
  {
    assert eight[..8] == eight;
    Powers();
  }

  /** What byte k holds once the first `done` bits were put in. */
  function Filled(padded: Word, k: nat, done: nat): nat
    requires 8 * k + 8 <= |padded|
  {
    Partial(padded[8 * k..8 * k + 8], if done < 8 * k then 0 else if done < 8 * k + 8 then done - 8 * k else 8)
  }

  lemma FilledNext(padded: Word, k: nat, done: nat)
    requires 8 * k + 8 <= |padded| && done < |padded|
    ensures Filled(padded, k, done + 1) ==
            Filled(padded, k, done) + if k == done / 8 then padded[done] * Pow2(7 - done % 8) else 0
    ensures Filled(padded, k, done + 1) < 256
  {
    hide Partial, Pow2;
    var eight := padded[8 * k..8 * k + 8];
    PartialEnds(eight);
    if 8 * k <= done < 8 * k + 8 {
      PartialNext(eight, done - 8 * k);
      assert done / 8 == k && done % 8 == done - 8 * k;
    } else if done < 8 * k {
      PartialNext(eight, 0);
    } else {
      PartialNext(eight, 7);
    }
  }

  /** The zeros that fill up the last byte change nothing. */
  lemma {:induction false} FilledUp(padded: Word, k: nat, done: nat)
    requires 8 * k + 8 <= |padded| && done <= |padded|
    requires forall j | done <= j < |padded| :: padded[j] == 0
    ensures Filled(padded, k, done) == Value(padded[8 * k..8 * k + 8])
    decreases |padded| - done
  {
    hide Partial, Pow2;
    PartialEnds(padded[8 * k..8 * k + 8]);
    if done < |padded| {
      FilledNext(padded, k, done);
      FilledUp(padded, k, done + 1);
    }
  }

  /** Adding the shifted bit is the source's bitwise or: the place it goes to is still clear. */
  method BitsToBytes(values: seq<nat>, bytes: array<byte>)
    requires bytes.Length >= (|values| + 7) / 8
    modifies bytes
    ensures bytes[..(|values| + 7) / 8] == FromBits(Padded(LowBits(values)))
    ensures bytes[(|values| + 7) / 8..] == old(bytes[(|values| + 7) / 8..])
  {
    hide Value, Pow2, Partial, Filled;
    var count := (|values| + 7) / 8;
    ghost var padded := Padded(LowBits(values));
    forall i | 0 <= i < count {
      bytes[i] := 0;
    }
    forall k | 0 <= k < count ensures Filled(padded, k, 0) == 0 {
      NothingFilled(padded, k);
    }
    for i := 0 to |values|
      invariant bytes[count..] == old(bytes[count..])
      invariant forall k | 0 <= k < count :: bytes[k] == Filled(padded, k, i)
    {
      forall k | 0 <= k < count {
        FilledNext(padded, k, i);
      }
      assert padded[i] == values[i] % 2;
      bytes[i / 8] := bytes[i / 8] + values[i] % 2 * Pow2(7 - i % 8);
    }
    forall k | 0 <= k < count ensures bytes[k] == ByteAt(padded, k) {
      FilledUp(padded, k, |values|);
    }
  }

  lemma NothingFilled(padded: Word, k: nat)
    requires 8 * k + 8 <= |padded|
    ensures Filled(padded, k, 0) == 0
  {
    PartialEnds(padded[8 * k..8 * k + 8]);
  }
}
