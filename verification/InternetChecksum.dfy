/** The one's complement checksum of RFC 1071, section 1: sixteen-bit words, carries folded back in. */
module InternetChecksum {
  import opened Arithmetic
  import opened Bytes

  const ALL_ONES := 0xFFFF

  /** The words of a byte string added up, an odd last byte in the high half of its word. */
  function WordSum(bytes: seq<byte>): nat {
    if |bytes| == 0 then 0
    else if |bytes| == 1 then bytes[0] as int * 0x100
    else ReadU16(bytes, 0) + WordSum(bytes[2..])
  }

  /** The same number with its carries folded in: zero only for zero. */
  function Fold(sum: nat): uint16 {
    if sum == 0 then 0 else 1 + (sum - 1) % ALL_ONES
  }

  function Finish(sum: nat): uint16 { ALL_ONES - Fold(sum) }

  /** The sum over a packet of at most the largest IPv4 length stays far below 32 bits. */
  lemma {:induction false} SumBound(bytes: seq<byte>)
    ensures 2 * WordSum(bytes) <= ALL_ONES * (|bytes| + 1)
  {
    if |bytes| >= 2 {
      SumBound(bytes[2..]);
    }
  }

  method ChecksumAdd(start: nat, bytes: seq<byte>) returns (sum: nat)
    ensures sum == start + WordSum(bytes)
  {
    sum := start;
    var at: nat, length: nat := 0, |bytes|;
    while length >= 2
      invariant at + length == |bytes|
      invariant sum + WordSum(bytes[at..]) == start + WordSum(bytes)
    {
      assert bytes[at..][2..] == bytes[at + 2..];
      sum := sum + (bytes[at] as int * 0x100 + bytes[at + 1] as int);
      at, length := at + 2, length - 2;
    }
    if length != 0 {
      sum := sum + bytes[at] as int * 0x100;
    }
  }

  method ChecksumFinish(sum: nat) returns (checksum: uint16)
    ensures checksum == Finish(sum)
  {
    var rest := sum;
    while rest / 0x1_0000 != 0
      invariant Fold(rest) == Fold(sum)
      decreases rest
    {
      FoldStep(rest);
      rest := rest % 0x1_0000 + rest / 0x1_0000;
    }
    checksum := ALL_ONES - rest;
  }

  lemma FoldStep(sum: nat)
    requires sum >= 0x1_0000
    ensures var next := sum % 0x1_0000 + sum / 0x1_0000; 0 < next < sum && Fold(next) == Fold(sum)
  {
    var high := sum / 0x1_0000;
    var next := sum % 0x1_0000 + high;
    assert sum - 1 == (next - 1) + ALL_ONES * high;
    ModAddMultiple(next - 1, ALL_ONES, high);
  }

  /** A sum verifies, that is finishes to zero, exactly when it is a positive multiple of all ones. */
  lemma VerifiesExactly(sum: nat)
    ensures Finish(sum) == 0 <==> sum > 0 && sum % ALL_ONES == 0
  {
    if sum > 0 {
      var q, r := (sum - 1) / ALL_ONES, (sum - 1) % ALL_ONES;
      assert sum - 1 == ALL_ONES * q + r;
      if r == ALL_ONES - 1 {
        DivModUnique(sum, ALL_ONES, q + 1, 0);
      } else {
        DivModUnique(sum, ALL_ONES, q, r + 1);
      }
    }
  }

  /** Adding the checksum makes a sum verify, also when UDP writes all ones for zero. */
  lemma ComplementVerifies(sum: nat)
    ensures Finish(sum + Finish(sum)) == 0
    ensures Finish(sum) == 0 ==> Finish(sum + ALL_ONES) == 0
  {
    VerifiesExactly(sum);
    VerifiesExactly(sum + Finish(sum));
    VerifiesExactly(sum + ALL_ONES);
    if sum > 0 {
      var q, r := (sum - 1) / ALL_ONES, (sum - 1) % ALL_ONES;
      assert sum - 1 == ALL_ONES * q + r;
      DivModUnique(sum + Finish(sum), ALL_ONES, q + 1, 0);
      if Finish(sum) == 0 {
        DivModUnique(sum + ALL_ONES, ALL_ONES, q + 2, 0);
      }
    }
  }

  function Store(bytes: seq<byte>, at: nat, value: uint16): (r: seq<byte>)
    requires at + 2 <= |bytes|
    ensures |r| == |bytes| && ReadU16(r, at) == value
    ensures forall k | 0 <= k < |bytes| && k != at && k != at + 1 :: r[k] == bytes[k]
  {
    bytes[at := value / 0x100][at + 1 := value % 0x100]
  }

  /** A word stored over zero at an even place adds itself to the sum. */
  lemma {:induction false} StoreAdds(bytes: seq<byte>, at: nat, value: uint16)
    requires at % 2 == 0 && at + 2 <= |bytes| && bytes[at] == 0 && bytes[at + 1] == 0
    ensures WordSum(Store(bytes, at, value)) == WordSum(bytes) + value
  {
    var r := Store(bytes, at, value);
    if at == 0 {
      assert r[2..] == bytes[2..];
    } else {
      assert r[2..] == Store(bytes[2..], at - 2, value);
      StoreAdds(bytes[2..], at - 2, value);
    }
  }

  /** What one changed byte does to a sum. */
  lemma {:induction false} ByteChange(a: seq<byte>, b: seq<byte>, k: nat)
    requires |a| == |b| && k < |a| && a[k] != b[k] && forall j | 0 <= j < |a| && j != k :: a[j] == b[j]
    ensures var d := WordSum(b) - WordSum(a); d != 0 && -ALL_ONES < d < ALL_ONES
  {
    if k >= 2 {
      ByteChange(a[2..], b[2..], k - 2);
    } else if |a| >= 2 {
      assert a[2..] == b[2..];
    }
  }

  lemma NearMultiples(s: nat, t: nat)
    requires s % ALL_ONES == 0 && t % ALL_ONES == 0 && -ALL_ONES < t - s < ALL_ONES
    ensures s == t
  {
    var p, q := s / ALL_ONES, t / ALL_ONES;
    assert s == ALL_ONES * p && t == ALL_ONES * q;
    assert t - s == ALL_ONES * (q - p);
  }

  /** No two byte strings that differ in one byte both verify. */
  lemma OneByteIsCaught(a: seq<byte>, b: seq<byte>, k: nat, start: nat)
    requires |a| == |b| && k < |a| && a[k] != b[k] && forall j | 0 <= j < |a| && j != k :: a[j] == b[j]
    ensures Finish(start + WordSum(a)) != 0 || Finish(start + WordSum(b)) != 0
  {
    ByteChange(a, b, k);
    hide WordSum, Finish;
    var s, t := start + WordSum(a), start + WordSum(b);
    VerifiesExactly(s);
    VerifiesExactly(t);
    if Finish(s) == 0 && Finish(t) == 0 {
      NearMultiples(s, t);
    }
  }
}
