/** The permutation interleaver: element i goes to place i * stride modulo the count. */
module Interleaver {
  import opened Arithmetic
  import opened Common

  // ---------------------------------------------------------------------
  // The stride
  // ---------------------------------------------------------------------

  method GcdSize(a: nat, b: nat) returns (g: nat)
    ensures g == Gcd(a, b)
  {
    var x, y := a, b;
    while y != 0
      invariant Gcd(x, y) == Gcd(a, b)
      decreases y
    {
      x, y := y, x % y;
    }
    g := x;
  }

  /** The largest number not above `stride` that is coprime to the count, or one. */
  function CoprimeBelow(stride: nat, count: nat): nat {
    if stride > 1 && Gcd(stride, count) != 1 then CoprimeBelow(stride - 1, count) else stride
  }

  function FirstStride(count: nat): nat
    requires count >= 2
  {
    if count * 5 / 8 + 1 >= count then count - 1 else count * 5 / 8 + 1
  }

  function Stride(count: nat): nat {
    if count < 2 then 1 else CoprimeBelow(FirstStride(count), count)
  }

  lemma {:induction false} CoprimeBelowOk(stride: nat, count: nat)
    requires 1 <= stride && 1 <= count
    ensures 1 <= CoprimeBelow(stride, count) <= stride
    ensures Gcd(CoprimeBelow(stride, count), count) == 1
    ensures forall k | CoprimeBelow(stride, count) < k <= stride :: Gcd(k, count) != 1
  {
    if stride > 1 && Gcd(stride, count) != 1 {
      CoprimeBelowOk(stride - 1, count);
    } else if stride == 1 {
      OneIsCoprime(count);
    }
  }

  lemma OneIsCoprime(count: nat)
    requires 1 <= count
    ensures Gcd(1, count) == 1
  {
    assert Gcd(1, count) == Gcd(count, 1 % count);
    if count > 1 {
      assert Gcd(count, 1) == Gcd(1, count % 1) == Gcd(1, 0);
    }
  }

  /** The stride is coprime to the count, and the largest such number from the first candidate down. */
  lemma StrideIsCoprime(count: nat)
    requires 1 <= count
    ensures Gcd(Stride(count), count) == 1 && 1 <= Stride(count)
    ensures count >= 2 ==> Stride(count) < count
    ensures count >= 2 ==> forall k | Stride(count) < k <= FirstStride(count) :: Gcd(k, count) != 1
  {
    OneIsCoprime(count);
    if count >= 2 {
      CoprimeBelowOk(FirstStride(count), count);
    }
  }

  method InterleaveStride(count: nat) returns (stride: nat)
    ensures stride == Stride(count)
  {
    if count < 2 {
      return 1;
    }
    stride := count * 5 / 8 + 1;
    if stride >= count {
      stride := count - 1;
    }
    CoprimeBelowOk(stride, count);
    var g := GcdSize(stride, count);
    while stride > 1 && g != 1
      invariant 1 <= stride && g == Gcd(stride, count)
      invariant CoprimeBelow(stride, count) == Stride(count)
      decreases stride
    {
      stride := stride - 1;
      g := GcdSize(stride, count);
    }
    // The source ends with a fallback to stride one; it is never needed.
    assert Gcd(stride, count) == 1;
  }

  // ---------------------------------------------------------------------
  // The permutation
  // ---------------------------------------------------------------------

  function Place(i: nat, count: nat): (p: nat)
    requires i < count
    ensures p < count
  {
    i * Stride(count) % count
  }

  /** The element that goes to a place: multiplication by the inverse of the stride. */
  function Source(place: nat, count: nat): (i: nat)
    requires place < count
    ensures i < count
  {
    place * Bezout(Stride(count), count).0 % count
  }

  lemma PlaceIsInjective(i: nat, j: nat, count: nat)
    requires i < count && j < count && Place(i, count) == Place(j, count)
    ensures i == j
  {
    hide Stride, Gcd;
    StrideIsCoprime(count);
    StrideMultiples(i, j, Stride(count), count);
    CoprimeDivides(Stride(count), count, i - j);
    SmallMultiple(i - j, count);
  }

  lemma StrideMultiples(i: nat, j: nat, s: nat, count: nat)
    requires i < count && j < count && i * s % count == j * s % count
    ensures (i - j) * s % count == 0
  {
    SameRemainder(i * s, j * s, count);
    assert (i - j) * s == i * s - j * s;
  }

  lemma SameRemainder(x: int, y: int, d: int)
    requires 0 < d && x % d == y % d
    ensures (x - y) % d == 0
  {
    assert x == d * (x / d) + x % d && y == d * (y / d) + y % d;
    var q := x / d - y / d;
    assert d * q == d * (x / d) - d * (y / d);
    DivModUnique(x - y, d, q, 0);
  }

  lemma SmallMultiple(k: int, d: int)
    requires 0 < d && k % d == 0 && -d < k < d
    ensures k == 0
  {
  }

  lemma PlaceOfSource(place: nat, count: nat)
    requires place < count
    ensures Place(Source(place, count), count) == place
  {
    hide Stride, Gcd, Bezout;
    StrideIsCoprime(count);
    BezoutIdentity(Stride(count), count);
    var s := Stride(count);
    var (x, y) := Bezout(s, count);
    var i, q := Source(place, count), place * x / count;
    InverseStep(place, s, x, count, y, i, q);
  }

  lemma InverseStep(place: int, s: int, x: int, count: int, y: int, i: int, q: int)
    requires 0 <= place < count && s * x + count * y == 1 && place * x == count * q + i
    ensures (i * s) % count == place
  {
    var p, r := place * y, q * s;
    assert i * s == (place * x - count * q) * s == place * (x * s) - count * r;
    assert place * (s * x) == place * (1 - count * y) == place - count * p;
    var k := -p - r;
    assert count * k == -(count * p) - count * r;
    DivModUnique(i * s, count, k, place);
  }

  function Interleaved<T>(input: seq<T>): (output: seq<T>)
    ensures |output| == |input|
  {
    seq(|input|, p requires 0 <= p < |input| => input[Source(p, |input|)])
  }

  function Deinterleaved<T>(input: seq<T>): (output: seq<T>)
    ensures |output| == |input|
  {
    seq(|input|, i requires 0 <= i < |input| => input[Place(i, |input|)])
  }

  /** Element i of the input is element Place(i) of the output, and no place is used twice. */
  lemma InterleavedAt<T>(input: seq<T>, i: nat)
    requires i < |input|
    ensures Interleaved(input)[Place(i, |input|)] == input[i]
    ensures Source(Place(i, |input|), |input|) == i
  {
    hide Place, Source;
    PlaceOfSource(Place(i, |input|), |input|);
    PlaceIsInjective(i, Source(Place(i, |input|), |input|), |input|);
  }

  lemma DeinterleaveUndoes<T>(input: seq<T>)
    ensures Deinterleaved(Interleaved(input)) == input
    ensures Interleaved(Deinterleaved(input)) == input
  {
    hide Place, Source;
    forall i | 0 <= i < |input|
      ensures Deinterleaved(Interleaved(input))[i] == input[i]
      ensures Interleaved(Deinterleaved(input))[i] == input[i]
    {
      InterleavedAt(input, i);
      PlaceOfSource(i, |input|);
    }
  }

  method InterleaveBits<T>(input: array<T>, output: array<T>) returns (status: Status)
    requires input.Length == output.Length
    modifies output
    ensures status == if input == output then ErrArgument else Ok
    ensures output[..] == if status == Ok then Interleaved(input[..]) else old(output[..])
  {
    hide Place, Source, Stride;
    if input == output {
      return ErrArgument;
    }
    var count := input.Length;
    var stride := InterleaveStride(count);
    for i := 0 to count
      invariant forall k | 0 <= k < i :: output[Place(k, count)] == input[k]
    {
      assert i * stride % count == Place(i, count) by { StridePlace(i, count); }
      forall k | 0 <= k < i ensures Place(k, count) != Place(i, count) {
        if Place(k, count) == Place(i, count) { PlaceIsInjective(k, i, count); }
      }
      output[i * stride % count] := input[i];
    }
    forall p | 0 <= p < count
      ensures output[p] == Interleaved(input[..])[p]
    {
      PlaceOfSource(p, count);
    }
    status := Ok;
  }

  lemma StridePlace(i: nat, count: nat)
    requires i < count
    ensures i * Stride(count) % count == Place(i, count)
  {
  }

  method DeinterleaveSoft<T>(input: array<T>, output: array<T>) returns (status: Status)
    requires input.Length == output.Length
    modifies output
    ensures status == if input == output then ErrArgument else Ok
    ensures output[..] == if status == Ok then Deinterleaved(input[..]) else old(output[..])
  {
    if input == output {
      return ErrArgument;
    }
    var count := input.Length;
    var stride := InterleaveStride(count);
    for i := 0 to count
      invariant forall k | 0 <= k < i :: output[k] == input[Place(k, count)]
    {
      output[i] := input[i * stride % count];
    }
    status := Ok;
  }
}
