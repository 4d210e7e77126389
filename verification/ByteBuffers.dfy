/** Bytes written into part of a buffer, and what the whole buffer then holds. */
module ByteBuffers {
  import opened Bytes
  import opened InternetChecksum

  /** A byte string with some bytes replaced from a place on. */
  function Put(s: seq<byte>, at: nat, bytes: seq<byte>): (r: seq<byte>)
    requires at + |bytes| <= |s|
    ensures |r| == |s| && r[at..at + |bytes|] == bytes
    ensures forall k | 0 <= k < |s| && !(at <= k < at + |bytes|) :: r[k] == s[k]
  {
    s[..at] + bytes + s[at + |bytes|..]
  }

  lemma PutJoins(s: seq<byte>, at: nat, a: seq<byte>, b: seq<byte>)
    requires at + |a| + |b| <= |s|
    ensures Put(Put(s, at, a), at + |a|, b) == Put(s, at, a + b)
  {
  }

  /** Putting over bytes that have been put already leaves the later ones. */
  lemma PutOver(s: seq<byte>, at: nat, a: seq<byte>, b: seq<byte>)
    requires at + |a| <= |s| && |a| == |b|
    ensures Put(Put(s, at, a), at, b) == Put(s, at, b)
  {
  }

  lemma PutNothing(s: seq<byte>, at: nat)
    requires at <= |s|
    ensures Put(s, at, []) == s
  {
  }

  lemma PutOne(s: seq<byte>, at: nat, value: byte)
    requires at < |s|
    ensures Put(s, at, [value]) == s[at := value]
  {
  }

  predicate ZeroFrom(s: seq<byte>, from: nat, to: nat)
    requires to <= |s|
  {
    forall k | from <= k < to :: s[k] == 0
  }

  method PutU16(buffer: array<byte>, at: nat, value: uint16)
    requires at + 2 <= buffer.Length
    modifies buffer
    ensures buffer[..] == Put(old(buffer[..]), at, WriteU16(value))
  {
    buffer[at] := value / 0x100;
    buffer[at + 1] := value % 0x100;
  }

  function Zeros(n: nat): (r: seq<byte>)
    ensures |r| == n && ZeroFrom(r, 0, n)
  {
    if n == 0 then [] else Zeros(n - 1) + [0]
  }

  method Clear(buffer: array<byte>, at: nat, n: nat)
    requires at + n <= buffer.Length
    modifies buffer
    ensures buffer[..] == Put(old(buffer[..]), at, Zeros(n))
  {
    hide Put;
    ghost var s := buffer[..];
    PutNothing(s, at);
    for i := 0 to n
      invariant buffer[..] == Put(s, at, Zeros(i))
    {
      PutOne(buffer[..], at + i, 0);
      buffer[at + i] := 0;
      PutJoins(s, at, Zeros(i), [0]);
    }
  }

  /** Zeros already there count as put. */
  lemma PutPadded(s: seq<byte>, at: nat, a: seq<byte>, zeros: seq<byte>)
    requires at + |a| + |zeros| <= |s| && ZeroFrom(s, at + |a|, at + |a| + |zeros|) && ZeroFrom(zeros, 0, |zeros|)
    ensures Put(s, at, a) == Put(s, at, a + zeros)
  {
  }

  method PutPair(buffer: array<byte>, at: nat, a: byte, b: byte)
    requires at + 2 <= buffer.Length
    modifies buffer
    ensures buffer[..] == Put(old(buffer[..]), at, [a, b])
  {
    buffer[at] := a;
    buffer[at + 1] := b;
  }

  lemma PutStore(s: seq<byte>, at: nat, packet: seq<byte>, k: nat, value: uint16)
    requires at + |packet| <= |s| && k + 2 <= |packet|
    ensures Put(Put(s, at, packet), at + k, WriteU16(value)) == Put(s, at, Store(packet, k, value))
  {
  }
}
