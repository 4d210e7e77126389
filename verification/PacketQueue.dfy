/** The bounded packet queue: a ring of equal slots in one flat buffer. */
module PacketQueues {
  import opened Arithmetic
  import opened Bytes
  import opened Common
  import opened PacketTransport

  /** The first byte of slot i in a buffer of slots `width` bytes wide. */
  function SlotStart(i: nat, width: nat): nat {
    i * width
  }

  /** A slot ends before any later slot starts. */
  lemma SlotsApart(i: nat, j: nat, width: nat)
    requires i < j
    ensures SlotStart(i, width) + width <= SlotStart(j, width)
  {
    var between := j - i - 1;
    assert j * width == (i + 1 + between) * width == i * width + width + between * width;
    assert between * width >= 0;
  }

  lemma WrapOnce(x: nat, capacity: nat)
    requires x < 2 * capacity
    ensures x % capacity == if x < capacity then x else x - capacity
  {
    if x < capacity {
      DivModUnique(x, capacity, 0, x);
    } else {
      DivModUnique(x, capacity, 1, x - capacity);
    }
  }

  /** The ring position `relative` places after `head`. */
  function RingIndex(head: nat, relative: nat, capacity: nat): (i: nat)
    requires head < capacity && relative <= capacity
    ensures i == if head + relative < capacity then head + relative else head + relative - capacity
  {
    WrapOnce(head + relative, capacity);
    (head + relative) % capacity
  }

  /** Slot i of the buffer holds the packet. */
  ghost predicate SlotHolds(bytes: seq<byte>, lengths: seq<nat>, i: nat, width: nat, packet: Packet) {
    && i < |lengths| && |packet| == lengths[i] <= width
    && SlotStart(i, width) + |packet| <= |bytes|
    && packet == bytes[SlotStart(i, width)..SlotStart(i, width) + |packet|]
  }

  /** Writing inside slot `index` leaves the other slots alone. */
  lemma SlotKept(bytes: seq<byte>, lengths: seq<nat>, bytes': seq<byte>, lengths': seq<nat>,
                 i: nat, index: nat, width: nat, packet: Packet)
    requires |bytes| == |bytes'| && |lengths| == |lengths'|
    requires SlotHolds(bytes, lengths, i, width, packet) && i != index && lengths'[i] == lengths[i]
    requires forall k | 0 <= k < |bytes| && (k < SlotStart(index, width) || SlotStart(index, width) + width <= k) ::
               bytes'[k] == bytes[k]
    ensures SlotHolds(bytes', lengths', i, width, packet)
  {
    hide SlotStart;
    if i < index { SlotsApart(i, index, width); } else { SlotsApart(index, i, width); }
  }

  class PacketQueue {
    const maxPacket: nat
    const capacity: nat
    const bytes: array<byte>
    const lengths: array<nat>
    var head: nat
    var count: nat
    ghost var Contents: seq<Packet>  // the queued packets, oldest first

    ghost predicate Valid()
      reads this, bytes, lengths
      ensures Valid() ==> |Contents| == count <= capacity
    {
      && bytes.Length == SlotStart(capacity, maxPacket) && lengths.Length == capacity
      && head < capacity && count <= capacity && |Contents| == count
      && forall k | 0 <= k < count :: SlotHolds(bytes[..], lengths[..], RingIndex(head, k, capacity), maxPacket, Contents[k])
    }

    constructor (capacity: nat, maxPacket: nat)
      requires 1 <= capacity
      ensures Valid() && Contents == []
      ensures this.capacity == capacity && this.maxPacket == maxPacket
      ensures fresh(bytes) && fresh(lengths)
    {
      this.capacity, this.maxPacket := capacity, maxPacket;
      bytes := new byte[SlotStart(capacity, maxPacket)];
      lengths := new nat[capacity](_ => 0);
      head, count := 0, 0;
      Contents := [];
    }

    method Push(packet: Packet) returns (status: Status)
      requires Valid() && |packet| <= maxPacket
      modifies this, bytes, lengths
      ensures Valid()
      ensures status == if |old(Contents)| == capacity then ErrCapacity else Ok
      ensures Contents == if status == Ok then old(Contents) + [packet] else old(Contents)
    {
      hide SlotStart;
      if count == capacity {
        return ErrCapacity;
      }
      var index := RingIndex(head, count, capacity);
      var start := SlotStart(index, maxPacket);
      SlotsApart(index, capacity, maxPacket);
      ghost var oldBytes, oldLengths := bytes[..], lengths[..];
      forall k | 0 <= k < |packet| {
        bytes[start + k] := packet[k];
      }
      lengths[index] := |packet|;
      assert SlotHolds(bytes[..], lengths[..], index, maxPacket, packet);
      forall k | 0 <= k < count
        ensures SlotHolds(bytes[..], lengths[..], RingIndex(head, k, capacity), maxPacket, Contents[k])
      {
        SlotKept(oldBytes, oldLengths, bytes[..], lengths[..], RingIndex(head, k, capacity), index, maxPacket, Contents[k]);
      }
      count := count + 1;
      Contents := Contents + [packet];
      status := Ok;
    }

    method Head() returns (packet: Packet)
      requires Valid() && Contents != []
      ensures packet == Contents[0]
    {
      hide SlotStart;
      SlotsApart(head, capacity, maxPacket);
      assert SlotHolds(bytes[..], lengths[..], RingIndex(head, 0, capacity), maxPacket, Contents[0]);
      packet := bytes[SlotStart(head, maxPacket)..SlotStart(head, maxPacket) + lengths[head]];
    }

    method Pop()
      requires Valid()
      modifies this
      ensures Valid()
      ensures Contents == if old(Contents) == [] then [] else old(Contents)[1..]
    {
      hide SlotStart;
      if count == 0 {
        return;
      }
      assert forall k | 0 <= k < count - 1 ::
          RingIndex(RingIndex(head, 1, capacity), k, capacity) == RingIndex(head, k + 1, capacity);
      head := RingIndex(head, 1, capacity);
      count := count - 1;
      Contents := Contents[1..];
    }
  }
}
