/** A stream with its flag arrays, updated in place, and the frame functions above it. */
module StreamPeers {
  import opened Bytes
  import opened Common
  import opened LightStreams

  lemma NewFlags(count: nat, sent: seq<bool>, acked: seq<bool>, received: seq<bool>, lastSent: seq<nat>)
    requires |sent| == |acked| == |received| == |lastSent| == count
    requires forall k | 0 <= k < count :: !sent[k] && !acked[k] && !received[k] && lastSent[k] == 0
    ensures sent == seq(count, _ => false) && acked == seq(count, _ => false) && received == seq(count, _ => false)
    ensures lastSent == seq(count, _ => 0)
  {
  }

  class LightStream {
    const source: array<byte>
    const sink: array<byte>
    const sent: array<bool>
    const acked: array<bool>
    const received: array<bool>
    const lastSent: array<nat>
    var base: nat
    var receivedBytes: nat

    ghost function Repr(): set<object> {
      {this, source, sink, sent, acked, received, lastSent}
    }

    ghost predicate Valid()
      reads Repr()
    {
      && source != sink && sent != acked && acked != received && received != sent
      && ValidOutgoing(Out()) && ValidIncoming(Into())
      && sent.Length == acked.Length == lastSent.Length == received.Length && source.Length == sink.Length
    }

    ghost function Out(): Outgoing
      reads Repr()
    {
      Outgoing(source[..], sent[..], acked[..], lastSent[..])
    }

    ghost function Into(): Incoming
      reads Repr()
    {
      Incoming(sink[..], received[..], base, receivedBytes)
    }

    /** Both ends of a stream of the given bytes, nothing sent yet. */
    constructor (bytes: seq<byte>)
      requires |bytes| <= MAX_BYTES
      ensures Valid() && fresh(Repr())
      ensures Out() == NewOutgoing(bytes) && Into() == NewIncoming(sink[..])
    {
      hide FirstMissing, Count, Chunks, MaskOf;
      var count := Chunks(|bytes|);
      source := new byte[|bytes|](i requires 0 <= i < |bytes| => bytes[i]);
      sink := new byte[|bytes|](_ => 0);
      sent := new bool[count](_ => false);
      acked := new bool[count](_ => false);
      received := new bool[count](_ => false);
      lastSent := new nat[count](_ => 0);
      base, receivedBytes := 0, 0;
      new;
      NewFlags(count, sent[..], acked[..], received[..], lastSent[..]);
      assert source[..] == bytes;
    }

    method SenderDoneCheck() returns (done: bool)
      ensures done == SenderDone(Out())
    {
      for sequence := 0 to acked.Length
        invariant forall k | 0 <= k < sequence :: acked[k]
      {
        if !acked[sequence] {
          return false;
        }
      }
      done := true;
    }

    method WriteAck() returns (payload: seq<byte>)
      requires Valid()
      ensures payload == AckHeader(base, AckMask(Into()))
    {
      var mask: nat := 0;
      ghost var bits := AckMask(Into());
      for bit := 0 to ACK_BITS
        invariant mask == MaskOf(bits[..bit])
      {
        var sequence := base + bit;
        MaskAppend(bits[..bit], bits[bit]);
        assert bits[..bit + 1] == bits[..bit] + [bits[bit]];
        if sequence < received.Length && received[sequence] {
          mask := mask + Pow2(bit);
        }
      }
      assert bits[..ACK_BITS] == bits;
      MaskFits(bits);
      payload := [1, 0] + WriteU32(base) + WriteU16(mask);
    }

    method TakeAck(payload: seq<byte>) returns (status: Status)
      requires Valid()
      modifies acked
      ensures Valid() && (Out(), status) == ApplyAck(old(Out()), payload)
    {
      if |payload| < ACK_BYTES || payload[0] != 1 || payload[1] != 0 {
        return ErrHeader;
      }
      var ackBase, mask := ReadU32(payload, 2), ReadU16(payload, 6);
      if ackBase > acked.Length {
        return ErrHeader;
      }
      ghost var before := acked[..];
      for sequence := 0 to ackBase
        modifies acked
        invariant forall k | 0 <= k < acked.Length :: acked[k] == (before[k] || k < sequence)
      {
        acked[sequence] := true;
      }
      for bit := 0 to ACK_BITS
        modifies acked
        invariant forall k | 0 <= k < acked.Length ::
                    acked[k] == (before[k] || k < ackBase || (k - ackBase < bit && TestBit(mask, k - ackBase)))
      {
        var sequence := ackBase + bit;
        if sequence < acked.Length && TestBit(mask, bit) {
          acked[sequence] := true;
        }
      }
      assert acked[..] == Acked(before, ackBase, mask);
      status := Ok;
    }

    /** Copies a chunk into its place. */
    method StoreChunk(offset: nat, chunk: seq<byte>)
      requires offset + |chunk| <= sink.Length
      modifies sink
      ensures sink[..] == Splice(old(sink[..]), offset, chunk)
    {
      forall i | 0 <= i < |chunk| {
        sink[offset + i] := chunk[i];
      }
    }

    /** Moves the base over the chunks that are there. */
    method AdvanceBase()
      requires base <= received.Length
      modifies this`base
      ensures base == FirstMissing(received[..], old(base))
    {
      while base < received.Length && received[base]
        invariant old(base) <= base <= received.Length
        invariant FirstMissing(received[..], base) == FirstMissing(received[..], old(base))
      {
        base := base + 1;
      }
    }

    method ReceiveChunk(sequence: nat, chunk: seq<byte>) returns (status: Status)
      requires Valid()
      modifies sink, received, this
      ensures Valid() && (Into(), status) == Receive(old(Into()), sequence, chunk) && Out() == old(Out())
    {
      hide FirstMissing, Splice, ChunkEnd;
      if sequence >= received.Length {
        return ErrHeader;
      }
      ChunkInside(sink.Length, sequence);
      var offset := ChunkStart(sequence);
      if |chunk| != ChunkEnd(sink.Length, sequence) - offset {
        return ErrHeader;
      }
      if received[sequence] {
        return Ok;
      }
      received[sequence] := true;
      StoreChunk(offset, chunk);
      receivedBytes := receivedBytes + |chunk|;
      AdvanceBase();
      status := Ok;
    }

    method CountInFlight() returns (count: nat)
      requires Valid()
      ensures count == Count(InFlightFlags(Out()))
    {
      count := 0;
      ghost var flags := InFlightFlags(Out());
      for sequence := 0 to sent.Length
        invariant count == Count(flags[..sequence])
      {
        assert flags[..sequence + 1][..sequence] == flags[..sequence];
        if sent[sequence] && !acked[sequence] {
          count := count + 1;
        }
      }
      assert flags[..sent.Length] == flags;
    }

    predicate IsDue(sequence: nat, c: StreamConfig, frame: nat)
      requires sequence < sent.Length <= acked.Length && sent.Length <= lastSent.Length
      reads this, sent, acked, lastSent
    {
      sent[sequence] && !acked[sequence] && (frame - lastSent[sequence]) % TWO_64 >= RetryDelay(c, sequence, lastSent[sequence])
    }

    method CountDue(c: StreamConfig, frame: nat) returns (eligible: nat)
      requires Valid()
      ensures eligible == Count(DueFlags(Out(), c, frame))
    {
      hide RetryDelay;
      eligible := 0;
      ghost var flags := DueFlags(Out(), c, frame);
      for sequence := 0 to sent.Length
        invariant eligible == Count(flags[..sequence])
      {
        assert flags[..sequence + 1][..sequence] == flags[..sequence];
        if IsDue(sequence, c, frame) {
          eligible := eligible + 1;
        }
      }
      assert flags[..sent.Length] == flags;
    }

    method PickDue(c: StreamConfig, frame: nat, first: nat) returns (chosen: Option<nat>)
      requires Valid()
      ensures chosen == PickSet(DueFlags(Out(), c, frame), first, 0)
    {
      hide RetryDelay;
      ghost var flags := DueFlags(Out(), c, frame);
      var choice := first;
      for sequence := 0 to sent.Length
        invariant PickSet(flags, choice, sequence) == PickSet(flags, first, 0)
      {
        if IsDue(sequence, c, frame) {
          if choice == 0 {
            return Some(sequence);
          }
          choice := choice - 1;
        }
      }
      chosen := None;
    }

    method NextUnsent() returns (sequence: nat)
      ensures sequence == FirstUnsent(sent[..], 0)
    {
      sequence := 0;
      while sequence < sent.Length && sent[sequence]
        invariant sequence <= sent.Length && FirstUnsent(sent[..], sequence) == FirstUnsent(sent[..], 0)
      {
        sequence := sequence + 1;
      }
    }

    /** The chunk to send, in two passes over the flags and then over the unsent ones. */
    method SelectChunk(c: StreamConfig, random: bv32, frame: nat) returns (chosen: Option<nat>, again: bool, drawn: bv32)
      requires Valid()
      ensures (chosen, again, drawn) == Select(Out(), c, random, frame)
    {
      hide Draw, DueFlags, InFlightFlags, FirstUnsent;
      var eligible := CountDue(c, frame);
      drawn := random;
      if eligible != 0 {
        drawn := Draw(random);
        chosen := PickDue(c, frame, (drawn as int) % eligible);
        if chosen.Some? {
          return chosen, true, drawn;
        }
      }
      var inFlight := CountInFlight();
      if inFlight >= c.window {
        return None, false, drawn;
      }
      var sequence := NextUnsent();
      return if sequence < sent.Length then Some(sequence) else None, false, drawn;
    }
  }

  /** Builds the frame of a connected peer from its two streams. */
  method BuildStreamFrame(transmit: LightStream, receive: LightStream, c: StreamConfig, random: bv32, frame: nat)
    returns (f: StreamFrame, drawn: bv32, again: bool)
    requires transmit.Valid() && receive.Valid() && transmit.Repr() !! receive.Repr()
    modifies transmit.sent, transmit.lastSent
    ensures transmit.Valid()
    ensures (f, transmit.Out(), drawn, again) == BuildFrame(old(transmit.Out()), old(receive.Into()), c, random, frame)
    ensures transmit.Into() == old(transmit.Into())
  {
    hide Select, Count;
    var header := receive.WriteAck();
    var chosen: Option<nat>;
    chosen, again, drawn := transmit.SelectChunk(c, random, frame);
    if chosen.None? {
      return StreamFrame(UINT32_MAX, header, false), drawn, false;
    }
    var k := chosen.value;
    ChunkInside(transmit.source.Length, k);
    var chunk := transmit.source[ChunkStart(k)..ChunkEnd(transmit.source.Length, k)];
    assert chunk == ChunkOf(transmit.source[..], k);
    f := StreamFrame(k, header + chunk, true);
    transmit.sent[k] := true;
    transmit.lastSent[k] := frame;
  }

  /** Takes a frame of the peer into the two streams. */
  method ProcessStreamFrame(acknowledged: LightStream, received: LightStream, f: StreamFrame) returns (status: Status)
    requires acknowledged.Valid() && received.Valid() && acknowledged.Repr() !! received.Repr()
    modifies acknowledged.acked, received.sink, received.received, received
    ensures acknowledged.Valid() && received.Valid()
    ensures (acknowledged.Out(), received.Into(), status) == ProcessFrame(old(acknowledged.Out()), old(received.Into()), f)
    ensures acknowledged.Into() == old(acknowledged.Into()) && received.Out() == old(received.Out())
  {
    hide ApplyAck, Receive;
    status := acknowledged.TakeAck(f.payload);
    if status != Ok {
      return;
    }
    if !f.hasData {
      return if |f.payload| == ACK_BYTES then Ok else ErrHeader;
    }
    if |f.payload| <= ACK_BYTES {
      return ErrHeader;
    }
    status := received.ReceiveChunk(f.sequence, f.payload[ACK_BYTES..]);
  }
}
