/** Packets and streams written into a buffer in place, and the validator walking over one. */
module NetworkBuffers {
  import opened ByteBuffers
  import opened Bytes
  import opened Common
  import opened InternetChecksum
  import opened NetworkStream

  method PutU32(buffer: array<byte>, at: nat, value: uint32)
    requires at + 4 <= buffer.Length
    modifies buffer
    ensures buffer[..] == Put(old(buffer[..]), at, WriteU32(value))
  {
    buffer[at] := value / 0x100_0000;
    buffer[at + 1] := value / 0x1_0000 % 0x100;
    buffer[at + 2] := value / 0x100 % 0x100;
    buffer[at + 3] := value % 0x100;
  }

  method PutQuad(buffer: array<byte>, at: nat, a: byte, b: byte, c: byte, d: byte)
    requires at + 4 <= buffer.Length
    modifies buffer
    ensures buffer[..] == Put(old(buffer[..]), at, [a, b, c, d])
  {
    buffer[at], buffer[at + 1], buffer[at + 2], buffer[at + 3] := a, b, c, d;
  }

  function Near(): (r: seq<byte>)
    ensures |r| == 4
  {
    [10, 77, 0, 2]
  }

  function Far(index: nat): (r: seq<byte>)
    ensures |r| == 4
  {
    [93, 184, 216, 34 + index % 17]
  }

  lemma AddressHalves(direction: Direction, index: nat)
    ensures Addresses(direction, index) == if direction.Upload? then Near() + Far(index) else Far(index) + Near()
  {
  }

  method PutAddresses(buffer: array<byte>, at: nat, direction: Direction, index: nat)
    requires at + 8 <= buffer.Length
    modifies buffer
    ensures buffer[..] == Put(old(buffer[..]), at, Addresses(direction, index))
  {
    hide Put, Addresses, Near, Far;
    AddressHalves(direction, index);
    if direction.Upload? {
      PutNear(buffer, at);
      PutFar(buffer, at + 4, index);
      PutJoins(old(buffer[..]), at, Near(), Far(index));
    } else {
      PutFar(buffer, at, index);
      PutNear(buffer, at + 4);
      PutJoins(old(buffer[..]), at, Far(index), Near());
    }
  }

  method PutNear(buffer: array<byte>, at: nat)
    requires at + 4 <= buffer.Length
    modifies buffer
    ensures buffer[..] == Put(old(buffer[..]), at, Near())
  {
    PutQuad(buffer, at, 10, 77, 0, 2);
  }

  method PutFar(buffer: array<byte>, at: nat, index: nat)
    requires at + 4 <= buffer.Length
    modifies buffer
    ensures buffer[..] == Put(old(buffer[..]), at, Far(index))
  {
    PutQuad(buffer, at, 93, 184, 216, 34 + index % 17);
  }

  method PutWords(buffer: array<byte>, at: nat, a: uint16, b: uint16, c: uint16)
    requires at + 6 <= buffer.Length
    modifies buffer
    ensures buffer[..] == Put(old(buffer[..]), at, WriteU16(a) + WriteU16(b) + WriteU16(c))
  {
    hide Put, WriteU16;
    ghost var s := buffer[..];
    PutU16(buffer, at, a);
    PutU16(buffer, at + 2, b);
    PutJoins(s, at, WriteU16(a), WriteU16(b));
    PutU16(buffer, at + 4, c);
    PutJoins(s, at, WriteU16(a) + WriteU16(b), WriteU16(c));
  }

  method PutIpHeader(buffer: array<byte>, at: nat, length: uint16, protocol: byte, direction: Direction, index: nat)
    requires at + 20 <= buffer.Length && ZeroFrom(buffer[..], at, at + 20)
    modifies buffer
    ensures buffer[..] == Put(old(buffer[..]), at, IpHeader(length, protocol, direction, index))
  {
    hide Put, Addresses, WriteU16;
    ghost var s := buffer[..];
    PutPair(buffer, at, 0x45, 0);
    var id := (index + if direction.Upload? then 0 else 0x4000) % 0x1_0000;
    PutWords(buffer, at + 2, length, id, 0x4000);
    ghost var words := WriteU16(length) + WriteU16(id) + WriteU16(0x4000);
    PutJoins(s, at, [0x45, 0], words);
    ghost var h := [0x45, 0] + words;
    ghost var before := buffer[..];
    PutPair(buffer, at + 8, 64, protocol);
    PutPadded(before, at + 8, [64, protocol], [0, 0]);
    assert [64, protocol] + [0, 0] == [64, protocol, 0, 0];
    PutJoins(s, at, h, [64, protocol, 0, 0]);
    h := h + [64, protocol, 0, 0];
    PutAddresses(buffer, at + 12, direction, index);
    PutJoins(s, at, h, Addresses(direction, index));
    assert h + Addresses(direction, index) == IpHeader(length, protocol, direction, index);
  }

  method PutPorts(buffer: array<byte>, at: nat, protocol: byte, direction: Direction, index: nat)
    requires at + 4 <= buffer.Length
    modifies buffer
    ensures buffer[..] == Put(old(buffer[..]), at, Ports(protocol, direction, index))
  {
    hide Put, WriteU16;
    ghost var s := buffer[..];
    var source, destination := 12000 + index % 40000, if protocol == UDP then 53 else 443;
    if direction.Download? {
      source, destination := destination, source;
    }
    PutU16(buffer, at, source);
    PutU16(buffer, at + 2, destination);
    PutJoins(s, at, WriteU16(source), WriteU16(destination));
  }

  method PutTransportHeader(buffer: array<byte>, at: nat, length: nat, protocol: byte,
                            direction: Direction, index: nat, seed: uint32)
    requires HeaderBytes(protocol) <= length < 0x1_0000
    requires at + HeaderBytes(protocol) - 20 <= buffer.Length
    requires ZeroFrom(buffer[..], at, at + HeaderBytes(protocol) - 20)
    modifies buffer
    ensures buffer[..] == Put(old(buffer[..]), at, TransportHeader(length, protocol, direction, index, seed))
  {
    hide Ports, SequenceNumber;
    ghost var s := buffer[..];
    PutPorts(buffer, at, protocol, direction, index);
    ghost var h := Ports(protocol, direction, index);
    if protocol == UDP {
      ghost var before := buffer[..];
      PutU16(buffer, at + 4, length - 20);
      assert buffer[..] == Put(before, at + 4, WriteU16(length - 20) + [0, 0]);
      PutJoins(s, at, h, WriteU16(length - 20) + [0, 0]);
      return;
    }
    PutTcpFields(buffer, at + 4, SequenceNumber(seed, index), (seed + index * 257) % TWO_32);
    PutJoins(s, at, h, TcpFields(SequenceNumber(seed, index), (seed + index * 257) % TWO_32));
    assert h + TcpFields(SequenceNumber(seed, index), (seed + index * 257) % TWO_32) ==
           TransportHeader(length, protocol, direction, index, seed);
  }

  function TcpFields(sequence: uint32, acknowledged: uint32): seq<byte> {
    WriteU32(sequence) + WriteU32(acknowledged) + [0x50, 0x18] + WriteU16(32768) + [0, 0, 0, 0]
  }

  method PutTcpFields(buffer: array<byte>, at: nat, sequence: uint32, acknowledged: uint32)
    requires at + 16 <= buffer.Length && ZeroFrom(buffer[..], at, at + 16)
    modifies buffer
    ensures buffer[..] == Put(old(buffer[..]), at, TcpFields(sequence, acknowledged))
  {
    ghost var s := buffer[..];
    PutU32(buffer, at, sequence);
    ghost var h := WriteU32(sequence);
    PutU32(buffer, at + 4, acknowledged);
    PutJoins(s, at, h, WriteU32(acknowledged));
    h := h + WriteU32(acknowledged);
    ghost var before := buffer[..];
    buffer[at + 8] := 0x50;
    buffer[at + 9] := 0x18;
    assert buffer[..] == Put(before, at + 8, [0x50, 0x18]);
    PutJoins(s, at, h, [0x50, 0x18]);
    h := h + [0x50, 0x18];
    before := buffer[..];
    PutU16(buffer, at + 10, 32768);
    assert buffer[..] == Put(before, at + 10, WriteU16(32768) + [0, 0, 0, 0]);
    PutJoins(s, at, h, WriteU16(32768) + [0, 0, 0, 0]);
    assert h + (WriteU16(32768) + [0, 0, 0, 0]) == TcpFields(sequence, acknowledged);
  }

  method PutPayload(buffer: array<byte>, at: nat, n: nat, seed: uint32, direction: Direction, index: nat)
    requires at + n <= buffer.Length
    modifies buffer
    ensures buffer[..] == Put(old(buffer[..]), at, Payload(seed, direction, index, n))
  {
    hide PayloadByte, Put;
    ghost var s := buffer[..];
    PutNothing(s, at);
    for i := 0 to n
      invariant buffer[..] == Put(s, at, Payload(seed, direction, index, i))
    {
      ghost var before := buffer[..];
      var value := PayloadByte(seed, direction, index, i);
      buffer[at + i] := value;
      PutOne(before, at + i, value);
      PutJoins(s, at, Payload(seed, direction, index, i), [value]);
    }
  }

  /** The packet's fields and payload over cleared bytes, its checksums still zero. */
  method PutUnsealed(buffer: array<byte>, at: nat, length: nat, protocol: byte,
                     direction: Direction, index: nat, seed: uint32)
    requires HeaderBytes(protocol) <= length < 0x1_0000 && at + length <= buffer.Length
    modifies buffer
    ensures buffer[..] == Put(old(buffer[..]), at, Unsealed(length, protocol, direction, index, seed))
  {
    hide IpHeader, TransportHeader, Payload;
    ghost var s := buffer[..];
    Clear(buffer, at, length);
    ghost var clear := buffer[..];
    assert ZeroFrom(clear, at, at + length) by {
      assert forall k | at <= k < at + length :: clear[k] == clear[at..at + length][k - at];
    }
    ghost var h := IpHeader(length, protocol, direction, index);
    PutIpHeader(buffer, at, length, protocol, direction, index);
    PutTransportHeader(buffer, at + 20, length, protocol, direction, index, seed);
    ghost var t := TransportHeader(length, protocol, direction, index, seed);
    PutJoins(clear, at, h, t);
    var offset := HeaderBytes(protocol);
    PutPayload(buffer, at + offset, length - offset, seed, direction, index);
    PutJoins(clear, at, h + t, Payload(seed, direction, index, length - offset));
    PutOver(s, at, Zeros(length), Unsealed(length, protocol, direction, index, seed));
  }

  method SumTransport(packet: seq<byte>) returns (sum: nat)
    requires |packet| >= 20
    ensures sum == TransportSum(packet)
  {
    sum := ChecksumAdd(0, packet[12..20]);
    sum := sum + packet[9] as int;
    sum := sum + (|packet| - 20);
    sum := ChecksumAdd(sum, packet[20..]);
  }

  lemma PutThere(s: seq<byte>, at: nat, packet: seq<byte>)
    requires at + |packet| <= |s|
    ensures Put(s, at, packet)[at..at + |packet|] == packet
    ensures |packet| >= 20 ==> Put(s, at, packet)[at..at + 20] == packet[..20]
  {
  }

  method MakePacket(buffer: array<byte>, at: nat, length: nat, protocol: byte,
                    direction: Direction, index: nat, seed: uint32)
    requires HeaderBytes(protocol) <= length < 0x1_0000 && at + length <= buffer.Length
    modifies buffer
    ensures buffer[..] == Put(old(buffer[..]), at, Packet(length, protocol, direction, index, seed))
  {
    hide Unsealed, TransportSum, WordSum, Finish, Put;
    ghost var s := buffer[..];
    PutUnsealed(buffer, at, length, protocol, direction, index, seed);
    ghost var raw := Unsealed(length, protocol, direction, index, seed);
    SealIp(buffer, at, s, raw);
    SealTransport(buffer, at, length, protocol, s, WithIpChecksum(raw));
  }

  method SealIp(buffer: array<byte>, at: nat, ghost s: seq<byte>, ghost packet: seq<byte>)
    requires |packet| >= 20 && at + |packet| <= |s| == buffer.Length && buffer[..] == Put(s, at, packet)
    modifies buffer
    ensures buffer[..] == Put(s, at, WithIpChecksum(packet))
  {
    hide WordSum, Finish, Put;
    PutThere(s, at, packet);
    assert buffer[at..at + 20] == buffer[..][at..at + 20] == packet[..20];
    var sum := ChecksumAdd(0, buffer[at..at + 20]);
    var checksum := ChecksumFinish(sum);
    PutU16(buffer, at + 10, checksum);
    PutStore(s, at, packet, 10, checksum);
  }

  method SealTransport(buffer: array<byte>, at: nat, length: nat, protocol: byte, ghost s: seq<byte>, ghost packet: seq<byte>)
    requires |packet| == length >= HeaderBytes(protocol) && at + |packet| <= |s| == buffer.Length
    requires buffer[..] == Put(s, at, packet)
    modifies buffer
    ensures buffer[..] == Put(s, at, WithTransportChecksum(packet, protocol))
  {
    hide WordSum, Finish, Put, TransportSum;
    PutThere(s, at, packet);
    assert buffer[at..at + |packet|] == buffer[..][at..at + |packet|] == packet;
    var sum := SumTransport(buffer[at..at + length]);
    var checksum := ChecksumFinish(sum);
    var sent := if protocol == UDP && checksum == 0 then ALL_ONES else checksum;
    PutU16(buffer, at + ChecksumAt(protocol), sent);
    PutStore(s, at, packet, ChecksumAt(protocol), sent);
  }

  // ---------------------------------------------------------------------
  // Streams
  // ---------------------------------------------------------------------

  /** The bytes a buffer holds for n records of the largest length. */
  function Capacity(mtu: Mtu, n: nat): nat { n * (mtu + 2) }

  lemma Room(mtu: Mtu, index: nat, count: nat)
    requires index < count
    ensures Capacity(mtu, index + 1) == Capacity(mtu, index) + mtu + 2
    ensures Capacity(mtu, index + 1) <= Capacity(mtu, count)
  {
    Distribute(index, 1, mtu + 2);
    Distribute(index + 1, count - index - 1, mtu + 2);
  }

  lemma Distribute(a: nat, b: nat, c: nat)
    ensures (a + b) * c == a * c + b * c && b * c >= 0
  {
  }

  lemma NothingBuilt(mtu: Mtu, direction: Direction, seed: uint32)
    ensures Capacity(mtu, 0) == 0 && Records(mtu, direction, 0, 0, seed) == []
    ensures Totals(mtu, direction, 0, 0, NO_COUNTS) == NO_COUNTS
  {
  }

  /** The records before an index, then the rest. */
  lemma {:induction false} RecordsExtend(mtu: Mtu, direction: Direction, from: nat, n: nat, seed: uint32)
    ensures Records(mtu, direction, from, n + 1, seed) ==
            Records(mtu, direction, from, n, seed) + Record(mtu, direction, from + n, seed)
    decreases n
  {
    hide Record;
    if n > 0 {
      RecordsExtend(mtu, direction, from + 1, n - 1, seed);
    }
  }

  lemma {:induction false} TotalsExtend(mtu: Mtu, direction: Direction, from: nat, n: nat, counts: Counts)
    ensures var protocol := Protocol(from + n, direction);
            Totals(mtu, direction, from, n + 1, counts) ==
            Count(Totals(mtu, direction, from, n, counts), PacketLength(mtu, from + n, protocol), protocol)
    decreases n
  {
    hide PacketLength, Count, Protocol;
    if n > 0 {
      var protocol := Protocol(from, direction);
      TotalsExtend(mtu, direction, from + 1, n - 1, Count(counts, PacketLength(mtu, from, protocol), protocol));
    }
  }

  method PutRecord(buffer: array<byte>, offset: nat, mtu: Mtu, direction: Direction, index: nat, seed: uint32)
      returns (next: nat)
    requires offset + mtu + 2 <= buffer.Length
    modifies buffer
    ensures next == offset + |Record(mtu, direction, index, seed)| <= buffer.Length
    ensures buffer[..next] == old(buffer[..offset]) + Record(mtu, direction, index, seed)
  {
    hide Put, Packet, PacketLength;
    var protocol := Protocol(index, direction);
    var length := PacketLength(mtu, index, protocol);
    ghost var s := buffer[..];
    PutU16(buffer, offset, length);
    MakePacket(buffer, offset + 2, length, protocol, direction, index, seed);
    PutJoins(s, offset, WriteU16(length), Packet(length, protocol, direction, index, seed));
    next := offset + 2 + length;
    ghost var record := Record(mtu, direction, index, seed);
    assert buffer[..] == Put(s, offset, record);
    assert buffer[offset..next] == record;
    assert buffer[..offset] == s[..offset];
    assert buffer[..next] == buffer[..offset] + buffer[offset..next];
  }

  /** The stream, what the builder counted in it, and how many records span cells. */
  method BuildStream(mtu: Mtu, count: nat, direction: Direction, seed: uint32)
      returns (buffer: array<byte>, length: nat, counts: Counts, spanning: nat)
    ensures length <= buffer.Length && buffer[..length] == Records(mtu, direction, 0, count, seed)
    ensures counts == Totals(mtu, direction, 0, count, NO_COUNTS)
    ensures ValidateStream(buffer[..length], direction, NO_COUNTS) == (Ok, counts)
    ensures length == Start(mtu, direction, count) && spanning == Spanning(mtu, direction, count)
  {
    hide Capacity, Record, Records, Totals, Count, Protocol, PacketLength, ValidateStream, RecordLength;
    buffer := new byte[Capacity(mtu, count)];
    length, counts, spanning := 0, NO_COUNTS, 0;
    NothingBuilt(mtu, direction, seed);
    for index := 0 to count
      invariant length <= Capacity(mtu, index) <= buffer.Length == Capacity(mtu, count)
      invariant buffer[..length] == Records(mtu, direction, 0, index, seed)
      invariant counts == Totals(mtu, direction, 0, index, NO_COUNTS)
      invariant length == Start(mtu, direction, index) && spanning == Spanning(mtu, direction, index)
    {
      Room(mtu, index, count);
      RecordsExtend(mtu, direction, 0, index, seed);
      TotalsExtend(mtu, direction, 0, index, NO_COUNTS);
      var protocol := Protocol(index, direction);
      counts := Count(counts, PacketLength(mtu, index, protocol), protocol);
      if Spans(length, RecordLength(mtu, direction, index)) {
        spanning := spanning + 1;
      }
      LengthOf(mtu, direction, index, seed);
      length := PutRecord(buffer, length, mtu, direction, index, seed);
    }
    StreamValidates(mtu, count, direction, seed);
  }

  lemma LengthOf(mtu: Mtu, direction: Direction, index: nat, seed: uint32)
    ensures |Record(mtu, direction, index, seed)| == RecordLength(mtu, direction, index)
  {
    hide Packet, PacketLength;
  }

  method CheckPacket(packet: seq<byte>, direction: Direction) returns (status: Status)
    ensures status == ValidatePacket(packet, direction)
  {
    hide WordSum, Finish, TransportSum;
    if |packet| < 20 || packet[0] / 16 != 4 {
      return ErrHeader;
    }
    if packet[0] % 16 * 4 != 20 || ReadU16(packet, 2) != |packet| {
      return ErrHeader;
    }
    var sum := ChecksumAdd(0, packet[..20]);
    var checksum := ChecksumFinish(sum);
    if checksum != 0 {
      return ErrCrc;
    }
    if !OwnAddress(packet, direction) {
      return ErrHeader;
    }
    if packet[9] == UDP {
      if |packet| < 28 || ReadU16(packet, 24) != |packet| - 20 || ReadU16(packet, 26) == 0 {
        return ErrHeader;
      }
    } else if packet[9] == TCP {
      if |packet| < 40 || packet[32] / 16 * 4 < 20 || packet[32] / 16 * 4 > |packet| - 20 {
        return ErrHeader;
      }
    } else {
      return ErrHeader;
    }
    sum := SumTransport(packet);
    checksum := ChecksumFinish(sum);
    return if checksum != 0 then ErrCrc else Ok;
  }

  method CheckStream(bytes: seq<byte>, direction: Direction) returns (status: Status, counts: Counts)
    ensures (status, counts) == ValidateStream(bytes, direction, NO_COUNTS)
  {
    hide ValidatePacket;
    counts := NO_COUNTS;
    var offset: nat := 0;
    while offset < |bytes|
      invariant offset <= |bytes|
      invariant ValidateStream(bytes[offset..], direction, counts) == ValidateStream(bytes, direction, NO_COUNTS)
    {
      ghost var rest := bytes[offset..];
      if |bytes| - offset < 2 {
        return ErrHeader, counts;
      }
      var length := ReadU16(bytes, offset);
      assert ReadU16(rest, 0) == length;
      offset := offset + 2;
      if length == 0 || length > |bytes| - offset {
        return ErrHeader, counts;
      }
      var packet := bytes[offset..offset + length];
      assert packet == rest[2..2 + length];
      status := CheckPacket(packet, direction);
      if status != Ok {
        return;
      }
      ValidLength(packet, direction);
      counts := Count(counts, length, packet[9]);
      offset := offset + length;
      assert bytes[offset..] == rest[2 + length..];
    }
    status := Ok;
  }

  lemma ValidLength(packet: seq<byte>, direction: Direction)
    requires ValidatePacket(packet, direction) == Ok
    ensures |packet| >= 20
  {
  }
}
