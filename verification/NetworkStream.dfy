/** Synthetic IPv4 packets with real checksums, streams of them, and the validator of what arrives. */
module NetworkStream {
  import opened Bytes
  import opened Common
  import opened InternetChecksum

  const MIN_MTU := 68
  const MAX_MTU := 1500
  const UDP: byte := 17
  const TCP: byte := 6
  const DATA_BYTES := 83

  type Mtu = m: int | MIN_MTU <= m <= MAX_MTU witness MIN_MTU

  /** Which peer sends: the client to the gateway, or back. */
  datatype Direction = Upload | Download

  // ---------------------------------------------------------------------
  // One packet
  // ---------------------------------------------------------------------

  function Word32(value: nat): bv32 { (value % TWO_32) as bv32 }

  function PayloadByte(seed: uint32, direction: Direction, index: nat, at: nat): byte {
    var v0 := Word32(seed) ^ (Word32(if direction.Upload? then 1 else 2) * 0x6d2b79f5) ^
              (Word32(index) * 0x9e3779b9) ^ (Word32(at) * 0x85ebca6b);
    var v1 := (v0 ^ (v0 >> 16)) * 0x7feb352d;
    var v2 := (v1 ^ (v1 >> 15)) * 0x846ca68b;
    (v2 ^ (v2 >> 16)) as int % 0x100
  }

  function SequenceNumber(seed: uint32, index: nat): uint32 {
    (Word32(seed) ^ (Word32(index) * 0x01010101)) as int % TWO_32
  }

  function Protocol(index: nat, direction: Direction): byte {
    if (index + if direction.Upload? then 0 else 1) % 2 == 0 then UDP else TCP
  }

  function PacketLength(mtu: Mtu, index: nat, protocol: byte): (length: nat)
    ensures (if protocol == UDP then 28 else 40) <= length <= mtu
  {
    var minimum := if protocol == UDP then 28 else 40;
    var k := index % 11;
    var candidate :=
      if k == 0 then minimum else if k == 1 then minimum + 1 else if k == 2 then 52 else if k == 3 then 57
      else if k == 4 then 81 else if k == 5 then 83 else if k == 6 then 127 else if k == 7 then mtu / 3
      else if k == 8 then mtu / 2 else if k == 9 then mtu - 1 else mtu;
    var longer := if candidate < minimum then minimum else candidate;
    if longer > mtu then mtu else longer
  }

  function Addresses(direction: Direction, index: nat): (r: seq<byte>)
    ensures |r| == 8
  {
    if direction.Upload? then [10, 77, 0, 2, 93, 184, 216, 34 + index % 17]
    else [93, 184, 216, 34 + index % 17, 10, 77, 0, 2]
  }

  function IpHeader(length: uint16, protocol: byte, direction: Direction, index: nat): (r: seq<byte>)
    ensures |r| == 20
  {
    [0x45, 0] + WriteU16(length) +
    WriteU16((index + if direction.Upload? then 0 else 0x4000) % 0x1_0000) + WriteU16(0x4000) +
    [64, protocol, 0, 0] + Addresses(direction, index)
  }

  function Ports(protocol: byte, direction: Direction, index: nat): (r: seq<byte>)
    ensures |r| == 4
  {
    var near := WriteU16(12000 + index % 40000);
    var far := WriteU16(if protocol == UDP then 53 else 443);
    if direction.Upload? then near + far else far + near
  }

  function TransportHeader(length: nat, protocol: byte, direction: Direction, index: nat, seed: uint32): (r: seq<byte>)
    requires 20 <= length < 0x1_0000
    ensures |r| == if protocol == UDP then 8 else 20
  {
    Ports(protocol, direction, index) +
    if protocol == UDP then WriteU16(length - 20) + [0, 0]
    else WriteU32(SequenceNumber(seed, index)) + WriteU32((seed + index * 257) % TWO_32) +
         [0x50, 0x18] + WriteU16(32768) + [0, 0, 0, 0]
  }

  function HeaderBytes(protocol: byte): nat { if protocol == UDP then 28 else 40 }

  function Payload(seed: uint32, direction: Direction, index: nat, n: nat): (r: seq<byte>)
    ensures |r| == n
  {
    if n == 0 then [] else Payload(seed, direction, index, n - 1) + [PayloadByte(seed, direction, index, n - 1)]
  }

  /** The packet before its two checksums are written. */
  function Unsealed(length: nat, protocol: byte, direction: Direction, index: nat, seed: uint32): (r: seq<byte>)
    requires HeaderBytes(protocol) <= length < 0x1_0000
    ensures |r| == length
  {
    IpHeader(length, protocol, direction, index) + TransportHeader(length, protocol, direction, index, seed) +
    Payload(seed, direction, index, length - HeaderBytes(protocol))
  }

  /** The sum a transport checksum covers: addresses, protocol, length, and the segment. */
  function TransportSum(packet: seq<byte>): nat
    requires |packet| >= 20
  {
    WordSum(packet[12..20]) + packet[9] as int + (|packet| - 20) + WordSum(packet[20..])
  }

  function ChecksumAt(protocol: byte): nat { if protocol == UDP then 26 else 36 }

  function Transmitted(protocol: byte, checksum: uint16): uint16 {
    if protocol == UDP && checksum == 0 then ALL_ONES else checksum
  }

  function WithIpChecksum(packet: seq<byte>): (r: seq<byte>)
    requires |packet| >= 20
    ensures |r| == |packet|
  {
    Store(packet, 10, Finish(WordSum(packet[..20])))
  }

  function WithTransportChecksum(packet: seq<byte>, protocol: byte): (r: seq<byte>)
    requires |packet| >= HeaderBytes(protocol)
    ensures |r| == |packet|
  {
    Store(packet, ChecksumAt(protocol), Transmitted(protocol, Finish(TransportSum(packet))))
  }

  function Packet(length: nat, protocol: byte, direction: Direction, index: nat, seed: uint32): (r: seq<byte>)
    requires HeaderBytes(protocol) <= length < 0x1_0000
    ensures |r| == length
  {
    WithTransportChecksum(WithIpChecksum(Unsealed(length, protocol, direction, index, seed)), protocol)
  }

  // ---------------------------------------------------------------------
  // Validating one packet
  // ---------------------------------------------------------------------

  predicate OwnAddress(packet: seq<byte>, direction: Direction)
    requires |packet| >= 20
  {
    var at := if direction.Upload? then 12 else 16;
    packet[at..at + 4] == [10, 77, 0, 2]
  }

  function ValidatePacket(packet: seq<byte>, direction: Direction): Status {
    if |packet| < 20 || packet[0] / 16 != 4 then ErrHeader
    else if packet[0] % 16 * 4 != 20 || ReadU16(packet, 2) != |packet| then ErrHeader
    else if Finish(WordSum(packet[..20])) != 0 then ErrCrc
    else if !OwnAddress(packet, direction) then ErrHeader
    else if packet[9] == UDP then
      if |packet| < 28 || ReadU16(packet, 24) != |packet| - 20 || ReadU16(packet, 26) == 0 then ErrHeader
      else if Finish(TransportSum(packet)) != 0 then ErrCrc else Ok
    else if packet[9] == TCP then
      if |packet| < 40 then ErrHeader
      else if packet[32] / 16 * 4 < 20 || packet[32] / 16 * 4 > |packet| - 20 then ErrHeader
      else if Finish(TransportSum(packet)) != 0 then ErrCrc else Ok
    else ErrHeader
  }

  lemma IpChecksumHolds(packet: seq<byte>)
    requires |packet| >= 20 && packet[10] == 0 && packet[11] == 0
    ensures Finish(WordSum(WithIpChecksum(packet)[..20])) == 0
  {
    hide WordSum, Finish;
    var sum := WordSum(packet[..20]);
    assert WithIpChecksum(packet)[..20] == Store(packet[..20], 10, Finish(sum));
    StoreAdds(packet[..20], 10, Finish(sum));
    ComplementVerifies(sum);
  }

  lemma TransportChecksumHolds(packet: seq<byte>, protocol: byte)
    requires |packet| >= HeaderBytes(protocol)
    requires packet[ChecksumAt(protocol)] == 0 && packet[ChecksumAt(protocol) + 1] == 0
    ensures var r := WithTransportChecksum(packet, protocol);
            r[..20] == packet[..20] && Finish(TransportSum(r)) == 0 &&
            (protocol == UDP ==> ReadU16(r, 26) != 0)
  {
    hide WordSum, Finish;
    var r := WithTransportChecksum(packet, protocol);
    var at := ChecksumAt(protocol);
    var value := Transmitted(protocol, Finish(TransportSum(packet)));
    assert r[20..] == Store(packet[20..], at - 20, value);
    StoreAdds(packet[20..], at - 20, value);
    assert r[12..20] == packet[12..20];
    ComplementVerifies(TransportSum(packet));
  }

  lemma IpFields(length: uint16, protocol: byte, direction: Direction, index: nat)
    ensures var h := IpHeader(length, protocol, direction, index);
            && h[0] == 0x45 && ReadU16(h, 2) == length && h[9] == protocol && h[10] == 0 && h[11] == 0
            && h[12..20] == Addresses(direction, index)
  {
    hide Addresses;
    U16RoundTrip(length, [0x45, 0], []);
  }

  lemma TransportFields(length: nat, protocol: byte, direction: Direction, index: nat, seed: uint32)
    requires 20 <= length < 0x1_0000
    ensures var t := TransportHeader(length, protocol, direction, index, seed);
            && (protocol == UDP ==> ReadU16(t, 4) == length - 20 && t[6] == 0 && t[7] == 0)
            && (protocol != UDP ==> t[12] == 0x50 && t[16] == 0 && t[17] == 0)
  {
    hide Ports, SequenceNumber;
  }

  lemma UnsealedFields(length: nat, protocol: byte, direction: Direction, index: nat, seed: uint32)
    requires HeaderBytes(protocol) <= length < 0x1_0000 && (protocol == UDP || protocol == TCP)
    ensures var p := Unsealed(length, protocol, direction, index, seed);
            && p[0] == 0x45 && ReadU16(p, 2) == length && p[9] == protocol && p[10] == 0 && p[11] == 0
            && p[12..20] == Addresses(direction, index)
            && (protocol == UDP ==> ReadU16(p, 24) == length - 20 && p[26] == 0 && p[27] == 0)
            && (protocol == TCP ==> p[32] == 0x50 && p[36] == 0 && p[37] == 0)
  {
    hide IpHeader, TransportHeader, Payload, Addresses;
    var p := Unsealed(length, protocol, direction, index, seed);
    IpFields(length, protocol, direction, index);
    TransportFields(length, protocol, direction, index, seed);
    var ip := IpHeader(length, protocol, direction, index);
    var transport := TransportHeader(length, protocol, direction, index, seed);
    assert p[12..20] == ip[12..20];
    assert forall k | 20 <= k < 20 + |transport| :: p[k] == transport[k - 20];
  }

  lemma OwnAddresses(packet: seq<byte>, direction: Direction, index: nat)
    requires |packet| >= 20 && packet[12..20] == Addresses(direction, index)
    ensures OwnAddress(packet, direction)
  {
    var at := if direction.Upload? then 12 else 16;
    assert packet[at..at + 4] == packet[12..20][at - 12..at - 8];
  }

  /** The validator accepts every packet made for its direction. */
  lemma PacketValidates(length: nat, protocol: byte, direction: Direction, index: nat, seed: uint32)
    requires HeaderBytes(protocol) <= length < 0x1_0000 && (protocol == UDP || protocol == TCP)
    ensures ValidatePacket(Packet(length, protocol, direction, index, seed), direction) == Ok
  {
    hide Unsealed, WordSum, Finish, TransportSum;
    var raw := Unsealed(length, protocol, direction, index, seed);
    UnsealedFields(length, protocol, direction, index, seed);
    IpChecksumHolds(raw);
    var p := WithIpChecksum(raw);
    TransportChecksumHolds(p, protocol);
    var r := Packet(length, protocol, direction, index, seed);
    assert r[..20] == p[..20];
    assert r[12..20] == p[..20][12..20];
    assert p[12..20] == raw[12..20];
    OwnAddresses(r, direction, index);
  }

  /** Whatever packet the validator accepts, it accepts none that differs from it in one byte. */
  lemma DamageIsCaught(packet: seq<byte>, damaged: seq<byte>, k: nat, direction: Direction)
    requires ValidatePacket(packet, direction) == Ok
    requires |damaged| == |packet| && k < |packet| && damaged[k] != packet[k]
    requires forall j | 0 <= j < |packet| && j != k :: damaged[j] == packet[j]
    ensures ValidatePacket(damaged, direction) != Ok
  {
    hide WordSum, Finish;
    if k < 20 {
      OneByteIsCaught(packet[..20], damaged[..20], k, 0);
    } else {
      assert damaged[..20] == packet[..20];
      assert damaged[12..20] == packet[12..20];
      OneByteIsCaught(packet[20..], damaged[20..], k - 20,
                      WordSum(packet[12..20]) + packet[9] as int + (|packet| - 20));
    }
  }

  // ---------------------------------------------------------------------
  // Streams of packets
  // ---------------------------------------------------------------------

  function Record(mtu: Mtu, direction: Direction, index: nat, seed: uint32): (r: seq<byte>)
    ensures 2 < |r| <= mtu + 2
  {
    var length := PacketLength(mtu, index, Protocol(index, direction));
    WriteU16(length) + Packet(length, Protocol(index, direction), direction, index, seed)
  }

  /** The records of n packets from an index on. */
  function Records(mtu: Mtu, direction: Direction, from: nat, n: nat, seed: uint32): seq<byte>
    decreases n
  {
    if n == 0 then [] else Record(mtu, direction, from, seed) + Records(mtu, direction, from + 1, n - 1, seed)
  }

  datatype Counts = Counts(packets: nat, ipBytes: nat, udp: nat, tcp: nat)

  function Count(counts: Counts, length: nat, protocol: byte): Counts {
    Counts(counts.packets + 1, counts.ipBytes + length,
           if protocol == UDP then counts.udp + 1 else counts.udp,
           if protocol == UDP then counts.tcp else counts.tcp + 1)
  }

  /** The counts after n packets from an index on. */
  function Totals(mtu: Mtu, direction: Direction, from: nat, n: nat, counts: Counts): Counts
    decreases n
  {
    if n == 0 then counts
    else
      var protocol := Protocol(from, direction);
      Totals(mtu, direction, from + 1, n - 1, Count(counts, PacketLength(mtu, from, protocol), protocol))
  }

  function ValidateStream(bytes: seq<byte>, direction: Direction, counts: Counts): (Status, Counts)
    decreases |bytes|
  {
    if |bytes| == 0 then (Ok, counts)
    else if |bytes| < 2 then (ErrHeader, counts)
    else
      var length := ReadU16(bytes, 0);
      if length == 0 || length > |bytes| - 2 then (ErrHeader, counts)
      else
        var packet := bytes[2..2 + length];
        if ValidatePacket(packet, direction) != Ok then (ValidatePacket(packet, direction), counts)
        else ValidateStream(bytes[2 + length..], direction, Count(counts, length, packet[9]))
  }

  lemma {:induction false} RecordsValidate(mtu: Mtu, direction: Direction, from: nat, n: nat, seed: uint32, counts: Counts)
    ensures ValidateStream(Records(mtu, direction, from, n, seed), direction, counts) ==
            (Ok, Totals(mtu, direction, from, n, counts))
    decreases n
  {
    hide ValidatePacket, ValidateStream, Record, Records, Packet, PacketLength, Protocol;
    if n == 0 {
      NoRecords(mtu, direction, from, seed, counts);
    } else {
      RecordStep(mtu, direction, from, n, seed, counts);
      var protocol := Protocol(from, direction);
      RecordsValidate(mtu, direction, from + 1, n - 1, seed, Count(counts, PacketLength(mtu, from, protocol), protocol));
    }
  }

  lemma NoRecords(mtu: Mtu, direction: Direction, from: nat, seed: uint32, counts: Counts)
    ensures ValidateStream(Records(mtu, direction, from, 0, seed), direction, counts) == (Ok, counts)
  {
  }

  lemma RecordStep(mtu: Mtu, direction: Direction, from: nat, n: nat, seed: uint32, counts: Counts)
    requires n > 0
    ensures var protocol := Protocol(from, direction);
            ValidateStream(Records(mtu, direction, from, n, seed), direction, counts) ==
            ValidateStream(Records(mtu, direction, from + 1, n - 1, seed), direction,
                           Count(counts, PacketLength(mtu, from, protocol), protocol))
  {
    hide ValidatePacket, Packet, PacketLength;
    var protocol := Protocol(from, direction);
    var length := PacketLength(mtu, from, protocol);
    var bytes := Records(mtu, direction, from, n, seed);
    var packet := Packet(length, protocol, direction, from, seed);
    var rest := Records(mtu, direction, from + 1, n - 1, seed);
    assert bytes == WriteU16(length) + packet + rest;
    U16RoundTrip(length, [], packet + rest);
    assert [] + WriteU16(length) + (packet + rest) == bytes;
    assert bytes[2..2 + length] == packet;
    assert bytes[2 + length..] == rest;
    PacketValidates(length, protocol, direction, from, seed);
    PacketProtocol(length, protocol, direction, from, seed);
  }

  lemma PacketProtocol(length: nat, protocol: byte, direction: Direction, index: nat, seed: uint32)
    requires HeaderBytes(protocol) <= length < 0x1_0000 && (protocol == UDP || protocol == TCP)
    ensures Packet(length, protocol, direction, index, seed)[9] == protocol
  {
    hide Unsealed, TransportSum, Finish;
    UnsealedFields(length, protocol, direction, index, seed);
  }

  const NO_COUNTS := Counts(0, 0, 0, 0)

  /** The validator accepts every stream and counts what the builder counted. */
  lemma StreamValidates(mtu: Mtu, count: nat, direction: Direction, seed: uint32)
    ensures ValidateStream(Records(mtu, direction, 0, count, seed), direction, NO_COUNTS) ==
            (Ok, Totals(mtu, direction, 0, count, NO_COUNTS))
  {
    RecordsValidate(mtu, direction, 0, count, seed, NO_COUNTS);
  }

  /** The two kinds alternate, and together they are all the packets. */
  lemma {:induction false} TotalsAddUp(mtu: Mtu, direction: Direction, from: nat, n: nat, counts: Counts)
    requires counts.udp + counts.tcp == counts.packets
    ensures var t := Totals(mtu, direction, from, n, counts);
            (t.packets == counts.packets + n && t.udp + t.tcp == t.packets)
    decreases n
  {
    if n > 0 {
      var protocol := Protocol(from, direction);
      TotalsAddUp(mtu, direction, from + 1, n - 1, Count(counts, PacketLength(mtu, from, protocol), protocol));
    }
  }

  // ---------------------------------------------------------------------
  // Records that do not fit one optical cell
  // ---------------------------------------------------------------------

  function RecordLength(mtu: Mtu, direction: Direction, index: nat): (length: nat)
    ensures length > 0
  {
    2 + PacketLength(mtu, index, Protocol(index, direction))
  }

  /** Where the record of an index starts. */
  function Start(mtu: Mtu, direction: Direction, index: nat): nat {
    if index == 0 then 0 else Start(mtu, direction, index - 1) + RecordLength(mtu, direction, index - 1)
  }

  /** The first and the last byte fall into different cells. */
  predicate Spans(offset: nat, length: nat)
    requires length > 0
  {
    offset / DATA_BYTES != (offset + length - 1) / DATA_BYTES
  }

  /** How many of the first n records span cells. */
  function Spanning(mtu: Mtu, direction: Direction, n: nat): nat {
    if n == 0 then 0
    else Spanning(mtu, direction, n - 1) +
         if Spans(Start(mtu, direction, n - 1), RecordLength(mtu, direction, n - 1)) then 1 else 0
  }

  /** A boundary between two cells. */
  function Boundary(cell: nat): nat { cell * DATA_BYTES }

  /** A record spans cells exactly when a boundary lies strictly inside it. */
  lemma SpansExactly(offset: nat, length: nat)
    requires length > 0
    ensures Spans(offset, length) <==> exists cell: nat :: offset < Boundary(cell) < offset + length
  {
    var first, last := offset / DATA_BYTES, (offset + length - 1) / DATA_BYTES;
    if Spans(offset, length) {
      assert offset < Boundary(first + 1) < offset + length;
    } else {
      forall cell: nat | offset < Boundary(cell) ensures offset + length <= Boundary(cell) {
      }
    }
  }
}
