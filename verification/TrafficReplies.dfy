/** The replies the traffic policy sends for packets it turns away: unreachable ports and refused names. */
module TrafficReplies {
  import opened Bytes
  import opened Common
  import opened InternetChecksum

  const MAX_PACKET := 2048
  const NAME_MAX := 256
  const MAX_JUMPS := 16

  // ---------------------------------------------------------------------
  // Packets
  // ---------------------------------------------------------------------

  function HeaderLength(packet: seq<byte>): nat
    requires |packet| > 0
  {
    packet[0] % 16 * 4
  }

  predicate ValidIp(packet: seq<byte>) {
    && 0 < |packet| <= MAX_PACKET
    && if packet[0] / 16 == 4 then
         |packet| >= 20 && 20 <= HeaderLength(packet) <= |packet| && ReadU16(packet, 2) == |packet|
       else packet[0] / 16 == 6 && |packet| >= 40 && ReadU16(packet, 4) + 40 == |packet|
  }

  /** An IPv4 packet that is all of a UDP datagram. */
  predicate WholeUdp(packet: seq<byte>) {
    ValidIp(packet) && packet[0] / 16 == 4 && packet[9] == 17 && ReadU16(packet, 6) % 0x4000 == 0
  }

  /** The pseudo header of a UDP segment and the segment. */
  function UdpSum(packet: seq<byte>, header: nat): nat
    requires 20 <= header <= |packet|
  {
    WordSum(packet[12..20]) + 17 + (|packet| - header) + WordSum(packet[header..])
  }

  /** A packet with the checksum of its first n bytes. */
  function WithHeaderChecksum(packet: seq<byte>, n: nat): (r: seq<byte>)
    requires 20 <= n <= |packet|
    ensures |r| == |packet|
  {
    Store(packet, 10, Finish(WordSum(packet[..n])))
  }

  lemma HeaderVerifies(packet: seq<byte>, n: nat)
    requires 20 <= n <= |packet| && packet[10] == 0 && packet[11] == 0
    ensures var r := WithHeaderChecksum(packet, n); Finish(WordSum(r[..n])) == 0 && r[n..] == packet[n..]
    ensures var r := WithHeaderChecksum(packet, n); r[12..n] == packet[12..n] && r[..10] == packet[..10]
  {
    hide WordSum, Finish;
    var sum := WordSum(packet[..n]);
    assert WithHeaderChecksum(packet, n)[..n] == Store(packet[..n], 10, Finish(sum));
    StoreAdds(packet[..n], 10, Finish(sum));
    ComplementVerifies(sum);
  }

  // ---------------------------------------------------------------------
  // Port unreachable
  // ---------------------------------------------------------------------

  /** The reply before its two checksums. */
  function UnreachableFields(packet: seq<byte>): (r: seq<byte>)
    requires WholeUdp(packet) && HeaderLength(packet) + 8 <= |packet|
    ensures |r| == 36 + HeaderLength(packet)
  {
    [0x45, 0] + WriteU16(36 + HeaderLength(packet)) + [0, 0, 0, 0, 64, 1, 0, 0] + packet[16..20] + packet[12..16] +
    [3, 3, 0, 0, 0, 0, 0, 0] + packet[..HeaderLength(packet) + 8]
  }

  function WithIcmpChecksum(reply: seq<byte>): (r: seq<byte>)
    requires |reply| >= 28
    ensures |r| == |reply|
  {
    Store(reply, 22, Finish(WordSum(reply[20..])))
  }

  function PortUnreachable(packet: seq<byte>, capacity: nat): Option<seq<byte>> {
    if !WholeUdp(packet) || HeaderLength(packet) + 8 > |packet| || 36 + HeaderLength(packet) > capacity then None
    else Some(WithIcmpChecksum(WithHeaderChecksum(UnreachableFields(packet), 20)))
  }

  lemma UnreachableContents(packet: seq<byte>)
    requires WholeUdp(packet) && HeaderLength(packet) + 8 <= |packet|
    ensures var r, h := UnreachableFields(packet), HeaderLength(packet);
            && r[0] == 0x45 && ReadU16(r, 2) == 36 + h && r[9] == 1 && r[10] == 0 && r[11] == 0
            && r[12..16] == packet[16..20] && r[16..20] == packet[12..16]
            && r[20] == 3 && r[21] == 3 && r[22] == 0 && r[23] == 0 && r[28..] == packet[..h + 8]
  {
    var h := HeaderLength(packet);
    U16RoundTrip(36 + h, [0x45, 0], []);
    var a := [0x45, 0] + WriteU16(36 + h) + [0, 0, 0, 0, 64, 1, 0, 0];
    var b := packet[16..20] + packet[12..16];
    var c := [3, 3, 0, 0, 0, 0, 0, 0];
    assert UnreachableFields(packet) == a + b + c + packet[..h + 8];
  }

  /** What the reply says to the sender of the packet, under checksums that verify. */
  lemma UnreachableVerifies(packet: seq<byte>, capacity: nat)
    requires PortUnreachable(packet, capacity).Some?
    ensures var r, h := PortUnreachable(packet, capacity).value, HeaderLength(packet);
            && ValidIp(r) && |r| == 36 + h && r[0] == 0x45 && r[9] == 1
            && Finish(WordSum(r[..20])) == 0 && Finish(WordSum(r[20..])) == 0
            && r[12..16] == packet[16..20] && r[16..20] == packet[12..16]
            && r[20] == 3 && r[21] == 3 && r[28..] == packet[..h + 8]
  {
    hide WordSum, Finish, UnreachableFields;
    var fields := UnreachableFields(packet);
    UnreachableContents(packet);
    HeaderVerifies(fields, 20);
    var first := WithHeaderChecksum(fields, 20);
    var r := WithIcmpChecksum(first);
    var sum := WordSum(first[20..]);
    assert r[20..] == Store(first[20..], 2, Finish(sum));
    assert first[22] == first[20..][2] && first[23] == first[20..][3];
    StoreAdds(first[20..], 2, Finish(sum));
    ComplementVerifies(sum);
    assert r[..20] == first[..20];
    assert r[28..] == first[28..] == fields[28..];
    assert r[12..16] == fields[12..16] && r[16..20] == fields[16..20];
  }

  /** The packet a reply like this one quotes came from the name server's port. */
  predicate StaleDns(packet: seq<byte>) {
    && ValidIp(packet) && packet[0] / 16 == 4 && packet[9] == 1
    && var quoted := HeaderLength(packet) + 8;
    && quoted + 28 <= |packet| && packet[quoted - 8] == 3 && packet[quoted - 7] == 3
    && packet[quoted] / 16 == 4 && packet[quoted + 9] == 17
    && var header := packet[quoted] % 16 * 4;
       header >= 20 && quoted + header + 8 <= |packet| && ReadU16(packet, quoted + header) == 53
  }

  /** The policy drops a reply of its own as stale exactly when the packet it answers came from port 53. */
  lemma UnreachableIsStaleExactly(packet: seq<byte>, capacity: nat)
    requires PortUnreachable(packet, capacity).Some?
    ensures StaleDns(PortUnreachable(packet, capacity).value) <==> ReadU16(packet, HeaderLength(packet)) == 53
  {
    hide WordSum, Finish, PortUnreachable;
    assert WholeUdp(packet) && HeaderLength(packet) + 8 <= |packet| by { UnreachableOnly(packet, capacity); }
    var r, h := PortUnreachable(packet, capacity).value, HeaderLength(packet);
    UnreachableVerifies(packet, capacity);
    assert forall k | 0 <= k < h + 8 :: r[28 + k] == r[28..][k] == packet[k];
    assert r[28] == packet[0] && r[37] == packet[9];
    assert r[28 + h] == packet[h] && r[28 + (h + 1)] == packet[h + 1];
  }

  lemma UnreachableOnly(packet: seq<byte>, capacity: nat)
    ensures PortUnreachable(packet, capacity).Some? <==>
            WholeUdp(packet) && HeaderLength(packet) + 8 <= |packet| && 36 + HeaderLength(packet) <= capacity
  {
  }
}
