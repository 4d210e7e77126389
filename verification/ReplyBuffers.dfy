/** The policy's replies, built in the caller's buffer. */
module ReplyBuffers {
  import opened ByteBuffers
  import opened Bytes
  import opened Common
  import opened DnsRejection
  import opened InternetChecksum
  import opened TrafficReplies

  method CopyTo(buffer: array<byte>, at: nat, bytes: seq<byte>)
    requires at + |bytes| <= buffer.Length
    modifies buffer
    ensures buffer[..] == Put(old(buffer[..]), at, bytes)
  {
    hide Put;
    ghost var s := buffer[..];
    PutNothing(s, at);
    assert bytes[..0] == [];
    for i := 0 to |bytes|
      invariant buffer[..] == Put(s, at, bytes[..i])
    {
      PutOne(buffer[..], at + i, bytes[i]);
      buffer[at + i] := bytes[i];
      PutJoins(s, at, bytes[..i], [bytes[i]]);
      assert bytes[..i + 1] == bytes[..i] + [bytes[i]];
    }
    assert bytes[..|bytes|] == bytes;
  }

  // ---------------------------------------------------------------------
  // Port unreachable
  // ---------------------------------------------------------------------

  method BuildPortUnreachable(packet: seq<byte>, response: array<byte>) returns (ok: bool, length: nat)
    modifies response
    ensures ok == PortUnreachable(packet, response.Length).Some?
    ensures ok ==> length <= response.Length && response[..length] == PortUnreachable(packet, response.Length).value
    ensures ok ==> response[length..] == old(response[length..])
    ensures !ok ==> response[..] == old(response[..])
  {
    hide WordSum, Finish, UnreachableFields, Put;
    length := 0;
    if !WholeUdp(packet) {
      return false, length;
    }
    var header := HeaderLength(packet);
    if header + 8 > |packet| || 36 + header > response.Length {
      return false, length;
    }
    length := 36 + header;
    ghost var s := response[..];
    PutUnreachable(packet, response);
    SealUnreachable(response, length, s, UnreachableFields(packet));
    PutWhole(s, WithIcmpChecksum(WithHeaderChecksum(UnreachableFields(packet), 20)));
    assert response[..length] == response[..][..length] && response[length..] == response[..][length..];
    ok := true;
  }

  lemma PutWhole(s: seq<byte>, bytes: seq<byte>)
    requires |bytes| <= |s|
    ensures Put(s, 0, bytes)[..|bytes|] == bytes && Put(s, 0, bytes)[|bytes|..] == s[|bytes|..]
  {
  }

  /** Both checksums, over what the buffer already holds. */
  method SealUnreachable(response: array<byte>, length: nat, ghost s: seq<byte>, ghost fields: seq<byte>)
    requires |fields| == length && 28 <= length <= |s| == response.Length && response[..] == Put(s, 0, fields)
    modifies response
    ensures response[..] == Put(s, 0, WithIcmpChecksum(WithHeaderChecksum(fields, 20)))
  {
    hide WordSum, Finish, Put;
    PutWhole(s, fields);
    assert response[..20] == response[..][..length][..20] == fields[..20];
    var sum := ChecksumAdd(0, response[..20]);
    var checksum := ChecksumFinish(sum);
    PutU16(response, 10, checksum);
    PutStore(s, 0, fields, 10, checksum);
    ghost var first := WithHeaderChecksum(fields, 20);
    PutWhole(s, first);
    assert response[20..length] == response[..][..length][20..] == first[20..];
    sum := ChecksumAdd(0, response[20..length]);
    checksum := ChecksumFinish(sum);
    PutU16(response, 22, checksum);
    PutStore(s, 0, first, 22, checksum);
  }

  lemma IcmpParts(packet: seq<byte>)
    requires WholeUdp(packet) && HeaderLength(packet) + 8 <= |packet|
    ensures var h := HeaderLength(packet);
            |packet[16..20]| == 4 && |packet[12..16]| == 4 && 36 + h < 0x1_0000 &&
            IcmpHeader(36 + h, packet[16..20], packet[12..16]) + packet[..h + 8] == UnreachableFields(packet)
  {
  }

  method PutUnreachable(packet: seq<byte>, response: array<byte>)
    requires WholeUdp(packet) && HeaderLength(packet) + 8 <= |packet| && 36 + HeaderLength(packet) <= response.Length
    modifies response
    ensures response[..] == Put(old(response[..]), 0, UnreachableFields(packet))
  {
    hide Put, IcmpHeader, UnreachableFields;
    IcmpParts(packet);
    var header := HeaderLength(packet);
    ghost var s := response[..];
    Clear(response, 0, 36 + header);
    ghost var clear := response[..];
    ZerosPut(s, 36 + header);
    PutIcmpHeader(response, 36 + header, packet[16..20], packet[12..16]);
    ghost var h := IcmpHeader(36 + header, packet[16..20], packet[12..16]);
    CopyTo(response, 28, packet[..header + 8]);
    PutJoins(clear, 0, h, packet[..header + 8]);
    PutOver(s, 0, Zeros(36 + header), UnreachableFields(packet));
  }

  lemma ZerosPut(s: seq<byte>, n: nat)
    requires n <= |s|
    ensures ZeroFrom(Put(s, 0, Zeros(n)), 0, n)
  {
  }

  function IcmpHeader(total: uint16, source: seq<byte>, destination: seq<byte>): (r: seq<byte>)
    ensures |r| == 20 + |source| + |destination|
  {
    [0x45, 0] + WriteU16(total) + [0, 0, 0, 0, 64, 1, 0, 0] + source + destination + [3, 3, 0, 0, 0, 0, 0, 0]
  }

  function IcmpStart(total: uint16): (r: seq<byte>)
    ensures |r| == 12
  {
    [0x45, 0] + WriteU16(total) + [0, 0, 0, 0] + [64, 1] + [0, 0]
  }

  method PutIcmpStart(response: array<byte>, total: uint16)
    requires 12 <= response.Length && ZeroFrom(response[..], 0, 12)
    modifies response
    ensures response[..] == Put(old(response[..]), 0, IcmpStart(total))
  {
    hide Put, WriteU16;
    ghost var s := response[..];
    PutPair(response, 0, 0x45, 0);
    PutU16(response, 2, total);
    PutJoins(s, 0, [0x45, 0], WriteU16(total));
    ghost var h := [0x45, 0] + WriteU16(total);
    PutPadded(s, 0, h, [0, 0, 0, 0]);
    h := h + [0, 0, 0, 0];
    PutPair(response, 8, 64, 1);
    PutJoins(s, 0, h, [64, 1]);
    PutPadded(s, 0, h + [64, 1], [0, 0]);
  }

  method PutIcmpHeader(response: array<byte>, total: uint16, source: seq<byte>, destination: seq<byte>)
    requires |source| == 4 && |destination| == 4 && 28 <= response.Length && ZeroFrom(response[..], 0, 28)
    modifies response
    ensures response[..] == Put(old(response[..]), 0, IcmpHeader(total, source, destination))
  {
    hide Put, IcmpStart, IcmpHeader;
    ghost var s := response[..];
    PutIcmpStart(response, total);
    ghost var h := IcmpStart(total);
    CopyTo(response, 12, source);
    PutJoins(s, 0, h, source);
    CopyTo(response, 16, destination);
    PutJoins(s, 0, h + source, destination);
    h := h + source + destination;
    PutPair(response, 20, 3, 3);
    PutJoins(s, 0, h, [3, 3]);
    PutPadded(s, 0, h + [3, 3], [0, 0, 0, 0, 0, 0]);
    IcmpSplits(total, source, destination);
  }

  lemma IcmpSplits(total: uint16, source: seq<byte>, destination: seq<byte>)
    ensures IcmpStart(total) + source + destination + [3, 3] + [0, 0, 0, 0, 0, 0] == IcmpHeader(total, source, destination)
  {
    var start := [0x45, 0] + WriteU16(total) + [0, 0, 0, 0, 64, 1, 0, 0];
    assert IcmpStart(total) == start;
    assert [3, 3] + [0, 0, 0, 0, 0, 0] == [3, 3, 0, 0, 0, 0, 0, 0];
    assert start + source + destination + [3, 3] + [0, 0, 0, 0, 0, 0] == start + source + destination + [3, 3, 0, 0, 0, 0, 0, 0];
  }

  // ---------------------------------------------------------------------
  // The DNS rejection
  // ---------------------------------------------------------------------

  method ParseQuestion(packet: seq<byte>, queryOnly: bool) returns (question: Option<Question>)
    ensures question == ParseDns(packet, queryOnly)
  {
    hide ReadName;
    if !WholeUdp(packet) || HeaderLength(packet) + 20 > |packet| {
      return None;
    }
    var h := HeaderLength(packet);
    if ReadU16(packet, h + 4) != |packet| - h {
      return None;
    }
    var dns := packet[h + 8..];
    if ReadU16(dns, 4) != 1 || ReadU16(dns, 6) != 0 || ReadU16(dns, 8) != 0 ||
       (queryOnly && (ReadU16(dns, 2) >= 0x8000 || ReadU16(packet, h + 2) != 53)) {
      return None;
    }
    var name := ScanName(dns, 12);
    if name.None? || name.value.next + 4 > |dns| {
      return None;
    }
    return Some(Question(name.value.text, ReadU16(dns, name.value.next), h));
  }

  method Overwrite(buffer: array<byte>, at: nat, bytes: seq<byte>)
    requires at + |bytes| <= buffer.Length
    modifies buffer
    ensures forall k | at <= k < at + |bytes| :: buffer[k] == bytes[k - at]
    ensures forall k | 0 <= k < buffer.Length && !(at <= k < at + |bytes|) :: buffer[k] == old(buffer[k])
  {
    for i := 0 to |bytes|
      invariant forall k | at <= k < at + i :: buffer[k] == bytes[k - at]
      invariant forall k | 0 <= k < buffer.Length && !(at <= k < at + i) :: buffer[k] == old(buffer[k])
    {
      buffer[at + i] := bytes[i];
    }
  }

  /** Three swaps in place: the copy of a query with addresses and ports exchanged. */
  method PutExchanged(query: seq<byte>, h: nat, response: array<byte>)
    requires 20 <= h && h + 20 <= |query| <= response.Length
    modifies response
    ensures response[|query|..] == old(response[|query|..])
    ensures forall k | 0 <= k < |query| :: response[k] == query[Exchanged(k, h)]
  {
    Overwrite(response, 0, query);
    var address := query[12..16];
    Overwrite(response, 12, query[16..20]);
    Overwrite(response, 16, address);
    var port := query[h..h + 2];
    Overwrite(response, h, query[h + 2..h + 4]);
    Overwrite(response, h + 2, port);
  }

  /** Where a byte of the reply comes from. */
  function Exchanged(k: nat, h: nat): (r: nat)
    requires h >= 20
    ensures k < h + 20 ==> r < h + 20
    ensures k >= h + 20 ==> r == k
  {
    if 12 <= k < 16 then k + 4 else if 16 <= k < 20 then k - 4
    else if h <= k < h + 2 then k + 2 else if h + 2 <= k < h + 4 then k - 2 else k
  }

  /** A reply is told by where each of its parts comes from. */
  lemma FieldsByPart(query: seq<byte>, h: nat, r: seq<byte>)
    requires 20 <= h && h + 20 <= |query| == |r|
    requires forall k | 0 <= k < h + 8 && k != 10 && k != 11 && k != h + 6 && k != h + 7 :: r[k] == query[Exchanged(k, h)]
    requires r[10] == 0 && r[11] == 0 && r[h + 6] == 0 && r[h + 7] == 0
    requires r[h + 8..] == RejectedDns(query[h + 8..])
    ensures r == RejectionFields(query, h)
  {
    hide RejectedDns;
    var f := RejectionFields(query, h);
    FieldsContents(query, h);
    assert r[..10] == f[..10];
    assert r[10..12] == f[10..12];
    assert r[12..16] == query[16..20];
    assert r[16..20] == query[12..16];
    assert r[20..h] == query[20..h];
    assert r[h..h + 2] == query[h + 2..h + 4];
    assert r[h + 2..h + 4] == query[h..h + 2];
    assert r[h + 4..h + 6] == query[h + 4..h + 6];
    assert r[h + 6..h + 8] == f[h + 6..h + 8];
    Cut(r, h);
    Cut(f, h);
  }

  lemma Cut(r: seq<byte>, h: nat)
    requires 20 <= h && h + 20 <= |r|
    ensures r == r[..10] + r[10..12] + r[12..16] + r[16..20] + r[20..h] +
                 r[h..h + 2] + r[h + 2..h + 4] + r[h + 4..h + 6] + r[h + 6..h + 8] + r[h + 8..]
  {
  }

  lemma DnsByPart(dns: seq<byte>, r: seq<byte>)
    requires 12 <= |dns| == |r|
    requires r[0] == dns[0] && r[1] == dns[1]
    requires var flags := RejectFlags(ReadU16(dns, 2)); r[2] == flags / 0x100 && r[3] == flags % 0x100
    requires r[4] == dns[4] && r[5] == dns[5] && r[6] == 0 && r[7] == 0 && r[8] == 0 && r[9] == 0
    requires forall k | 10 <= k < |dns| :: r[k] == dns[k]
    ensures r == RejectedDns(dns)
  {
    hide RejectFlags;
  }

  method PutWord(buffer: array<byte>, at: nat, value: uint16)
    requires at + 2 <= buffer.Length
    modifies buffer
    ensures buffer[at] == value / 0x100 && buffer[at + 1] == value % 0x100
    ensures forall k | 0 <= k < buffer.Length && k != at && k != at + 1 :: buffer[k] == old(buffer[k])
  {
    buffer[at] := value / 0x100;
    buffer[at + 1] := value % 0x100;
  }

  /** The four words of the reply that are neither copied nor exchanged. */
  method PutAnswer(response: array<byte>, h: nat, flags: uint16)
    requires 20 <= h && h + 18 <= response.Length
    modifies response
    ensures response[h + 10] == flags / 0x100 && response[h + 11] == flags % 0x100
    ensures forall k | h + 14 <= k < h + 18 || 10 <= k < 12 :: response[k] == 0
    ensures forall k | 0 <= k < response.Length && !(10 <= k < 12 || h + 10 <= k < h + 12 || h + 14 <= k < h + 18) ::
              response[k] == old(response[k])
  {
    PutWord(response, h + 10, flags);
    PutWord(response, h + 14, 0);
    PutWord(response, h + 16, 0);
    PutWord(response, 10, 0);
  }

  /** The reply's fields over a copy of the query, its UDP checksum still the query's. */
  method PutRejection(query: seq<byte>, h: nat, response: array<byte>)
    requires 20 <= h && h + 20 <= |query| <= response.Length
    modifies response
    ensures response[|query|..] == old(response[|query|..])
    ensures response[..|query|][h + 6 := 0][h + 7 := 0] == RejectionFields(query, h)
  {
    hide RejectFlags, RejectionFields, RejectedDns;
    PutExchanged(query, h, response);
    PutAnswer(response, h, RejectFlags(ReadU16(query, h + 10)));
    FieldsInPlace(query, h, response[..|query|][h + 6 := 0][h + 7 := 0]);
  }

  lemma FieldsInPlace(query: seq<byte>, h: nat, r: seq<byte>)
    requires 20 <= h && h + 20 <= |query| == |r|
    requires r[10] == 0 && r[11] == 0 && r[h + 6] == 0 && r[h + 7] == 0
    requires var flags := RejectFlags(ReadU16(query, h + 10)); r[h + 10] == flags / 0x100 && r[h + 11] == flags % 0x100
    requires r[h + 14] == 0 && r[h + 15] == 0 && r[h + 16] == 0 && r[h + 17] == 0
    requires forall k | 0 <= k < |r| && k != 10 && k != 11 && k != h + 6 && k != h + 7 && !(h + 10 <= k < h + 12) &&
                        !(h + 14 <= k < h + 18) :: r[k] == query[Exchanged(k, h)]
    ensures r == RejectionFields(query, h)
  {
    hide RejectFlags, RejectionFields, RejectedDns;
    var dns, reply := query[h + 8..], r[h + 8..];
    assert ReadU16(dns, 2) == ReadU16(query, h + 10);
    assert reply[0] == r[h + 8] && reply[1] == r[h + 9] && reply[4] == r[h + 12] && reply[5] == r[h + 13];
    assert dns[0] == query[h + 8] && dns[1] == query[h + 9] && dns[4] == query[h + 12] && dns[5] == query[h + 13];
    forall k | 10 <= k < |dns| ensures reply[k] == dns[k] {
      assert reply[k] == r[h + 8 + k] == query[Exchanged(h + 8 + k, h)];
    }
    DnsByPart(dns, reply);
    FieldsByPart(query, h, r);
  }

  /** Both checksums; the header's is written before the UDP checksum is cleared. */
  method SealRejection(response: array<byte>, n: nat, h: nat, ghost fields: seq<byte>)
    requires 20 <= h && h + 20 <= n <= response.Length && |fields| == n
    requires response[..n][h + 6 := 0][h + 7 := 0] == fields
    modifies response
    ensures response[n..] == old(response[n..])
    ensures response[..n] == WithUdpChecksum(WithHeaderChecksum(fields, h), h)
  {
    hide WordSum, Finish;
    assert response[..h] == fields[..h];
    var sum := ChecksumAdd(0, response[..h]);
    var checksum := ChecksumFinish(sum);
    PutWord(response, 10, checksum);
    PutWord(response, h + 6, 0);
    ghost var first := WithHeaderChecksum(fields, h);
    assert forall k | 0 <= k < n :: response[k] == first[k];
    assert response[12..20] == first[12..20] && response[h..n] == first[h..];
    sum := ChecksumAdd(0, response[12..20]);
    sum := sum + 17;
    sum := sum + (n - h);
    sum := ChecksumAdd(sum, response[h..n]);
    checksum := ChecksumFinish(sum);
    PutWord(response, h + 6, if checksum == 0 then ALL_ONES else checksum);
  }

  method BuildDnsRejection(query: seq<byte>, response: array<byte>) returns (ok: bool, length: nat)
    modifies response
    ensures ok == Rejection(query, response.Length).Some?
    ensures ok ==> length == |query| <= response.Length && response[..length] == Rejection(query, response.Length).value
    ensures ok ==> response[length..] == old(response[length..])
    ensures !ok ==> response[..] == old(response[..])
  {
    hide WithHeaderChecksum, WithUdpChecksum, RejectionFields, ReadName;
    length := 0;
    if |query| > response.Length {
      return false, length;
    }
    var question := ParseQuestion(query, true);
    if question.None? {
      return false, length;
    }
    PutRejection(query, question.value.header, response);
    SealRejection(response, |query|, question.value.header, RejectionFields(query, question.value.header));
    return true, |query|;
  }
}
