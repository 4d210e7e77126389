/** Reading the question of a DNS packet, and the reply that says the name does not exist. */
module DnsRejection {
  import opened Arithmetic
  import opened Bytes
  import opened Common
  import opened InternetChecksum
  import opened TrafficReplies

  // ---------------------------------------------------------------------
  // Names
  // ---------------------------------------------------------------------

  function Lower(character: byte): byte {
    if 65 <= character <= 90 then character + 32 else character
  }

  function Lowered(s: seq<byte>): (r: seq<byte>)
    ensures |r| == |s|
  {
    if s == [] then [] else Lowered(s[..|s| - 1]) + [Lower(s[|s| - 1])]
  }

  const DOT: byte := 46

  function Dotted(name: seq<byte>): seq<byte> { if name == [] then [] else name + [DOT] }

  datatype Name = Name(text: seq<byte>, next: nat)

  /** Where a compression pointer points. */
  function Target(dns: seq<byte>, position: nat): nat
    requires position + 1 < |dns|
  {
    dns[position] as int % 0x40 * 0x100 + dns[position + 1] as int
  }

  /**
   The name from a position on, after what was read of it so far, and the place
   after its first stretch; compression pointers are followed a bounded number of times.
   */
  function ReadName(dns: seq<byte>, position: nat, text: seq<byte>, after: Option<nat>, jumps: nat): Option<Name>
    decreases MAX_JUMPS + 1 - jumps, |dns| - position
  {
    if position >= |dns| || jumps > MAX_JUMPS then None
    else
      var length := dns[position];
      if length >= 0xC0 then
        if position + 1 >= |dns| || Target(dns, position) >= |dns| then None
        else ReadName(dns, Target(dns, position), text, if after.None? then Some(position + 2) else after, jumps + 1)
      else if length == 0 then
        Some(Name(if text == [] then [DOT] else text, if after.None? then position + 1 else after.value))
      else if length > 63 || position + 1 + length > |dns| || |Dotted(text)| + length >= NAME_MAX then None
      else
        ReadName(dns, position + 1 + length, Dotted(text) + Lowered(dns[position + 1..position + 1 + length]), after, jumps)
  }

  /** A name read fits the buffer it is read into, with room for its end mark. */
  lemma {:induction false} NameFits(dns: seq<byte>, position: nat, text: seq<byte>, after: Option<nat>, jumps: nat)
    requires |text| < NAME_MAX && ReadName(dns, position, text, after, jumps).Some?
    ensures 0 < |ReadName(dns, position, text, after, jumps).value.text| < NAME_MAX
    decreases MAX_JUMPS + 1 - jumps, |dns| - position
  {
    var length := dns[position];
    if length >= 0xC0 {
      NameFits(dns, Target(dns, position), text, if after.None? then Some(position + 2) else after, jumps + 1);
    } else if length > 0 {
      NameFits(dns, position + 1 + length, Dotted(text) + Lowered(dns[position + 1..position + 1 + length]), after, jumps);
    }
  }

  method ScanName(dns: seq<byte>, start: nat) returns (name: Option<Name>)
    ensures name == ReadName(dns, start, [], None, 0)
  {
    var position: nat, text: seq<byte>, jumps: nat := start, [], 0;
    var after: Option<nat> := None;
    while position < |dns| && jumps <= MAX_JUMPS
      invariant ReadName(dns, position, text, after, jumps) == ReadName(dns, start, [], None, 0)
      decreases MAX_JUMPS + 1 - jumps, |dns| - position
    {
      var length := dns[position];
      if length >= 0xC0 {
        if position + 1 >= |dns| {
          return None;
        }
        var target := Target(dns, position);
        if target >= |dns| {
          return None;
        }
        if after.None? {
          after := Some(position + 2);
        }
        position, jumps := target, jumps + 1;
      } else if length == 0 {
        return Some(Name(if text == [] then [DOT] else text, if after.None? then position + 1 else after.value));
      } else {
        var ok, longer := ScanLabel(dns, position, text);
        if !ok {
          return None;
        }
        text, position := longer, position + 1 + length;
      }
    }
    return None;
  }

  /** One label appended, in lower case, unless it is cut off or the name gets too long. */
  method ScanLabel(dns: seq<byte>, position: nat, text: seq<byte>) returns (ok: bool, longer: seq<byte>)
    requires position < |dns| && 0 < dns[position] < 0xC0
    ensures var length := dns[position];
      && ok == !(length > 63 || position + 1 + length > |dns| || |Dotted(text)| + length >= NAME_MAX)
      && (ok ==> longer == Dotted(text) + Lowered(dns[position + 1..position + 1 + length]))
  {
    var length := dns[position];
    longer := text;
    if length > 63 || position + 1 + length > |dns| {
      return false, longer;
    }
    if longer != [] {
      if |longer| + 1 >= NAME_MAX {
        return false, longer;
      }
      longer := longer + [DOT];
    }
    var part := dns[position + 1..position + 1 + length];
    for i := 0 to length
      invariant longer == Dotted(text) + Lowered(part[..i])
      invariant i > 0 ==> |longer| < NAME_MAX
    {
      if |longer| + 1 >= NAME_MAX {
        return false, longer;
      }
      assert part[..i + 1][..i] == part[..i];
      longer := longer + [Lower(part[i])];
    }
    assert part[..length] == part;
    return true, longer;
  }

  // ---------------------------------------------------------------------
  // Questions
  // ---------------------------------------------------------------------

  datatype Question = Question(name: seq<byte>, kind: uint16, header: nat)

  function ParseDns(packet: seq<byte>, queryOnly: bool): Option<Question> {
    if !WholeUdp(packet) || HeaderLength(packet) + 20 > |packet| then None
    else
      var h := HeaderLength(packet);
      if ReadU16(packet, h + 4) != |packet| - h then None
      else
        var dns := packet[h + 8..];
        if ReadU16(dns, 4) != 1 || ReadU16(dns, 6) != 0 || ReadU16(dns, 8) != 0 then None
        else if queryOnly && (ReadU16(dns, 2) >= 0x8000 || ReadU16(packet, h + 2) != 53) then None
        else
          var name := ReadName(dns, 12, [], None, 0);
          if name.None? || name.value.next + 4 > |dns| then None
          else Some(Question(name.value.text, ReadU16(dns, name.value.next), h))
  }

  // ---------------------------------------------------------------------
  // The rejection
  // ---------------------------------------------------------------------

  /** Opcode, recursion desired and checking disabled stay; response, recursion available and no such name are set. */
  function RejectFlags(flags: uint16): uint16 {
    Compose(flags / 0x800 % 0x10, flags / 0x100 % 2, flags / 0x10 % 2)
  }

  /** The bits of a flag word that the reply keeps, under the ones it sets. */
  function Compose(opcode: nat, desired: nat, disabled: nat): nat {
    0x8083 + opcode * 0x800 + desired * 0x100 + disabled * 0x10
  }

  lemma ComposeDigits(opcode: nat, desired: nat, disabled: nat)
    requires opcode < 0x10 && desired < 2 && disabled < 2
    ensures var f := Compose(opcode, desired, disabled);
            && f / 0x8000 == 1 && f % 0x10 == 3 && f / 0x80 % 2 == 1
            && f / 0x800 % 0x10 == opcode && f / 0x100 % 2 == desired && f / 0x10 % 2 == disabled
  {
    var f := Compose(opcode, desired, disabled);
    DivModUnique(f, 0x8000, 1, 0x83 + opcode * 0x800 + desired * 0x100 + disabled * 0x10);
    DivModUnique(f, 0x800, 0x10 + opcode, 0x83 + desired * 0x100 + disabled * 0x10);
    DivModUnique(f, 0x100, 0x80 + opcode * 8 + desired, 0x83 + disabled * 0x10);
    DivModUnique(f, 0x80, 2 * (0x80 + opcode * 8 + desired) + 1, 3 + disabled * 0x10);
    DivModUnique(f, 0x10, 0x808 + opcode * 0x80 + desired * 0x10 + disabled, 3);
    DivModUnique(0x10 + opcode, 0x10, 1, opcode);
    DivModUnique(0x80 + opcode * 8 + desired, 2, 0x40 + opcode * 4, desired);
    DivModUnique(0x808 + opcode * 0x80 + desired * 0x10 + disabled, 2, 0x404 + opcode * 0x40 + desired * 8, disabled);
  }

  /** The reply is a response, says no such name, and keeps the query's opcode and the two request bits. */
  lemma RejectFlagsMean(flags: uint16)
    ensures var f := RejectFlags(flags);
            && f / 0x8000 == 1 && f % 0x10 == 3 && f / 0x80 % 2 == 1
            && f / 0x800 % 0x10 == flags / 0x800 % 0x10 && f / 0x100 % 2 == flags / 0x100 % 2
            && f / 0x10 % 2 == flags / 0x10 % 2
  {
    ComposeDigits(flags / 0x800 % 0x10, flags / 0x100 % 2, flags / 0x10 % 2);
  }

  function RejectedDns(dns: seq<byte>): (r: seq<byte>)
    requires |dns| >= 12
    ensures |r| == |dns| && r[10..] == dns[10..]
  {
    dns[..2] + WriteU16(RejectFlags(ReadU16(dns, 2))) + dns[4..6] + [0, 0, 0, 0] + dns[10..]
  }

  /** The reply with addresses and ports exchanged and both checksums cleared. */
  function RejectionFields(query: seq<byte>, h: nat): (r: seq<byte>)
    requires 20 <= h && h + 20 <= |query|
    ensures |r| == |query|
  {
    query[..10] + [0, 0] + query[16..20] + query[12..16] + query[20..h] +
    query[h + 2..h + 4] + query[h..h + 2] + query[h + 4..h + 6] + [0, 0] + RejectedDns(query[h + 8..])
  }

  function Transmitted(checksum: uint16): uint16 { if checksum == 0 then ALL_ONES else checksum }

  function WithUdpChecksum(packet: seq<byte>, h: nat): (r: seq<byte>)
    requires 20 <= h && h + 8 <= |packet|
    ensures |r| == |packet|
  {
    Store(packet, h + 6, Transmitted(Finish(UdpSum(packet, h))))
  }

  function Rejection(query: seq<byte>, capacity: nat): Option<seq<byte>> {
    if |query| > capacity || ParseDns(query, true).None? then None
    else
      var h := HeaderLength(query);
      Some(WithUdpChecksum(WithHeaderChecksum(RejectionFields(query, h), h), h))
  }

  lemma FieldsContents(query: seq<byte>, h: nat)
    requires 20 <= h && h + 20 <= |query|
    ensures var r := RejectionFields(query, h);
            && r[..10] == query[..10] && r[10] == 0 && r[11] == 0
            && r[12..16] == query[16..20] && r[16..20] == query[12..16] && r[20..h] == query[20..h]
            && r[h..h + 2] == query[h + 2..h + 4] && r[h + 2..h + 4] == query[h..h + 2]
            && r[h + 4..h + 6] == query[h + 4..h + 6] && r[h + 6] == 0 && r[h + 7] == 0
            && r[h + 8..] == RejectedDns(query[h + 8..])
  {
    hide RejectedDns;
    var d := RejectedDns(query[h + 8..]);
    var a := query[..10] + [0, 0] + query[16..20] + query[12..16] + query[20..h];
    assert |a| == h;
    var b := query[h + 2..h + 4] + query[h..h + 2] + query[h + 4..h + 6] + [0, 0];
    assert RejectionFields(query, h) == a + b + d;
    assert a[20..] == query[20..h];
  }

  lemma UdpVerifies(packet: seq<byte>, h: nat)
    requires 20 <= h && h % 4 == 0 && h + 8 <= |packet| && packet[h + 6] == 0 && packet[h + 7] == 0
    ensures var r := WithUdpChecksum(packet, h);
            && Finish(UdpSum(r, h)) == 0 && ReadU16(r, h + 6) != 0 && r[..h] == packet[..h]
            && r[h..h + 6] == packet[h..h + 6] && r[h + 8..] == packet[h + 8..]
  {
    hide WordSum, Finish;
    var value := Transmitted(Finish(UdpSum(packet, h)));
    var r := WithUdpChecksum(packet, h);
    assert r[h..] == Store(packet[h..], 6, value);
    StoreAdds(packet[h..], 6, value);
    assert r[12..20] == packet[12..20];
    ComplementVerifies(UdpSum(packet, h));
  }

  /** What a rejection answers, under checksums that verify. */
  lemma RejectionVerifies(query: seq<byte>, capacity: nat)
    requires Rejection(query, capacity).Some?
    ensures WholeUdp(query) && HeaderLength(query) + 20 <= |query|
    ensures var r, h := Rejection(query, capacity).value, HeaderLength(query);
            && |r| == |query| && WholeUdp(r) && HeaderLength(r) == h
            && Finish(WordSum(r[..h])) == 0 && Finish(UdpSum(r, h)) == 0 && ReadU16(r, h + 6) != 0
            && r[12..16] == query[16..20] && r[16..20] == query[12..16]
            && r[h..h + 2] == query[h + 2..h + 4] && r[h + 2..h + 4] == query[h..h + 2]
            && r[h + 4..h + 6] == query[h + 4..h + 6] && r[h + 8..] == RejectedDns(query[h + 8..])
  {
    hide ReadName, WordSum, Finish, RejectionFields, RejectedDns, UdpSum;
    var h := HeaderLength(query);
    var fields := RejectionFields(query, h);
    FieldsContents(query, h);
    HeaderVerifies(fields, h);
    var first := WithHeaderChecksum(fields, h);
    assert forall k | h <= k < |query| :: first[k] == fields[k];
    UdpVerifies(first, h);
    var r := WithUdpChecksum(first, h);
    assert r[..h] == first[..h];
    KeepsFront(query, fields, first, r, h);
    KeepsPorts(fields, first, r, h);
    assert first[h + 8..] == fields[h + 8..];
  }

  lemma KeepsFront(query: seq<byte>, fields: seq<byte>, first: seq<byte>, r: seq<byte>, h: nat)
    requires 20 <= h <= |query| == |fields| == |first| == |r|
    requires fields[..10] == query[..10] && first[..10] == fields[..10] && first[12..h] == fields[12..h]
    requires r[..h] == first[..h]
    ensures r[0] == query[0] && r[9] == query[9] && ReadU16(r, 2) == ReadU16(query, 2)
    ensures ReadU16(r, 6) == ReadU16(query, 6) && r[12..16] == fields[12..16] && r[16..20] == fields[16..20]
  {
    forall k | 0 <= k < 10 ensures r[k] == query[k] {
      assert r[k] == r[..h][k] == first[k] == first[..10][k] == query[..10][k];
    }
    forall k | 12 <= k < h ensures r[k] == fields[k] {
      assert r[k] == r[..h][k] == first[k] == first[12..h][k - 12] == fields[12..h][k - 12];
    }
  }

  lemma KeepsPorts(fields: seq<byte>, first: seq<byte>, r: seq<byte>, h: nat)
    requires h + 6 <= |fields| == |first| == |r| && r[h..h + 6] == first[h..h + 6]
    requires forall k | h <= k < |first| :: first[k] == fields[k]
    ensures r[h..h + 2] == fields[h..h + 2] && r[h + 2..h + 4] == fields[h + 2..h + 4] && r[h + 4..h + 6] == fields[h + 4..h + 6]
  {
    forall k | h <= k < h + 6 ensures r[k] == fields[k] {
      assert r[k] == r[h..h + 6][k - h] == first[h..h + 6][k - h] == first[k];
    }
  }

  lemma RejectedCounts(dns: seq<byte>)
    requires |dns| >= 12
    ensures var r := RejectedDns(dns);
            && r[..2] == dns[..2] && ReadU16(r, 2) == RejectFlags(ReadU16(dns, 2)) && ReadU16(r, 4) == ReadU16(dns, 4)
            && ReadU16(r, 6) == 0 && ReadU16(r, 8) == 0 && r[10..] == dns[10..]
  {
    hide RejectFlags;
    var f := RejectFlags(ReadU16(dns, 2));
    U16RoundTrip(f, dns[..2], dns[4..6] + [0, 0, 0, 0] + dns[10..]);
    assert RejectedDns(dns) == dns[..2] + WriteU16(f) + (dns[4..6] + [0, 0, 0, 0] + dns[10..]);
  }

  /** A rejection is never taken for a query, so it is never rejected in turn. */
  lemma RejectionIsNoQuery(query: seq<byte>, capacity: nat, other: nat)
    requires Rejection(query, capacity).Some?
    ensures Rejection(Rejection(query, capacity).value, other).None?
  {
    RejectionVerifies(query, capacity);
    hide ReadName, WordSum, Finish, RejectionFields, RejectedDns, UdpSum, RejectFlags, WithUdpChecksum, WithHeaderChecksum;
    var r, h := Rejection(query, capacity).value, HeaderLength(query);
    RejectedCounts(query[h + 8..]);
    RejectFlagsMean(ReadU16(query[h + 8..], 2));
    assert ReadU16(r[h + 8..], 2) >= 0x8000;
  }
}
