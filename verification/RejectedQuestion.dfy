/** Exactly when a rejection still carries the question it answers. */
module RejectedQuestion {
  import opened Arithmetic
  import opened Bytes
  import opened Common
  import opened DnsRejection
  import opened InternetChecksum
  import opened TrafficReplies

  // ---------------------------------------------------------------------
  // Names that avoid the flags
  // ---------------------------------------------------------------------

  /** Two texts that differ in the flags only, those of a query and those of its rejection. */
  predicate FlagsApart(dns: seq<byte>, reply: seq<byte>) {
    && |dns| == |reply| && |dns| >= 12 && dns[2] < 0x80 <= reply[2] && 63 < reply[3] < 0xC0
    && (dns[2] <= 63 ==> reply[2] < 0xC0)
    && forall k | 0 <= k < |dns| && k != 2 && k != 3 :: dns[k] == reply[k]
  }

  /**
   Reading a name from a position on makes no use of the flags, the bytes 2 and 3, as a length or inside
   a label.  A pointer at byte 1 has the first of them for its low half: then both names it can lead to must agree.
   */
  predicate AvoidsFlags(dns: seq<byte>, reply: seq<byte>, position: nat, text: seq<byte>, after: Option<nat>, jumps: nat)
    requires |dns| == |reply|
    decreases MAX_JUMPS + 1 - jumps, |dns| - position
  {
    if position >= |dns| || jumps > MAX_JUMPS then true
    else
      var length := dns[position];
      if position == 2 || position == 3 then false
      else if length >= 0xC0 then
        if position + 1 >= |dns| then true
        else if position == 1 then
          ReadName(dns, Target(dns, 1), text, Following(after, 3), jumps + 1) ==
          ReadName(reply, Target(reply, 1), text, Following(after, 3), jumps + 1)
        else AvoidsFlags(dns, reply, Target(dns, position), text, Following(after, position + 2), jumps + 1)
      else if 0 < length <= 63 && position + 1 + length <= |dns| then
        !(position < 2 < position + 1 + length) &&
        AvoidsFlags(dns, reply, position + 1 + length, Dotted(text) + Lowered(Label(dns, position)), after, jumps)
      else true
  }

  function Following(after: Option<nat>, next: nat): Option<nat> { if after.None? then Some(next) else after }

  function Label(dns: seq<byte>, position: nat): seq<byte>
    requires position < |dns| && position + 1 + dns[position] <= |dns|
  {
    dns[position + 1..position + 1 + dns[position]]
  }

  /** A name read begins with what was read of it before, and keeps the place after its first stretch. */
  lemma {:induction false} NameExtends(dns: seq<byte>, position: nat, text: seq<byte>, after: Option<nat>, jumps: nat)
    ensures var name := ReadName(dns, position, text, after, jumps);
            name.Some? ==> text <= name.value.text && (after.Some? ==> name.value.next == after.value)
    decreases MAX_JUMPS + 1 - jumps, |dns| - position
  {
    hide Lowered;
    if ReadName(dns, position, text, after, jumps).Some? {
      var length := dns[position];
      if length >= 0xC0 {
        NameExtends(dns, Target(dns, position), text, Following(after, position + 2), jumps + 1);
      } else if length > 0 {
        NameExtends(dns, position + 1 + length, Dotted(text) + Lowered(Label(dns, position)), after, jumps);
      }
    }
  }

  lemma {:induction false} LoweredAt(s: seq<byte>, k: nat)
    requires k < |s|
    ensures Lowered(s)[k] == Lower(s[k])
  {
    if k < |s| - 1 {
      LoweredAt(s[..|s| - 1], k);
    }
  }

  /** Texts that extend different labels of one length differ. */
  lemma LabelsTell(a: seq<byte>, b: seq<byte>, text: seq<byte>, d: seq<byte>, e: seq<byte>, k: nat)
    requires text + d <= a && text + e <= b && k < |d| == |e| && d[k] != e[k]
    ensures a != b
  {
    assert a[|text| + k] == (text + d)[|text| + k] == d[k] && b[|text| + k] == (text + e)[|text| + k] == e[k];
  }

  /** Labels that hold the first flag byte lead to different names. */
  lemma FlagTells(dns: seq<byte>, reply: seq<byte>, position: nat, text: seq<byte>, after: Option<nat>, jumps: nat)
    requires FlagsApart(dns, reply) && position < 2 && jumps <= MAX_JUMPS
    requires 0 < dns[position] <= 63 && 2 < position + 1 + dns[position] <= |dns|
    requires ReadName(dns, position, text, after, jumps).Some?
    ensures var (a, b) := (ReadName(dns, position, text, after, jumps), ReadName(reply, position, text, after, jumps));
            b.None? || a.value.text != b.value.text
  {
    LabelStep(dns, position, text, after, jumps);
    LabelStep(reply, position, text, after, jumps);
    hide Lowered, Dotted, ReadName;
    var (a, b) := (ReadName(dns, position, text, after, jumps), ReadName(reply, position, text, after, jumps));
    if b.Some? {
      var next := position + 1 + dns[position];
      var d, e := Lowered(Label(dns, position)), Lowered(Label(reply, position));
      LoweredAt(Label(dns, position), 1 - position);
      LoweredAt(Label(reply, position), 1 - position);
      NameExtends(dns, next, Dotted(text) + d, after, jumps);
      NameExtends(reply, next, Dotted(text) + e, after, jumps);
      LabelsTell(a.value.text, b.value.text, Dotted(text), d, e, 1 - position);
    }
  }

  /** The reply's reading of a name: it keeps the text exactly when the reading avoids the flags, and then all of it. */
  predicate Kept(dns: seq<byte>, reply: seq<byte>, position: nat, text: seq<byte>, after: Option<nat>, jumps: nat)
    requires |dns| == |reply|
  {
    var (a, b) := (ReadName(dns, position, text, after, jumps), ReadName(reply, position, text, after, jumps));
    && a.Some?
    && (AvoidsFlags(dns, reply, position, text, after, jumps) <==> b.Some? && b.value.text == a.value.text)
    && (AvoidsFlags(dns, reply, position, text, after, jumps) ==> a == b)
  }

  lemma FlagIsNoLength(dns: seq<byte>, reply: seq<byte>, position: nat, text: seq<byte>, after: Option<nat>, jumps: nat)
    requires FlagsApart(dns, reply) && 2 <= position <= 3 && ReadName(dns, position, text, after, jumps).Some?
    ensures Kept(dns, reply, position, text, after, jumps)
  {
    hide Lowered, Dotted;
  }

  lemma PointerIntoFlags(dns: seq<byte>, reply: seq<byte>, text: seq<byte>, after: Option<nat>, jumps: nat)
    requires FlagsApart(dns, reply) && dns[1] >= 0xC0 && ReadName(dns, 1, text, after, jumps).Some?
    ensures Kept(dns, reply, 1, text, after, jumps)
  {
    NameExtends(dns, Target(dns, 1), text, Following(after, 3), jumps + 1);
    NameExtends(reply, Target(reply, 1), text, Following(after, 3), jumps + 1);
    PointerStep(dns, 1, text, after, jumps);
    PointerStep(reply, 1, text, after, jumps);
    assert ReadName(reply, Target(reply, 1), text, Following(after, 3), jumps + 1).None? || Target(reply, 1) < |reply|;
    hide ReadName;
  }

  lemma PointerStep(dns: seq<byte>, position: nat, text: seq<byte>, after: Option<nat>, jumps: nat)
    requires jumps <= MAX_JUMPS && position + 1 < |dns| && dns[position] >= 0xC0
    ensures ReadName(dns, position, text, after, jumps) ==
            ReadName(dns, Target(dns, position), text, Following(after, position + 2), jumps + 1)
  {
    hide Lowered, Dotted;
  }

  lemma PointerKept(dns: seq<byte>, reply: seq<byte>, position: nat, text: seq<byte>, after: Option<nat>, jumps: nat)
    requires FlagsApart(dns, reply) && position + 1 < |dns| && position != 1 && position != 2 && position != 3
    requires dns[position] >= 0xC0 && jumps <= MAX_JUMPS
    requires Kept(dns, reply, Target(dns, position), text, Following(after, position + 2), jumps + 1)
    ensures Kept(dns, reply, position, text, after, jumps)
  {
    PointerStep(dns, position, text, after, jumps);
    PointerStep(reply, position, text, after, jumps);
    hide ReadName;
  }

  lemma LabelStep(dns: seq<byte>, position: nat, text: seq<byte>, after: Option<nat>, jumps: nat)
    requires jumps <= MAX_JUMPS && position < |dns| && 0 < dns[position] <= 63 && position + 1 + dns[position] <= |dns|
    ensures ReadName(dns, position, text, after, jumps) ==
            if |Dotted(text)| + dns[position] >= NAME_MAX then None
            else ReadName(dns, position + 1 + dns[position], Dotted(text) + Lowered(Label(dns, position)), after, jumps)
  {
    hide Lowered, Dotted;
  }

  lemma LabelKept(dns: seq<byte>, reply: seq<byte>, position: nat, text: seq<byte>, after: Option<nat>, jumps: nat)
    requires FlagsApart(dns, reply) && ReadName(dns, position, text, after, jumps).Some?
    requires position < |dns| && jumps <= MAX_JUMPS && position != 2 && position != 3
    requires 0 < dns[position] <= 63 && position + 1 + dns[position] <= |dns| && !(position < 2 < position + 1 + dns[position])
    requires Kept(dns, reply, position + 1 + dns[position], Dotted(text) + Lowered(Label(dns, position)), after, jumps)
    ensures Kept(dns, reply, position, text, after, jumps)
  {
    assert Label(dns, position) == Label(reply, position);
    LabelStep(dns, position, text, after, jumps);
    LabelStep(reply, position, text, after, jumps);
    hide ReadName, Lowered, Dotted;
  }

  lemma FlagInLabel(dns: seq<byte>, reply: seq<byte>, position: nat, text: seq<byte>, after: Option<nat>, jumps: nat)
    requires FlagsApart(dns, reply) && position < 2 && jumps <= MAX_JUMPS
    requires 0 < dns[position] <= 63 && 2 < position + 1 + dns[position] <= |dns|
    requires ReadName(dns, position, text, after, jumps).Some?
    ensures Kept(dns, reply, position, text, after, jumps)
  {
    FlagTells(dns, reply, position, text, after, jumps);
    hide ReadName, Lowered, Dotted;
  }

  /** A name that can be read is read alike from the reply exactly when it avoids the flags. */
  lemma {:induction false} NameKept(dns: seq<byte>, reply: seq<byte>, position: nat, text: seq<byte>, after: Option<nat>, jumps: nat)
    requires FlagsApart(dns, reply) && ReadName(dns, position, text, after, jumps).Some?
    ensures Kept(dns, reply, position, text, after, jumps)
    decreases MAX_JUMPS + 1 - jumps, |dns| - position
  {
    hide Lowered, Dotted;
    var length := dns[position];
    if position == 2 || position == 3 {
      FlagIsNoLength(dns, reply, position, text, after, jumps);
    } else if length >= 0xC0 {
      if position == 1 {
        PointerIntoFlags(dns, reply, text, after, jumps);
      } else {
        PointerStep(dns, position, text, after, jumps);
        NameKept(dns, reply, Target(dns, position), text, Following(after, position + 2), jumps + 1);
        PointerKept(dns, reply, position, text, after, jumps);
      }
    } else if length > 0 {
      if position < 2 < position + 1 + length {
        FlagInLabel(dns, reply, position, text, after, jumps);
      } else {
        LabelStep(dns, position, text, after, jumps);
        NameKept(dns, reply, position + 1 + length, Dotted(text) + Lowered(Label(dns, position)), after, jumps);
        LabelKept(dns, reply, position, text, after, jumps);
      }
    }
  }

  /** No pointer on the way leads into the header. */
  predicate PointsPastHeader(dns: seq<byte>, position: nat, jumps: nat)
    decreases MAX_JUMPS + 1 - jumps, |dns| - position
  {
    if position >= |dns| || jumps > MAX_JUMPS then true
    else
      var length := dns[position];
      if length >= 0xC0 then
        position + 1 < |dns| ==> Target(dns, position) >= 12 && PointsPastHeader(dns, Target(dns, position), jumps + 1)
      else 0 < length <= 63 ==> PointsPastHeader(dns, position + 1 + length, jumps)
  }

  /** A name after the header whose pointers stay there avoids the flags. */
  lemma {:induction false} PastHeaderAvoids(dns: seq<byte>, reply: seq<byte>, position: nat, text: seq<byte>, after: Option<nat>,
                                            jumps: nat)
    requires |dns| == |reply| && position >= 12 && PointsPastHeader(dns, position, jumps)
    ensures AvoidsFlags(dns, reply, position, text, after, jumps)
    decreases MAX_JUMPS + 1 - jumps, |dns| - position
  {
    hide Lowered, Dotted, ReadName;
    if position < |dns| && jumps <= MAX_JUMPS {
      var length := dns[position];
      if length >= 0xC0 {
        if position + 1 < |dns| {
          PastHeaderAvoids(dns, reply, Target(dns, position), text, Following(after, position + 2), jumps + 1);
        }
      } else if 0 < length <= 63 && position + 1 + length <= |dns| {
        PastHeaderAvoids(dns, reply, position + 1 + length, Dotted(text) + Lowered(Label(dns, position)), after, jumps);
      }
    }
  }

  // ---------------------------------------------------------------------
  // Questions
  // ---------------------------------------------------------------------

  /** The place after a name lies after its start. */
  lemma {:induction false} NextPastStart(dns: seq<byte>, position: nat, text: seq<byte>, after: Option<nat>, jumps: nat)
    requires if after.Some? then after.value > 12 else position >= 12
    ensures ReadName(dns, position, text, after, jumps).Some? ==> ReadName(dns, position, text, after, jumps).value.next > 12
    decreases MAX_JUMPS + 1 - jumps, |dns| - position
  {
    hide Lowered, Dotted;
    if ReadName(dns, position, text, after, jumps).Some? {
      var length := dns[position];
      if length >= 0xC0 {
        NextPastStart(dns, Target(dns, position), text, Following(after, position + 2), jumps + 1);
      } else if length > 0 {
        NextPastStart(dns, position + 1 + length, Dotted(text) + Lowered(Label(dns, position)), after, jumps);
      }
    }
  }

  /** A query's flags have no response bit, and the rejection's set the bits that make them no length. */
  lemma RejectedFlags(dns: seq<byte>)
    requires |dns| >= 12 && dns[2] < 0x80
    ensures var reply := RejectedDns(dns);
            0x80 <= reply[2] && 63 < reply[3] < 0xC0 && (dns[2] <= 63 ==> reply[2] < 0xC0)
  {
    hide RejectedDns;
    RejectedCounts(dns);
    var flags := ReadU16(dns, 2);
    var opcode, desired, disabled := flags / 0x800 % 0x10, flags / 0x100 % 2, flags / 0x10 % 2;
    assert flags / 0x800 < 0x10;
    DivModUnique(RejectFlags(flags), 0x100, 0x80 + opcode * 8 + desired, 0x83 + disabled * 0x10);
    DivModUnique(RejectFlags(flags), 0x100, RejectedDns(dns)[2], RejectedDns(dns)[3]);
    if dns[2] <= 63 {
      assert flags < 0x4000;
      assert flags / 0x800 < 8;
    }
  }

  lemma RejectionApart(dns: seq<byte>)
    requires |dns| >= 12 && dns[2] < 0x80 && ReadU16(dns, 6) == 0 && ReadU16(dns, 8) == 0
    ensures FlagsApart(dns, RejectedDns(dns))
  {
    hide RejectedDns, RejectFlags;
    RejectedFlags(dns);
    RejectedCounts(dns);
    var reply := RejectedDns(dns);
    assert dns[0] == dns[..2][0] == reply[..2][0] && dns[1] == dns[..2][1] == reply[..2][1];
    forall k | 10 <= k < |dns| ensures dns[k] == reply[k] {
      assert dns[k] == dns[10..][k - 10] == reply[10..][k - 10];
    }
  }

  /** The name of the question can be read without the flags. */
  predicate QuestionAvoidsFlags(query: seq<byte>) {
    && WholeUdp(query) && HeaderLength(query) + 20 <= |query|
    && var dns := query[HeaderLength(query) + 8..];
       AvoidsFlags(dns, RejectedDns(dns), 12, [], None, 0)
  }

  /** The question reads the same in the rejection exactly when its name avoids the flags. */
  lemma RejectionKeepsQuestion(query: seq<byte>, capacity: nat)
    requires Rejection(query, capacity).Some?
    ensures ParseDns(Rejection(query, capacity).value, false) == ParseDns(query, true) <==> QuestionAvoidsFlags(query)
  {
    RejectionVerifies(query, capacity);
    hide ReadName, WordSum, Finish, RejectionFields, RejectedDns, UdpSum, RejectFlags, WithUdpChecksum, WithHeaderChecksum,
         AvoidsFlags, WholeUdp;
    var r, h := Rejection(query, capacity).value, HeaderLength(query);
    var dns := query[h + 8..];
    RejectionApart(dns);
    NameKept(dns, RejectedDns(dns), 12, [], None, 0);
    RejectedCounts(dns);
    SameParse(query, r, h);
  }

  /** Whether a packet with the same lengths and counts parses alike is up to its name. */
  lemma SameParse(query: seq<byte>, r: seq<byte>, h: nat)
    requires WholeUdp(query) && WholeUdp(r) && |query| == |r| && HeaderLength(query) == HeaderLength(r) == h
    requires ParseDns(query, true).Some? && r[h + 4..h + 6] == query[h + 4..h + 6]
    requires FlagsApart(query[h + 8..], r[h + 8..])
    ensures var (a, b) := (ReadName(query[h + 8..], 12, [], None, 0), ReadName(r[h + 8..], 12, [], None, 0));
            && (ParseDns(r, false) == ParseDns(query, true) ==> b.Some? && b.value.text == a.value.text)
            && (a == b ==> ParseDns(r, false) == ParseDns(query, true))
  {
    hide ReadName, WholeUdp;
    assert r[h + 4] == r[h + 4..h + 6][0] && r[h + 5] == r[h + 4..h + 6][1];
    assert query[h + 4] == query[h + 4..h + 6][0] && query[h + 5] == query[h + 4..h + 6][1];
    NextPastStart(query[h + 8..], 12, [], None, 0);
  }

  // ---------------------------------------------------------------------
  // A question that is lost
  // ---------------------------------------------------------------------

  /** A query for the name server, whose name is a pointer to its flags: they are zero and read as the root. */
  const POINTED_QUERY: seq<byte> := POINTED_IP + POINTED_UDP + POINTED_DNS

  const POINTED_IP: seq<byte> := [0x45, 0, 0, 46, 0, 0, 0, 0, 64, 17, 0, 0, 10, 77, 0, 2, 8, 8, 8, 8]

  const POINTED_UDP: seq<byte> := [0x30, 0x39, 0, 53, 0, 26, 0, 0]

  /** Identifier, no flags, one question, the pointer, and an address asked for. */
  const POINTED_DNS: seq<byte> := [0x12, 0x34, 0, 0, 0, 1, 0, 0, 0, 0, 0, 0, 0xC0, 2, 0, 1, 0, 1]

  lemma PointedFlags(dns: seq<byte>)
    requires |dns| >= 14 && dns[12] == 0xC0 && dns[13] == 2
    ensures dns[2] == 0 ==> ReadName(dns, 12, [], None, 0) == Some(Name([DOT], 14))
    ensures 63 < dns[2] < 0xC0 ==> ReadName(dns, 12, [], None, 0) == None
  {
    hide Lowered, Dotted;
    PointerStep(dns, 12, [], None, 0);
    assert Target(dns, 12) == 2;
  }

  lemma PointedParses()
    ensures WholeUdp(POINTED_QUERY) && HeaderLength(POINTED_QUERY) == 20 && POINTED_QUERY[28..] == POINTED_DNS
    ensures ParseDns(POINTED_QUERY, true) == Some(Question([DOT], 1, 20))
  {
    hide ReadName;
    var q := POINTED_QUERY;
    assert |POINTED_IP| == 20 && |POINTED_UDP| == 8 && |POINTED_DNS| == 18 && |q| == 46;
    assert q[0] == POINTED_IP[0] && q[2] == POINTED_IP[2] && q[3] == POINTED_IP[3] && q[6] == POINTED_IP[6];
    assert q[7] == POINTED_IP[7] && q[9] == POINTED_IP[9];
    assert q[22] == POINTED_UDP[2] && q[23] == POINTED_UDP[3] && q[24] == POINTED_UDP[4] && q[25] == POINTED_UDP[5];
    assert POINTED_QUERY[28..] == POINTED_DNS;
    PointedFlags(POINTED_DNS);
  }

  /** Its question is the root; its rejection carries no question that can be read. */
  lemma RejectionCanLoseQuestion()
    ensures ParseDns(POINTED_QUERY, true) == Some(Question([DOT], 1, 20))
    ensures Rejection(POINTED_QUERY, 46).Some? && ParseDns(Rejection(POINTED_QUERY, 46).value, false) == None
  {
    PointedParses();
    hide ReadName, WordSum, Finish, RejectionFields, RejectedDns, UdpSum, RejectFlags, WithUdpChecksum, WithHeaderChecksum,
         WholeUdp;
    RejectionVerifies(POINTED_QUERY, 46);
    RejectedFlags(POINTED_DNS);
    RejectedCounts(POINTED_DNS);
    var reply := RejectedDns(POINTED_DNS);
    assert reply[12] == reply[10..][2] == POINTED_DNS[12] && reply[13] == reply[10..][3] == POINTED_DNS[13];
    PointedFlags(reply);
  }
}
