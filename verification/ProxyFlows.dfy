/** TCP flows and their acknowledgements: which packets belong together, and which may stand for another. */
module ProxyFlows {
  import opened Bytes
  import opened Common
  import opened PacketTransport
  import opened ProxyWire
  import opened ProxyQueues

  // ---------------------------------------------------------------------
  // Flows
  // ---------------------------------------------------------------------

  /** A TCP packet that shows its ports. */
  predicate ShowsPorts(p: Packet) {
    && p != []
    && (if Version(p) == 4 then |p| >= 20 && p[9] == 6 && !LaterFragment(p)
        else Version(p) == 6 && |p| >= 40 && p[6] == 6)
    && TransportOffset(p) + 4 <= |p|
  }

  function Source(p: Packet): seq<byte>
    requires ShowsPorts(p)
  {
    if Version(p) == 4 then p[12..16] else p[8..24]
  }

  function Destination(p: Packet): seq<byte>
    requires ShowsPorts(p)
  {
    if Version(p) == 4 then p[16..20] else p[24..40]
  }

  /** The two ports, that of the sender first. */
  function Port(p: Packet, k: nat): uint16
    requires ShowsPorts(p) && k < 2
  {
    ReadU16(p, TransportOffset(p) + 2 * k)
  }

  /** The comparison of two packets field by field. */
  predicate Match(a: Packet, b: Packet, reverse: bool) {
    && ShowsPorts(a) && ShowsPorts(b) && Version(a) == Version(b)
    && if reverse then
         Source(a) == Destination(b) && Destination(a) == Source(b) && Port(a, 0) == Port(b, 1) && Port(a, 1) == Port(b, 0)
       else
         Source(a) == Source(b) && Destination(a) == Destination(b) && Port(a, 0) == Port(b, 0) && Port(a, 1) == Port(b, 1)
  }

  lemma KeyShows(p: Packet)
    ensures FlowKey(p).Some? <==> ShowsPorts(p)
    ensures ShowsPorts(p) ==>
              var key, at := FlowKey(p).value, TransportOffset(p);
              key == [Version(p)] + Source(p) + Destination(p) + p[at..at + 2] + p[at + 2..at + 4]
  {
  }

  lemma PortsAre(p: Packet, q: Packet, i: nat, j: nat)
    requires ShowsPorts(p) && ShowsPorts(q) && i < 2 && j < 2
    ensures var (a, b) := (TransportOffset(p) + 2 * i, TransportOffset(q) + 2 * j);
            Port(p, i) == Port(q, j) <==> p[a..a + 2] == q[b..b + 2]
  {
    var (a, b) := (TransportOffset(p) + 2 * i, TransportOffset(q) + 2 * j);
    assert p[a..a + 2] == [p[a], p[a + 1]] && q[b..b + 2] == [q[b], q[b + 1]];
  }

  lemma FiveParts(v: seq<byte>, a: seq<byte>, b: seq<byte>, c: seq<byte>, d: seq<byte>,
                  v': seq<byte>, a': seq<byte>, b': seq<byte>, c': seq<byte>, d': seq<byte>)
    requires |v| == |v'| && |a| == |a'| && |b| == |b'| && |c| == |c'| && |d| == |d'|
    ensures v + a + b + c + d == v' + a' + b' + c' + d' <==> v == v' && a == a' && b == b' && c == c' && d == d'
  {
    if v + a + b + c + d == v' + a' + b' + c' + d' {
      var (x, y) := (v + a + b + c + d, v' + a' + b' + c' + d');
      assert v == x[..|v|] && v' == y[..|v|];
      assert a == x[|v|..|v + a|] && a' == y[|v|..|v + a|];
      assert b == x[|v + a|..|v + a + b|] && b' == y[|v + a|..|v + a + b|];
      assert c == x[|v + a + b|..|v + a + b + c|] && c' == y[|v + a + b|..|v + a + b + c|];
      assert d == x[|v + a + b + c|..] && d' == y[|v + a + b + c|..];
    }
  }

  /** Two packets share a flow exactly when every field compares equal. */
  lemma SharesExactly(a: Packet, b: Packet)
    ensures SharesFlow(a, b) <==> Match(a, b, false)
  {
    hide FlowKey;
    KeyShows(a);
    KeyShows(b);
    if ShowsPorts(a) && ShowsPorts(b) {
      var (i, j) := (TransportOffset(a), TransportOffset(b));
      PortsAre(a, b, 0, 0);
      PortsAre(a, b, 1, 1);
      if Version(a) == Version(b) {
        FiveParts([Version(a)], Source(a), Destination(a), a[i..i + 2], a[i + 2..i + 4],
                  [Version(b)], Source(b), Destination(b), b[j..j + 2], b[j + 2..j + 4]);
      } else {
        assert FlowKey(a).value[0] != FlowKey(b).value[0];
      }
    }
  }

  lemma OppositeIs(v: seq<byte>, a: seq<byte>, b: seq<byte>, c: seq<byte>, d: seq<byte>)
    requires |v| == 1 && |a| == |b| && (|a| == 4 || |a| == 16) && |c| == |d| == 2
    ensures Opposite(v + a + b + c + d) == v + b + a + d + c
  {
    var key := v + a + b + c + d;
    assert key[..1] == v && key[1..1 + |a|] == a && key[1 + |a|..1 + 2 * |a|] == b;
    assert key[|key| - 4..|key| - 2] == c && key[|key| - 2..] == d;
  }

  /** One packet answers the flow of another exactly when addresses and ports are exchanged. */
  lemma ReversesExactly(a: Packet, b: Packet)
    ensures ReversesFlow(a, b) <==> Match(a, b, true)
  {
    hide FlowKey, Opposite;
    KeyShows(a);
    KeyShows(b);
    if ShowsPorts(a) && ShowsPorts(b) {
      var (i, j) := (TransportOffset(a), TransportOffset(b));
      PortsAre(a, b, 0, 1);
      PortsAre(a, b, 1, 0);
      OppositeIs([Version(a)], Source(a), Destination(a), a[i..i + 2], a[i + 2..i + 4]);
      if Version(a) == Version(b) {
        FiveParts([Version(a)], Destination(a), Source(a), a[i + 2..i + 4], a[i..i + 2],
                  [Version(b)], Source(b), Destination(b), b[j..j + 2], b[j + 2..j + 4]);
      } else {
        assert Opposite(FlowKey(a).value)[0] != FlowKey(b).value[0];
      }
    }
  }

  /** Answering goes both ways, and the answer to an answer is of the flow itself. */
  lemma AnswersAnswer(a: Packet, b: Packet, c: Packet)
    ensures ReversesFlow(a, b) <==> ReversesFlow(b, a)
    ensures ReversesFlow(a, b) && ReversesFlow(b, c) ==> SharesFlow(a, c)
  {
    hide SharesFlow, ReversesFlow, ShowsPorts, Source, Destination, Port;
    ReversesExactly(a, b);
    ReversesExactly(b, a);
    ReversesExactly(b, c);
    SharesExactly(a, c);
  }

  // ---------------------------------------------------------------------
  // Acknowledgements
  // ---------------------------------------------------------------------

  function Acknowledged(p: Packet): nat
    requires |p| >= 40
  {
    ReadU32(p, 28)
  }

  /** Two bare acknowledgements of one flow with one sequence number. */
  predicate Comparable(a: Packet, b: Packet) {
    ReplaceableAck(a) && ReplaceableAck(b) && a[12..20] == b[12..20] && a[20..28] == b[20..28]
  }

  /**
   Of two such acknowledgements one replaces the other, the one that is ahead;
   each replaces the other only if both acknowledge the same, and none does
   only if they are half the number space apart.
   */
  lemma NewerWins(a: Packet, b: Packet)
    requires Comparable(a, b)
    ensures var ahead := (Acknowledged(a) - Acknowledged(b)) % TWO_32;
            && (Supersedes(a, b) && Supersedes(b, a) <==> ahead == 0)
            && (!Supersedes(a, b) && !Supersedes(b, a) <==> ahead == TWO_32 / 2)
            && (Supersedes(a, b) && !Supersedes(b, a) <==> 0 < ahead < TWO_32 / 2)
  {
    assert |a| >= 40 && |b| >= 40;
    hide ReplaceableAck, ReadU32;
    Opposed(Acknowledged(a), Acknowledged(b));
  }

  lemma Opposed(x: int, y: int)
    ensures var (d, e) := ((x - y) % TWO_32, (y - x) % TWO_32); if d == 0 then e == 0 else e == TWO_32 - d
  {
  }

  /** A bare acknowledgement carries no data and opens or closes nothing. */
  lemma BareIs(p: Packet, discovery: bool)
    requires ReplaceableAck(p)
    ensures |p| == 20 + p[32] / 16 * 4 && p[33] == 16
    ensures ShowsPorts(p) && Version(p) == 4 && TransportOffset(p) == 20
    ensures PriorityOf(p, discovery) == if (Port(p, 0) == 53 || Port(p, 1) == 53) && !discovery then DNS else NORMAL
  {
    hide PlainOptions;
  }

  lemma ComparableMatch(a: Packet, b: Packet)
    requires Comparable(a, b)
    ensures Match(a, b, false)
  {
    BareIs(a, false);
    BareIs(b, false);
    hide ReplaceableAck;
    PortsAre(a, b, 0, 0);
    PortsAre(a, b, 1, 1);
    SubSlices(a, b);
  }

  /** What is replaced is of the same flow, is bare, and its stand-in matters as much. */
  lemma ReplacedIsBare(newer: Packet, older: Packet, discovery: bool)
    requires Supersedes(newer, older)
    ensures Comparable(newer, older) && Match(newer, older, false)
    ensures |older| == 20 + older[32] / 16 * 4 && older[33] == 16
    ensures PriorityOf(newer, discovery) == PriorityOf(older, discovery)
    ensures PriorityOf(older, discovery) in {NORMAL, DNS}
  {
    BareIs(newer, discovery);
    BareIs(older, discovery);
    hide ReplaceableAck, PriorityOf;
    ComparableMatch(newer, older);
  }

  lemma SubSlices(a: Packet, b: Packet)
    requires |a| >= 28 && |b| >= 28 && a[12..20] == b[12..20] && a[20..28] == b[20..28]
    ensures a[12..16] == b[12..16] && a[16..20] == b[16..20] && a[20..22] == b[20..22] && a[22..24] == b[22..24]
    ensures forall k | 20 <= k < 24 :: a[k] == b[k]
  {
    assert a[12..16] == a[12..20][..4] && b[12..16] == b[12..20][..4];
    assert a[16..20] == a[12..20][4..] && b[16..20] == b[12..20][4..];
    assert a[20..22] == a[20..28][..2] && b[20..22] == b[20..28][..2];
    assert a[22..24] == a[20..28][2..4] && b[22..24] == b[20..28][2..4];
    forall k | 20 <= k < 24 ensures a[k] == b[k] {
      assert a[k] == a[20..28][k - 20] && b[k] == b[20..28][k - 20];
    }
  }

  /** An acknowledgement whose options name blocks beyond it, at once or after two bytes of padding, is never replaced. */
  lemma SelectiveIsKept(newer: Packet, older: Packet)
    requires |older| >= 44 && older[32] >= 96
    requires older[40] == 5 || (older[40] == 1 && older[41] == 1 && older[42] == 5)
    ensures !Supersedes(newer, older)
  {
    BlocksAreOdd(older[20..], older[32] / 16 * 4);
  }

  lemma BlocksAreOdd(tcp: seq<byte>, header: nat)
    requires |tcp| >= 24 && header >= 24
    requires tcp[20] == 5 || (tcp[20] == 1 && tcp[21] == 1 && tcp[22] == 5)
    ensures header <= |tcp| ==> !PlainOptions(tcp, 20, header)
  {
    if header <= |tcp| && tcp[20] == 1 {
      assert !PlainOptions(tcp, 22, header);
      assert !PlainOptions(tcp, 21, header);
    }
  }

  /** The usual time stamp, padded to a word, is no obstacle. */
  lemma StampedIsPlain(tcp: seq<byte>)
    requires |tcp| == 32 && tcp[20] == 1 && tcp[21] == 1 && tcp[22] == 8 && tcp[23] == 10
    ensures PlainOptions(tcp, 20, 32)
  {
    assert PlainOptions(tcp, 32, 32);
    assert PlainOptions(tcp, 22, 32);
    assert PlainOptions(tcp, 21, 32);
  }
}
