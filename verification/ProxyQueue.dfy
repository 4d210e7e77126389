/** The bounded queue of the audio proxy: what it admits, what it drops and what a batch takes from it. */
module ProxyQueues {
  import opened Bytes
  import opened Common
  import opened PacketTransport
  import opened ProxyWire
  import opened ProxyLink
  import opened ProxyWindows

  const QUEUE_PACKETS := 64
  const DNS_LIMIT := 48
  const DISCOVERY_LIMIT := 4
  const DNS_BURST := 3
  const BATCH_PACKETS := 255

  const BULK := 0
  const NORMAL := 1
  const CONTROL := 2
  const TCP_DATA := 3
  const DNS := 4

  // ---------------------------------------------------------------------
  // Packets
  // ---------------------------------------------------------------------

  function Version(p: Packet): nat
    requires p != []
  {
    p[0] / 16
  }

  function TransportOffset(p: Packet): nat
    requires p != []
  {
    if Version(p) == 4 then p[0] % 16 * 4 else 40
  }

  function Protocol(p: Packet): nat
    requires |p| >= 20
  {
    if Version(p) == 4 then p[9] else p[6]
  }

  predicate LaterFragment(p: Packet)
    requires |p| >= 20
  {
    Version(p) == 4 && ReadU16(p, 6) % 0x2000 != 0
  }

  /** Addresses and ports of a TCP packet; packets share a flow exactly when their keys are equal. */
  function FlowKey(p: Packet): Option<seq<byte>> {
    if p == [] then None
    else if Version(p) == 4 then
      if |p| < 20 || p[9] != 6 || LaterFragment(p) || TransportOffset(p) + 4 > |p| then None
      else Some([4] + p[12..20] + p[TransportOffset(p)..TransportOffset(p) + 4])
    else if Version(p) == 6 then
      if |p| < 44 || p[6] != 6 then None
      else Some([6] + p[8..40] + p[40..44])
    else None
  }

  predicate SharesFlow(a: Packet, b: Packet) {
    FlowKey(a).Some? && FlowKey(a) == FlowKey(b)
  }

  /** The key of the opposite direction. */
  function Opposite(key: seq<byte>): seq<byte>
    requires |key| == 13 || |key| == 37
  {
    var n := if |key| == 13 then 4 else 16;
    key[..1] + key[1 + n..1 + 2 * n] + key[1..1 + n] + key[|key| - 2..] + key[|key| - 4..|key| - 2]
  }

  predicate ReversesFlow(a: Packet, b: Packet) {
    FlowKey(a).Some? && FlowKey(b) == Some(Opposite(FlowKey(a).value))
  }

  /** `discovery` says that the packet is a tunnel-discovery query; such queries are UDP. */
  function PriorityOf(p: Packet, discovery: bool): nat
    requires |p| >= 20
  {
    var offset := TransportOffset(p);
    if LaterFragment(p) then NORMAL
    else if (Protocol(p) == 6 || Protocol(p) == 17) && offset + 4 <= |p| &&
            (ReadU16(p, offset) == 53 || ReadU16(p, offset + 2) == 53) then
      if discovery then NORMAL else DNS
    else if Protocol(p) == 1 || Protocol(p) == 58 then CONTROL
    else if Protocol(p) == 6 && offset + 20 <= |p| then
      var header := p[offset + 12] / 16 * 4;
      if 20 <= header <= |p| - offset && offset + header < |p| then TCP_DATA
      else if p[offset + 13] % 8 != 0 then CONTROL
      else NORMAL
    else BULK
  }

  datatype Entry = Entry(packet: Packet, priority: nat, discovery: bool)

  predicate EntryOk(e: Entry) {
    && ValidIp(e.packet) && |e.packet| >= 20
    && (e.discovery ==> Version(e.packet) == 4 && e.packet[9] == 17)
    && e.priority == PriorityOf(e.packet, e.discovery)
  }

  type Queue = seq<Entry>

  /** The packets of one flow, in queue order. */
  function Kin(queue: Queue, key: seq<byte>): Queue {
    if queue == [] then []
    else Kin(queue[..|queue| - 1], key) + if FlowKey(queue[|queue| - 1].packet) == Some(key) then [queue[|queue| - 1]] else []
  }

  function CountDns(queue: Queue): nat {
    if queue == [] then 0 else CountDns(queue[..|queue| - 1]) + if queue[|queue| - 1].priority == DNS then 1 else 0
  }

  function CountDiscovery(queue: Queue): nat {
    if queue == [] then 0 else CountDiscovery(queue[..|queue| - 1]) + if queue[|queue| - 1].discovery then 1 else 0
  }

  predicate QueueOk(queue: Queue) {
    && |queue| <= QUEUE_PACKETS && CountDns(queue) <= DNS_LIMIT && CountDiscovery(queue) <= DISCOVERY_LIMIT
    && forall e <- queue :: EntryOk(e)
  }

  function Without(queue: Queue, i: nat): (rest: Queue)
    requires i < |queue|
    ensures |rest| == |queue| - 1
  {
    queue[..i] + queue[i + 1..]
  }

  predicate EarlierKin(queue: Queue, i: nat)
    requires i < |queue|
  {
    exists j :: 0 <= j < i && SharesFlow(queue[j].packet, queue[i].packet)
  }

  predicate LaterKin(queue: Queue, i: nat)
    requires i < |queue|
  {
    exists j :: i < j < |queue| && SharesFlow(queue[i].packet, queue[j].packet)
  }

  // ---------------------------------------------------------------------
  // Counting and kin under changes of the queue
  // ---------------------------------------------------------------------

  lemma {:induction false} KinSplit(a: Queue, b: Queue, key: seq<byte>)
    ensures Kin(a + b, key) == Kin(a, key) + Kin(b, key)
  {
    if b == [] {
      assert a + b == a;
    } else {
      var n := |b| - 1;
      KinSplit(a, b[..n], key);
      assert (a + b)[..|a + b| - 1] == a + b[..n];
    }
  }

  lemma {:induction false} CountsSplit(a: Queue, b: Queue)
    ensures CountDns(a + b) == CountDns(a) + CountDns(b)
    ensures CountDiscovery(a + b) == CountDiscovery(a) + CountDiscovery(b)
  {
    if b == [] {
      assert a + b == a;
    } else {
      var n := |b| - 1;
      CountsSplit(a, b[..n]);
      assert (a + b)[..|a + b| - 1] == a + b[..n];
    }
  }

  lemma {:induction false} NoKin(queue: Queue, key: seq<byte>)
    requires forall e <- queue :: FlowKey(e.packet) != Some(key)
    ensures Kin(queue, key) == []
  {
    if queue != [] {
      NoKin(queue[..|queue| - 1], key);
    }
  }

  lemma KinOne(e: Entry, key: seq<byte>)
    ensures Kin([e], key) == if FlowKey(e.packet) == Some(key) then [e] else []
    ensures CountDns([e]) == if e.priority == DNS then 1 else 0
    ensures CountDiscovery([e]) == if e.discovery then 1 else 0
  {
    assert [e][..0] == [];
  }

  lemma Parts(queue: Queue, i: nat)
    requires i < |queue|
    ensures queue == queue[..i] + [queue[i]] + queue[i + 1..]
  {
  }

  /** Taking a packet with no earlier kin keeps every flow in order: it was the first of its flow. */
  lemma TakeKeepsOrder(queue: Queue, i: nat, key: seq<byte>)
    requires i < |queue| && !EarlierKin(queue, i)
    ensures Kin(queue, key) == Kin([queue[i]], key) + Kin(Without(queue, i), key)
  {
    hide Kin, FlowKey;
    var e, before, after := queue[i], queue[..i], queue[i + 1..];
    Parts(queue, i);
    KinSplit(before + [e], after, key);
    KinSplit(before, [e], key);
    KinSplit(before, after, key);
    KinOne(e, key);
    if FlowKey(e.packet) == Some(key) {
      forall x | x in before ensures FlowKey(x.packet) != Some(key) {
        var j :| 0 <= j < i && before[j] == x;
        assert !SharesFlow(queue[j].packet, queue[i].packet);
      }
      NoKin(before, key);
    }
  }

  /** Dropping a packet with no later kin drops the last of its flow. */
  lemma DropKeepsOrder(queue: Queue, i: nat, key: seq<byte>)
    requires i < |queue| && !LaterKin(queue, i)
    ensures Kin(queue, key) == Kin(Without(queue, i), key) + Kin([queue[i]], key)
  {
    hide Kin, FlowKey;
    var e, before, after := queue[i], queue[..i], queue[i + 1..];
    Parts(queue, i);
    KinSplit(before + [e], after, key);
    KinSplit(before, [e], key);
    KinSplit(before, after, key);
    KinOne(e, key);
    if FlowKey(e.packet) == Some(key) {
      forall x | x in after ensures FlowKey(x.packet) != Some(key) {
        var j :| 0 <= j < |after| && after[j] == x;
        assert queue[i + 1 + j] == x;
        assert !SharesFlow(queue[i].packet, queue[i + 1 + j].packet);
      }
      NoKin(after, key);
    }
  }

  lemma WithoutCounts(queue: Queue, i: nat)
    requires i < |queue|
    ensures CountDns(queue) == CountDns(Without(queue, i)) + CountDns([queue[i]])
    ensures CountDiscovery(queue) == CountDiscovery(Without(queue, i)) + CountDiscovery([queue[i]])
    ensures multiset(queue) == multiset(Without(queue, i)) + multiset{queue[i]}
  {
    var e, before, after := queue[i], queue[..i], queue[i + 1..];
    Parts(queue, i);
    CountsSplit(before + [e], after);
    CountsSplit(before, [e]);
    CountsSplit(before, after);
  }

  lemma WithoutOk(queue: Queue, i: nat)
    requires i < |queue| && QueueOk(queue)
    ensures QueueOk(Without(queue, i))
  {
    hide EntryOk;
    WithoutCounts(queue, i);
  }

  // ---------------------------------------------------------------------
  // Selection
  // ---------------------------------------------------------------------

  /** What a selection may take: any DNS, only one flow, only packets up to some length. */
  datatype Filter = Filter(allowDns: bool, flow: Option<Packet>, room: Option<nat>)

  predicate Eligible(queue: Queue, i: nat, f: Filter)
    requires i < |queue|
  {
    && (f.allowDns || queue[i].priority != DNS)
    && (f.flow.Some? ==> SharesFlow(f.flow.value, queue[i].packet))
    && (f.room.Some? ==> |queue[i].packet| <= f.room.value)
    && !EarlierKin(queue, i)
  }

  /** Among the first n packets, the first of those with the highest priority that are eligible. */
  function Best(queue: Queue, f: Filter, n: nat): (best: Option<nat>)
    requires n <= |queue|
    ensures best.Some? ==> best.value < n && Eligible(queue, best.value, f)
    ensures best.Some? ==> forall j | 0 <= j < n && Eligible(queue, j, f) ::
              queue[j].priority <= queue[best.value].priority &&
              (queue[j].priority == queue[best.value].priority ==> best.value <= j)
    ensures best.None? ==> forall j | 0 <= j < n :: !Eligible(queue, j, f)
  {
    if n == 0 then None
    else
      var best := Best(queue, f, n - 1);
      if Eligible(queue, n - 1, f) && (best.None? || queue[n - 1].priority > queue[best.value].priority) then Some(n - 1)
      else best
  }

  function Choose(queue: Queue, f: Filter): Option<nat> { Best(queue, f, |queue|) }

  /** The first packet from i on for which `wanted` holds of its place. */
  function FirstReply(queue: Queue, preferred: Packet, dataOnly: bool, i: nat): (m: nat)
    requires i <= |queue|
    ensures i <= m <= |queue|
    ensures m < |queue| ==> ReversesFlow(preferred, queue[m].packet) && (dataOnly ==> queue[m].priority == TCP_DATA)
    decreases |queue| - i
  {
    if i == |queue| || (ReversesFlow(preferred, queue[i].packet) && (dataOnly ==> queue[i].priority == TCP_DATA)) then i
    else FirstReply(queue, preferred, dataOnly, i + 1)
  }

  /** The first packet of the flow, which is at or before place `last`. */
  function FirstOfFlow(queue: Queue, flow: Packet, i: nat): (m: nat)
    requires i <= |queue|
    ensures i <= m <= |queue|
    ensures m < |queue| ==> SharesFlow(flow, queue[m].packet)
    ensures forall j | i <= j < m :: !SharesFlow(flow, queue[j].packet)
    decreases |queue| - i
  {
    if i == |queue| || SharesFlow(flow, queue[i].packet) then i else FirstOfFlow(queue, flow, i + 1)
  }

  /** The packet that answers the flow heard last: its data if there is any, after whatever of its flow is before it. */
  function ChooseReply(queue: Queue, preferred: Option<Packet>): (r: Option<(nat, Packet)>)
    ensures r.Some? ==> r.value.0 < |queue| && !EarlierKin(queue, r.value.0)
  {
    if preferred.None? then None
    else
      var data, any := FirstReply(queue, preferred.value, true, 0), FirstReply(queue, preferred.value, false, 0);
      if any == |queue| then None
      else
        var outbound := queue[if data < |queue| then data else any].packet;
        var first := FirstOfFlow(queue, outbound, 0);
        if first < |queue| then Some((first, outbound)) else None
  }

  // ---------------------------------------------------------------------
  // Building a batch
  // ---------------------------------------------------------------------

  /** Capacities in bytes, and what the state remembers between batches. */
  datatype Plan = Plan(body: nat, interactive: nat, dnsSent: nat, preferred: Option<Packet>)

  datatype Draft = Draft(
    queue: Queue,
    taken: Queue,
    used: nat,
    limit: nat,
    flow: Option<Packet>,
    dnsTaken: nat,
    replying: bool,
    closed: bool)

  predicate HasNonDns(queue: Queue) {
    exists i :: 0 <= i < |queue| && queue[i].priority != DNS
  }

  predicate AllowDns(d: Draft, p: Plan) {
    !HasNonDns(d.queue) || p.dnsSent + d.dnsTaken < DNS_BURST
  }

  /** The packet to take next, and the flow the batch keeps to. */
  function Pick(d: Draft, p: Plan): (r: Option<(nat, Option<Packet>, bool)>)
    ensures r.Some? ==> r.value.0 < |d.queue| && !EarlierKin(d.queue, r.value.0)
  {
    if d.taken == [] then
      var reply := ChooseReply(d.queue, p.preferred);
      if reply.Some? then Some((reply.value.0, Some(reply.value.1), true))
      else
        var i := Choose(d.queue, Filter(AllowDns(d, p), None, None));
        if i.None? then None else Some((i.value, d.flow, d.replying))
    else if d.limit < d.used || d.limit - d.used <= BATCH_ENTRY then None
    else
      var i := Choose(d.queue, Filter(AllowDns(d, p), d.flow, Some(d.limit - d.used - BATCH_ENTRY)));
      if i.None? then None else Some((i.value, d.flow, d.replying))
  }

  /** A first packet of interactive kind shortens the batch, unless it needs more room itself. */
  function LimitFor(d: Draft, p: Plan, e: Entry): (nat, bool) {
    var needed := BATCH_ENTRY + |e.packet|;
    if d.taken == [] && (e.priority == CONTROL || e.priority == DNS) && d.limit > p.interactive then
      if d.used + needed > p.interactive && d.used + needed <= p.body then (d.used + needed, true) else (p.interactive, false)
    else (d.limit, false)
  }

  function Take(d: Draft, p: Plan, i: nat, flow: Option<Packet>, replying: bool): Option<Draft>
    requires i < |d.queue|
  {
    var e := d.queue[i];
    var (limit, single) := LimitFor(d, p, e);
    var needed := BATCH_ENTRY + |e.packet|;
    if d.used + needed > limit then None
    else Some(Draft(Without(d.queue, i), d.taken + [e], d.used + needed, limit,
                    if flow.None? && e.priority == TCP_DATA then Some(e.packet) else flow,
                    d.dnsTaken + if e.priority == DNS then 1 else 0, replying, single))
  }

  function NextDraft(d: Draft, p: Plan): (next: Option<Draft>)
    ensures next.Some? ==> |next.value.queue| == |d.queue| - 1
  {
    if d.queue == [] || |d.taken| >= BATCH_PACKETS || d.closed then None
    else
      var picked := Pick(d, p);
      if picked.None? then None else Take(d, p, picked.value.0, picked.value.1, picked.value.2)
  }

  function Fill(d: Draft, p: Plan): Draft
    decreases |d.queue|
  {
    var next := NextDraft(d, p);
    if next.None? then d else Fill(next.value, p)
  }

  function FirstDraft(queue: Queue, p: Plan): Draft {
    Draft(queue, [], BATCH_HEADER, p.body, None, 0, false, false)
  }

  predicate PlanOk(p: Plan) {
    BATCH_HEADER < p.interactive <= p.body <= WINDOW_MAX
  }

  // ---------------------------------------------------------------------
  // What a batch takes
  // ---------------------------------------------------------------------

  function EntryBytes(taken: Queue): nat {
    if taken == [] then 0 else EntryBytes(taken[..|taken| - 1]) + BATCH_ENTRY + |taken[|taken| - 1].packet|
  }

  lemma EntryBytesNext(taken: Queue, e: Entry)
    ensures EntryBytes(taken + [e]) == EntryBytes(taken) + BATCH_ENTRY + |e.packet|
  {
    assert (taken + [e])[..|taken|] == taken;
  }

  /** Taken and left together are the queue, and within each flow the taken ones come first and in order. */
  ghost predicate Conserves(before: Queue, taken: Queue, left: Queue) {
    && multiset(taken) + multiset(left) == multiset(before)
    && forall key: seq<byte> :: Kin(taken, key) + Kin(left, key) == Kin(before, key)
  }

  lemma TakeConserves(before: Queue, taken: Queue, left: Queue, i: nat)
    requires Conserves(before, taken, left) && i < |left| && !EarlierKin(left, i)
    ensures Conserves(before, taken + [left[i]], Without(left, i))
  {
    hide Kin, EarlierKin;
    WithoutCounts(left, i);
    forall key: seq<byte> ensures Kin(taken + [left[i]], key) + Kin(Without(left, i), key) == Kin(before, key) {
      TakeKeepsOrder(left, i, key);
      KinSplit(taken, [left[i]], key);
      assert Kin(taken, key) + Kin(left, key) == Kin(before, key);
      assert Kin(taken, key) + (Kin([left[i]], key) + Kin(Without(left, i), key)) ==
             Kin(taken, key) + Kin([left[i]], key) + Kin(Without(left, i), key);
    }
  }

  /** The draft accounts for its bytes and stays within the plan. */
  predicate DraftOk(d: Draft, p: Plan) {
    && d.used == BATCH_HEADER + EntryBytes(d.taken) && d.used <= p.body && d.limit <= p.body
    && |d.taken| <= BATCH_PACKETS && (d.taken == [] ==> d.used == BATCH_HEADER && d.limit == p.body && !d.closed)
  }

  lemma NextOk(before: Queue, d: Draft, p: Plan)
    requires PlanOk(p) && DraftOk(d, p) && Conserves(before, d.taken, d.queue) && NextDraft(d, p).Some?
    ensures var next := NextDraft(d, p).value; DraftOk(next, p) && Conserves(before, next.taken, next.queue)
  {
    hide Conserves, EarlierKin, Pick;
    var i := Pick(d, p).value.0;
    TakeConserves(before, d.taken, d.queue, i);
    EntryBytesNext(d.taken, d.queue[i]);
  }

  /** A batch takes packets of the queue, leaves the rest, keeps every flow in order and stays within its capacity. */
  lemma {:induction false} FillOk(before: Queue, d: Draft, p: Plan)
    requires PlanOk(p) && DraftOk(d, p) && Conserves(before, d.taken, d.queue)
    ensures var end := Fill(d, p); DraftOk(end, p) && Conserves(before, end.taken, end.queue) && |d.taken| <= |end.taken|
    decreases |d.queue|
  {
    hide Conserves, DraftOk, NextDraft;
    var next := NextDraft(d, p);
    if next.Some? {
      NextOk(before, d, p);
      NextTakes(d, p);
      FillOk(before, next.value, p);
    }
  }

  lemma NextTakes(d: Draft, p: Plan)
    requires NextDraft(d, p).Some?
    ensures |NextDraft(d, p).value.taken| == |d.taken| + 1
  {
    hide Pick;
  }

  // ---------------------------------------------------------------------
  // A batch can be sent
  // ---------------------------------------------------------------------

  /** The largest packet both directions carry in two cells, within the limits of the interface. */
  function LinkMtu(upLimit: nat, downLimit: nat): nat {
    var body := if downLimit < upLimit then downLimit else upLimit;
    if body <= WINDOW_HEADER then 576
    else
      var two := 2 * (body - WINDOW_HEADER);
      var packet := if two > BATCH_HEADER + BATCH_ENTRY then two - BATCH_HEADER - BATCH_ENTRY else 0;
      if packet < 576 then 576 else if packet > 1500 then 1500 else packet
  }

  lemma MtuFits(upLimit: nat, downLimit: nat)
    requires 128 <= upLimit <= MAX_BODY && 128 <= downLimit <= MAX_BODY
    ensures LinkMtu(upLimit, downLimit) + BATCH_HEADER + BATCH_ENTRY <= MAX_CELLS * (upLimit - WINDOW_HEADER)
    ensures LinkMtu(upLimit, downLimit) + BATCH_HEADER + BATCH_ENTRY <= MAX_CELLS * (downLimit - WINDOW_HEADER)
  {
  }

  lemma KeyPorts(p: Packet)
    requires ValidIp(p) && |p| >= 20 && FlowKey(p).Some?
    ensures !LaterFragment(p) && Protocol(p) == 6 && TransportOffset(p) + 4 <= |p|
    ensures var key := FlowKey(p).value;
            && |key| >= 5 && key[0] == Version(p)
            && key[|key| - 4..] == p[TransportOffset(p)..TransportOffset(p) + 4]
  {
  }

  lemma PortsDecide(a: Packet, b: Packet)
    requires |a| >= 20 && |b| >= 20 && TransportOffset(a) + 4 <= |a| && TransportOffset(b) + 4 <= |b|
    requires a[TransportOffset(a)..TransportOffset(a) + 4] == b[TransportOffset(b)..TransportOffset(b) + 4]
    ensures ReadU16(a, TransportOffset(a)) == ReadU16(b, TransportOffset(b))
    ensures ReadU16(a, TransportOffset(a) + 2) == ReadU16(b, TransportOffset(b) + 2)
  {
    var x, y := TransportOffset(a), TransportOffset(b);
    assert a[x] == a[x..x + 4][0] && a[x + 1] == a[x..x + 4][1] && a[x + 2] == a[x..x + 4][2] && a[x + 3] == a[x..x + 4][3];
    assert b[y] == b[y..y + 4][0] && b[y + 1] == b[y..y + 4][1] && b[y + 2] == b[y..y + 4][2] && b[y + 3] == b[y..y + 4][3];
  }

  /** Packets of one flow are DNS together or not at all. */
  lemma KinShareDns(a: Entry, b: Entry)
    requires EntryOk(a) && EntryOk(b) && SharesFlow(a.packet, b.packet)
    ensures a.priority == DNS <==> b.priority == DNS
  {
    hide FlowKey, ReadU16, TransportOffset, LaterFragment;
    KeyPorts(a.packet);
    KeyPorts(b.packet);
    PortsDecide(a.packet, b.packet);
    assert !a.discovery && !b.discovery by { TcpIsNoDiscovery(a); TcpIsNoDiscovery(b); }
  }

  lemma TcpIsNoDiscovery(e: Entry)
    requires EntryOk(e) && FlowKey(e.packet).Some?
    ensures !e.discovery
  {
    hide PriorityOf, ValidIp;
  }

  lemma {:induction false} FirstNonDns(queue: Queue, n: nat) returns (m: nat)
    requires n < |queue| && queue[n].priority != DNS
    ensures m <= n && queue[m].priority != DNS && forall j | 0 <= j < m :: queue[j].priority == DNS
  {
    if j :| 0 <= j < n && queue[j].priority != DNS {
      m := FirstNonDns(queue, j);
    } else {
      m := n;
    }
  }

  /** From a queue that is not empty a first packet can always be picked. */
  lemma SomethingToPick(queue: Queue, p: Plan)
    requires QueueOk(queue) && queue != []
    ensures Pick(FirstDraft(queue, p), p).Some?
  {
    hide EntryOk, SharesFlow, ChooseReply;
    var d := FirstDraft(queue, p);
    var f := Filter(AllowDns(d, p), None, None);
    if f.allowDns {
      assert Eligible(queue, 0, f);
    } else {
      var i :| 0 <= i < |queue| && queue[i].priority != DNS;
      var m := FirstNonDns(queue, i);
      if EarlierKin(queue, m) {
        var j :| 0 <= j < m && SharesFlow(queue[j].packet, queue[m].packet);
        KinShareDns(queue[j], queue[m]);
      }
      assert Eligible(queue, m, f);
    }
  }

  function PlanFor(limit: nat, dnsSent: nat, preferred: Option<Packet>): Plan
    requires limit > WINDOW_HEADER
  {
    Plan(MAX_CELLS * (limit - WINDOW_HEADER), limit - WINDOW_HEADER, dnsSent, preferred)
  }

  function Packets(taken: Queue): (packets: seq<Packet>)
    ensures |packets| == |taken|
  {
    seq(|taken|, i requires 0 <= i < |taken| => taken[i].packet)
  }

  lemma {:induction false} PacketBytes(taken: Queue)
    requires forall e <- taken :: EntryOk(e)
    ensures AllValid(Packets(taken)) && |Entries(Packets(taken))| == EntryBytes(taken)
  {
    hide EntryOk, ValidIp;
    if taken != [] {
      var n := |taken| - 1;
      PacketBytes(taken[..n]);
      EntryMeans(taken[n]);
      assert Packets(taken) == Packets(taken[..n]) + [taken[n].packet];
      EntriesAppend(Packets(taken[..n]), taken[n].packet);
    }
  }

  lemma EntryMeans(e: Entry)
    requires EntryOk(e)
    ensures ValidIp(e.packet)
  {
  }

  lemma {:induction false} EntriesAppend(packets: seq<Packet>, p: Packet)
    requires AllValid(packets) && ValidIp(p)
    ensures AllValid(packets + [p]) && |Entries(packets + [p])| == |Entries(packets)| + BATCH_ENTRY + |p|
  {
    hide ValidIp;
    if packets == [] {
      assert packets + [p] == [p] && [p][1..] == [];
    } else {
      EntriesAppend(packets[1..], p);
      assert (packets + [p])[1..] == packets[1..] + [p];
    }
  }

  lemma TakenOk(before: Queue, taken: Queue, left: Queue)
    requires multiset(taken) + multiset(left) == multiset(before) && forall e <- before :: EntryOk(e)
    ensures forall e <- taken :: EntryOk(e)
    ensures forall e <- left :: EntryOk(e)
  {
    hide EntryOk;
    forall e | e in taken ensures EntryOk(e) {
      assert e in multiset(taken);
      assert e in multiset(before);
    }
    forall e | e in left ensures EntryOk(e) {
      assert e in multiset(left);
      assert e in multiset(before);
    }
  }

  lemma FirstFits(queue: Queue, p: Plan)
    requires PlanOk(p) && QueueOk(queue) && queue != []
    requires forall e <- queue :: BATCH_HEADER + BATCH_ENTRY + |e.packet| <= p.body
    ensures NextDraft(FirstDraft(queue, p), p).Some?
  {
    hide EntryOk, Pick;
    SomethingToPick(queue, p);
    var i := Pick(FirstDraft(queue, p), p).value.0;
    assert queue[i] in queue;
  }

  lemma FewCells(total: nat, capacity: nat)
    requires capacity > 0 && total <= MAX_CELLS * capacity
    ensures CellCount(total, capacity) <= MAX_CELLS
  {
    var q := (total + capacity - 1) / capacity;
    if q >= 6 {
      assert capacity * q >= capacity * 6;
    }
  }

  /**
   For all body limits of the proxy, a queue with packets no longer than the
   link carries gives a batch that is not empty and that its window can send:
   at most five cells, and a length that leaves the yield bit alone.
   */
  lemma BatchIsSendable(queue: Queue, limit: nat, other: nat, dnsSent: nat, preferred: Option<Packet>, id: uint32, yielding: bool)
    requires 128 <= limit <= MAX_BODY && 128 <= other <= MAX_BODY && QueueOk(queue) && queue != []
    requires forall e <- queue :: |e.packet| <= LinkMtu(limit, other)
    ensures var end := Fill(FirstDraft(queue, PlanFor(limit, dnsSent, preferred)), PlanFor(limit, dnsSent, preferred));
            var job := Job(id, yielding, Packets(end.taken));
            && end.taken != [] && FitsLimit(job, limit) && |BatchOf(job)| == end.used < YIELD_FLAG
            && InspectBatch(BatchOf(job)) == Some(Batch(id, yielding, Packets(end.taken)))
  {
    hide EntryOk, NextDraft, FirstDraft, Conserves, InspectBatch, Entries, LinkMtu;
    var p := PlanFor(limit, dnsSent, preferred);
    MtuFits(limit, other);
    FirstFits(queue, p);
    FirstOk(queue, p);
    NextOk(queue, FirstDraft(queue, p), p);
    NextTakes(FirstDraft(queue, p), p);
    var next := NextDraft(FirstDraft(queue, p), p).value;
    FillOk(queue, next, p);
    var end := Fill(next, p);
    assert multiset(end.taken) + multiset(end.queue) == multiset(queue) by { ConservesAll(queue, end.taken, end.queue); }
    TakenOk(queue, end.taken, end.queue);
    PacketBytes(end.taken);
    FewCells(end.used, limit - WINDOW_HEADER);
    BatchIs(Job(id, yielding, Packets(end.taken)));
  }

  lemma ConservesAll(before: Queue, taken: Queue, left: Queue)
    requires Conserves(before, taken, left)
    ensures multiset(taken) + multiset(left) == multiset(before)
  {
  }

  lemma FirstOk(queue: Queue, p: Plan)
    requires PlanOk(p)
    ensures DraftOk(FirstDraft(queue, p), p) && Conserves(queue, FirstDraft(queue, p).taken, FirstDraft(queue, p).queue)
  {
  }

  /** Taken and left together are the queue, and each flow leaves in queue order. */
  lemma BatchConserves(queue: Queue, p: Plan)
    requires PlanOk(p)
    ensures var end := Fill(FirstDraft(queue, p), p);
            && multiset(end.taken) + multiset(end.queue) == multiset(queue) && |end.taken| <= BATCH_PACKETS
            && forall key: seq<byte> :: Kin(end.taken, key) + Kin(end.queue, key) == Kin(queue, key)
  {
    hide FirstDraft, Kin;
    FirstOk(queue, p);
    FillOk(queue, FirstDraft(queue, p), p);
  }

  // ---------------------------------------------------------------------
  // Admission
  // ---------------------------------------------------------------------

  /** Only padding, a timestamp of ten bytes, or the end of the options. */
  predicate PlainOptions(tcp: seq<byte>, offset: nat, header: nat)
    requires header <= |tcp|
    decreases header - offset
  {
    if offset >= header then true
    else if tcp[offset] == 0 then true
    else if tcp[offset] == 1 then PlainOptions(tcp, offset + 1, header)
    else offset + 2 <= header && tcp[offset] == 8 && tcp[offset + 1] == 10 && 10 <= header - offset &&
         PlainOptions(tcp, offset + 10, header)
  }

  /** A bare acknowledgement of an IPv4 TCP flow, without data or unusual options. */
  predicate ReplaceableAck(p: Packet) {
    && ValidIp(p) && |p| >= 40 && p[0] == 0x45 && p[9] == 6 && ReadU16(p, 6) % 0x4000 == 0
    && p[33] == 0x10 && p[32] / 16 * 4 >= 20 && 20 + p[32] / 16 * 4 == |p|
    && PlainOptions(p[20..], 20, p[32] / 16 * 4)
  }

  /** A newer bare acknowledgement of the same flow and sequence number, in wrapping arithmetic. */
  predicate Supersedes(newer: Packet, older: Packet) {
    && ReplaceableAck(newer) && ReplaceableAck(older)
    && newer[12..20] == older[12..20] && newer[20..28] == older[20..28]
    && (ReadU32(newer, 28) - ReadU32(older, 28)) % TWO_32 <= 0x7fff_ffff
  }

  /** The first packet from i on that is the same as the new one or superseded by it. */
  function FirstMatch(queue: Queue, p: Packet, i: nat): (m: nat)
    requires i <= |queue|
    ensures i <= m <= |queue|
    ensures m < |queue| ==> queue[m].packet == p || Supersedes(p, queue[m].packet)
    decreases |queue| - i
  {
    if i == |queue| || queue[i].packet == p || Supersedes(p, queue[i].packet) then i else FirstMatch(queue, p, i + 1)
  }

  predicate Evictable(queue: Queue, i: nat, e: Entry, replies: bool)
    requires i < |queue|
  {
    !LaterKin(queue, i) && !(replies && SharesFlow(e.packet, queue[i].packet))
  }

  /** Among the first n packets, the last of those with the lowest priority that may be dropped. */
  function Lowest(queue: Queue, e: Entry, replies: bool, n: nat): (low: Option<nat>)
    requires n <= |queue|
    ensures low.Some? ==> low.value < n && Evictable(queue, low.value, e, replies)
    ensures low.Some? ==> forall j | 0 <= j < n && Evictable(queue, j, e, replies) ::
              queue[low.value].priority <= queue[j].priority &&
              (queue[low.value].priority == queue[j].priority ==> j <= low.value)
    ensures low.None? ==> forall j | 0 <= j < n :: !Evictable(queue, j, e, replies)
  {
    if n == 0 then None
    else
      var low := Lowest(queue, e, replies, n - 1);
      if Evictable(queue, n - 1, e, replies) && (low.None? || queue[n - 1].priority <= queue[low.value].priority) then Some(n - 1)
      else low
  }

  /** Room is made by dropping the lowest packet, unless the new one matters no more than it. */
  function MakeRoom(queue: Queue, e: Entry, preferred: Option<Packet>): Option<Queue> {
    var replies := e.priority == TCP_DATA && preferred.Some? && ReversesFlow(preferred.value, e.packet);
    var low := Lowest(queue, e, replies, |queue|);
    if low.None? || e.priority < queue[low.value].priority || (e.priority == queue[low.value].priority && !replies) then None
    else Some(Without(queue, low.value))
  }

  /** `suppressed` says that the packet is a DNS query answered or under way already. */
  function Admit(queue: Queue, e: Entry, suppressed: bool, preferred: Option<Packet>): (Queue, Status) {
    if !ValidIp(e.packet) then (queue, ErrHeader)
    else if suppressed then (queue, Ok)
    else
      var same := FirstMatch(queue, e.packet, 0);
      if same < |queue| then (if queue[same].packet == e.packet then queue else queue[same := e], Ok)
      else if e.discovery && CountDiscovery(queue) >= DISCOVERY_LIMIT then (queue, Ok)
      else if e.priority == DNS && CountDns(queue) >= DNS_LIMIT then (queue, Ok)
      else if |queue| == QUEUE_PACKETS then
        var room := MakeRoom(queue, e, preferred);
        if room.None? then (queue, Ok) else (room.value + [e], Ok)
      else (queue + [e], Ok)
  }

  lemma AckKey(p: Packet)
    requires ReplaceableAck(p)
    ensures FlowKey(p) == Some([4] + p[12..20] + p[20..24])
  {
    hide PlainOptions;
    assert p[0] / 16 == 4 && p[0] % 16 == 5;
  }

  lemma SupersededIsKin(newer: Packet, older: Packet)
    requires Supersedes(newer, older)
    ensures SharesFlow(newer, older)
  {
    hide ReplaceableAck, FlowKey;
    AckKey(newer);
    AckKey(older);
    assert |newer| >= 40 && |older| >= 40 by { AckLong(newer); AckLong(older); }
    assert newer[20..24] == newer[20..28][..4] && older[20..24] == older[20..28][..4];
  }

  lemma AckLong(p: Packet)
    requires ReplaceableAck(p)
    ensures |p| >= 40
  {
  }

  lemma SwapCounts(queue: Queue, i: nat, e: Entry)
    requires i < |queue| && (queue[i].priority == DNS <==> e.priority == DNS) && queue[i].discovery == e.discovery
    ensures CountDns(queue[i := e]) == CountDns(queue) && CountDiscovery(queue[i := e]) == CountDiscovery(queue)
  {
    hide CountDns, CountDiscovery;
    var changed := queue[i := e];
    WithoutCounts(queue, i);
    WithoutCounts(changed, i);
    assert Without(changed, i) == Without(queue, i);
    KinOne(queue[i], []);
    KinOne(e, []);
  }

  lemma SwapOk(queue: Queue, i: nat, e: Entry)
    requires QueueOk(queue) && EntryOk(e) && i < |queue| && Supersedes(e.packet, queue[i].packet)
    ensures QueueOk(queue[i := e])
  {
    hide EntryOk, Supersedes, SharesFlow, CountDns, CountDiscovery;
    SupersededIsKin(e.packet, queue[i].packet);
    KinIsSymmetric(e.packet, queue[i].packet);
    KinShareDns(queue[i], e);
    KinAreTcp(queue[i], e);
    SwapCounts(queue, i, e);
  }

  lemma AppendOk(queue: Queue, e: Entry)
    requires QueueOk(queue) && EntryOk(e) && |queue| < QUEUE_PACKETS
    requires e.discovery ==> CountDiscovery(queue) < DISCOVERY_LIMIT
    requires e.priority == DNS ==> CountDns(queue) < DNS_LIMIT
    ensures QueueOk(queue + [e])
  {
    hide EntryOk, CountDns, CountDiscovery;
    KinOne(e, []);
    CountsSplit(queue, [e]);
  }

  /** Admission keeps the bounds: 64 packets, 48 of DNS priority, 4 discovery queries. */
  lemma AdmitKeeps(queue: Queue, e: Entry, suppressed: bool, preferred: Option<Packet>)
    requires QueueOk(queue) && (ValidIp(e.packet) ==> EntryOk(e))
    ensures QueueOk(Admit(queue, e, suppressed, preferred).0)
  {
    hide EntryOk, Supersedes, ValidIp, SharesFlow, CountDns, CountDiscovery, LaterKin, QueueOk;
    var same := FirstMatch(queue, e.packet, 0);
    assert |queue| <= QUEUE_PACKETS by { QueueBound(queue); }
    if !ValidIp(e.packet) || suppressed {
    } else if same < |queue| {
      if queue[same].packet != e.packet { SwapOk(queue, same, e); }
    } else if e.discovery && CountDiscovery(queue) >= DISCOVERY_LIMIT {
    } else if e.priority == DNS && CountDns(queue) >= DNS_LIMIT {
    } else if |queue| == QUEUE_PACKETS {
      if MakeRoom(queue, e, preferred).Some? {
        var replies := e.priority == TCP_DATA && preferred.Some? && ReversesFlow(preferred.value, e.packet);
        var low := Lowest(queue, e, replies, |queue|).value;
        WithoutOk(queue, low);
        WithoutCounts(queue, low);
        AppendOk(Without(queue, low), e);
      }
    } else {
      AppendOk(queue, e);
    }
  }

  lemma QueueBound(queue: Queue)
    requires QueueOk(queue)
    ensures |queue| <= QUEUE_PACKETS
  {
  }

  lemma KinIsSymmetric(a: Packet, b: Packet)
    requires SharesFlow(a, b)
    ensures SharesFlow(b, a)
  {
  }

  lemma KinAreTcp(a: Entry, b: Entry)
    requires EntryOk(a) && EntryOk(b) && SharesFlow(a.packet, b.packet)
    ensures !a.discovery && !b.discovery
  {
    hide EntryOk, FlowKey;
    TcpIsNoDiscovery(a);
    TcpIsNoDiscovery(b);
  }

  /** How one flow may change when a packet is admitted. */
  predicate FlowMoves(before: Queue, after: Queue, e: Entry) {
    || after == before
    || after == before + [e]
    || (before != [] && (after == before[..|before| - 1] || after == before[..|before| - 1] + [e]))
    || (|after| == |before| && exists i :: 0 <= i < |before| && after == before[i := e] && Supersedes(e.packet, before[i].packet))
  }

  /** Replacing a packet by one of its flow replaces it within the flow, at place j. */
  lemma {:induction false} KinUpdate(queue: Queue, i: nat, e: Entry, key: seq<byte>) returns (j: nat)
    requires i < |queue| && FlowKey(queue[i].packet) == FlowKey(e.packet)
    ensures if FlowKey(e.packet) == Some(key) then
              j < |Kin(queue, key)| && Kin(queue, key)[j] == queue[i] && Kin(queue[i := e], key) == Kin(queue, key)[j := e]
            else Kin(queue[i := e], key) == Kin(queue, key)
  {
    hide FlowKey;
    var n := |queue| - 1;
    if i == n {
      assert queue[i := e][..n] == queue[..n];
      j := |Kin(queue[..n], key)|;
    } else {
      assert queue[i := e][..n] == queue[..n][i := e];
      j := KinUpdate(queue[..n], i, e, key);
    }
  }

  /**
   Admission never reorders a flow: it may append the new packet to its own
   flow, put it in the place of an acknowledgement it supersedes, and drop the
   last packet of one flow to make room.
   */
  lemma AdmitKeepsOrder(queue: Queue, e: Entry, suppressed: bool, preferred: Option<Packet>, key: seq<byte>)
    ensures var after := Admit(queue, e, suppressed, preferred).0;
            FlowMoves(Kin(queue, key), Kin(after, key), e)
    ensures var after := Admit(queue, e, suppressed, preferred).0;
            FlowKey(e.packet) != Some(key) ==>
              Kin(after, key) == Kin(queue, key) ||
              (Kin(queue, key) != [] && Kin(after, key) == Kin(queue, key)[..|Kin(queue, key)| - 1])
  {
    hide Supersedes, ValidIp, Kin, FlowKey, CountDns, CountDiscovery, LaterKin, ReversesFlow;
    var same := FirstMatch(queue, e.packet, 0);
    KinSplit(queue, [e], key);
    KinOne(e, key);
    if !ValidIp(e.packet) || suppressed {
    } else if same < |queue| {
      if queue[same].packet != e.packet {
        SupersededIsKin(e.packet, queue[same].packet);
        var j := KinUpdate(queue, same, e, key);
      }
    } else if |queue| == QUEUE_PACKETS && MakeRoom(queue, e, preferred).Some? {
      var replies := e.priority == TCP_DATA && preferred.Some? && ReversesFlow(preferred.value, e.packet);
      var low := Lowest(queue, e, replies, |queue|).value;
      assert !LaterKin(queue, low);
      EvictionMoves(queue, low, e, key);
    }
  }

  lemma EvictionMoves(queue: Queue, low: nat, e: Entry, key: seq<byte>)
    requires low < |queue| && !LaterKin(queue, low)
    ensures FlowMoves(Kin(queue, key), Kin(Without(queue, low) + [e], key), e)
    ensures FlowKey(e.packet) != Some(key) ==>
              Kin(Without(queue, low) + [e], key) == Kin(queue, key) ||
              (Kin(queue, key) != [] && Kin(Without(queue, low) + [e], key) == Kin(queue, key)[..|Kin(queue, key)| - 1])
  {
    hide Supersedes, Kin, FlowKey, LaterKin;
    DropKeepsOrder(queue, low, key);
    KinOne(queue[low], key);
    KinOne(e, key);
    KinSplit(Without(queue, low), [e], key);
  }
}
