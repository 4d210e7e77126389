/**
 One direction between two peers that may restart: which of all packets ever
 accepted on one side came out on the other, across generations.
 */
module SessionRoute {
  import opened Bytes
  import opened Common
  import opened PacketTransport
  import opened ByteStream
  import opened TransportInvariant
  import opened TransportSteps

  /**
   `log` is every packet ever accepted on the sending side and `dequeued` every
   packet ever handed out on the other, whatever restarts there were.  The
   sender's generation began with packet `start` and cut `cells`.  The
   receiver's state is about the packets from `heardFrom` on.  `tags` gives, for
   each packet dequeued or waiting at the receiver, its place in the log.
   */
  datatype Route = Route(
    log: seq<Packet>,
    start: nat,
    cells: Chunks,
    heardFrom: nat,
    heard: Flow,
    dequeued: seq<Packet>,
    tags: seq<nat>)

  const NOTHING := Flow([], [], 0)

  function NewRoute(): Route { Route([], 0, [], 0, NOTHING, [], []) }

  /** The log position after the last packet the receiver was handed. */
  function Mark(r: Route): nat { r.heardFrom + r.heard.done }

  ghost predicate Increasing(tags: seq<nat>) {
    forall i, j | 0 <= i < j < |tags| :: tags[i] < tags[j]
  }

  /** Each tag tells where in the log its packet came from. */
  ghost predicate Located(tags: seq<nat>, packets: seq<Packet>, log: seq<Packet>) {
    |tags| == |packets| && forall i | 0 <= i < |tags| :: tags[i] < |log| && log[tags[i]] == packets[i]
  }

  function Range(first: nat, count: nat): (s: seq<nat>)
    ensures |s| == count
  {
    seq(count, k requires 0 <= k => first + k)
  }

  /** The last tags are the packets of this generation, one after the other. */
  ghost predicate Recent(r: Route) {
    r.heard.done <= |r.tags| && r.tags[|r.tags| - r.heard.done..] == Range(r.heardFrom, r.heard.done)
  }

  ghost predicate TagsOk(r: Route, incoming: seq<Packet>) {
    && Located(r.tags, r.dequeued + incoming, r.log) && Increasing(r.tags)
    && (forall i | 0 <= i < |r.tags| :: r.tags[i] < Mark(r))
    && Recent(r)
  }

  ghost predicate HeardOk(r: Route) {
    r.heardFrom <= |r.log| && r.heard.accepted <= r.log[r.heardFrom..]
  }

  /** Both ends are in one generation and agree on it. */
  ghost predicate JoinedOk(tx: Sender, c: Config, rx: Receiver, d: Config, r: Route) {
    && c.maxPacket == d.maxPacket
    && r.heardFrom == r.start <= |r.log| && r.heard.accepted == r.log[r.start..] && r.heard.cells == r.cells
    && FlowOk(tx, rx, r.heard, d)
  }

  ghost predicate SendingOk(tx: Sender, c: Config, r: Route) {
    r.start <= |r.log| && SenderOk(tx, r.log[r.start..], r.cells, c)
  }

  ghost predicate ReceivingOk(rx: Receiver, d: Config, r: Route) {
    && HeardOk(r) && ReceiverOk(rx, r.heard.accepted, r.heard.cells, r.heard.done, d)
    && Flatten(r.heard.cells) <= Flatten(Records(r.heard.accepted))
  }

  /** The ends are apart; what the receiver still works on the sender will not send again. */
  ghost predicate ApartOk(tx: Sender, c: Config, rx: Receiver, d: Config, r: Route) {
    && SendingOk(tx, c, r) && ReceivingOk(rx, d, r)
    && r.heardFrom + |r.heard.accepted| + |tx.outgoing| <= |r.log|
  }

  ghost predicate RouteOk(tx: Sender, c: Config, rx: Receiver, d: Config, r: Route, joined: bool) {
    && TagsOk(r, rx.incoming)
    && if joined then JoinedOk(tx, c, rx, d, r) else ApartOk(tx, c, rx, d, r)
  }

  // ---------------------------------------------------------------------
  // Parts of the invariant
  // ---------------------------------------------------------------------

  lemma FlowParts(tx: Sender, rx: Receiver, flow: Flow, c: Config)
    requires FlowOk(tx, rx, flow, c)
    ensures SenderOk(tx, flow.accepted, flow.cells, c)
    ensures ReceiverOk(rx, flow.accepted, flow.cells, flow.done, c)
    ensures Flatten(flow.cells) <= Flatten(Records(flow.accepted))
  {
    SentIsPrefix(tx, rx, flow, c);
  }

  lemma SenderOtherConfig(tx: Sender, accepted: seq<Packet>, cells: Chunks, c: Config, d: Config)
    requires SenderOk(tx, accepted, cells, d) && c.maxPacket == d.maxPacket
    ensures SenderOk(tx, accepted, cells, c)
  {
  }

  /** Joined or apart, each end is in order on its own. */
  lemma EndsOk(tx: Sender, c: Config, rx: Receiver, d: Config, r: Route, joined: bool)
    requires RouteOk(tx, c, rx, d, r, joined)
    ensures SendingOk(tx, c, r) && ReceivingOk(rx, d, r)
    ensures ValidSender(tx)
    ensures Mark(r) <= |r.log| && r.heard.done <= |r.heard.accepted|
  {
    hide ReceiverOk, SenderOk, TagsOk, FlowOk;
    if joined {
      FlowParts(tx, rx, r.heard, d);
      SenderOtherConfig(tx, r.heard.accepted, r.cells, c, d);
    }
    SenderValid(tx, r.log[r.start..], r.cells, c);
    DoneBound(rx, r.heard, d);
  }

  // ---------------------------------------------------------------------
  // Handing packets over
  // ---------------------------------------------------------------------

  function Handing(r: Route, out: seq<Packet>, more: nat): Route {
    r.(dequeued := r.dequeued + out,
       tags := r.tags + Range(Mark(r), more),
       heard := r.heard.(done := r.heard.done + more))
  }

  lemma LocatedMore(tags: seq<nat>, packets: seq<Packet>, log: seq<Packet>, first: nat, count: nat)
    requires Located(tags, packets, log) && first + count <= |log|
    ensures Located(tags + Range(first, count), packets + log[first..first + count], log)
  {
  }

  lemma SamePlaces(r: Route, more: nat)
    requires HeardOk(r) && r.heard.done + more <= |r.heard.accepted|
    ensures Mark(r) + more <= |r.log|
    ensures r.heard.accepted[r.heard.done..r.heard.done + more] == r.log[Mark(r)..Mark(r) + more]
  {
    assert r.heard.accepted == r.log[r.heardFrom..][..|r.heard.accepted|];
  }

  lemma Regroup<T>(a: seq<T>, b: seq<T>, c: seq<T>, d: seq<T>, e: seq<T>)
    requires d + e == b + c
    ensures a + b + c == a + d + e
  {
    assert a + b + c == a + (b + c);
    assert a + d + e == a + (d + e);
  }

  lemma RecentMore(tags: seq<nat>, first: nat, done: nat, more: nat)
    requires done <= |tags| && tags[|tags| - done..] == Range(first, done)
    ensures (tags + Range(first + done, more))[|tags| - done..] == Range(first, done + more)
  {
    assert (tags + Range(first + done, more))[|tags| - done..] == tags[|tags| - done..] + Range(first + done, more);
  }

  lemma IncreasingMore(tags: seq<nat>, mark: nat, more: nat)
    requires Increasing(tags) && forall i | 0 <= i < |tags| :: tags[i] < mark
    ensures Increasing(tags + Range(mark, more))
    ensures forall i | 0 <= i < |tags| + more :: (tags + Range(mark, more))[i] < mark + more
  {
  }

  lemma TagsHanded(r: Route, incoming: seq<Packet>, out: seq<Packet>, after: seq<Packet>, more: nat)
    requires TagsOk(r, incoming) && HeardOk(r) && r.heard.done + more <= |r.heard.accepted|
    requires out + after == incoming + r.heard.accepted[r.heard.done..r.heard.done + more]
    ensures TagsOk(Handing(r, out, more), after) && HeardOk(Handing(r, out, more))
  {
    hide Located, Increasing, Range, HeardOk;
    SamePlaces(r, more);
    LocatedMore(r.tags, r.dequeued + incoming, r.log, Mark(r), more);
    Regroup(r.dequeued, incoming, r.log[Mark(r)..Mark(r) + more], out, after);
    RecentMore(r.tags, r.heardFrom, r.heard.done, more);
    IncreasingMore(r.tags, Mark(r), more);
    StillHeard(r, out, more);
  }

  lemma StillHeard(r: Route, out: seq<Packet>, more: nat)
    requires HeardOk(r)
    ensures HeardOk(Handing(r, out, more))
  {
  }

  /** Packets only leave a queue on the way out; how many the receiver was newly handed. */
  function More(rx: Receiver, after: Receiver, out: seq<Packet>): nat {
    if |rx.incoming| <= |out| + |after.incoming| then |out| + |after.incoming| - |rx.incoming| else 0
  }

  /** The receiver moved on, perhaps handing out a packet. */
  lemma ReceiverMoves(tx: Sender, c: Config, rx: Receiver, d: Config, r: Route, joined: bool, after: Receiver, out: seq<Packet>)
    requires RouteOk(tx, c, rx, d, r, joined)
    requires HandedOut(rx, after, out, r.heard, d)
    ensures RouteOk(tx, c, after, d, Handing(r, out, More(rx, after, out)), joined)
  {
    hide ReceiverOk, SenderOk, LinkOk, TagsOk, Grows;
    EndsOk(tx, c, rx, d, r, joined);
    var more := More(rx, after, out);
    assert |out + after.incoming| == |rx.incoming| + |r.heard.accepted[r.heard.done..r.heard.done + more]|;
    TagsHanded(r, rx.incoming, out, after.incoming, more);
    if joined {
      OutLater(tx, rx, after, out, r.heard, d);
    }
  }

  lemma DequeueMoves(e: Endpoint, d: Config, room: nat, tx: Sender, c: Config, r: Route, joined: bool)
    requires RouteOk(tx, c, e.rx, d, r, joined)
    ensures var (after, status, packet) := Dequeue(e, d, room);
            var out := Out((after, status, packet));
            && status != ErrHeader && after.tx == e.tx
            && RouteOk(tx, c, after.rx, d, Handing(r, out, More(e.rx, after.rx, out)), joined)
  {
    hide RouteOk, ReceiverOk, Dequeue, More, Handing;
    EndsOk(tx, c, e.rx, d, r, joined);
    DequeueFlow(e, d, room, r.heard);
    var (after, status, packet) := Dequeue(e, d, room);
    ReceiverMoves(tx, c, e.rx, d, r, joined, after.rx, Out((after, status, packet)));
  }

  // ---------------------------------------------------------------------
  // The sender accepts packets and cuts cells
  // ---------------------------------------------------------------------

  function Logging(r: Route, packet: Packet, joined: bool): Route {
    r.(log := r.log + [packet],
       heard := if joined then r.heard.(accepted := r.heard.accepted + [packet]) else r.heard)
  }

  lemma TagsLogged(r: Route, incoming: seq<Packet>, packet: Packet, joined: bool)
    requires TagsOk(r, incoming)
    ensures TagsOk(Logging(r, packet, joined), incoming)
  {
  }

  lemma EnqueueMoves(e: Endpoint, c: Config, packet: Packet, rx: Receiver, d: Config, r: Route, joined: bool)
    requires RouteOk(e.tx, c, rx, d, r, joined) && Enqueue(e, c, packet).1 == Ok
    ensures RouteOk(Enqueue(e, c, packet).0.tx, c, rx, d, Logging(r, packet, joined), joined)
  {
    hide ReceiverOk, SenderOk, FlowOk, TagsOk;
    TagsLogged(r, rx.incoming, packet, joined);
    assert r.start <= |r.log| ==> (r.log + [packet])[r.start..] == r.log[r.start..] + [packet];
    assert r.heardFrom <= |r.log| ==> (r.log + [packet])[r.heardFrom..] == r.log[r.heardFrom..] + [packet];
    if joined {
      EnqueueOk(e, c, packet, rx, d, r.heard);
    } else {
      PushOk(e.tx, packet, r.log[r.start..], r.cells, c);
    }
  }

  function Cutting(r: Route, tx: Sender, after: Sender, joined: bool): Route {
    var cells := CellsAfter(Flow([], r.cells, 0), tx, after).cells;
    r.(cells := cells, heard := if joined then r.heard.(cells := cells) else r.heard)
  }

  lemma TagsCut(r: Route, incoming: seq<Packet>, tx: Sender, after: Sender, joined: bool)
    requires TagsOk(r, incoming)
    ensures TagsOk(Cutting(r, tx, after, joined), incoming)
  {
  }

  lemma ResendAlone(e: Endpoint, accepted: seq<Packet>, cells: Chunks, c: Config, header: seq<byte>, slot: nat, frame: nat)
    requires SenderOk(e.tx, accepted, cells, c) && slot < SLOTS && e.tx.ring[slot].occupied
    ensures SenderOk(SendSlot(e, header, slot, frame).0.tx, accepted, cells, c)
    ensures SendSlot(e, header, slot, frame).0.tx == e.tx.(ring := SendSlot(e, header, slot, frame).0.tx.ring)
    ensures SendSlot(e, header, slot, frame).0.tx.ring[slot].bytes == e.tx.ring[slot].bytes
    ensures forall i | 0 <= i < SLOTS && i != slot :: SendSlot(e, header, slot, frame).0.tx.ring[i] == e.tx.ring[i]
  {
    hide QueueOk;
  }

  lemma RandomAlone(tx: Sender, random: bv32, accepted: seq<Packet>, cells: Chunks, c: Config)
    requires SenderOk(tx, accepted, cells, c)
    ensures SenderOk(tx.(random := random), accepted, cells, c)
  {
  }

  /** Building also keeps a sender in order that has lost its peer. */
  lemma BuildAlone(e: Endpoint, c: Config, frame: nat, accepted: seq<Packet>, cells: Chunks)
    requires SenderOk(e.tx, accepted, cells, c) && ValidSender(e.tx)
    ensures var after := Build(e, c, frame).0;
            && after.rx == e.rx && |after.tx.outgoing| <= |e.tx.outgoing|
            && SenderOk(after.tx, accepted, CellsAfter(Flow([], cells, 0), e.tx, after.tx).cells, c)
  {
    hide SenderOk, SelectRetry, Serialize, InFlight;
    var header := AckHeader(e.rx.base, ReceiveMask(e.rx));
    var (retry, random) := SelectRetry(e.tx.ring, e.tx.random, c.retransmitAfter, frame);
    var tx := e.tx.(random := random);
    RandomAlone(e.tx, random, accepted, cells, c);
    if retry.Some? {
      ResendAlone(e.(tx := tx), accepted, cells, c, header, retry.value, frame);
    } else if MayCreate(tx, c) {
      var flow := Flow(accepted, cells, 0);
      CreateCellOk(tx, flow, c, c);
      QueueShrinks(tx, c);
      var made := CreateCell(tx, c);
      ResendAlone(e.(tx := made), accepted, CellsAfter(flow, tx, made).cells, c, header, tx.next % SLOTS, frame);
    }
  }

  lemma QueueShrinks(tx: Sender, c: Config)
    requires ValidSender(tx) && MayCreate(tx, c)
    ensures |CreateCell(tx, c).outgoing| <= |tx.outgoing|
  {
    SerializeShrinks(tx.outgoing, tx.recordOffset, DATA_BYTES);
  }

  lemma {:induction false} SerializeShrinks(outgoing: seq<Packet>, offset: nat, room: nat)
    requires Queueable(outgoing) && (outgoing != [] ==> offset < RECORD_BYTES + |outgoing[0]|)
    ensures |Serialize(outgoing, offset, room).1| <= |outgoing|
    decreases |outgoing|
  {
    if room > 0 && outgoing != [] && room >= |Record(outgoing[0])| - offset {
      SerializeShrinks(outgoing[1..], 0, room - (|Record(outgoing[0])| - offset));
    }
  }

  /** Building a frame keeps the direction it sends in; when joined the frame is a true one. */
  lemma BuildMoves(e: Endpoint, c: Config, frame: nat, peer: Endpoint, d: Config, out: Route, inward: Route, joined: bool)
    requires RouteOk(e.tx, c, peer.rx, d, out, joined) && RouteOk(peer.tx, d, e.rx, c, inward, joined)
    ensures ValidSender(e.tx)
    ensures var (after, f) := Build(e, c, frame);
            var r := Cutting(out, e.tx, after.tx, joined);
            && after.rx == e.rx && RouteOk(after.tx, c, peer.rx, d, r, joined)
            && (joined ==> AckOk(f.payload, e.rx, inward.cells) && DataOk(f, r.cells, peer.rx))
  {
    hide ReceiverOk, SenderOk, FlowOk, TagsOk, AckOk, DataOk, Build, ValidSender;
    EndsOk(e.tx, c, peer.rx, d, out, joined);
    EndsOk(peer.tx, d, e.rx, c, inward, joined);
    var after := Build(e, c, frame).0;
    TagsCut(out, peer.rx.incoming, e.tx, after.tx, joined);
    if joined {
      BuildOk(e, c, frame, peer, d, out.heard, inward.heard);
    } else {
      BuildAlone(e, c, frame, out.log[out.start..], out.cells);
    }
  }

  // ---------------------------------------------------------------------
  // Receiving
  // ---------------------------------------------------------------------

  /** Between joined ends no stream frame is rejected, and both directions stay in order. */
  lemma ProcessMoves(e: Endpoint, c: Config, f: Frame, peer: Endpoint, d: Config, inward: Route, out: Route)
    requires RouteOk(peer.tx, d, e.rx, c, inward, true) && RouteOk(e.tx, c, peer.rx, d, out, true)
    requires AckOk(f.payload, peer.rx, out.cells) && DataOk(f, inward.cells, e.rx)
    ensures Process(e, c, f).1 == Ok
    ensures var after := Process(e, c, f).0;
            && Grows(e.rx, after.rx)
            && RouteOk(peer.tx, d, after.rx, c, Handing(inward, [], More(e.rx, after.rx, [])), true)
            && RouteOk(after.tx, c, peer.rx, d, out, true)
  {
    hide ReceiverOk, SenderOk, FlowOk, TagsOk, AckOk, DataOk, Process, Handing, More, Grows;
    ProcessOk(e, c, f, peer, d, inward.heard, out.heard);
    var after := Process(e, c, f).0;
    HandedIsOut(e.rx, after.rx, inward.heard, c);
    ReceiverMoves(peer.tx, d, e.rx, c, inward, true, after.rx, []);
  }

  // ---------------------------------------------------------------------
  // Restarts
  // ---------------------------------------------------------------------

  function ResetTx(tx: Sender): Sender {
    tx.(ring := EmptyTxRing(), recordOffset := 0, next := 0, remoteBase := 0)
  }

  function ResetRx(rx: Receiver): Receiver {
    rx.(ring := EmptyRxRing(), parser := START_PARSER, base := 0)
  }

  /** Where the unsent packets begin in the log. */
  function Unsent(r: Route, tx: Sender): nat {
    if |tx.outgoing| <= |r.log| then |r.log| - |tx.outgoing| else 0
  }

  lemma UnsentTail(tx: Sender, c: Config, r: Route)
    requires SendingOk(tx, c, r)
    ensures r.start <= Unsent(r, tx) && tx.outgoing == r.log[Unsent(r, tx)..]
    ensures AcceptedOk(tx.outgoing, c.maxPacket)
  {
    var accepted := r.log[r.start..];
    var popped := |accepted| - |tx.outgoing|;
    assert accepted[popped..] == r.log[r.start + popped..];
    forall p | p in tx.outgoing ensures Sendable(p, c.maxPacket) {
      var i :| 0 <= i < |tx.outgoing| && tx.outgoing[i] == p;
      assert p == accepted[popped + i] && accepted[popped + i] in accepted;
    }
  }

  lemma ResetSender(tx: Sender, c: Config)
    requires AcceptedOk(tx.outgoing, c.maxPacket)
    ensures SenderOk(ResetTx(tx), tx.outgoing, [], c)
  {
    assert tx.outgoing[0..] == tx.outgoing;
  }

  lemma ResetReceiver(rx: Receiver, accepted: seq<Packet>, d: Config)
    requires AcceptedOk(accepted, d.maxPacket) && |rx.incoming| <= d.capacity
    ensures ReceiverOk(ResetRx(rx), accepted, [], 0, d)
    ensures Flatten([]) == [] && [] <= Flatten(Records(accepted))
  {
  }

  function SenderReset(r: Route, tx: Sender): Route {
    r.(start := Unsent(r, tx), cells := [])
  }

  function ReceiverReset(r: Route): Route {
    r.(heardFrom := Mark(r), heard := NOTHING)
  }

  lemma SenderResets(tx: Sender, c: Config, rx: Receiver, d: Config, r: Route)
    requires RouteOk(tx, c, rx, d, r, false)
    ensures RouteOk(ResetTx(tx), c, rx, d, SenderReset(r, tx), false)
  {
    hide ReceiverOk, SenderOk;
    UnsentTail(tx, c, r);
    ResetSender(tx, c);
  }

  lemma TagsForgotten(r: Route, incoming: seq<Packet>)
    requires TagsOk(r, incoming)
    ensures TagsOk(ReceiverReset(r), incoming)
  {
  }

  lemma ReceiverBounds(rx: Receiver, d: Config, r: Route)
    requires ReceivingOk(rx, d, r)
    ensures |rx.incoming| <= d.capacity && r.heard.done <= |r.heard.accepted|
  {
  }

  lemma ReceiverResets(tx: Sender, c: Config, rx: Receiver, d: Config, r: Route)
    requires RouteOk(tx, c, rx, d, r, false)
    ensures RouteOk(tx, c, ResetRx(rx), d, ReceiverReset(r), false)
  {
    hide ReceiverOk, SenderOk, TagsOk;
    EndsOk(tx, c, rx, d, r, false);
    TagsForgotten(r, rx.incoming);
    ReceiverBounds(rx, d, r);
    ResetReceiver(rx, [], d);
  }

  /** Both ends start a generation with the packets the sender still has queued. */
  function Join(r: Route, tx: Sender): Route {
    r.(start := Unsent(r, tx), cells := [], heardFrom := Unsent(r, tx), heard := Flow(r.log[Unsent(r, tx)..], [], 0))
  }

  lemma TagsJoined(r: Route, incoming: seq<Packet>, tx: Sender)
    requires TagsOk(r, incoming) && Mark(r) <= Unsent(r, tx)
    ensures TagsOk(Join(r, tx), incoming)
  {
  }

  lemma Joins(tx: Sender, c: Config, rx: Receiver, d: Config, r: Route)
    requires RouteOk(tx, c, rx, d, r, false) && c.maxPacket == d.maxPacket
    ensures RouteOk(ResetTx(tx), c, ResetRx(rx), d, Join(r, tx), true)
  {
    hide ReceiverOk, SenderOk, TagsOk;
    EndsOk(tx, c, rx, d, r, false);
    UnsentTail(tx, c, r);
    TagsJoined(r, rx.incoming, tx);
    ReceiverBounds(rx, d, r);
    ResetSender(tx, d);
    ResetReceiver(rx, tx.outgoing, d);
    assert tx.outgoing == r.log[Unsent(r, tx)..];
  }

  function SenderCrash(r: Route): Route {
    r.(start := |r.log|, cells := [])
  }

  function ReceiverCrash(r: Route): Route {
    r.(heardFrom := Mark(r), heard := NOTHING, tags := if |r.dequeued| <= |r.tags| then r.tags[..|r.dequeued|] else r.tags)
  }

  /** A new sender starts with nothing; what its predecessor had queued is lost. */
  lemma SenderCrashes(tx: Sender, c: Config, rx: Receiver, d: Config, r: Route, joined: bool, random: bv32, c': Config)
    requires RouteOk(tx, c, rx, d, r, joined)
    ensures RouteOk(Fresh(random).tx, c', rx, d, SenderCrash(r), false)
  {
    hide ReceiverOk, SenderOk, FlowOk, TagsOk, ReceivingOk;
    EndsOk(tx, c, rx, d, r, joined);
    HeardBound(rx, d, r);
    TagsAnyStart(r, rx.incoming);
    var tx' := Fresh(random).tx;
    assert tx' == ResetTx(tx') && r.log[|r.log|..] == [];
    ResetSender(tx', c');
    assert ReceivingOk(rx, d, SenderCrash(r)) by { ReceivingAnyStart(rx, d, r); }
  }

  lemma HeardBound(rx: Receiver, d: Config, r: Route)
    requires ReceivingOk(rx, d, r)
    ensures r.heardFrom + |r.heard.accepted| <= |r.log|
  {
  }

  /** The receiver's side does not depend on where the sender's generation starts. */
  lemma TagsAnyStart(r: Route, incoming: seq<Packet>)
    requires TagsOk(r, incoming)
    ensures TagsOk(SenderCrash(r), incoming)
  {
  }

  lemma ReceivingAnyStart(rx: Receiver, d: Config, r: Route)
    requires ReceivingOk(rx, d, r)
    ensures ReceivingOk(rx, d, SenderCrash(r))
  {
    hide ReceiverOk;
  }

  lemma {:induction false} FlattenGrows(chunks: Chunks, i: nat, j: nat)
    requires i <= j <= |chunks|
    ensures |Flatten(chunks[..i])| <= |Flatten(chunks[..j])|
    decreases j
  {
    if i < j {
      FlattenGrows(chunks, i, j - 1);
      FlattenNext(chunks, j - 1);
    }
  }

  lemma HeardIsCut(rx: Receiver, cells: Chunks)
    requires RxRingOk(rx, cells) && rx.base <= |cells|
    ensures |Flatten(cells[..rx.base])| + FrontOffset(rx) <= |Flatten(cells)|
  {
    FlattenGrows(cells, rx.base, |cells|);
    assert cells[..|cells|] == cells;
    if Ready(rx) {
      ChunkInWhole(cells, rx.base);
    }
  }

  /** A packet the receiver was handed has left the sender's queue. */
  lemma HandedIsSent(tx: Sender, rx: Receiver, flow: Flow, d: Config)
    requires FlowOk(tx, rx, flow, d)
    ensures flow.done + |tx.outgoing| <= |flow.accepted|
  {
    hide TxRingOk, LinkOk;
    HeardIsCut(rx, flow.cells);
    var records, popped := Records(flow.accepted), |flow.accepted| - |tx.outgoing|;
    if flow.done > popped {
      FlattenGrows(records, popped + 1, flow.done);
      FlattenNext(records, popped);
    }
  }

  lemma TagsCrashed(r: Route, incoming: seq<Packet>)
    requires TagsOk(r, incoming)
    ensures TagsOk(ReceiverCrash(r), [])
  {
    assert (r.dequeued + incoming)[..|r.dequeued|] == r.dequeued + [];
  }

  /** A new receiver starts with nothing; what its predecessor had not handed out is lost. */
  lemma ReceiverCrashes(tx: Sender, c: Config, rx: Receiver, d: Config, r: Route, joined: bool, random: bv32, d': Config)
    requires RouteOk(tx, c, rx, d, r, joined) && ValidConfig(d')
    ensures RouteOk(tx, c, Fresh(random).rx, d', ReceiverCrash(r), false)
  {
    hide ReceiverOk, SenderOk, FlowOk, TagsOk;
    EndsOk(tx, c, rx, d, r, joined);
    TagsCrashed(r, rx.incoming);
    var rx' := Fresh(random).rx;
    assert rx' == ResetRx(rx');
    ResetReceiver(rx', [], d');
    if joined {
      HandedIsSent(tx, rx, r.heard, d);
    }
  }

  lemma NewRouteOk(c: Config, d: Config, random: bv32, other: bv32)
    requires ValidConfig(d)
    ensures RouteOk(Fresh(random).tx, c, Fresh(other).rx, d, NewRoute(), false)
  {
    var tx, rx := Fresh(random).tx, Fresh(other).rx;
    assert tx == ResetTx(tx) && rx == ResetRx(rx);
    ResetSender(tx, c);
    ResetReceiver(rx, [], d);
  }

  // ---------------------------------------------------------------------
  // What the tags say
  // ---------------------------------------------------------------------

  /** Every packet of `some` comes from its own place in `all`, later ones from later places. */
  ghost predicate Subsequence(some: seq<Packet>, all: seq<Packet>) {
    exists tags: seq<nat> :: Located(tags, some, all) && Increasing(tags)
  }

  lemma TagsMean(r: Route, incoming: seq<Packet>)
    requires TagsOk(r, incoming)
    ensures Subsequence(r.dequeued + incoming, r.log) && Subsequence(r.dequeued, r.log)
  {
    var tags := r.tags[..|r.dequeued|];
    assert Located(tags, r.dequeued, r.log) && Increasing(tags);
  }
}
