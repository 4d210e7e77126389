/**
 Two packet endpoints and a channel that loses, duplicates and reorders frames,
 within one generation: whatever happens, packets come out whole, once and in
 the order they went in.
 */
module TransportRuns {
  import opened Common
  import opened PacketTransport
  import opened ByteStream
  import opened TransportInvariant
  import opened TransportSteps

  /** One end with the history of what it did; `sent` is every frame it ever built. */
  datatype End = End(
    endpoint: Endpoint,
    config: Config,
    accepted: seq<Packet>,
    cells: Chunks,
    dequeued: seq<Packet>,
    sent: seq<Frame>)

  datatype World = World(left: End, right: End)

  /**
   A deliver event takes any frame ever built by the other end, so a frame may
   arrive never, late, twice, or after younger ones.
   */
  datatype Event =
    | EnqueueAt(atLeft: bool, packet: Packet)
    | DequeueAt(atLeft: bool, room: nat)
    | BuildAt(atLeft: bool, frame: nat)
    | DeliverTo(atLeft: bool, index: nat)

  function Swap(w: World): World { World(w.right, w.left) }

  function EnqueueLeft(w: World, packet: Packet): World {
    var (after, status) := Enqueue(w.left.endpoint, w.left.config, packet);
    w.(left := w.left.(endpoint := after,
                       accepted := w.left.accepted + if status == Ok then [packet] else []))
  }

  function DequeueLeft(w: World, room: nat): World {
    var r := Dequeue(w.left.endpoint, w.left.config, room);
    w.(left := w.left.(endpoint := r.0, dequeued := w.left.dequeued + Out(r)))
  }

  /** The guard holds in every reachable world; see InvariantHolds. */
  function BuildLeft(w: World, frame: nat): World {
    if !ValidSender(w.left.endpoint.tx) then w
    else
      var (after, f) := Build(w.left.endpoint, w.left.config, frame);
      var flow := CellsAfter(Flow(w.left.accepted, w.left.cells, 0), w.left.endpoint.tx, after.tx);
      w.(left := w.left.(endpoint := after, cells := flow.cells, sent := w.left.sent + [f]))
  }

  function DeliverLeft(w: World, index: nat): World {
    if index >= |w.right.sent| then w
    else w.(left := w.left.(endpoint := Process(w.left.endpoint, w.left.config, w.right.sent[index]).0))
  }

  function StepLeft(w: World, event: Event): World {
    match event
    case EnqueueAt(_, packet) => EnqueueLeft(w, packet)
    case DequeueAt(_, room) => DequeueLeft(w, room)
    case BuildAt(_, frame) => BuildLeft(w, frame)
    case DeliverTo(_, index) => DeliverLeft(w, index)
  }

  function Step(w: World, event: Event): World {
    if event.atLeft then StepLeft(w, event) else Swap(StepLeft(Swap(w), event))
  }

  function Run(w: World, events: seq<Event>): World {
    if events == [] then w else Step(Run(w, events[..|events| - 1]), events[|events| - 1])
  }

  function Start(c: Config, d: Config, leftRandom: bv32, rightRandom: bv32): World {
    World(End(Fresh(leftRandom), c, [], [], [], []), End(Fresh(rightRandom), d, [], [], [], []))
  }

  // ---------------------------------------------------------------------
  // The invariant
  // ---------------------------------------------------------------------

  /** Everything that came out of the parser at this end. */
  function Delivered(end: End): seq<Packet> {
    end.dequeued + end.endpoint.rx.incoming
  }

  function FlowFrom(from: End, to: End): Flow {
    Flow(from.accepted, from.cells, |Delivered(to)|)
  }

  /** One direction: the endpoints agree, the delivered packets are a prefix, the frames on the way are true. */
  ghost predicate WayOk(from: End, to: End) {
    var flow := FlowFrom(from, to);
    && FlowOk(from.endpoint.tx, to.endpoint.rx, flow, to.config)
    && Delivered(to) <= from.accepted
  }

  ghost predicate FramesOk(from: End, to: End) {
    forall f <- from.sent :: AckOk(f.payload, from.endpoint.rx, to.cells) && DataOk(f, from.cells, to.endpoint.rx)
  }

  ghost predicate Invariant(w: World) {
    && w.left.config.maxPacket == w.right.config.maxPacket
    && WayOk(w.left, w.right) && WayOk(w.right, w.left)
    && FramesOk(w.left, w.right) && FramesOk(w.right, w.left)
  }

  lemma StartOk(c: Config, d: Config, leftRandom: bv32, rightRandom: bv32)
    requires c.maxPacket == d.maxPacket
    ensures Invariant(Start(c, d, leftRandom, rightRandom))
  {
    var w := Start(c, d, leftRandom, rightRandom);
    FreshFlow(w.left.endpoint, w.right.endpoint, d);
    FreshFlow(w.right.endpoint, w.left.endpoint, c);
  }

  lemma FreshFlow(e: Endpoint, peer: Endpoint, c: Config)
    requires e.tx == Fresh(e.tx.random).tx && peer.rx == Fresh(0).rx
    ensures FlowOk(e.tx, peer.rx, Flow([], [], 0), c)
  {
  }

  lemma FramesLater(from: End, to: End, from': End, to': End)
    requires FramesOk(from, to) && from'.sent == from.sent
    requires Grows(from.endpoint.rx, from'.endpoint.rx) && Grows(to.endpoint.rx, to'.endpoint.rx)
    requires from.cells <= from'.cells && to.cells <= to'.cells
    ensures FramesOk(from', to')
  {
    forall f | f in from'.sent
      ensures AckOk(f.payload, from'.endpoint.rx, to'.cells) && DataOk(f, from'.cells, to'.endpoint.rx)
    {
      AckOkLater(f.payload, from.endpoint.rx, to.cells, from'.endpoint.rx, to'.cells);
      DataOkLater(f, from.cells, to.endpoint.rx, from'.cells, to'.endpoint.rx);
    }
  }

  lemma GrowsSelf(rx: Receiver)
    ensures Grows(rx, rx)
  {
  }

  lemma EnqueueKeeps(w: World, packet: Packet)
    requires Invariant(w)
    ensures Invariant(EnqueueLeft(w, packet))
  {
    hide FlowOk, AckOk, DataOk;
    var w' := EnqueueLeft(w, packet);
    GrowsSelf(w.left.endpoint.rx);
    GrowsSelf(w.right.endpoint.rx);
    FramesLater(w.left, w.right, w'.left, w'.right);
    FramesLater(w.right, w.left, w'.right, w'.left);
    assert w.left.accepted + [] == w.left.accepted;
    if Enqueue(w.left.endpoint, w.left.config, packet).1 == Ok {
      EnqueueOk(w.left.endpoint, w.left.config, packet, w.right.endpoint.rx, w.right.config, FlowFrom(w.left, w.right));
    }
  }

  /** Packets that come out of the parser continue the delivered prefix. */
  lemma PrefixGrows(accepted: seq<Packet>, dequeued: seq<Packet>, before: seq<Packet>, out: seq<Packet>, after: seq<Packet>)
    requires dequeued + before <= accepted
    requires |before| <= |out + after| && |dequeued + (out + after)| <= |accepted|
    requires out + after == before + accepted[|dequeued + before|..|dequeued| + |out + after|]
    ensures dequeued + out + after <= accepted
  {
    var end := |dequeued| + |out + after|;
    assert accepted[..|dequeued + before|] + accepted[|dequeued + before|..end] == accepted[..end];
    assert dequeued + before + accepted[|dequeued + before|..end] == dequeued + (out + after);
    assert dequeued + (out + after) == dequeued + out + after;
  }

  lemma DequeueKeeps(w: World, room: nat)
    requires Invariant(w)
    ensures Invariant(DequeueLeft(w, room))
  {
    hide FlowOk, AckOk, DataOk, Dequeue, ReceiverOk, Grows;
    var w' := DequeueLeft(w, room);
    var e := w.left.endpoint;
    var r := Dequeue(e, w.left.config, room);
    var flow := FlowFrom(w.right, w.left);
    DequeueOk(e, w.left.config, room, w.right.endpoint.tx, flow);
    OutLater(w.right.endpoint.tx, e.rx, r.0.rx, Out(r), flow, w.left.config);
    PrefixGrows(w.right.accepted, w.left.dequeued, e.rx.incoming, Out(r), r.0.rx.incoming);
    GrowsSelf(w.right.endpoint.rx);
    FramesLater(w.left, w.right, w'.left, w'.right);
    FramesLater(w.right, w.left, w'.right, w'.left);
  }

  lemma BuildKeeps(w: World, frame: nat)
    requires Invariant(w)
    ensures ValidSender(w.left.endpoint.tx) && Invariant(BuildLeft(w, frame))
  {
    hide FlowOk, AckOk, DataOk, Build, Grows, ReceiverOk, ValidSender;
    var e := w.left.endpoint;
    var out := FlowFrom(w.left, w.right);
    var inward := FlowFrom(w.right, w.left);
    FlowParts(w.right.endpoint.tx, e.rx, inward, w.left.config);
    BuildOk(e, w.left.config, frame, w.right.endpoint, w.right.config, out, inward);
    var w' := BuildLeft(w, frame);
    GrowsSelf(e.rx);
    GrowsSelf(w.right.endpoint.rx);
    var before := w'.left.(sent := w.left.sent);
    FramesLater(w.left, w.right, before, w'.right);
    FramesLater(w.right, w.left, w'.right, before);
  }

  lemma FlowParts(tx: Sender, rx: Receiver, flow: Flow, c: Config)
    requires FlowOk(tx, rx, flow, c)
    ensures ReceiverOk(rx, flow.accepted, flow.cells, flow.done, c)
  {
  }

  /** Delivering any frame of the past succeeds and keeps the invariant. */
  lemma DeliverKeeps(w: World, index: nat)
    requires Invariant(w)
    ensures index < |w.right.sent| ==> Process(w.left.endpoint, w.left.config, w.right.sent[index]).1 == Ok
    ensures Invariant(DeliverLeft(w, index))
  {
    hide FlowOk, AckOk, DataOk, Process, Grows, ReceiverOk;
    if index < |w.right.sent| {
      var e := w.left.endpoint;
      var f := w.right.sent[index];
      var inward := FlowFrom(w.right, w.left);
      ProcessOk(e, w.left.config, f, w.right.endpoint, w.right.config, inward, FlowFrom(w.left, w.right));
      var rx := Process(e, w.left.config, f).0.rx;
      var w' := DeliverLeft(w, index);
      PrefixGrows(w.right.accepted, w.left.dequeued, e.rx.incoming, [], rx.incoming);
      GrowsSelf(w.right.endpoint.rx);
      FramesLater(w.left, w.right, w'.left, w'.right);
      FramesLater(w.right, w.left, w'.right, w'.left);
    }
  }

  lemma StepLeftKeeps(w: World, event: Event)
    requires Invariant(w)
    ensures Invariant(StepLeft(w, event))
  {
    match event
    case EnqueueAt(_, packet) => EnqueueKeeps(w, packet);
    case DequeueAt(_, room) => DequeueKeeps(w, room);
    case BuildAt(_, frame) => BuildKeeps(w, frame);
    case DeliverTo(_, index) => DeliverKeeps(w, index);
  }

  lemma StepKeeps(w: World, event: Event)
    requires Invariant(w)
    ensures Invariant(Step(w, event))
  {
    hide WayOk, FramesOk, StepLeft;
    if event.atLeft {
      StepLeftKeeps(w, event);
    } else {
      StepLeftKeeps(Swap(w), event);
    }
  }

  lemma {:induction false} RunKeeps(w: World, events: seq<Event>)
    requires Invariant(w)
    ensures Invariant(Run(w, events))
  {
    hide Invariant, Step;
    if events != [] {
      RunKeeps(w, events[..|events| - 1]);
      StepKeeps(Run(w, events[..|events| - 1]), events[|events| - 1]);
    }
  }

  // ---------------------------------------------------------------------
  // The theorems
  // ---------------------------------------------------------------------

  /** A world some run from two fresh endpoints reaches. */
  ghost predicate Reachable(w: World) {
    exists c: Config, d: Config, r: bv32, q: bv32, events: seq<Event> ::
      ValidConfig(c) && ValidConfig(d) && c.maxPacket == d.maxPacket && w == Run(Start(c, d, r, q), events)
  }

  lemma InvariantHolds(w: World)
    requires Reachable(w)
    ensures Invariant(w)
  {
    hide Run;
    var c: Config, d: Config, r: bv32, q: bv32, events: seq<Event> :|
      ValidConfig(c) && ValidConfig(d) && c.maxPacket == d.maxPacket && w == Run(Start(c, d, r, q), events);
    StartOk(c, d, r, q);
    RunKeeps(Start(c, d, r, q), events);
  }

  /** In every run the packets dequeued at either end are a prefix of the packets accepted at the other. */
  lemma DequeuedIsPrefix(w: World)
    requires Reachable(w)
    ensures w.left.dequeued <= w.right.accepted
    ensures w.right.dequeued <= w.left.accepted
  {
    hide Reachable, FlowOk, FramesOk;
    InvariantHolds(w);
  }

  /** In every run no frame of the peer, however late or repeated, is rejected. */
  lemma NoFrameIsRejected(w: World, index: nat)
    requires Reachable(w)
    ensures index < |w.right.sent| ==> Process(w.left.endpoint, w.left.config, w.right.sent[index]).1 == Ok
    ensures index < |w.left.sent| ==> Process(w.right.endpoint, w.right.config, w.left.sent[index]).1 == Ok
  {
    hide Reachable, WayOk, FramesOk, Process;
    InvariantHolds(w);
    DeliverKeeps(w, index);
    DeliverKeeps(Swap(w), index);
  }

  /** In every run dequeue fails only for its argument, an empty queue or a short buffer. */
  lemma DequeueNeverBreaks(w: World, room: nat)
    requires Reachable(w)
    ensures Dequeue(w.left.endpoint, w.left.config, room).1 != ErrHeader
    ensures Dequeue(w.right.endpoint, w.right.config, room).1 != ErrHeader
  {
    hide Reachable, FlowOk, FramesOk, Dequeue;
    InvariantHolds(w);
    DequeueOk(w.left.endpoint, w.left.config, room, w.right.endpoint.tx, FlowFrom(w.right, w.left));
    DequeueOk(w.right.endpoint, w.right.config, room, w.left.endpoint.tx, FlowFrom(w.left, w.right));
  }

  /**
   In every run: a cell the sender no longer holds was received; the cells it
   holds lie in [remoteBase, next), at most 16 of them; and a new cell always
   finds its slot free.
   */
  lemma NothingIsLost(w: World, s: nat)
    requires Reachable(w)
    ensures s < w.left.endpoint.tx.next ==> InTransmit(w.left.endpoint.tx, s) || Received(w.right.endpoint.rx, s)
    ensures InTransmit(w.left.endpoint.tx, s) ==> w.left.endpoint.tx.remoteBase <= s < w.left.endpoint.tx.next
    ensures w.left.endpoint.tx.remoteBase <= w.right.endpoint.rx.base <= w.left.endpoint.tx.next
    ensures w.left.endpoint.tx.next <= w.left.endpoint.tx.remoteBase + SLOTS
    ensures w.left.endpoint.tx.next < w.left.endpoint.tx.remoteBase + SLOTS ==>
              !w.left.endpoint.tx.ring[w.left.endpoint.tx.next % SLOTS].occupied
  {
    hide Reachable, FramesOk, FlowOk;
    InvariantHolds(w);
    FlowMeans(w.left.endpoint.tx, w.right.endpoint.rx, FlowFrom(w.left, w.right), w.right.config, s);
  }

  lemma FlowMeans(tx: Sender, rx: Receiver, flow: Flow, c: Config, s: nat)
    requires FlowOk(tx, rx, flow, c)
    ensures s < tx.next ==> InTransmit(tx, s) || Received(rx, s)
    ensures InTransmit(tx, s) ==> tx.remoteBase <= s < tx.next
    ensures tx.remoteBase <= rx.base <= tx.next <= tx.remoteBase + SLOTS
    ensures tx.next < tx.remoteBase + SLOTS ==> !tx.ring[tx.next % SLOTS].occupied
  {
    hide ReceiverOk, QueueOk, AcceptedOk, CellsOk;
  }
}
