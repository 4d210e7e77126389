/** What the calls of a packet endpoint answer, in every run and for frames the peer never built. */
module TransportCalls {
  import opened Bytes
  import opened Common
  import opened PacketTransport
  import opened ByteStream
  import opened TransportInvariant
  import opened TransportSteps
  import opened TransportRuns
  import TransportDelivery

  /** A packet is accepted exactly when it has a legal length and the queue has room; then it is the last that waits. */
  lemma EnqueueExact(e: Endpoint, c: Config, packet: Packet)
    ensures var (after, status) := Enqueue(e, c, packet);
            && (status == ErrArgument <==> |packet| == 0 || |packet| > c.maxPacket)
            && (status == Ok <==> 1 <= |packet| <= c.maxPacket && |e.tx.outgoing| != c.capacity)
            && (status == Ok || status == ErrArgument || status == ErrCapacity)
            && after.rx == e.rx && after.tx == e.tx.(outgoing := after.tx.outgoing)
            && after.tx.outgoing == e.tx.outgoing + if status == Ok then [packet] else []
  {
  }

  /**
   In every run a dequeue gives the packet that waits first exactly when there is
   one and it fits the buffer; otherwise it keeps everything and says why.
   */
  lemma DequeueExact(w: World, room: nat)
    requires Reachable(w)
    ensures var (e, c) := (w.left.endpoint, w.left.config);
            var (after, status, packet) := Dequeue(e, c, room);
            var waiting := e.rx.incoming;
            && (status == Ok <==> room > 0 && waiting != [] && |waiting[0]| <= room)
            && (status == ErrTimeout <==> room > 0 && waiting == [])
            && (status == ErrCapacity <==> room > 0 && waiting != [] && |waiting[0]| > room)
            && (status == ErrArgument <==> room == 0)
            && after.tx == e.tx
            && (status == Ok ==> packet == waiting[0] && waiting[1..] <= after.rx.incoming)
            && (status != Ok ==> after.rx.incoming == waiting)
  {
    hide Reachable, Invariant, Drain, Dequeue;
    TransportDelivery.ReachableIsGood(w);
    TransportDelivery.GoodParts(w);
    DequeueSettled(w, room);
  }

  lemma DequeueSettled(w: World, room: nat)
    requires TransportDelivery.Good(w)
    ensures var (e, c) := (w.left.endpoint, w.left.config);
            var (after, status, packet) := Dequeue(e, c, room);
            var waiting := e.rx.incoming;
            && (status == Ok <==> room > 0 && waiting != [] && |waiting[0]| <= room)
            && (status == ErrTimeout <==> room > 0 && waiting == [])
            && (status == ErrCapacity <==> room > 0 && waiting != [] && |waiting[0]| > room)
            && (status == ErrArgument <==> room == 0)
            && after.tx == e.tx
            && (status == Ok ==> packet == waiting[0] && waiting[1..] <= after.rx.incoming)
            && (status != Ok ==> after.rx.incoming == waiting)
  {
    hide FlowOk, FramesOk, Drain, ReceiverOk, Handed, Stopped;
    var e, c, flow := w.left.endpoint, w.left.config, FlowFrom(w.right, w.left);
    FlowParts(w.right.endpoint.tx, e.rx, flow, c);
    SentIsPrefix(w.right.endpoint.tx, e.rx, flow, c);
    DrainOk(e.rx, flow.accepted, flow.cells, flow.done, c);
    DrainAdds(e.rx, Drain(e.rx, c).0, flow, c);
    StoppedDrains(e.rx, c, flow);
    var before := Drain(e.rx, c).0;
    if room > 0 && before.incoming != [] && |before.incoming[0]| <= room {
      HandedStep(e.rx, before, flow.accepted, flow.cells, flow.done, c);
      PopOk(before, flow.accepted, flow.cells, flow.done, c);
      var popped := before.(incoming := before.incoming[1..]);
      DrainOk(popped, flow.accepted, flow.cells, flow.done, c);
      DrainAdds(popped, Drain(popped, c).0, flow, c);
    }
  }

  lemma DrainAdds(rx: Receiver, after: Receiver, flow: Flow, c: Config)
    requires Handed(rx, after, flow.accepted, flow.cells, flow.done, c)
    ensures rx.incoming <= after.incoming
  {
  }

  /** A receiver whose drain has stopped hands over nothing more by itself. */
  lemma StoppedDrains(rx: Receiver, c: Config, flow: Flow)
    requires Stopped(rx, c) && ReceiverOk(rx, flow.accepted, flow.cells, flow.done, c)
    requires Flatten(flow.cells) <= Flatten(Records(flow.accepted))
    ensures Drain(rx, c).0.incoming == rx.incoming
  {
    hide ReceiverOk, Drain, Handed, Flatten, Records;
    DrainOk(rx, flow.accepted, flow.cells, flow.done, c);
    DrainAdds(rx, Drain(rx, c).0, flow, c);
    DrainBound(rx, flow, c);
    if !Ready(rx) {
      DrainTurn(rx, c);
    }
  }

  lemma DrainBound(rx: Receiver, flow: Flow, c: Config)
    requires Handed(rx, Drain(rx, c).0, flow.accepted, flow.cells, flow.done, c)
    ensures |Drain(rx, c).0.incoming| <= c.capacity
  {
    hide Drain;
  }

  // ---------------------------------------------------------------------
  // Frames the peer never built
  // ---------------------------------------------------------------------

  /** The acknowledgement header is of this format and names no cell to come. */
  predicate HeaderReads(payload: seq<byte>, next: uint32) {
    && |payload| >= ACK_BYTES && payload[0] == ACK_VERSION && payload[1] == PACKET_MODE
    && ReadU32(payload, 2) <= next
  }

  /** The data part has a legal length, lies in the window, and meets no other cell in its slot. */
  predicate DataReads(f: Frame, rx: Receiver) {
    if !f.hasData then |f.payload| == ACK_BYTES
    else
      && ACK_BYTES < |f.payload| <= MAX_PAYLOAD && f.sequence < rx.base + SLOTS
      && (f.sequence >= rx.base && rx.ring[f.sequence % SLOTS].occupied ==> rx.ring[f.sequence % SLOTS].sequence == f.sequence)
  }

  /**
   Any frame whatever: it is refused exactly when its header or its data part is
   malformed or the drain after it fails.  A malformed header changes nothing, a
   malformed data part nothing but what the header acknowledged.
   */
  lemma RefusedExactly(e: Endpoint, c: Config, f: Frame)
    ensures var (after, status) := Process(e, c, f);
            && (status == Ok <==> HeaderReads(f.payload, e.tx.next) && DataReads(f, e.rx) && !DrainFails(e, c, f))
            && (!HeaderReads(f.payload, e.tx.next) ==> after == e)
            && (HeaderReads(f.payload, e.tx.next) && !DataReads(f, e.rx) ==> after == e.(tx := ApplyAck(e.tx, f.payload).0))
  {
    hide Drain, AckMask, AckBelow, BitsOf;
    if ApplyAck(e.tx, f.payload).1 == Ok && f.hasData && e.rx.base <= f.sequence < e.rx.base + SLOTS &&
       ACK_BYTES < |f.payload| <= MAX_PAYLOAD && !e.rx.ring[f.sequence % SLOTS].occupied {
      DrainStatus(Stored(e.rx, f), c);
    }
  }
}
