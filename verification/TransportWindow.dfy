/** A sender never holds more cells than its window, and cuts a new one whenever it may. */
module TransportWindow {
  import opened Bytes
  import opened Common
  import opened PacketTransport
  import opened TransportSteps
  import opened TransportResend
  import opened TransportRuns

  function One(cell: TxCell): nat { if cell.occupied then 1 else 0 }

  lemma {:induction false} InFlightUpdate(cells: seq<TxCell>, slot: nat, cell: TxCell)
    requires slot < |cells|
    ensures InFlight(cells[slot := cell]) + One(cells[slot]) == InFlight(cells) + One(cell)
  {
    var n := |cells| - 1;
    if slot < n {
      assert cells[slot := cell][..n] == cells[..n][slot := cell];
      InFlightUpdate(cells[..n], slot, cell);
    } else {
      assert cells[slot := cell][..n] == cells[..n];
    }
  }

  lemma {:induction false} InFlightFewer(cells: seq<TxCell>, after: seq<TxCell>)
    requires |after| == |cells| && forall i | 0 <= i < |cells| :: after[i].occupied ==> cells[i].occupied
    ensures InFlight(after) <= InFlight(cells)
  {
    if cells != [] {
      InFlightFewer(cells[..|cells| - 1], after[..|cells| - 1]);
    }
  }

  predicate WindowKept(end: End) { InFlight(end.endpoint.tx.ring) <= end.config.window }

  lemma SendKeepsCount(e: Endpoint, header: seq<byte>, slot: nat, frame: nat)
    requires slot < SLOTS
    ensures InFlight(SendSlot(e, header, slot, frame).0.tx.ring) == InFlight(e.tx.ring)
  {
    InFlightUpdate(e.tx.ring, slot, e.tx.ring[slot].(lastSent := frame));
  }

  /** A frame adds a cell only while fewer than the window are held. */
  lemma BuildCounts(e: Endpoint, c: Config, frame: nat)
    requires ValidSender(e.tx)
    ensures var (after, f) := Build(e, c, frame);
            var before := InFlight(e.tx.ring);
            InFlight(after.tx.ring) == if after.tx.next > e.tx.next then before + 1 else before
    ensures Build(e, c, frame).0.tx.next > e.tx.next ==> InFlight(e.tx.ring) < c.window
  {
    hide SelectRetry, Serialize, InFlight, SendSlot, AckHeader;
    var header := AckHeader(e.rx.base, ReceiveMask(e.rx));
    var (retry, random) := SelectRetry(e.tx.ring, e.tx.random, c.retransmitAfter, frame);
    var tx := e.tx.(random := random);
    if retry.Some? {
      SendKeepsCount(e.(tx := tx), header, retry.value, frame);
      SendKeepsNext(e.(tx := tx), header, retry.value, frame);
    } else if MayCreate(tx, c) {
      var made := CreateCell(tx, c);
      SendKeepsCount(e.(tx := made), header, tx.next % SLOTS, frame);
      SendKeepsNext(e.(tx := made), header, tx.next % SLOTS, frame);
      InFlightUpdate(tx.ring, tx.next % SLOTS, made.ring[tx.next % SLOTS]);
    }
  }

  lemma SendKeepsNext(e: Endpoint, header: seq<byte>, slot: nat, frame: nat)
    requires slot < SLOTS
    ensures SendSlot(e, header, slot, frame).0.tx.next == e.tx.next
  {
  }

  lemma AckCounts(tx: Sender, payload: seq<byte>)
    requires SlotsOk(tx.ring)
    ensures InFlight(ApplyAck(tx, payload).0.ring) <= InFlight(tx.ring)
  {
    hide AckMask, AckBelow, BitsOf, InFlight;
    var after := ApplyAck(tx, payload);
    if after.1 == Ok {
      forall i | 0 <= i < SLOTS
        ensures after.0.ring[i].occupied ==> tx.ring[i].occupied
      {
        AckResult(tx.ring, ReadU32(payload, 2), BitsOf(ReadU16(payload, 6)), tx.next, i);
      }
    }
    InFlightFewer(tx.ring, after.0.ring);
  }

  lemma StepLeftWindow(w: World, event: Event)
    requires Invariant(w) && WindowKept(w.left)
    ensures WindowKept(StepLeft(w, event).left)
  {
    hide FlowOk, FramesOk, Build, ApplyAck, Accept, Drain, InFlight, ValidSender;
    match event
    case EnqueueAt(_, packet) =>
    case DequeueAt(_, room) =>
    case BuildAt(_, frame) =>
      if ValidSender(w.left.endpoint.tx) { BuildCounts(w.left.endpoint, w.left.config, frame); }
    case DeliverTo(_, index) =>
      if index < |w.right.sent| {
        RingSlots(w.left.endpoint.tx, w.right.endpoint.rx, FlowFrom(w.left, w.right), w.right.config);
        AckCounts(w.left.endpoint.tx, w.right.sent[index].payload);
      }
  }

  lemma {:induction false} RunWindow(w: World, events: seq<Event>)
    requires Invariant(w) && WindowKept(w.left) && WindowKept(w.right)
    ensures WindowKept(Run(w, events).left) && WindowKept(Run(w, events).right)
  {
    hide Invariant, StepLeft, WindowKept;
    if events != [] {
      var rest, event := events[..|events| - 1], events[|events| - 1];
      var before := Run(w, rest);
      RunWindow(w, rest);
      RunKeeps(w, rest);
      SwapKeeps(before);
      StepLeftWindow(before, event);
      StepLeftWindow(Swap(before), event);
      RightStays(before, event);
      RightStays(Swap(before), event);
    }
  }

  lemma {:induction false} NoneHeld(n: nat)
    ensures InFlight(seq(n, _ => EMPTY_TX)) == 0
  {
    if n > 0 {
      var cells := seq(n, _ => EMPTY_TX);
      assert cells[..n - 1] == seq(n - 1, _ => EMPTY_TX);
      NoneHeld(n - 1);
    }
  }

  /** In every run neither end ever holds more cells than its window. */
  lemma WindowHolds(w: World)
    requires Reachable(w)
    ensures InFlight(w.left.endpoint.tx.ring) <= w.left.config.window
    ensures InFlight(w.right.endpoint.tx.ring) <= w.right.config.window
  {
    hide Run, InFlight, Invariant;
    var c: Config, d: Config, r: bv32, q: bv32, events: seq<Event> :|
      ValidConfig(c) && ValidConfig(d) && c.maxPacket == d.maxPacket && w == Run(Start(c, d, r, q), events);
    StartOk(c, d, r, q);
    NoneHeld(SLOTS);
    RunWindow(Start(c, d, r, q), events);
  }

  /**
   In every run: a frame carries the next new sequence if and only if no cell is
   picked for repetition, a packet waits, fewer cells are held than the window,
   the sequence is inside the ring, and sequence numbers are left.
   */
  lemma NewCellExactly(w: World, frame: nat)
    requires Reachable(w)
    ensures ValidSender(w.left.endpoint.tx)
    ensures var tx, c := w.left.endpoint.tx, w.left.config;
            var (after, f) := Build(w.left.endpoint, c, frame);
            f.hasData && f.sequence == tx.next <==>
              && SelectRetry(tx.ring, tx.random, c.retransmitAfter, frame).0.None?
              && tx.outgoing != [] && InFlight(tx.ring) < c.window
              && tx.next < tx.remoteBase + SLOTS && tx.next < UINT32_MAX
  {
    hide Reachable, SelectRetry, Serialize, InFlight, AckHeader, ReceiveMask, FlowOk, FramesOk;
    InvariantHolds(w);
    BuildKeeps(w, frame);
    var tx := w.left.endpoint.tx;
    FlowMeans(tx, w.right.endpoint.rx, FlowFrom(w.left, w.right), w.right.config, tx.next);
    RingSlots(tx, w.right.endpoint.rx, FlowFrom(w.left, w.right), w.right.config);
    HeldIsOld(tx, w.right.endpoint.rx, FlowFrom(w.left, w.right), w.right.config);
  }

  lemma HeldIsOld(tx: Sender, rx: Receiver, flow: Flow, c: Config)
    requires FlowOk(tx, rx, flow, c)
    ensures forall i | 0 <= i < SLOTS && tx.ring[i].occupied :: tx.ring[i].sequence < tx.next
  {
  }
}
