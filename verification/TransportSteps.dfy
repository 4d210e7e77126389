/** Each operation of an endpoint keeps the invariant of both directions it takes part in. */
module TransportSteps {
  import opened Bytes
  import opened Common
  import opened PacketTransport
  import opened ByteStream
  import opened TransportInvariant

  /** No cell is lost: every cell ever cut is still held by the sender or was received. */
  ghost predicate LinkOk(tx: Sender, rx: Receiver, cells: Chunks) {
    && tx.remoteBase <= rx.base <= |cells|
    && forall s: nat | s < |cells| :: InTransmit(tx, s) || Received(rx, s)
  }

  /** What one direction has done in this generation. */
  datatype Flow = Flow(accepted: seq<Packet>, cells: Chunks, done: nat)

  ghost predicate FlowOk(tx: Sender, rx: Receiver, flow: Flow, c: Config) {
    && SenderOk(tx, flow.accepted, flow.cells, c)
    && ReceiverOk(rx, flow.accepted, flow.cells, flow.done, c)
    && LinkOk(tx, rx, flow.cells)
  }

  lemma SentIsPrefix(tx: Sender, rx: Receiver, flow: Flow, c: Config)
    requires FlowOk(tx, rx, flow, c)
    ensures Flatten(flow.cells) <= Flatten(Records(flow.accepted))
  {
    SentPrefix(flow.accepted, |flow.accepted| - |tx.outgoing|, tx.recordOffset);
  }

  // ---------------------------------------------------------------------
  // Acknowledgements
  // ---------------------------------------------------------------------

  /** The acknowledgement header claims only what its sender has received. */
  ghost predicate AckOk(payload: seq<byte>, rx: Receiver, cells: Chunks) {
    && |payload| >= ACK_BYTES && payload[0] == ACK_VERSION && payload[1] == PACKET_MODE
    && ReadU32(payload, 2) <= rx.base
    && forall bit: nat | bit < SLOTS && BitsOf(ReadU16(payload, 6))[bit] ::
         ReadU32(payload, 2) + bit < |cells| && Received(rx, ReadU32(payload, 2) + bit)
  }

  lemma AckHeaderReads(base: uint32, mask: seq<bool>, rest: seq<byte>)
    requires |mask| == SLOTS
    ensures var payload := AckHeader(base, mask) + rest;
            && payload[0] == ACK_VERSION && payload[1] == PACKET_MODE
            && ReadU32(payload, 2) == base
            && MaskOf(mask) < 0x1_0000 && ReadU16(payload, 6) == MaskOf(mask)
            && payload[ACK_BYTES..] == rest
  {
    MaskFits(mask);
    var payload := AckHeader(base, mask) + rest;
    U32RoundTrip(base, [ACK_VERSION, PACKET_MODE], WriteU16(MaskOf(mask)) + rest);
    assert payload == [ACK_VERSION, PACKET_MODE] + WriteU32(base) + (WriteU16(MaskOf(mask)) + rest);
    U16RoundTrip(MaskOf(mask), [ACK_VERSION, PACKET_MODE] + WriteU32(base), rest);
    assert payload == [ACK_VERSION, PACKET_MODE] + WriteU32(base) + WriteU16(MaskOf(mask)) + rest;
  }

  lemma HeldInWindow(rx: Receiver, cells: Chunks, bit: nat)
    requires RxRingOk(rx, cells) && bit < SLOTS && Holds(rx.ring, After(rx.base, bit))
    ensures rx.base + bit < |cells| && (|cells| <= UINT32_MAX ==> After(rx.base, bit) == rx.base + bit)
  {
  }

  lemma AckHeaderOk(rx: Receiver, cells: Chunks, rest: seq<byte>)
    requires RxRingOk(rx, cells) && CellsOk(cells)
    ensures AckOk(AckHeader(rx.base, ReceiveMask(rx)) + rest, rx, cells)
  {
    var mask := ReceiveMask(rx);
    AckHeaderReads(rx.base, mask, rest);
    forall bit: nat | bit < SLOTS && BitsOf(MaskOf(mask))[bit]
      ensures rx.base + bit < |cells| && Received(rx, rx.base + bit)
    {
      MaskBits(mask, bit);
      HeldInWindow(rx, cells, bit);
    }
  }

  ghost predicate SlotsOk(ring: TxRing) {
    forall i | 0 <= i < SLOTS && ring[i].occupied :: ring[i].sequence % SLOTS == i
  }

  lemma AckCellResult(ring: TxRing, s: uint32, i: nat)
    requires SlotsOk(ring) && i < SLOTS
    ensures SlotsOk(AckCell(ring, s))
    ensures AckCell(ring, s)[i] == if ring[i].occupied && ring[i].sequence == s then EMPTY_TX else ring[i]
  {
  }

  lemma {:induction false} AckBelowResult(ring: TxRing, base: uint32, from: nat, i: nat)
    requires from <= SLOTS && SlotsOk(ring) && i < SLOTS
    ensures AckBelow(ring, base, from)[i] ==
            if i >= from && ring[i].occupied && ring[i].sequence < base then EMPTY_TX else ring[i]
    ensures SlotsOk(AckBelow(ring, base, from))
    decreases SLOTS - from
  {
    if from < SLOTS {
      if ring[from].occupied && ring[from].sequence < base {
        AckCellResult(ring, ring[from].sequence, i);
        AckBelowResult(AckCell(ring, ring[from].sequence), base, from + 1, i);
      } else {
        AckBelowResult(ring, base, from + 1, i);
      }
    }
  }

  /** The mask, from bit `from` on, acknowledges sequence number s. */
  predicate Masked(base: uint32, mask: seq<bool>, next: uint32, from: nat, s: uint32)
    requires |mask| == SLOTS
  {
    base + from <= s < base + SLOTS && s < next && mask[s - base]
  }

  lemma {:induction false} AckMaskResult(ring: TxRing, base: uint32, mask: seq<bool>, next: uint32, from: nat, i: nat)
    requires from <= SLOTS == |mask| && SlotsOk(ring) && i < SLOTS
    ensures AckMask(ring, base, mask, next, from)[i] ==
            if ring[i].occupied && Masked(base, mask, next, from, ring[i].sequence) then EMPTY_TX else ring[i]
    decreases SLOTS - from
  {
    hide AckCell, SlotsOk;
    if from < SLOTS {
      if base + from < next && mask[from] {
        AckCellResult(ring, base + from, i);
        AckMaskResult(AckCell(ring, base + from), base, mask, next, from + 1, i);
      } else {
        AckMaskResult(ring, base, mask, next, from + 1, i);
      }
    }
  }

  /** An acknowledgement empties exactly the slots of the cells it names. */
  lemma AckResult(ring: TxRing, base: uint32, mask: seq<bool>, next: uint32, i: nat)
    requires SlotsOk(ring) && |mask| == SLOTS && i < SLOTS
    ensures AckMask(AckBelow(ring, base, 0), base, mask, next, 0)[i] ==
            if ring[i].occupied && (ring[i].sequence < base || Masked(base, mask, next, 0, ring[i].sequence))
            then EMPTY_TX else ring[i]
  {
    AckBelowResult(ring, base, 0, i);
    AckMaskResult(AckBelow(ring, base, 0), base, mask, next, 0, i);
  }

  /** Emptying only slots of received cells keeps the direction in order. */
  lemma FreedOk(tx: Sender, tx': Sender, rx: Receiver, flow: Flow, c: Config)
    requires FlowOk(tx, rx, flow, c)
    requires tx' == tx.(ring := tx'.ring, remoteBase := tx'.remoteBase)
    requires tx.remoteBase <= tx'.remoteBase <= rx.base
    requires forall i | 0 <= i < SLOTS ::
               if tx.ring[i].occupied && (tx.ring[i].sequence < tx'.remoteBase || tx'.ring[i] != tx.ring[i])
               then tx'.ring[i] == EMPTY_TX && Received(rx, tx.ring[i].sequence)
               else tx'.ring[i] == tx.ring[i]
    ensures FlowOk(tx', rx, flow, c)
  {
    hide ReceiverOk, QueueOk, CellsOk, AcceptedOk;
    assert rx.base <= |flow.cells|;
  }

  /** An acknowledgement of received cells is accepted, and frees only received cells. */
  lemma ApplyAckOk(tx: Sender, rx: Receiver, flow: Flow, c: Config, payload: seq<byte>)
    requires FlowOk(tx, rx, flow, c) && AckOk(payload, rx, flow.cells)
    ensures ApplyAck(tx, payload).1 == Ok
    ensures FlowOk(ApplyAck(tx, payload).0, rx, flow, c)
  {
    hide ReceiverOk, QueueOk, CellsOk, AcceptedOk, AckMask, AckBelow, BitsOf;
    var base := ReadU32(payload, 2);
    var mask := BitsOf(ReadU16(payload, 6));
    var tx' := ApplyAck(tx, payload).0;
    forall i | 0 <= i < SLOTS
      ensures tx'.ring[i] == tx.ring[i] ||
              (tx.ring[i].occupied && tx'.ring[i] == EMPTY_TX && Received(rx, tx.ring[i].sequence))
      ensures tx.ring[i].occupied && tx.ring[i].sequence < tx'.remoteBase ==> tx'.ring[i] == EMPTY_TX
    {
      AckResult(tx.ring, base, mask, tx.next, i);
    }
    FreedOk(tx, tx', rx, flow, c);
  }

  // ---------------------------------------------------------------------
  // Frames in the channel
  // ---------------------------------------------------------------------

  /** The data part carries a cell the sender has cut, inside the receiver's window. */
  ghost predicate DataOk(f: Frame, cells: Chunks, rx: Receiver) {
    if f.hasData then
      && f.sequence < |cells| && f.sequence < rx.base + SLOTS
      && |f.payload| >= ACK_BYTES && f.payload[ACK_BYTES..] == cells[f.sequence]
    else |f.payload| == ACK_BYTES
  }

  lemma AckOkLater(payload: seq<byte>, rx: Receiver, cells: Chunks, rx': Receiver, cells': Chunks)
    requires AckOk(payload, rx, cells) && Grows(rx, rx') && cells <= cells'
    ensures AckOk(payload, rx', cells')
  {
  }

  lemma DataOkLater(f: Frame, cells: Chunks, rx: Receiver, cells': Chunks, rx': Receiver)
    requires DataOk(f, cells, rx) && cells <= cells' && rx.base <= rx'.base
    ensures DataOk(f, cells', rx')
  {
    if f.hasData {
      assert cells'[f.sequence] == cells[f.sequence];
    }
  }

  // ---------------------------------------------------------------------
  // Receiving a frame
  // ---------------------------------------------------------------------

  lemma StoredOk(rx: Receiver, f: Frame, accepted: seq<Packet>, cells: Chunks, done: nat, c: Config)
    requires ReceiverOk(rx, accepted, cells, done, c) && DataOk(f, cells, rx) && f.hasData
    requires rx.base <= f.sequence && !rx.ring[f.sequence % SLOTS].occupied
    ensures ReceiverOk(Stored(rx, f), accepted, cells, done, c) && Grows(rx, Stored(rx, f))
  {
  }

  function Progress(flow: Flow, rx: Receiver, rx': Receiver): Flow {
    if |rx.incoming| <= |rx'.incoming| then flow.(done := flow.done + |rx'.incoming| - |rx.incoming|) else flow
  }

  lemma LinkLater(tx: Sender, rx: Receiver, rx': Receiver, flow: Flow, c: Config)
    requires FlowOk(tx, rx, flow, c) && Handed(rx, rx', flow.accepted, flow.cells, flow.done, c)
    ensures FlowOk(tx, rx', Progress(flow, rx, rx'), c)
  {
  }

  lemma StoredHands(rx: Receiver, f: Frame, after: Receiver, flow: Flow, c: Config)
    requires |f.payload| >= ACK_BYTES && Grows(rx, Stored(rx, f)) && flow.done <= |flow.accepted|
    requires Handed(Stored(rx, f), after, flow.accepted, flow.cells, flow.done, c)
    ensures Handed(rx, after, flow.accepted, flow.cells, flow.done, c)
  {
  }

  /** A slot in use holds the one cell of the window that belongs there. */
  lemma SlotHoldsCell(rx: Receiver, cells: Chunks, sequence: nat)
    requires RxRingOk(rx, cells) && rx.base <= sequence < rx.base + SLOTS && rx.ring[sequence % SLOTS].occupied
    ensures rx.ring[sequence % SLOTS].sequence == sequence
  {
  }

  lemma CellFits(cells: Chunks, f: Frame, rx: Receiver)
    requires CellsOk(cells) && DataOk(f, cells, rx) && f.hasData
    ensures ACK_BYTES < |f.payload| <= MAX_PAYLOAD
  {
  }

  /** The sequence of a cell in the channel is inside the window, and its slot is free or holds the same cell. */
  lemma AcceptOk(tx: Sender, rx: Receiver, flow: Flow, c: Config, f: Frame)
    requires FlowOk(tx, rx, flow, c) && DataOk(f, flow.cells, rx)
    ensures Accept(rx, c, f).1 == Ok
    ensures Handed(rx, Accept(rx, c, f).0, flow.accepted, flow.cells, flow.done, c)
  {
    assert CellsOk(flow.cells) && RxRingOk(rx, flow.cells);
    hide SenderOk, LinkOk, Handed, Drain, RxRingOk, CellsOk, ReceiverOk, Flatten;
    HandedNothing(rx, flow.accepted, flow.cells, flow.done, c);
    if f.hasData {
      CellFits(flow.cells, f, rx);
      if rx.base <= f.sequence && rx.ring[f.sequence % SLOTS].occupied {
        SlotHoldsCell(rx, flow.cells, f.sequence);
      }
    }
    if f.hasData && rx.base <= f.sequence && !rx.ring[f.sequence % SLOTS].occupied {
      SentIsPrefix(tx, rx, flow, c);
      StoredOk(rx, f, flow.accepted, flow.cells, flow.done, c);
      DrainOk(Stored(rx, f), flow.accepted, flow.cells, flow.done, c);
      StoredHands(rx, f, Drain(Stored(rx, f), c).0, flow, c);
    }
  }

  /** A frame the peer built is never rejected, and taking it keeps both directions. */
  lemma ProcessOk(e: Endpoint, c: Config, f: Frame, peer: Endpoint, d: Config, inward: Flow, outward: Flow)
    requires FlowOk(peer.tx, e.rx, inward, c) && FlowOk(e.tx, peer.rx, outward, d)
    requires AckOk(f.payload, peer.rx, outward.cells) && DataOk(f, inward.cells, e.rx)
    ensures Process(e, c, f).1 == Ok
    ensures var after := Process(e, c, f).0;
            && Handed(e.rx, after.rx, inward.accepted, inward.cells, inward.done, c)
            && FlowOk(peer.tx, after.rx, Progress(inward, e.rx, after.rx), c)
            && FlowOk(after.tx, peer.rx, outward, d)
  {
    ApplyAckOk(e.tx, peer.rx, outward, d, f.payload);
    AcceptOk(peer.tx, e.rx, inward, c, f);
    LinkLater(peer.tx, e.rx, Accept(e.rx, c, f).0, inward, c);
  }

  // ---------------------------------------------------------------------
  // Building a frame
  // ---------------------------------------------------------------------

  /** A new cell always finds its slot free. */
  lemma SlotIsFree(tx: Sender, accepted: seq<Packet>, cells: Chunks, c: Config)
    requires SenderOk(tx, accepted, cells, c) && tx.next < tx.remoteBase + SLOTS
    ensures !tx.ring[tx.next % SLOTS].occupied
  {
  }

  /** The cells cut so far, after a step of the sender. */
  function CellsAfter(flow: Flow, before: Sender, after: Sender): Flow {
    if after.next > before.next then flow.(cells := flow.cells + [after.ring[before.next % SLOTS].bytes]) else flow
  }

  lemma CreateQueueOk(tx: Sender, accepted: seq<Packet>, cells: Chunks)
    requires Queueable(accepted) && QueueOk(tx.outgoing, tx.recordOffset, accepted, cells) && ValidSender(tx) && tx.outgoing != []
    ensures var (bytes, queue, offset) := Serialize(tx.outgoing, tx.recordOffset, DATA_BYTES);
            && 1 <= |bytes| <= DATA_BYTES
            && QueueOk(queue, offset, accepted, cells + [bytes])
  {
    hide Sent, Flatten, Records;
    SerializeContinues(accepted, |accepted| - |tx.outgoing|, tx.recordOffset, DATA_BYTES);
    var (bytes, queue, offset) := Serialize(tx.outgoing, tx.recordOffset, DATA_BYTES);
    FlattenAppend(cells, bytes);
  }

  lemma CreateCellOk(tx: Sender, flow: Flow, c: Config, d: Config)
    requires SenderOk(tx, flow.accepted, flow.cells, d) && ValidSender(tx) && MayCreate(tx, c)
    ensures var after := CreateCell(tx, c);
            && SenderOk(after, flow.accepted, CellsAfter(flow, tx, after).cells, d)
            && InTransmit(after, tx.next)
            && forall s: nat | InTransmit(tx, s) :: InTransmit(after, s)
  {
    hide QueueOk, Serialize;
    CreateQueueOk(tx, flow.accepted, flow.cells);
    var after := CreateCell(tx, c);
    assert QueueOk(after.outgoing, after.recordOffset, flow.accepted, CellsAfter(flow, tx, after).cells);
  }

  /** The receiver does not mind that its peer has accepted more packets or cut more cells. */
  lemma ReceiverLater(rx: Receiver, flow: Flow, later: Flow, c: Config)
    requires ReceiverOk(rx, flow.accepted, flow.cells, flow.done, c)
    requires flow.accepted <= later.accepted && flow.cells <= later.cells && flow.done == later.done
    requires AcceptedOk(later.accepted, c.maxPacket) && CellsOk(later.cells)
    ensures ReceiverOk(rx, later.accepted, later.cells, later.done, c)
  {
    assert later.cells[..rx.base] == flow.cells[..rx.base];
    assert Records(later.accepted)[..flow.done] == Records(flow.accepted)[..flow.done];
  }

  /** A direction stays in order when its sender only accepts packets and cuts cells. */
  lemma SenderMoves(tx: Sender, tx': Sender, rx: Receiver, flow: Flow, later: Flow, c: Config)
    requires FlowOk(tx, rx, flow, c) && SenderOk(tx', later.accepted, later.cells, c)
    requires flow.accepted <= later.accepted && flow.cells <= later.cells && flow.done == later.done
    requires tx'.remoteBase == tx.remoteBase
    requires forall s: nat | s < |later.cells| :: s >= |flow.cells| || InTransmit(tx, s) ==> InTransmit(tx', s)
    ensures FlowOk(tx', rx, later, c)
  {
    ReceiverLater(rx, flow, later, c);
    forall s: nat | s < |later.cells|
      ensures InTransmit(tx', s) || Received(rx, s)
    {
      assert s < |flow.cells| ==> InTransmit(tx, s) || Received(rx, s);
    }
  }

  lemma CreateLinkOk(tx: Sender, rx: Receiver, flow: Flow, c: Config, d: Config)
    requires FlowOk(tx, rx, flow, d) && ValidSender(tx) && MayCreate(tx, c)
    ensures FlowOk(CreateCell(tx, c), rx, CellsAfter(flow, tx, CreateCell(tx, c)), d)
  {
    hide QueueOk, TxRingOk, AcceptedOk, ReceiverOk, LinkOk, Serialize;
    CreateCellOk(tx, flow, c, d);
    SenderMoves(tx, CreateCell(tx, c), rx, flow, CellsAfter(flow, tx, CreateCell(tx, c)), d);
  }

  lemma SenderValid(tx: Sender, accepted: seq<Packet>, cells: Chunks, c: Config)
    requires SenderOk(tx, accepted, cells, c)
    ensures ValidSender(tx)
  {
    var popped := |accepted| - |tx.outgoing|;
    forall p | p in tx.outgoing
      ensures 1 <= |p| < 0x1_0000
    {
      var i :| 0 <= i < |tx.outgoing| && tx.outgoing[i] == p;
      assert p == accepted[popped + i] && accepted[popped + i] in accepted;
    }
  }

  lemma ResendOk(e: Endpoint, rx: Receiver, flow: Flow, c: Config, header: seq<byte>, slot: nat, frame: nat)
    requires FlowOk(e.tx, rx, flow, c) && slot < SLOTS && e.tx.ring[slot].occupied && |header| == ACK_BYTES
    ensures var (after, f) := SendSlot(e, header, slot, frame);
            && FlowOk(after.tx, rx, flow, c) && after.rx == e.rx && after.tx.next == e.tx.next
            && f.payload[..ACK_BYTES] == header && DataOk(f, flow.cells, rx)
  {
    var (after, f) := SendSlot(e, header, slot, frame);
    assert forall s: nat | InTransmit(e.tx, s) :: InTransmit(after.tx, s);
    assert f.payload[ACK_BYTES..] == e.tx.ring[slot].bytes;
  }

  /** Every frame starts with the acknowledgement header of the state it was built in. */
  lemma BuildHeader(e: Endpoint, c: Config, frame: nat)
    requires ValidSender(e.tx)
    ensures var (after, f) := Build(e, c, frame);
            && after.rx == e.rx && |f.payload| >= ACK_BYTES
            && f.payload[..ACK_BYTES] == AckHeader(e.rx.base, ReceiveMask(e.rx))
  {
  }

  lemma RandomIsFree(tx: Sender, random: bv32, rx: Receiver, flow: Flow, c: Config)
    requires FlowOk(tx, rx, flow, c)
    ensures FlowOk(tx.(random := random), rx, flow, c)
  {
    assert forall s: nat | InTransmit(tx, s) :: InTransmit(tx.(random := random), s);
  }

  lemma BuildData(e: Endpoint, c: Config, frame: nat, rx: Receiver, d: Config, flow: Flow)
    requires FlowOk(e.tx, rx, flow, d) && ValidSender(e.tx)
    ensures var (after, f) := Build(e, c, frame);
            var later := CellsAfter(flow, e.tx, after.tx);
            FlowOk(after.tx, rx, later, d) && DataOk(f, later.cells, rx)
  {
    hide FlowOk, SelectRetry, Serialize, InFlight;
    var header := AckHeader(e.rx.base, ReceiveMask(e.rx));
    var (retry, random) := SelectRetry(e.tx.ring, e.tx.random, c.retransmitAfter, frame);
    var tx := e.tx.(random := random);
    RandomIsFree(e.tx, random, rx, flow, d);
    if retry.Some? {
      ResendOk(e.(tx := tx), rx, flow, d, header, retry.value, frame);
    } else if MayCreate(tx, c) {
      CreateLinkOk(tx, rx, flow, c, d);
      var made := CreateCell(tx, c);
      ResendOk(e.(tx := made), rx, CellsAfter(flow, tx, made), d, header, tx.next % SLOTS, frame);
      assert Build(e, c, frame) == SendSlot(e.(tx := made), header, tx.next % SLOTS, frame);
      assert CellsAfter(flow, e.tx, Build(e, c, frame).0.tx) == CellsAfter(flow, tx, made);
    }
  }

  /** A built frame carries a true acknowledgement and, with data, a cell inside the peer's window. */
  lemma BuildOk(e: Endpoint, c: Config, frame: nat, peer: Endpoint, d: Config, outward: Flow, inward: Flow)
    requires FlowOk(e.tx, peer.rx, outward, d)
    requires ReceiverOk(e.rx, inward.accepted, inward.cells, inward.done, c)
    ensures ValidSender(e.tx)
    ensures var (after, f) := Build(e, c, frame);
            var flow := CellsAfter(outward, e.tx, after.tx);
            && after.rx == e.rx && FlowOk(after.tx, peer.rx, flow, d)
            && AckOk(f.payload, e.rx, inward.cells) && DataOk(f, flow.cells, peer.rx)
  {
    SenderValid(e.tx, outward.accepted, outward.cells, d);
    BuildHeader(e, c, frame);
    BuildData(e, c, frame, peer.rx, d, outward);
    var payload := Build(e, c, frame).1.payload;
    AckHeaderOk(e.rx, inward.cells, payload[ACK_BYTES..]);
    assert payload == AckHeader(e.rx.base, ReceiveMask(e.rx)) + payload[ACK_BYTES..];
  }

  // ---------------------------------------------------------------------
  // The application side
  // ---------------------------------------------------------------------

  lemma SentSame(accepted: seq<Packet>, packet: Packet, popped: nat, offset: nat)
    requires Queueable(accepted + [packet]) && popped <= |accepted|
    requires offset <= if popped < |accepted| then |Record(accepted[popped])| else 0
    ensures Queueable(accepted) && Sent(accepted + [packet], popped, offset) == Sent(accepted, popped, offset)
  {
    var longer := accepted + [packet];
    assert forall p <- accepted :: p in longer;
    assert Records(longer)[..popped] == Records(accepted)[..popped];
  }

  lemma PushOk(tx: Sender, packet: Packet, accepted: seq<Packet>, cells: Chunks, c: Config)
    requires SenderOk(tx, accepted, cells, c) && Sendable(packet, c.maxPacket)
    ensures SenderOk(tx.(outgoing := tx.outgoing + [packet]), accepted + [packet], cells, c)
  {
    SentSame(accepted, packet, |accepted| - |tx.outgoing|, tx.recordOffset);
  }

  lemma EnqueueOk(e: Endpoint, c: Config, packet: Packet, rx: Receiver, d: Config, flow: Flow)
    requires c.maxPacket == d.maxPacket && FlowOk(e.tx, rx, flow, d)
    requires Enqueue(e, c, packet).1 == Ok
    ensures var after := Enqueue(e, c, packet).0;
            && after.rx == e.rx && FlowOk(after.tx, rx, flow.(accepted := flow.accepted + [packet]), d)
  {
    PushOk(e.tx, packet, flow.accepted, flow.cells, d);
    SenderMoves(e.tx, Enqueue(e, c, packet).0.tx, rx, flow, flow.(accepted := flow.accepted + [packet]), d);
  }

  lemma PopOk(rx: Receiver, accepted: seq<Packet>, cells: Chunks, done: nat, c: Config)
    requires ReceiverOk(rx, accepted, cells, done, c) && rx.incoming != []
    ensures ReceiverOk(rx.(incoming := rx.incoming[1..]), accepted, cells, done, c)
  {
  }

  lemma PopGrows(rx: Receiver)
    requires rx.incoming != []
    ensures Grows(rx, rx.(incoming := rx.incoming[1..]))
  {
  }

  /** Like Handed, with `out` taken from the front of the queue on the way. */
  ghost predicate HandedOut(rx: Receiver, after: Receiver, out: seq<Packet>, flow: Flow, c: Config) {
    var end := flow.done + |out| + |after.incoming| - |rx.incoming|;
    && flow.done <= end <= |flow.accepted| && Grows(rx, after)
    && out + after.incoming == rx.incoming + flow.accepted[flow.done..end]
    && ReceiverOk(after, flow.accepted, flow.cells, end, c)
  }

  lemma QueueShift<T>(start: seq<T>, middle: seq<T>, end: seq<T>, all: seq<T>, i: nat, j: nat, k: nat)
    requires i <= j <= k <= |all| && middle != []
    requires middle == start + all[i..j] && end == middle[1..] + all[j..k]
    ensures [middle[0]] + end == start + all[i..k]
  {
    assert [middle[0]] + middle[1..] == middle;
    assert all[i..j] + all[j..k] == all[i..k];
  }

  lemma TakeOut(rx: Receiver, before: Receiver, after: Receiver, flow: Flow, c: Config)
    requires flow.done <= |flow.accepted| && Handed(rx, before, flow.accepted, flow.cells, flow.done, c)
    requires before.incoming != []
    requires Handed(before.(incoming := before.incoming[1..]), after, flow.accepted, flow.cells,
                    flow.done + |before.incoming| - |rx.incoming|, c)
    ensures HandedOut(rx, after, [before.incoming[0]], flow, c)
  {
    hide ReceiverOk;
    PopGrows(before);
    var middle := flow.done + |before.incoming| - |rx.incoming|;
    var end := flow.done + 1 + |after.incoming| - |rx.incoming|;
    QueueShift(rx.incoming, before.incoming, after.incoming, flow.accepted, flow.done, middle, end);
  }

  /** The packets a dequeue hands out. */
  function Out(r: (Endpoint, Status, Packet)): seq<Packet> {
    if r.1 == Ok then [r.2] else []
  }

  /** Dequeue never meets a malformed record, and hands out the oldest undelivered packet. */
  lemma DequeueFlow(e: Endpoint, c: Config, room: nat, flow: Flow)
    requires ReceiverOk(e.rx, flow.accepted, flow.cells, flow.done, c)
    requires Flatten(flow.cells) <= Flatten(Records(flow.accepted))
    ensures var r := Dequeue(e, c, room);
            r.1 != ErrHeader && r.0.tx == e.tx && HandedOut(e.rx, r.0.rx, Out(r), flow, c)
  {
    hide ReceiverOk, Handed, Drain, Flatten, Records;
    HandedNothing(e.rx, flow.accepted, flow.cells, flow.done, c);
    HandedIsOut(e.rx, e.rx, flow, c);
    if room > 0 {
      DrainOk(e.rx, flow.accepted, flow.cells, flow.done, c);
      var before := Drain(e.rx, c).0;
      HandedIsOut(e.rx, before, flow, c);
      if before.incoming != [] && |before.incoming[0]| <= room {
        HandedStep(e.rx, before, flow.accepted, flow.cells, flow.done, c);
        var middle := flow.done + |before.incoming| - |e.rx.incoming|;
        PopOk(before, flow.accepted, flow.cells, middle, c);
        var popped := before.(incoming := before.incoming[1..]);
        DrainOk(popped, flow.accepted, flow.cells, middle, c);
        DoneBound(e.rx, flow, c);
        TakeOut(e.rx, before, Drain(popped, c).0, flow, c);
      }
    }
  }

  lemma DequeueOk(e: Endpoint, c: Config, room: nat, tx: Sender, flow: Flow)
    requires FlowOk(tx, e.rx, flow, c)
    ensures var r := Dequeue(e, c, room);
            r.1 != ErrHeader && r.0.tx == e.tx && HandedOut(e.rx, r.0.rx, Out(r), flow, c)
  {
    hide ReceiverOk, SenderOk, LinkOk, HandedOut, Dequeue;
    SentIsPrefix(tx, e.rx, flow, c);
    DequeueFlow(e, c, room, flow);
  }

  lemma DoneBound(rx: Receiver, flow: Flow, c: Config)
    requires ReceiverOk(rx, flow.accepted, flow.cells, flow.done, c)
    ensures flow.done <= |flow.accepted|
  {
  }

  lemma HandedIsOut(rx: Receiver, after: Receiver, flow: Flow, c: Config)
    requires Handed(rx, after, flow.accepted, flow.cells, flow.done, c)
    ensures HandedOut(rx, after, [], flow, c)
  {
    assert [] + after.incoming == after.incoming;
  }

  /** The direction after a dequeue. */
  lemma OutLater(tx: Sender, rx: Receiver, after: Receiver, out: seq<Packet>, flow: Flow, c: Config)
    requires FlowOk(tx, rx, flow, c) && HandedOut(rx, after, out, flow, c)
    ensures FlowOk(tx, after, flow.(done := flow.done + |out| + |after.incoming| - |rx.incoming|), c)
  {
  }
}
