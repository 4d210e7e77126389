/**
 What a frame that arrives achieves: its cell is received, and the peer's next
 frame, once it arrives, leaves the sender only the cells the peer still misses.
 */
module TransportProgress {
  import opened Bytes
  import opened PacketTransport
  import opened TransportInvariant
  import opened TransportSteps
  import opened TransportRuns

  /** The cell of a frame that arrives has been received. */
  lemma CellArrives(tx: Sender, rx: Receiver, flow: Flow, c: Config, f: Frame)
    requires FlowOk(tx, rx, flow, c) && DataOk(f, flow.cells, rx) && f.hasData
    ensures Received(Accept(rx, c, f).0, f.sequence)
  {
    assert CellsOk(flow.cells) && RxRingOk(rx, flow.cells);
    hide SenderOk, LinkOk, Handed, Drain, RxRingOk, CellsOk, ReceiverOk;
    CellFits(flow.cells, f, rx);
    if rx.base <= f.sequence {
      if rx.ring[f.sequence % SLOTS].occupied {
        SlotHoldsCell(rx, flow.cells, f.sequence);
      } else {
        SentIsPrefix(tx, rx, flow, c);
        StoredOk(rx, f, flow.accepted, flow.cells, flow.done, c);
        DrainOk(Stored(rx, f), flow.accepted, flow.cells, flow.done, c);
        HandedGrows(Stored(rx, f), Drain(Stored(rx, f), c).0, flow, c);
        assert Received(Stored(rx, f), f.sequence);
      }
    }
  }

  lemma HandedGrows(rx: Receiver, after: Receiver, flow: Flow, c: Config)
    requires Handed(rx, after, flow.accepted, flow.cells, flow.done, c)
    ensures Grows(rx, after)
  {
  }

  /** The acknowledgement of a receiver frees every cell it has received. */
  lemma AckRetires(tx: Sender, rx: Receiver, flow: Flow, c: Config, rest: seq<byte>, s: nat)
    requires FlowOk(tx, rx, flow, c) && Received(rx, s)
    ensures !InTransmit(ApplyAck(tx, AckHeader(rx.base, ReceiveMask(rx)) + rest).0, s)
  {
    var mask, payload := ReceiveMask(rx), AckHeader(rx.base, ReceiveMask(rx)) + rest;
    AckHeaderReads(rx.base, mask, rest);
    assert SlotsOk(tx.ring);
    FlowMeans(tx, rx, flow, c, s);
    hide FlowOk, AckMask, AckBelow, ReceiveMask;
    AckResult(tx.ring, rx.base, BitsOf(MaskOf(mask)), tx.next, s % SLOTS);
    if InTransmit(tx, s) && s >= rx.base {
      MaskBits(mask, s - rx.base);
      assert mask[s - rx.base] by { HeldIsMasked(rx, s); }
    }
  }

  lemma HeldIsMasked(rx: Receiver, s: uint32)
    requires rx.base <= s < rx.base + SLOTS && Holds(rx.ring, s)
    ensures ReceiveMask(rx)[s - rx.base]
  {
  }

  /** The left end's frame arrives at the right one. */
  function ToRight(w: World, index: nat): World { Step(w, DeliverTo(false, index)) }

  /** The right end answers with its next frame, which arrives at the left one. */
  function Answered(w: World, frame: nat): World {
    Step(Step(w, BuildAt(false, frame)), DeliverTo(true, |w.right.sent|))
  }

  lemma ArrivesAtRight(w: World, index: nat)
    requires Invariant(w) && index < |w.left.sent| && w.left.sent[index].hasData
    ensures Invariant(ToRight(w, index))
    ensures Received(ToRight(w, index).right.endpoint.rx, w.left.sent[index].sequence)
  {
    hide FlowOk, AckOk, DataOk, ApplyAck, Accept, Received;
    StepKeeps(w, DeliverTo(false, index));
    var f := w.left.sent[index];
    assert f in w.left.sent;
    ApplyAckOk(w.right.endpoint.tx, w.left.endpoint.rx, FlowFrom(w.right, w.left), w.left.config, f.payload);
    CellArrives(w.left.endpoint.tx, w.right.endpoint.rx, FlowFrom(w.left, w.right), w.right.config, f);
  }

  lemma BuiltHeader(e: Endpoint, c: Config, frame: nat)
    requires ValidSender(e.tx)
    ensures var (after, f) := Build(e, c, frame);
            && after.rx == e.rx && ACK_BYTES <= |f.payload|
            && f.payload == AckHeader(e.rx.base, ReceiveMask(e.rx)) + f.payload[ACK_BYTES..]
  {
    hide AckHeader, ReceiveMask, SelectRetry, MayCreate, CreateCell;
  }

  /** After an answer the sender holds no cell that its peer has received. */
  lemma AnswerRetires(w: World, frame: nat, s: nat)
    requires Invariant(w) && Received(w.right.endpoint.rx, s)
    ensures !InTransmit(Answered(w, frame).left.endpoint.tx, s)
    ensures Received(Answered(w, frame).right.endpoint.rx, s) && Invariant(Answered(w, frame))
  {
    hide FlowOk, AckOk, DataOk, ApplyAck, Accept, Received, InTransmit, Build;
    BuildKeeps(Swap(w), frame);
    StepKeeps(w, BuildAt(false, frame));
    var w' := Step(w, BuildAt(false, frame));
    StepKeeps(w', DeliverTo(true, |w.right.sent|));
    BuiltHeader(w.right.endpoint, w.right.config, frame);
    var f := w'.right.sent[|w.right.sent|];
    AckRetires(w'.left.endpoint.tx, w'.right.endpoint.rx, FlowFrom(w'.left, w'.right), w'.right.config, f.payload[ACK_BYTES..], s);
    ProcessTakesAck(w'.left.endpoint, w'.left.config, f);
  }

  /** The sender's half of a processed frame is the acknowledged one. */
  lemma ProcessTakesAck(e: Endpoint, c: Config, f: Frame)
    ensures Process(e, c, f).0.tx == ApplyAck(e.tx, f.payload).0
  {
  }

  /**
   In every run: a frame with data that arrives, followed by an answer that
   arrives, retires its cell, and with it every other cell the peer has by then.
   */
  lemma ExchangeRetires(w: World, index: nat, frame: nat)
    requires Reachable(w) && index < |w.left.sent| && w.left.sent[index].hasData
    ensures var after := Answered(ToRight(w, index), frame);
            var s := w.left.sent[index].sequence;
            Received(after.right.endpoint.rx, s) && !InTransmit(after.left.endpoint.tx, s)
    ensures var after := Answered(ToRight(w, index), frame);
            forall s: nat | Received(ToRight(w, index).right.endpoint.rx, s) :: !InTransmit(after.left.endpoint.tx, s)
  {
    hide Invariant, Answered, ToRight, Received, InTransmit, Reachable;
    InvariantHolds(w);
    ArrivesAtRight(w, index);
    AnswerRetires(ToRight(w, index), frame, w.left.sent[index].sequence);
    forall s: nat | Received(ToRight(w, index).right.endpoint.rx, s)
      ensures !InTransmit(Answered(ToRight(w, index), frame).left.endpoint.tx, s)
    {
      AnswerRetires(ToRight(w, index), frame, s);
    }
  }
}
