/**
 Delivery: from every world a run reaches, once frames are no longer lost and
 the application keeps dequeuing, everything accepted comes out in bounded time.
 */
module TransportDelivery {
  import opened Bytes
  import opened Common
  import opened PacketTransport
  import opened ByteStream
  import opened TransportInvariant
  import opened TransportSteps
  import opened TransportRuns
  import opened TransportProgress
  import opened TransportResend

  // ---------------------------------------------------------------------
  // No end stops before it must
  // ---------------------------------------------------------------------

  predicate Settled(end: End) { ValidConfig(end.config) && Stopped(end.endpoint.rx, end.config) }

  ghost predicate Good(w: World) { Invariant(w) && Settled(w.left) && Settled(w.right) }

  lemma DequeueSettles(e: Endpoint, c: Config, room: nat, flow: Flow)
    requires ReceiverOk(e.rx, flow.accepted, flow.cells, flow.done, c) && Stopped(e.rx, c)
    requires Flatten(flow.cells) <= Flatten(Records(flow.accepted))
    ensures Stopped(Dequeue(e, c, room).0.rx, c)
  {
    hide Drain, ReceiverOk, Handed, Stopped, Flatten, Records;
    DrainOk(e.rx, flow.accepted, flow.cells, flow.done, c);
    var before := Drain(e.rx, c).0;
    if room > 0 && before.incoming != [] && |before.incoming[0]| <= room {
      HandedStep(e.rx, before, flow.accepted, flow.cells, flow.done, c);
      var middle := flow.done + |before.incoming| - |e.rx.incoming|;
      PopOk(before, flow.accepted, flow.cells, middle, c);
      DrainOk(before.(incoming := before.incoming[1..]), flow.accepted, flow.cells, middle, c);
    }
  }

  lemma AcceptSettles(tx: Sender, rx: Receiver, flow: Flow, c: Config, f: Frame)
    requires FlowOk(tx, rx, flow, c) && DataOk(f, flow.cells, rx) && Stopped(rx, c)
    ensures Stopped(Accept(rx, c, f).0, c)
  {
    assert CellsOk(flow.cells);
    hide Drain, ReceiverOk, SenderOk, LinkOk, Handed, Stopped, Flatten, Records, CellsOk;
    assert ReceiverOk(rx, flow.accepted, flow.cells, flow.done, c) by { FlowParts(tx, rx, flow, c); }
    if f.hasData && rx.base <= f.sequence && !rx.ring[f.sequence % SLOTS].occupied {
      SentIsPrefix(tx, rx, flow, c);
      StoredOk(rx, f, flow.accepted, flow.cells, flow.done, c);
      DrainOk(Stored(rx, f), flow.accepted, flow.cells, flow.done, c);
    }
  }

  lemma StepLeftSettles(w: World, event: Event)
    requires Invariant(w) && Settled(w.left)
    ensures Settled(StepLeft(w, event).left)
  {
    hide FlowOk, AckOk, DataOk, Dequeue, Accept, ApplyAck, Stopped, Build, ReceiverOk, Flatten, Records;
    match event
    case EnqueueAt(_, packet) =>
    case DequeueAt(_, room) =>
      FlowParts(w.right.endpoint.tx, w.left.endpoint.rx, FlowFrom(w.right, w.left), w.left.config);
      SentIsPrefix(w.right.endpoint.tx, w.left.endpoint.rx, FlowFrom(w.right, w.left), w.left.config);
      DequeueSettles(w.left.endpoint, w.left.config, room, FlowFrom(w.right, w.left));
    case BuildAt(_, frame) =>
      if ValidSender(w.left.endpoint.tx) { BuiltHeader(w.left.endpoint, w.left.config, frame); }
    case DeliverTo(_, index) =>
      if index < |w.right.sent| {
        var f := w.right.sent[index];
        assert f in w.right.sent;
        ApplyAckOk(w.left.endpoint.tx, w.right.endpoint.rx, FlowFrom(w.left, w.right), w.right.config, f.payload);
        AcceptSettles(w.right.endpoint.tx, w.left.endpoint.rx, FlowFrom(w.right, w.left), w.left.config, f);
      }
  }

  lemma StepGood(w: World, event: Event)
    requires Good(w)
    ensures Good(Step(w, event))
  {
    hide Invariant, Settled, StepLeft;
    StepKeeps(w, event);
    if event.atLeft {
      StepLeftSettles(w, event);
      RightStays(w, event);
    } else {
      assert Invariant(Swap(w)) by { SwapKeeps(w); }
      StepLeftSettles(Swap(w), event);
      RightStays(Swap(w), event);
    }
  }

  lemma {:induction false} RunGood(w: World, events: seq<Event>)
    requires Good(w)
    ensures Good(Run(w, events))
  {
    hide Good, Step;
    if events != [] {
      RunGood(w, events[..|events| - 1]);
      StepGood(Run(w, events[..|events| - 1]), events[|events| - 1]);
    }
  }

  lemma ReachableIsGood(w: World)
    requires Reachable(w)
    ensures Good(w)
  {
    hide Run, Invariant;
    var c: Config, d: Config, r: bv32, q: bv32, events: seq<Event> :|
      ValidConfig(c) && ValidConfig(d) && c.maxPacket == d.maxPacket && w == Run(Start(c, d, r, q), events);
    StartOk(c, d, r, q);
    RunGood(Start(c, d, r, q), events);
  }

  // ---------------------------------------------------------------------
  // One exchange without loss
  // ---------------------------------------------------------------------

  /**
   The rooms of one dequeue at the right end and at the left one, and the frames
   in which the left end sends and the right end answers.  Crossing frames are
   both built before either arrives.
   */
  datatype Beat = Beat(room: nat, other: nat, frame: nat, answer: nat, crossing: bool)

  function Pulled(w: World, b: Beat): World { Step(Step(w, DequeueAt(true, b.other)), DequeueAt(false, b.room)) }

  function Filled(w: World, b: Beat): World { BuildLeft(Pulled(w, b), b.frame) }

  /** The world in which the answer is built. */
  function Told(w: World, b: Beat): World {
    if b.crossing then Filled(w, b) else ToRight(Filled(w, b), |w.left.sent|)
  }

  function Arrived(w: World, b: Beat): World {
    var told := Step(Told(w, b), BuildAt(false, b.answer));
    if b.crossing then ToRight(told, |w.left.sent|) else told
  }

  /** Both applications dequeue, both ends send a frame, and both frames arrive. */
  function Exchange(w: World, b: Beat): World { Step(Arrived(w, b), DeliverTo(true, |w.right.sent|)) }

  function Exchanges(w: World, beats: seq<Beat>): World {
    if beats == [] then w else Exchange(Exchanges(w, beats[..|beats| - 1]), beats[|beats| - 1])
  }

  /** An exchange is six events of a run. */
  lemma ExchangeIsSteps(w: World, b: Beat)
    ensures var pulled := Step(Step(w, DequeueAt(true, b.other)), DequeueAt(false, b.room));
            var (n, m) := (|w.left.sent|, |w.right.sent|);
            Exchange(w, b) ==
            if b.crossing then
              Step(Step(Step(Step(pulled, BuildAt(true, b.frame)), BuildAt(false, b.answer)), DeliverTo(false, n)), DeliverTo(true, m))
            else
              Step(Step(Step(Step(pulled, BuildAt(true, b.frame)), DeliverTo(false, n)), BuildAt(false, b.answer)), DeliverTo(true, m))
  {
    hide Build, Dequeue, Process, CellsAfter;
  }

  /** The cells cut and not received. */
  ghost function Lacking(w: World): set<nat> {
    set s: nat | s < w.left.endpoint.tx.next && !Received(w.right.endpoint.rx, s)
  }

  /** The sender holds no received cell and knows how far the receiver is. */
  ghost predicate Clean(w: World) {
    && w.left.endpoint.tx.remoteBase == w.right.endpoint.rx.base
    && forall s: nat | Received(w.right.endpoint.rx, s) :: !InTransmit(w.left.endpoint.tx, s)
  }

  /** What is left to do: packets to dequeue, bytes to cut into cells, and cells to receive. */
  ghost function Outstanding(w: World): int
    requires Invariant(w)
  {
    |w.left.accepted| - |w.right.dequeued| + Unsent(w) + |Lacking(w)|
  }

  ghost function Unsent(w: World): int
    requires Invariant(w)
  {
    |Flatten(Records(w.left.accepted))| - |Flatten(w.left.cells)|
  }

  /** The left end's dequeue is none of the direction's business. */
  lemma OtherPulls(w: World, room: nat)
    requires Good(w)
    ensures var after := Step(w, DequeueAt(true, room));
            && Good(after) && after.right == w.right && after.left.endpoint.tx == w.left.endpoint.tx
            && after.left == w.left.(endpoint := after.left.endpoint, dequeued := after.left.dequeued)
  {
    hide FlowOk, FramesOk, Dequeue, HandedOut;
    StepGood(w, DequeueAt(true, room));
    DequeueOk(w.left.endpoint, w.left.config, room, w.right.endpoint.tx, FlowFrom(w.right, w.left));
  }

  /** A dequeue with room takes a packet, unless none has come and the next cell is missing. */
  lemma PullMoves(w: World, b: Beat)
    requires Good(w) && w.left.config.maxPacket <= b.room
    ensures var after := Pulled(w, b);
            && after.left.endpoint.tx == w.left.endpoint.tx
            && after.left == w.left.(endpoint := after.left.endpoint, dequeued := after.left.dequeued)
            && after.right.sent == w.right.sent && after.right.config == w.right.config
            && Grows(w.right.endpoint.rx, after.right.endpoint.rx)
            && (|after.right.dequeued| == |w.right.dequeued| + 1 ||
                (after.right == w.right && w.right.endpoint.rx.incoming == [] && !Ready(w.right.endpoint.rx)))
  {
    hide Good, Step, Grows, Ready;
    OtherPulls(w, b.other);
    RightPulls(Step(w, DequeueAt(true, b.other)), b.room);
  }

  lemma RightPulls(w: World, room: nat)
    requires Good(w) && w.left.config.maxPacket <= room
    ensures var after := Step(w, DequeueAt(false, room));
            && after.left == w.left && after.right.sent == w.right.sent && after.right.config == w.right.config
            && Grows(w.right.endpoint.rx, after.right.endpoint.rx)
            && (|after.right.dequeued| == |w.right.dequeued| + 1 ||
                (after.right == w.right && w.right.endpoint.rx.incoming == [] && !Ready(w.right.endpoint.rx)))
  {
    hide FlowOk, FramesOk, Drain, HandedOut, Grows, Ready, Handed;
    var e, c, flow := w.right.endpoint, w.right.config, FlowFrom(w.left, w.right);
    StepGood(w, DequeueAt(false, room));
    DequeueOk(e, c, room, w.left.endpoint.tx, flow);
    OutGrows(e.rx, Dequeue(e, c, room).0.rx, Out(Dequeue(e, c, room)), flow, c);
    DrainsWell(w.left.endpoint.tx, e.rx, flow, c);
    var before := Drain(e.rx, c).0;
    if before.incoming == [] {
      DrainTurn(e.rx, c);
    } else {
      if |before.incoming[0]| > room {
        FirstFits(Step(w, DequeueAt(false, room)));
      }
      var popped := before.(incoming := before.incoming[1..]);
      DrainStatus(popped, c);
    }
  }

  lemma OutGrows(rx: Receiver, after: Receiver, out: seq<Packet>, flow: Flow, c: Config)
    requires HandedOut(rx, after, out, flow, c)
    ensures Grows(rx, after)
  {
  }

  lemma DrainsWell(tx: Sender, rx: Receiver, flow: Flow, c: Config)
    requires FlowOk(tx, rx, flow, c)
    ensures Drain(rx, c).1 == Ok && |rx.incoming| <= |Drain(rx, c).0.incoming|
  {
    hide Drain, ReceiverOk, Flatten, Records;
    FlowParts(tx, rx, flow, c);
    SentIsPrefix(tx, rx, flow, c);
    DrainOk(rx, flow.accepted, flow.cells, flow.done, c);
  }

  /** A packet waiting at the right end is no longer than the limit. */
  lemma FirstFits(w: World)
    requires Invariant(w) && w.right.endpoint.rx.incoming != []
    ensures |w.right.endpoint.rx.incoming[0]| <= w.left.config.maxPacket
  {
    hide ReceiverOk, LinkOk, QueueOk, CellsOk, TxRingOk, FramesOk;
    assert Delivered(w.right)[|w.right.dequeued|] == w.right.endpoint.rx.incoming[0];
    assert w.left.accepted[|w.right.dequeued|] in w.left.accepted;
  }

  /** A data frame carries a held cell or the new one. */
  lemma BuiltCell(e: Endpoint, c: Config, frame: nat)
    requires ValidSender(e.tx) && SlotsOk(e.tx.ring)
    ensures var (after, f) := Build(e, c, frame);
            && after.rx == e.rx && after.tx.remoteBase == e.tx.remoteBase
            && (if f.hasData then (f.sequence == e.tx.next && after.tx.next == e.tx.next + 1) ||
                                  (InTransmit(e.tx, f.sequence) && after.tx.next == e.tx.next)
                else after.tx.next == e.tx.next)
  {
    hide SelectRetry, Serialize, AckHeader, ReceiveMask;
  }

  lemma FillMoves(w: World, frame: nat)
    requires Invariant(w)
    ensures var after := BuildLeft(w, frame);
            && |after.left.sent| == |w.left.sent| + 1
            && var f := after.left.sent[|w.left.sent|];
            && var tx := w.left.endpoint.tx;
            && ValidSender(tx) && (after.left.endpoint, f) == Build(w.left.endpoint, w.left.config, frame)
            && after.right == w.right && after.left.accepted == w.left.accepted && after.left.config == w.left.config
            && after.left.endpoint.tx.remoteBase == tx.remoteBase
            && w.left.cells <= after.left.cells && after.left.endpoint.tx.next == |after.left.cells|
            && tx.next == |w.left.cells| && tx.next <= after.left.endpoint.tx.next <= tx.next + 1
            && (f.hasData ==> InTransmit(tx, f.sequence) || after.left.endpoint.tx.next > tx.next)
            && (after.left.endpoint.tx.next > tx.next ==> f.hasData && f.sequence == tx.next)
  {
    hide Build, FramesOk, ReceiverOk, LinkOk, QueueOk, CellsOk, AcceptedOk, ValidSender, InTransmit;
    BuildKeeps(w, frame);
    BuiltCell(w.left.endpoint, w.left.config, frame);
  }

  /** The frame arrives: its cell is received, and the sender does not notice yet. */
  lemma ArriveMoves(w: World, index: nat)
    requires Invariant(w) && index < |w.left.sent|
    ensures var after := ToRight(w, index);
            && after.left == w.left && after.right.dequeued == w.right.dequeued
            && after.right.sent == w.right.sent && after.right.config == w.right.config
            && Grows(w.right.endpoint.rx, after.right.endpoint.rx)
            && (w.left.sent[index].hasData ==> Received(after.right.endpoint.rx, w.left.sent[index].sequence))
            && ((w.left.sent[index].hasData ==> Received(w.right.endpoint.rx, w.left.sent[index].sequence)) ==>
                  after.right.endpoint.rx == w.right.endpoint.rx)
  {
    hide FlowOk, AckOk, DataOk, ApplyAck, Accept, Received, Grows;
    var f := w.left.sent[index];
    assert f in w.left.sent;
    ApplyAckOk(w.right.endpoint.tx, w.left.endpoint.rx, FlowFrom(w.right, w.left), w.left.config, f.payload);
    AcceptGrows(w.left.endpoint.tx, w.right.endpoint.rx, FlowFrom(w.left, w.right), w.right.config, f);
    if f.hasData {
      ArrivesAtRight(w, index);
    }
  }

  lemma AcceptGrows(tx: Sender, rx: Receiver, flow: Flow, c: Config, f: Frame)
    requires FlowOk(tx, rx, flow, c) && DataOk(f, flow.cells, rx)
    ensures Grows(rx, Accept(rx, c, f).0)
    ensures (f.hasData ==> Received(rx, f.sequence)) ==> Accept(rx, c, f).0 == rx
  {
    hide FlowOk, DataOk, Drain;
    AcceptOk(tx, rx, flow, c, f);
    HandedGrows(rx, Accept(rx, c, f).0, flow, c);
  }

  /** The acknowledgement only empties slots, and the sender learns how far the receiver is. */
  lemma AckShrinks(tx: Sender, rx: Receiver, rest: seq<byte>, sent: nat)
    requires SlotsOk(tx.ring) && SentBy(tx.ring, sent) && tx.remoteBase <= rx.base <= tx.next
    ensures var after := ApplyAck(tx, AckHeader(rx.base, ReceiveMask(rx)) + rest).0;
            SentBy(after.ring, sent) && after.remoteBase == rx.base && after.next == tx.next
  {
    var mask, payload := ReceiveMask(rx), AckHeader(rx.base, ReceiveMask(rx)) + rest;
    AckHeaderReads(rx.base, mask, rest);
    hide AckMask, AckBelow, ReceiveMask;
    AckStamps(tx, payload, sent);
  }

  /** What the sender is told: it gives up the cells received when the answer was built. */
  lemma TellMoves(w: World, payload: seq<byte>, sent: nat)
    requires Invariant(w) && SentBy(w.left.endpoint.tx.ring, sent) && ACK_BYTES <= |payload|
    requires payload == AckHeader(w.right.endpoint.rx.base, ReceiveMask(w.right.endpoint.rx)) + payload[ACK_BYTES..]
    ensures var (tx, rx) := (ApplyAck(w.left.endpoint.tx, payload).0, w.right.endpoint.rx);
            && SentBy(tx.ring, sent) && tx.next == w.left.endpoint.tx.next && tx.remoteBase == rx.base
            && forall s: nat | Received(rx, s) :: !InTransmit(tx, s)
  {
    hide FlowOk, FramesOk, ApplyAck, Received, InTransmit, SentBy, ReceiveMask, AckHeader;
    var tx, rx := w.left.endpoint.tx, w.right.endpoint.rx;
    FlowMeans(tx, rx, FlowFrom(w.left, w.right), w.right.config, 0);
    RingSlots(tx, rx, FlowFrom(w.left, w.right), w.right.config);
    AckShrinks(tx, rx, payload[ACK_BYTES..], sent);
    forall s: nat | Received(rx, s)
      ensures !InTransmit(ApplyAck(tx, payload).0, s)
    {
      AckRetires(tx, rx, FlowFrom(w.left, w.right), w.right.config, payload[ACK_BYTES..], s);
    }
  }

  /** Building the answer changes the sending half of the right end only. */
  lemma AnswerBuilt(w: World, answer: nat)
    requires Invariant(w)
    ensures var after := Step(w, BuildAt(false, answer));
            && after.left == w.left && after.right.endpoint.rx == w.right.endpoint.rx
            && after.right.dequeued == w.right.dequeued && after.right.config == w.right.config
            && |after.right.sent| == |w.right.sent| + 1 && after.right.sent[..|w.right.sent|] == w.right.sent
            && var payload := after.right.sent[|w.right.sent|].payload;
            && ACK_BYTES <= |payload|
            && payload == AckHeader(w.right.endpoint.rx.base, ReceiveMask(w.right.endpoint.rx)) + payload[ACK_BYTES..]
  {
    hide FlowOk, FramesOk, Build, ReceiveMask, AckHeader, ValidSender, CellsAfter;
    BuildKeeps(Swap(w), answer);
    BuiltHeader(w.right.endpoint, w.right.config, answer);
  }

  /** The answer is heard. */
  lemma AnswerHeard(w: World, index: nat)
    requires index < |w.right.sent|
    ensures var after := Step(w, DeliverTo(true, index));
            && after.right == w.right && after.left == w.left.(endpoint := after.left.endpoint)
            && after.left.endpoint.tx == ApplyAck(w.left.endpoint.tx, w.right.sent[index].payload).0
  {
    hide Accept, ApplyAck;
    ProcessTakesAck(w.left.endpoint, w.left.config, w.right.sent[index]);
  }

  lemma FlattenLonger(cells: Chunks, longer: Chunks)
    requires cells <= longer && |longer| <= |cells| + 1
    ensures |Flatten(cells)| + (if |longer| > |cells| then |longer[|cells|]| else 0) == |Flatten(longer)|
  {
    if |longer| > |cells| {
      FlattenNext(longer, |cells|);
      assert longer[..|cells| + 1] == longer && longer[..|cells|] == cells;
    } else {
      assert longer == cells;
    }
  }

  lemma Fewer(small: set<nat>, large: set<nat>)
    requires small <= large
    ensures |small| <= |large|
    ensures small != large ==> |small| < |large|
  {
    assert large == small + (large - small);
    assert |large| == |small| + |large - small|;
  }

  /** Cutting a cell leaves fewer bytes to cut. */
  lemma UnsentShrinks(w: World, after: World)
    requires Invariant(w) && Invariant(after) && after.left.accepted == w.left.accepted
    requires w.left.cells <= after.left.cells && |after.left.cells| <= |w.left.cells| + 1
    ensures 0 <= Unsent(after) <= Unsent(w)
    ensures |after.left.cells| > |w.left.cells| ==> Unsent(after) < Unsent(w)
  {
    hide Flatten, Records, LinkOk, ReceiverOk, QueueOk, FramesOk;
    SentIsPrefix(after.left.endpoint.tx, after.right.endpoint.rx, FlowFrom(after.left, after.right), after.right.config);
    FlattenLonger(w.left.cells, after.left.cells);
  }

  /** A cell on its way that arrives leaves fewer to receive. */
  lemma LackingShrinks(w: World, after: World, f: Frame)
    requires Grows(w.right.endpoint.rx, after.right.endpoint.rx)
    requires w.left.endpoint.tx.next <= after.left.endpoint.tx.next <= w.left.endpoint.tx.next + 1
    requires f.hasData ==> Received(after.right.endpoint.rx, f.sequence)
    requires after.left.endpoint.tx.next > w.left.endpoint.tx.next ==> f.hasData && f.sequence == w.left.endpoint.tx.next
    ensures |Lacking(after)| <= |Lacking(w)|
    ensures f.hasData && f.sequence in Lacking(w) ==> |Lacking(after)| < |Lacking(w)|
  {
    hide Received;
    assert Lacking(after) <= Lacking(w);
    Fewer(Lacking(after), Lacking(w));
  }

  /** The application gets nothing and the sender sends nothing. */
  ghost predicate Idle(w: World, b: Beat) {
    && Pulled(w, b).right == w.right && w.right.endpoint.rx.incoming == [] && !Ready(w.right.endpoint.rx)
    && var e := Pulled(w, b).left.endpoint;
    && e.tx == w.left.endpoint.tx && ValidSender(e.tx) && !Build(e, w.left.config, b.frame).1.hasData
  }

  /** What one exchange leaves alone. */
  predicate Later(w: World, after: World) {
    && after.left.config == w.left.config && after.right.config == w.right.config
    && after.left.accepted == w.left.accepted && |w.right.dequeued| <= |after.right.dequeued|
    && w.left.endpoint.tx.next <= after.left.endpoint.tx.next
  }

  lemma GrowsTwice(a: Receiver, b: Receiver, c: Receiver)
    requires Grows(a, b) && Grows(b, c)
    ensures Grows(a, c)
  {
  }

  lemma ExchangeGood(w: World, b: Beat)
    requires Good(w)
    ensures Good(Pulled(w, b)) && Good(Filled(w, b)) && Good(Told(w, b)) && Good(Step(Told(w, b), BuildAt(false, b.answer)))
    ensures Good(Arrived(w, b)) && Good(Exchange(w, b))
  {
    hide Good, Step;
    var n := |w.left.sent|;
    StepGood(w, DequeueAt(true, b.other));
    StepGood(Step(w, DequeueAt(true, b.other)), DequeueAt(false, b.room));
    StepGood(Pulled(w, b), BuildAt(true, b.frame));
    BuildIsStep(Pulled(w, b), b.frame);
    StepGood(Filled(w, b), DeliverTo(false, n));
    StepGood(Told(w, b), BuildAt(false, b.answer));
    StepGood(Step(Told(w, b), BuildAt(false, b.answer)), DeliverTo(false, n));
    StepGood(Arrived(w, b), DeliverTo(true, |w.right.sent|));
  }

  lemma BuildIsStep(w: World, frame: nat)
    ensures Step(w, BuildAt(true, frame)) == BuildLeft(w, frame)
  {
    hide BuildLeft;
  }

  /** Where the two ends stand after an exchange. */
  lemma ExchangeEnds(w: World, b: Beat)
    requires Good(w) && w.left.config.maxPacket <= b.room
    ensures var (pulled, filled, after) := (Pulled(w, b), Filled(w, b), Exchange(w, b));
            && |filled.left.sent| == |w.left.sent| + 1
            && var f := filled.left.sent[|w.left.sent|];
            && after.left == filled.left.(endpoint := after.left.endpoint)
            && after.right.config == w.right.config && after.right.dequeued == pulled.right.dequeued
            && Grows(pulled.right.endpoint.rx, after.right.endpoint.rx)
            && (f.hasData ==> Received(after.right.endpoint.rx, f.sequence))
            && ((f.hasData ==> Received(pulled.right.endpoint.rx, f.sequence)) ==> after.right.endpoint.rx == pulled.right.endpoint.rx)
    ensures var (filled, told, after) := (Filled(w, b), Told(w, b), Exchange(w, b));
            && told.left == filled.left
            && told.right.endpoint.rx == (if b.crossing then Pulled(w, b).right.endpoint.rx else after.right.endpoint.rx)
            && |w.right.sent| < |Arrived(w, b).right.sent|
            && var payload := Arrived(w, b).right.sent[|w.right.sent|].payload;
            && ACK_BYTES <= |payload|
            && payload == AckHeader(told.right.endpoint.rx.base, ReceiveMask(told.right.endpoint.rx)) + payload[ACK_BYTES..]
            && after.left.endpoint.tx == ApplyAck(filled.left.endpoint.tx, payload).0
  {
    hide Good, Invariant, Settled, Pulled, BuildLeft, ToRight, Step, Build, ValidSender, InTransmit, Received, Grows, Ready,
      ApplyAck, AckHeader, ReceiveMask;
    ExchangeGood(w, b);
    GoodParts(Pulled(w, b));
    GoodParts(Filled(w, b));
    GoodParts(Told(w, b));
    PullMoves(w, b);
    FillMoves(Pulled(w, b), b.frame);
    var n := |w.left.sent|;
    AnswerBuilt(Told(w, b), b.answer);
    var spoken := Step(Told(w, b), BuildAt(false, b.answer));
    if b.crossing {
      GoodParts(spoken);
      ArriveMoves(spoken, n);
    } else {
      ArriveMoves(Filled(w, b), n);
    }
    AnswerHeard(Arrived(w, b), |w.right.sent|);
  }

  /** An exchange never leaves more to do; when it leaves as much, the sender knows all, and both ends are idle if it did before. */
  lemma ExchangeMoves(w: World, b: Beat, sent: nat)
    requires Good(w) && w.left.config.maxPacket <= b.room && SentBy(w.left.endpoint.tx.ring, sent) && sent <= b.frame
    ensures var after := Exchange(w, b);
            && Good(after) && Later(w, after) && SentBy(after.left.endpoint.tx.ring, b.frame)
            && Outstanding(after) <= Outstanding(w)
            && (!b.crossing || Outstanding(after) == Outstanding(w) ==> Clean(after))
            && (Clean(w) && Outstanding(after) == Outstanding(w) ==>
                  Idle(w, b) && SentBy(after.left.endpoint.tx.ring, sent))
  {
    hide Good, Invariant, Settled, Pulled, BuildLeft, Told, Arrived, Exchange, Build, SentBy, ValidSender, InTransmit,
      Received, Unsent, Lacking, Grows, Ready, ApplyAck, AckHeader, ReceiveMask;
    GoodParts(w);
    ExchangeGood(w, b);
    var pulled, filled, told, after := Pulled(w, b), Filled(w, b), Told(w, b), Exchange(w, b);
    GoodParts(pulled);
    GoodParts(filled);
    GoodParts(told);
    GoodParts(after);
    PullMoves(w, b);
    FillMoves(pulled, b.frame);
    BuildStamps(pulled.left.endpoint, pulled.left.config, sent, b.frame);
    ExchangeEnds(w, b);
    var f := filled.left.sent[|w.left.sent|];
    var payload := Arrived(w, b).right.sent[|w.right.sent|].payload;
    TellMoves(told, payload, b.frame);
    GrowsTwice(w.right.endpoint.rx, pulled.right.endpoint.rx, after.right.endpoint.rx);
    UnsentShrinks(w, after);
    LackingShrinks(w, after, f);
    if Outstanding(after) == Outstanding(w) {
      if f.hasData {
        ResentWasLacking(w, f);
      } else if Clean(w) {
        SilenceKeepsRing(pulled.left.endpoint, pulled.left.config, b.frame);
        TellMoves(told, payload, sent);
      }
    }
  }

  lemma GoodParts(w: World)
    requires Good(w)
    ensures Invariant(w) && Settled(w.left) && Settled(w.right)
  {
  }

  /** A cell that is sent again was received before or was lacking; a sender that knows all repeats only lacking cells. */
  lemma ResentWasLacking(w: World, f: Frame)
    requires Invariant(w) && InTransmit(w.left.endpoint.tx, f.sequence)
    ensures f.sequence in Lacking(w) || Received(w.right.endpoint.rx, f.sequence)
    ensures Clean(w) ==> f.sequence in Lacking(w)
  {
    hide FlowOk, FramesOk, Received, InTransmit;
    FlowMeans(w.left.endpoint.tx, w.right.endpoint.rx, FlowFrom(w.left, w.right), w.right.config, f.sequence);
  }

  // ---------------------------------------------------------------------
  // Idle ends have nothing left to do
  // ---------------------------------------------------------------------

  lemma {:induction false} NoneInFlight(cells: seq<TxCell>)
    requires InFlight(cells) == 0
    ensures forall cell <- cells :: !cell.occupied
  {
    if cells != [] {
      NoneInFlight(cells[..|cells| - 1]);
      assert cells == cells[..|cells| - 1] + [cells[|cells| - 1]];
    }
  }

  lemma ChunkLength(chunks: Chunks, n: nat)
    requires n < |chunks|
    ensures |Flatten(chunks[..n])| + |chunks[n]| <= |Flatten(chunks)|
  {
    ChunkInWhole(chunks, n);
    assert |Flatten(chunks[..n]) + chunks[n]| <= |Flatten(chunks)|;
  }

  /** When every record was cut into cells and every cell was parsed, every packet is out. */
  lemma ParsedIsDone(tx: Sender, rx: Receiver, flow: Flow, c: Config)
    requires FlowOk(tx, rx, flow, c) && rx.base == tx.next && tx.outgoing == [] && !Ready(rx)
    ensures flow.done == |flow.accepted| && Flatten(flow.cells) == Flatten(Records(flow.accepted))
  {
    hide LinkOk, TxRingOk, RxRingOk, Record, Flatten;
    var records := Records(flow.accepted);
    assert records[..|records|] == records;
    assert flow.cells[..rx.base] == flow.cells;
    if flow.done < |flow.accepted| {
      ChunkLength(records, flow.done);
    }
  }

  /** Nothing is left to do, or the 32-bit sequence space is used up. */
  ghost predicate Finished(w: World)
    requires Invariant(w)
  {
    Outstanding(w) == 0 || w.left.endpoint.tx.next == UINT32_MAX
  }

  lemma IdleIsFinished(w: World, b: Beat, sent: nat)
    requires Good(w) && Clean(w) && Idle(w, b)
    requires SentBy(w.left.endpoint.tx.ring, sent) && Late(w.left.config, sent, b.frame)
    ensures Finished(w)
  {
    hide Build, FlowOk, FramesOk, SentBy, Late, Received, InTransmit, Pulled;
    var e, rx, flow := Pulled(w, b).left.endpoint, w.right.endpoint.rx, FlowFrom(w.left, w.right);
    if InFlight(e.tx.ring) > 0 {
      LateFrameRepeats(e, w.left.config, sent, b.frame);
    }
    NoneInFlight(e.tx.ring);
    FlowMeans(e.tx, rx, flow, w.right.config, rx.base);
    NextIsMissing(e.tx, rx);
    SilenceKeepsRing(e, w.left.config, b.frame);
    if e.tx.next != UINT32_MAX {
      ParsedIsDone(e.tx, rx, flow, w.right.config);
      assert w.right.dequeued + [] == w.right.dequeued;
      assert Lacking(w) == {} by { AllReceived(w); }
    }
  }

  lemma AllReceived(w: World)
    requires Invariant(w) && w.right.endpoint.rx.base == w.left.endpoint.tx.next
    ensures Lacking(w) == {}
  {
  }

  lemma NextIsMissing(tx: Sender, rx: Receiver)
    requires !Ready(rx) && forall cell <- tx.ring :: !cell.occupied
    ensures !Received(rx, rx.base) && !InTransmit(tx, rx.base)
  {
  }

  // ---------------------------------------------------------------------
  // Many exchanges
  // ---------------------------------------------------------------------

  /** Frames are 64-bit numbers that grow from exchange to exchange, and the application has room for a packet. */
  predicate Timely(c: Config, beats: seq<Beat>, sent: nat) {
    && (forall b <- beats :: c.maxPacket <= b.room && sent < b.frame < TWO_64)
    && forall i, j | 0 <= i < j < |beats| :: beats[i].frame < beats[j].frame
  }

  function LastFrame(beats: seq<Beat>, sent: nat): nat {
    if beats == [] then sent else beats[|beats| - 1].frame
  }

  lemma TimelyParts(c: Config, beats: seq<Beat>, sent: nat, n: nat)
    requires Timely(c, beats, sent) && n <= |beats|
    ensures Timely(c, beats[..n], sent) && Timely(c, beats[n..], LastFrame(beats[..n], sent))
    ensures n < |beats| ==> LastFrame(beats[..n], sent) < beats[n].frame < TWO_64 && c.maxPacket <= beats[n].room
    ensures sent <= LastFrame(beats[..n], sent)
  {
    if n > 0 {
      assert beats[n - 1] in beats;
    }
    forall b | b in beats[n..]
      ensures b in beats && LastFrame(beats[..n], sent) < b.frame
    {
      var i :| 0 <= i < |beats[n..]| && beats[n..][i] == b;
      assert b == beats[n + i];
    }
  }

  lemma {:induction false} FramesAddUp(c: Config, beats: seq<Beat>, sent: nat)
    requires Timely(c, beats, sent)
    ensures sent + |beats| <= LastFrame(beats, sent)
  {
    if beats != [] {
      TimelyParts(c, beats, sent, |beats| - 1);
      FramesAddUp(c, beats[..|beats| - 1], sent);
    }
  }

  lemma {:induction false} ExchangesJoin(w: World, first: seq<Beat>, rest: seq<Beat>)
    ensures Exchanges(w, first + rest) == Exchanges(Exchanges(w, first), rest)
  {
    hide Exchange;
    if rest == [] {
      assert first + rest == first;
    } else {
      var n := |rest|;
      ExchangesJoin(w, first, rest[..n - 1]);
      assert (first + rest)[..|first + rest| - 1] == first + rest[..n - 1];
    }
  }

  lemma {:induction false} ExchangesMove(w: World, beats: seq<Beat>, sent: nat)
    requires Good(w) && SentBy(w.left.endpoint.tx.ring, sent) && Timely(w.left.config, beats, sent)
    ensures var after := Exchanges(w, beats);
            && Good(after) && Later(w, after) && Outstanding(after) <= Outstanding(w)
            && (beats != [] && !beats[|beats| - 1].crossing ==> Clean(after))
            && SentBy(after.left.endpoint.tx.ring, LastFrame(beats, sent))
            && (Clean(w) && Outstanding(after) == Outstanding(w) ==> Clean(after) && SentBy(after.left.endpoint.tx.ring, sent))
  {
    hide Good, Invariant, Settled, Clean, SentBy, Exchange, Outstanding, Idle, Timely;
    GoodParts(w);
    if beats != [] {
      var n := |beats| - 1;
      var before := Exchanges(w, beats[..n]);
      TimelyParts(w.left.config, beats, sent, n);
      ExchangesMove(w, beats[..n], sent);
      GoodParts(before);
      ExchangeMoves(before, beats[n], LastFrame(beats[..n], sent));
      GoodParts(Exchanges(w, beats));
      if Clean(w) && Outstanding(Exchanges(w, beats)) == Outstanding(w) {
        ExchangeMoves(before, beats[n], sent);
      }
    }
  }

  /** Patience exchanges from a clean world leave less to do, unless nothing is left. */
  lemma PatienceHelps(w: World, beats: seq<Beat>, sent: nat)
    requires Good(w) && Clean(w) && SentBy(w.left.endpoint.tx.ring, sent) && Timely(w.left.config, beats, sent)
    requires |beats| == Patience(w.left.config.retransmitAfter)
    ensures Good(Exchanges(w, beats))
    ensures Outstanding(Exchanges(w, beats)) < Outstanding(w) || Finished(Exchanges(w, beats))
  {
    hide Good, Invariant, Settled, Clean, SentBy, Exchange, Outstanding, Idle, Timely, Finished;
    GoodParts(w);
    ExchangesMove(w, beats, sent);
    var n := |beats| - 1;
    TimelyParts(w.left.config, beats, sent, n);
    FramesAddUp(w.left.config, beats, sent);
    var before := Exchanges(w, beats[..n]);
    ExchangesMove(w, beats[..n], sent);
    GoodParts(before);
    GoodParts(Exchanges(w, beats));
    ExchangeMoves(before, beats[n], LastFrame(beats[..n], sent));
    if Outstanding(Exchanges(w, beats)) == Outstanding(w) {
      ExchangeMoves(before, beats[n], sent);
      IdleIsFinished(before, beats[n], sent);
      FinishedStays(before, Exchanges(w, beats));
    }
  }

  lemma FinishedStays(w: World, after: World)
    requires Good(w) && Good(after) && Finished(w) && Later(w, after) && Outstanding(after) <= Outstanding(w)
    ensures Finished(after)
  {
    hide Invariant, Outstanding;
    NothingOutstanding(after);
  }

  /** When nothing is left to do the application has everything, and a clean sender holds no cell. */
  lemma NothingOutstanding(w: World)
    requires Good(w)
    ensures Outstanding(w) >= 0
    ensures Outstanding(w) == 0 ==> w.right.dequeued == w.left.accepted
    ensures Outstanding(w) == 0 && Clean(w) ==> forall s: nat :: !InTransmit(w.left.endpoint.tx, s)
  {
    hide FlowOk, FramesOk, Records, Flatten, Received, InTransmit;
    UnsentShrinks(w, w);
    assert Delivered(w.right) <= w.left.accepted;
    if Outstanding(w) == 0 {
      assert Lacking(w) == {};
      forall s: nat | InTransmit(w.left.endpoint.tx, s)
        ensures s < w.left.endpoint.tx.next && Received(w.right.endpoint.rx, s)
      {
        FlowMeans(w.left.endpoint.tx, w.right.endpoint.rx, FlowFrom(w.left, w.right), w.right.config, s);
        assert s !in Lacking(w);
      }
    }
  }

  /** After the first n exchanges the rest go on from where they led. */
  lemma SplitExchanges(w: World, beats: seq<Beat>, sent: nat, n: nat)
    requires Good(w) && SentBy(w.left.endpoint.tx.ring, sent) && Timely(w.left.config, beats, sent) && n <= |beats|
    ensures var (first, rest) := (beats[..n], beats[n..]);
            var (mid, after) := (Exchanges(w, first), Exchanges(w, beats));
            && Timely(w.left.config, first, sent) && Timely(mid.left.config, rest, LastFrame(first, sent))
            && after == Exchanges(mid, rest) && Good(mid) && Good(after) && Later(w, mid) && Later(mid, after)
            && SentBy(mid.left.endpoint.tx.ring, LastFrame(first, sent)) 
            && (n > 0 && !beats[n - 1].crossing ==> Clean(mid))
            && Outstanding(after) <= Outstanding(mid) <= Outstanding(w)
  {
    hide Good, Invariant, Settled, Clean, SentBy, Exchange, Outstanding, Timely, Exchanges;
    GoodParts(w);
    var first, rest := beats[..n], beats[n..];
    assert beats == first + rest;
    TimelyParts(w.left.config, beats, sent, n);
    ExchangesJoin(w, first, rest);
    ExchangesMove(w, first, sent);
    var mid := Exchanges(w, first);
    GoodParts(mid);
    ExchangesMove(mid, rest, LastFrame(first, sent));
    GoodParts(Exchanges(w, beats));
  }

  /** The patience of a sender, and one exchange more when frames may cross. */
  function Pause(retransmitAfter: nat, crossing: bool): (beats: nat)
    ensures beats >= 4
  {
    Patience(retransmitAfter) + if crossing then 1 else 0
  }

  predicate Orderly(beats: seq<Beat>, crossing: bool) {
    forall i | 0 <= i < |beats| :: beats[i].crossing ==> crossing
  }

  /** A pause leaves less to do, unless nothing is left; after exchanges that do not cross the sender knows all. */
  lemma PauseHelps(w: World, beats: seq<Beat>, sent: nat, crossing: bool)
    requires Good(w) && (crossing || Clean(w)) && SentBy(w.left.endpoint.tx.ring, sent) && Timely(w.left.config, beats, sent)
    requires |beats| == Pause(w.left.config.retransmitAfter, crossing)
    ensures Good(Exchanges(w, beats))
    ensures Outstanding(Exchanges(w, beats)) < Outstanding(w) || Finished(Exchanges(w, beats))
  {
    hide Good, Invariant, Settled, Clean, SentBy, Exchange, Exchanges, Outstanding, Idle, Timely, Finished, Patience;
    if !crossing {
      PatienceHelps(w, beats, sent);
    } else {
      GoodParts(w);
      SplitExchanges(w, beats, sent, 1);
      var mid := Exchanges(w, beats[..1]);
      GoodParts(mid);
      GoodParts(Exchanges(w, beats));
      OneExchange(w, beats[0]);
      assert beats[..1] == [beats[0]];
      TimelyParts(w.left.config, beats, sent, 0);
      ExchangeMoves(w, beats[0], sent);
      if Outstanding(mid) == Outstanding(w) {
        PatienceHelps(mid, beats[1..], LastFrame(beats[..1], sent));
      }
    }
  }

  lemma OneExchange(w: World, b: Beat)
    ensures Exchanges(w, [b]) == Exchange(w, b)
  {
    hide Exchange;
    assert [b][..0] == [];
  }

  lemma {:induction false} PausesFinish(w: World, beats: seq<Beat>, sent: nat, crossing: bool, times: nat)
    requires Good(w) && (crossing || Clean(w)) && SentBy(w.left.endpoint.tx.ring, sent) && Timely(w.left.config, beats, sent)
    requires Orderly(beats, crossing)
    requires Outstanding(w) <= times && times * Pause(w.left.config.retransmitAfter, crossing) <= |beats|
    ensures Good(Exchanges(w, beats)) && Finished(Exchanges(w, beats))
    decreases times
  {
    hide Good, Invariant, Settled, Clean, SentBy, Outstanding, Timely, Exchanges, Pause;
    GoodParts(w);
    NothingOutstanding(w);
    SplitExchanges(w, beats, sent, 0);
    GoodParts(Exchanges(w, beats));
    if Outstanding(w) == 0 {
      FinishedStays(w, Exchanges(w, beats));
    } else {
      var p := Pause(w.left.config.retransmitAfter, crossing);
      assert times * p == (times - 1) * p + p;
      SplitExchanges(w, beats, sent, p);
      PauseHelps(w, beats[..p], sent, crossing);
      var mid := Exchanges(w, beats[..p]);
      GoodParts(mid);
      if Finished(mid) {
        FinishedStays(mid, Exchanges(w, beats));
      } else {
        PausesFinish(mid, beats[p..], LastFrame(beats[..p], sent), crossing, times - 1);
      }
    }
  }

  lemma {:induction false} CellsTakeBytes(cells: Chunks)
    requires forall i | 0 <= i < |cells| :: cells[i] != []
    ensures |cells| <= |Flatten(cells)|
  {
    if cells != [] {
      CellsTakeBytes(cells[..|cells| - 1]);
    }
  }

  /** The sequence space lasts for every stream of records below its size. */
  lemma SpaceLasts(w: World)
    requires Invariant(w)
    ensures Queueable(w.left.accepted)
    ensures |Flatten(Records(w.left.accepted))| < UINT32_MAX ==> w.left.endpoint.tx.next < UINT32_MAX
  {
    hide Flatten, Records, LinkOk, ReceiverOk, FramesOk;
    SentIsPrefix(w.left.endpoint.tx, w.right.endpoint.rx, FlowFrom(w.left, w.right), w.right.config);
    CellsTakeBytes(w.left.cells);
  }

  /** From a good world: enough exchanges without loss bring everything over. */
  lemma GoodDelivers(w: World, beats: seq<Beat>, sent: nat, crossing: bool)
    requires Good(w) && SentBy(w.left.endpoint.tx.ring, sent) && Timely(w.left.config, beats, sent) && Orderly(beats, crossing)
    ensures Invariant(w)
    ensures 1 + Outstanding(w) * Pause(w.left.config.retransmitAfter, crossing) <= |beats| ==>
              var after := Exchanges(w, beats);
              && (after.left.endpoint.tx.next == UINT32_MAX ==> UINT32_MAX <= |Flatten(Records(w.left.accepted))|)
              && (after.left.endpoint.tx.next < UINT32_MAX ==>
                    && after.left.accepted == w.left.accepted == after.right.dequeued
                    && forall s: nat :: !InTransmit(after.left.endpoint.tx, s))
  {
    hide Good, Invariant, Settled, Clean, SentBy, Exchange, Outstanding, Timely, Exchanges, Flatten, Pause;
    GoodParts(w);
    var n := |beats|;
    if 1 + Outstanding(w) * Pause(w.left.config.retransmitAfter, crossing) <= n {
      NothingOutstanding(w);
      var after := Exchanges(w, beats);
      if crossing {
        CrossingDelivers(w, beats, sent);
      } else {
        SplitExchanges(w, beats, sent, 1);
        var next := Exchanges(w, beats[..1]);
        GoodParts(next);
        PausesFinish(next, beats[1..], LastFrame(beats[..1], sent), false, Outstanding(w));
        SplitExchanges(w, beats, sent, n);
        assert beats[..n] == beats;
      }
      GoodParts(after);
      NothingOutstanding(after);
      SpaceLasts(after);
      SplitExchanges(w, beats, sent, n);
    }
  }

  /** When nothing is left to do, one exchange more tells the sender so. */
  lemma CrossingDelivers(w: World, beats: seq<Beat>, sent: nat)
    requires Good(w) && SentBy(w.left.endpoint.tx.ring, sent) && Timely(w.left.config, beats, sent)
    requires 1 + Outstanding(w) * Pause(w.left.config.retransmitAfter, true) <= |beats|
    ensures Good(Exchanges(w, beats)) && Finished(Exchanges(w, beats))
    ensures Outstanding(Exchanges(w, beats)) == 0 ==> Clean(Exchanges(w, beats)) || Exchanges(w, beats).left.endpoint.tx.next == UINT32_MAX
  {
    hide Good, Invariant, Settled, Clean, SentBy, Exchange, Outstanding, Timely, Pause;
    GoodParts(w);
    NothingOutstanding(w);
    var outstanding: nat, pause := Outstanding(w), Pause(w.left.config.retransmitAfter, true);
    assert outstanding * pause >= 0;
    var n := |beats| - 1;
    SplitExchanges(w, beats, sent, n);
    var before, after := Exchanges(w, beats[..n]), Exchanges(w, beats);
    GoodParts(before);
    GoodParts(after);
    TimelyParts(w.left.config, beats, sent, n);
    PausesFinish(w, beats[..n], sent, true, Outstanding(w));
    NothingOutstanding(after);
    FinishedStays(before, after);
    ExchangeMoves(before, beats[n], LastFrame(beats[..n], sent));
  }

  /**
   From every world a run reaches, whatever was lost before: after one exchange
   without loss, and then a pause for each packet, byte and cell that is
   outstanding, the application at the right end has dequeued everything the
   left end accepted and the left end holds no cell.  Frames may cross or not.
   Only 4 GB of records in one generation can use up the sequence space before.
   */
  lemma EverythingArrives(w: World, beats: seq<Beat>, sent: nat, crossing: bool)
    requires Reachable(w) && SentBy(w.left.endpoint.tx.ring, sent) && Timely(w.left.config, beats, sent) && Orderly(beats, crossing)
    ensures Invariant(w)
    ensures 1 + Outstanding(w) * Pause(w.left.config.retransmitAfter, crossing) <= |beats| ==>
              var after := Exchanges(w, beats);
              && (after.left.endpoint.tx.next == UINT32_MAX ==> UINT32_MAX <= |Flatten(Records(w.left.accepted))|)
              && (after.left.endpoint.tx.next < UINT32_MAX ==>
                    && after.left.accepted == w.left.accepted == after.right.dequeued
                    && forall s: nat :: !InTransmit(after.left.endpoint.tx, s))
  {
    hide Reachable, Good, Invariant, SentBy, Outstanding, Timely, Exchanges, Flatten, Pause, Orderly;
    ReachableIsGood(w);
    GoodDelivers(w, beats, sent, crossing);
  }

  // ---------------------------------------------------------------------
  // The other direction
  // ---------------------------------------------------------------------

  function Mirror(events: seq<Event>): seq<Event> {
    seq(|events|, i requires 0 <= i < |events| => events[i].(atLeft := !events[i].atLeft))
  }

  lemma StepMirrors(w: World, event: Event)
    ensures Step(Swap(w), event.(atLeft := !event.atLeft)) == Swap(Step(w, event))
  {
    hide EnqueueLeft, DequeueLeft, BuildLeft, DeliverLeft;
  }

  lemma {:induction false} RunMirrors(w: World, events: seq<Event>)
    ensures Run(Swap(w), Mirror(events)) == Swap(Run(w, events))
  {
    hide Step;
    if events != [] {
      var n := |events| - 1;
      RunMirrors(w, events[..n]);
      assert Mirror(events)[..n] == Mirror(events[..n]);
      StepMirrors(Run(w, events[..n]), events[n]);
    }
  }

  /** What a run reaches, a run reaches with the ends exchanged, so everything arrives in both directions. */
  lemma ReachableSwaps(w: World)
    requires Reachable(w)
    ensures Reachable(Swap(w))
  {
    hide Run, Step;
    var c: Config, d: Config, r: bv32, q: bv32, events: seq<Event> :|
      ValidConfig(c) && ValidConfig(d) && c.maxPacket == d.maxPacket && w == Run(Start(c, d, r, q), events);
    RunMirrors(Start(c, d, r, q), events);
    assert Swap(w) == Run(Start(d, c, q, r), Mirror(events));
  }

  // ---------------------------------------------------------------------
  // Exchanges that cross treat both ends alike
  // ---------------------------------------------------------------------

  /** An end that built this frame and then heard that one. */
  function Met(end: End, frame: nat, heard: Frame): End
    requires ValidSender(end.endpoint.tx)
  {
    var (after, f) := Build(end.endpoint, end.config, frame);
    end.(endpoint := Process(after, end.config, heard).0,
         cells := CellsAfter(Flow(end.accepted, end.cells, 0), end.endpoint.tx, after.tx).cells,
         sent := end.sent + [f])
  }

  function Spoken(end: End, frame: nat): Frame
    requires ValidSender(end.endpoint.tx)
  {
    Build(end.endpoint, end.config, frame).1
  }

  lemma PulledSent(w: World, b: Beat)
    ensures Pulled(w, b).left.sent == w.left.sent && Pulled(w, b).right.sent == w.right.sent
    ensures Pulled(Swap(w), Turned(b)) == Swap(Pulled(w, b))
  {
    hide Dequeue;
  }

  lemma CrossingEnds(w: World, b: Beat)
    requires b.crossing && ValidSender(Pulled(w, b).left.endpoint.tx) && ValidSender(Pulled(w, b).right.endpoint.tx)
    ensures var p := Pulled(w, b);
            Exchange(w, b) == World(Met(p.left, b.frame, Spoken(p.right, b.answer)), Met(p.right, b.answer, Spoken(p.left, b.frame)))
  {
    hide Pulled, Build, Process, CellsAfter, ValidSender;
    PulledSent(w, b);
  }

  /** The same exchange seen from the other end. */
  function Turned(b: Beat): Beat {
    Beat(b.other, b.room, b.answer, b.frame, b.crossing)
  }

  lemma ExchangeSwaps(w: World, b: Beat)
    requires b.crossing && ValidSender(Pulled(w, b).left.endpoint.tx) && ValidSender(Pulled(w, b).right.endpoint.tx)
    ensures Exchange(Swap(w), Turned(b)) == Swap(Exchange(w, b))
  {
    hide Pulled, Build, Process, CellsAfter, ValidSender, Exchange;
    PulledSent(w, b);
    CrossingEnds(w, b);
    CrossingEnds(Swap(w), Turned(b));
  }
}
