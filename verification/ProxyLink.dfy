/**
 One end of the audio proxy as a state machine: the token holder sends windows
 of cells and repairs them from bitmap acknowledgements; the other end collects
 cells, writes the packets, and takes the token over.
 Sequence and turn numbers are unbounded here; ProxyWrap.dfy cuts them to 16 bits.
 */
module ProxyLink {
  import opened Bytes
  import opened Common
  import opened PacketTransport
  import opened ProxyWire

  /** Body limits of the two directions as this end sees them, and its retry limit. */
  datatype Limits = Limits(transmit: nat, receive: nat, retries: nat)

  const ROUNDS_PER_RETRY := 2

  /** A window message carries EncodeCell(cell); see ProxyWire.CellReads. */
  datatype Message =
    | Window(sequence: nat, cell: Cell)
    | WindowAck(sequence: nat, id: uint32, bitmap: seq<bool>, complete: bool, yielding: bool)
    | Turn(turn: nat)
    | TurnAck(turn: nat)
    | Commit(turn: nat)

  /** Where the program of this end stands; in every mode but the first it waits for a message. */
  datatype Mode =
    | Holding
    | Sending(batch: seq<byte>, yielding: bool, pending: seq<bool>, attempt: nat)
    | Yielding(attempt: nat)
    | Receiving(misses: nat)
    | AcceptingTurn(attempt: nat)
    | AcceptingWindow(sequence: nat, id: uint32, count: nat, attempt: nat)
    | Ended(status: Status)

  datatype LastCommit = LastCommit(turn: nat, piggybacked: bool, sequence: nat, id: uint32)

  datatype Done = Done(id: uint32, sequence: nat, count: nat, yieldRequested: bool, yieldAccepted: bool)

  /** The window being received; `total == 0` when none has begun. */
  datatype Inbox = Inbox(sequence: nat, total: nat, id: uint32, count: nat, bitmap: seq<bool>, yielding: bool, buffer: seq<byte>)

  datatype Node = Node(
    mode: Mode,
    turn: nat,
    lastCommit: Option<LastCommit>,
    txSequence: nat,
    batchId: uint32,
    inbox: Inbox,
    lastDone: Option<Done>,
    written: seq<Packet>)

  predicate HoldsToken(n: Node) {
    n.mode.Holding? || n.mode.Sending? || n.mode.Yielding?
  }

  predicate Accepting(n: Node) {
    n.mode.AcceptingTurn? || n.mode.AcceptingWindow?
  }

  // ---------------------------------------------------------------------
  // Windows and their cells
  // ---------------------------------------------------------------------

  function CellCount(total: nat, capacity: nat): nat
    requires capacity > 0
  {
    (total + capacity - 1) / capacity
  }

  function CellStart(capacity: nat, index: nat): nat {
    index * capacity
  }

  function CellEnd(total: nat, capacity: nat, index: nat): nat {
    if total < CellStart(capacity, index) + capacity then total else CellStart(capacity, index) + capacity
  }

  predicate Covers(batch: seq<byte>, capacity: nat, count: nat) {
    forall i: nat | i < count :: CellStart(capacity, i) <= |batch|
  }

  /** Cell `index` of a batch; `end` asks the receiver to acknowledge. */
  function CellAt(batch: seq<byte>, id: uint32, yielding: bool, capacity: nat, count: nat, index: nat, end: bool): Cell
    requires CellStart(capacity, index) <= |batch|
  {
    Cell(id, |batch|, yielding, CellStart(capacity, index), index, end, count,
         batch[CellStart(capacity, index)..CellEnd(|batch|, capacity, index)])
  }

  function EndMarker(batch: seq<byte>, id: uint32, yielding: bool, count: nat): Cell {
    Cell(id, |batch|, yielding, |batch|, count, true, count, [])
  }

  function Full(count: nat): (bitmap: seq<bool>)
    ensures |bitmap| == count
  {
    seq(count, _ => true)
  }

  function Missing(bitmap: seq<bool>): (pending: seq<bool>)
    ensures |pending| == |bitmap|
  {
    seq(|bitmap|, i requires 0 <= i < |bitmap| => !bitmap[i])
  }

  /** The pending cells from `index` on; the last of them ends the round. */
  function PendingCells(sequence: nat, batch: seq<byte>, id: uint32, yielding: bool, capacity: nat, pending: seq<bool>, index: nat): seq<Message>
    requires index <= |pending| && Covers(batch, capacity, |pending|)
    decreases |pending| - index
  {
    if index == |pending| then []
    else
      var rest := PendingCells(sequence, batch, id, yielding, capacity, pending, index + 1);
      if pending[index] then
        [Window(sequence, CellAt(batch, id, yielding, capacity, |pending|, index, rest == []))] + rest
      else rest
  }

  function RoundMessages(sequence: nat, batch: seq<byte>, id: uint32, yielding: bool, capacity: nat, pending: seq<bool>): seq<Message>
    requires Covers(batch, capacity, |pending|)
  {
    var cells := PendingCells(sequence, batch, id, yielding, capacity, pending, 0);
    if cells == [] then [Window(sequence, EndMarker(batch, id, yielding, |pending|))] else cells
  }

  // ---------------------------------------------------------------------
  // The token holder
  // ---------------------------------------------------------------------

  predicate SendingOk(n: Node, limits: Limits) {
    && n.mode.Sending? && limits.transmit > WINDOW_HEADER
    && Covers(n.mode.batch, limits.transmit - WINDOW_HEADER, |n.mode.pending|)
  }

  /** The messages of the round the mode says to send, or the end of the session after too many. */
  function NextRound(n: Node, limits: Limits): (Node, seq<Message>) {
    if !SendingOk(n, limits) then (n, [])
    else if n.mode.attempt >= limits.retries * ROUNDS_PER_RETRY then (n.(mode := Ended(ErrTimeout)), [])
    else (n, RoundMessages(n.txSequence, n.mode.batch, n.batchId, n.mode.yielding, limits.transmit - WINDOW_HEADER, n.mode.pending))
  }

  /** Starts a window with the packets of a batch. */
  function StartWindow(n: Node, limits: Limits, packets: seq<Packet>, yielding: bool): (Node, seq<Message>)
    requires AllValid(packets) && |packets| < 0x100
  {
    var id := (n.batchId + 1) % TWO_32;
    var batch := BatchBytes(id, yielding, packets);
    if limits.transmit <= WINDOW_HEADER || |batch| <= BATCH_HEADER || |batch| > WINDOW_MAX then
      (n.(batchId := id, mode := Ended(ErrArgument)), [])
    else
      var count := CellCount(|batch|, limits.transmit - WINDOW_HEADER);
      if count > MAX_CELLS then (n.(batchId := id, mode := Ended(ErrCapacity)), [])
      else NextRound(n.(batchId := id, mode := Sending(batch, yielding, Full(count), 0)), limits)
  }

  /** Gives the token away: the commit is sent once here and again whenever the peer repeats its acceptance. */
  function CommitToken(n: Node, piggybacked: bool, sequence: nat, id: uint32): (Node, seq<Message>) {
    (n.(mode := Receiving(0), turn := n.turn + 1, lastCommit := Some(LastCommit(n.turn, piggybacked, sequence, id))),
     [Commit(n.turn)])
  }

  predicate AckUsable(n: Node, m: Message)
    requires n.mode.Sending? && m.WindowAck?
  {
    m.id == n.batchId && |m.bitmap| == |n.mode.pending| && (m.yielding ==> n.mode.yielding)
  }

  /** An acknowledgement of the window under way ends it, or names the cells to repair. */
  function TakeWindowAck(n: Node, limits: Limits, m: Message): (Node, seq<Message>)
    requires n.mode.Sending? && m.WindowAck?
  {
    if AckUsable(n, m) then
      if m.complete && m.bitmap == Full(|m.bitmap|) then
        var finished := n.(txSequence := n.txSequence + 1);
        if m.yielding then CommitToken(finished, true, n.txSequence, n.batchId)
        else (finished.(mode := Holding), [])
      else NextRound(n.(mode := n.mode.(pending := Missing(m.bitmap), attempt := n.mode.attempt + 1)), limits)
    else Probe(n, limits)
  }

  /** Asks for the bitmap before repeating any cell. */
  function Probe(n: Node, limits: Limits): (Node, seq<Message>)
    requires n.mode.Sending?
  {
    NextRound(n.(mode := n.mode.(pending := Missing(Full(|n.mode.pending|)), attempt := n.mode.attempt + 1)), limits)
  }

  function OfferTurn(n: Node, limits: Limits, attempt: nat): (Node, seq<Message>) {
    if attempt >= limits.retries then (n.(mode := Ended(ErrTimeout)), [])
    else (n.(mode := Yielding(attempt)), [Turn(n.turn)])
  }

  // ---------------------------------------------------------------------
  // The other end
  // ---------------------------------------------------------------------

  function AcceptTurn(n: Node, limits: Limits, attempt: nat): (Node, seq<Message>) {
    if attempt >= limits.retries then (n.(mode := Ended(ErrTimeout)), [])
    else (n.(mode := AcceptingTurn(attempt)), [TurnAck(n.turn)])
  }

  function AcceptWindow(n: Node, limits: Limits, sequence: nat, id: uint32, count: nat, attempt: nat): (Node, seq<Message>) {
    if attempt >= limits.retries then (n.(mode := Ended(ErrTimeout)), [])
    else (n.(mode := AcceptingWindow(sequence, id, count, attempt)), [WindowAck(sequence, id, Full(count), true, true)])
  }

  function Fail(n: Node, status: Status): (Node, seq<Message>) {
    (n.(mode := Ended(status)), [])
  }

  /** The inbox for the window of the cell: a new one, or the one begun if they agree. */
  function OpenInbox(inbox: Inbox, c: Cell): Option<Inbox> {
    if inbox.total == 0 then
      Some(inbox.(id := c.id, total := c.total, count := c.count, bitmap := seq(c.count, _ => false), yielding := c.yielding))
    else if c.id != inbox.id || c.total != inbox.total || c.count != inbox.count || c.yielding != inbox.yielding then None
    else Some(inbox)
  }

  function Spliced(buffer: seq<byte>, offset: nat, bytes: seq<byte>): (b: seq<byte>)
    requires offset + |bytes| <= |buffer|
    ensures |b| == |buffer|
  {
    buffer[..offset] + bytes + buffer[offset + |bytes|..]
  }

  /** Stores a cell that is where its index says and as long as it must be. */
  function StoreCell(inbox: Inbox, c: Cell, capacity: nat): Option<Inbox>
    requires CellValid(c) && |inbox.buffer| == WINDOW_MAX
  {
    if c.index == c.count then Some(inbox)
    else if CellStart(capacity, c.index) >= c.total || c.offset != CellStart(capacity, c.index) ||
            |c.payload| != CellEnd(c.total, capacity, c.index) - c.offset || c.index >= |inbox.bitmap| then None
    else if inbox.bitmap[c.index] then Some(inbox)
    else Some(inbox.(bitmap := inbox.bitmap[c.index := true], buffer := Spliced(inbox.buffer, c.offset, c.payload)))
  }

  /** Writes a window that is whole, answers it, and takes the token when it is offered and wanted. */
  function FinishWindow(n: Node, limits: Limits, sequence: nat, c: Cell, wanted: bool): (Node, seq<Message>)
    requires n.inbox.total <= |n.inbox.buffer|
  {
    match InspectBatch(n.inbox.buffer[..n.inbox.total])
    case None => Fail(n, ErrHeader)
    case Some(batch) =>
      if batch.id != c.id || batch.yielding != c.yielding then Fail(n, ErrHeader)
      else
        var accepted := c.yielding && wanted;
        var finished := n.(
          written := n.written + batch.packets,
          inbox := n.inbox.(sequence := n.inbox.sequence + 1, total := 0, count := 0, bitmap := [], yielding := false),
          lastDone := Some(Done(c.id, sequence, c.count, c.yielding, accepted)));
        if accepted then AcceptWindow(finished, limits, sequence, c.id, c.count, 0)
        else (finished, [WindowAck(sequence, c.id, Full(c.count), true, false)])
  }

  /** Takes a cell into the window with the number this end waits for. */
  function TakeCell(n: Node, limits: Limits, sequence: nat, c: Cell, wanted: bool): (Node, seq<Message>)
    requires CellValid(c) && limits.receive > WINDOW_HEADER && |n.inbox.buffer| == WINDOW_MAX
  {
    match OpenInbox(n.inbox, c)
    case None => Fail(n, ErrHeader)
    case Some(open) =>
      match StoreCell(open, c, limits.receive - WINDOW_HEADER)
      case None => Fail(n.(inbox := open), ErrHeader)
      case Some(inbox) =>
        var stored := n.(inbox := inbox);
        if !c.end then (stored, [])
        else if inbox.bitmap != Full(c.count) then (stored, [WindowAck(sequence, c.id, inbox.bitmap, false, false)])
        else if inbox.total > |inbox.buffer| then Fail(stored, ErrHeader)
        else FinishWindow(stored, limits, sequence, c, wanted)
  }

  /** A cell of the window finished last is only answered; any other is taken if its number is due. */
  function ReceiveWindow(n: Node, limits: Limits, sequence: nat, c: Cell, wanted: bool): (Node, seq<Message>)
    requires |n.inbox.buffer| == WINDOW_MAX
  {
    if limits.receive <= WINDOW_HEADER then Fail(n, ErrArgument)
    else if !CellValid(c) || CellCount(c.total, limits.receive - WINDOW_HEADER) != c.count then Fail(n, ErrHeader)
    else if n.lastDone.Some? && c.id == n.lastDone.value.id && sequence == n.lastDone.value.sequence then
      var done := n.lastDone.value;
      if c.count != done.count || c.yielding != done.yieldRequested then Fail(n, ErrHeader)
      else (n, if c.end then [WindowAck(sequence, c.id, Full(c.count), true, done.yieldAccepted)] else [])
    else if sequence != n.inbox.sequence then (n, [])
    else TakeCell(n, limits, sequence, c, wanted)
  }

  /** A repeated acceptance of the token given away last is answered with its commit again. */
  predicate AsksForCommit(n: Node, m: Message) {
    n.lastCommit.Some? &&
    var last := n.lastCommit.value;
    || (m.TurnAck? && !last.piggybacked && m.turn == last.turn)
    || (m.WindowAck? && last.piggybacked && m.sequence == last.sequence && m.yielding && m.id == last.id)
  }

  function ReceiveAny(n: Node, limits: Limits, m: Message, wanted: bool): (Node, seq<Message>)
    requires |n.inbox.buffer| == WINDOW_MAX
  {
    var awake := n.(mode := Receiving(0));
    if m.Window? then ReceiveWindow(awake, limits, m.sequence, m.cell, wanted)
    else if m.Turn? then
      if m.turn != n.turn then Fail(n, ErrHeader) else AcceptTurn(awake, limits, 0)
    else if AsksForCommit(n, m) then (awake, [Commit(n.lastCommit.value.turn)])
    else (awake, [])
  }

  // ---------------------------------------------------------------------
  // Steps
  // ---------------------------------------------------------------------

  /** `wanted` says whether packets wait here when a token is offered. */
  function Deliver(n: Node, limits: Limits, m: Message, wanted: bool): (Node, seq<Message>)
    requires |n.inbox.buffer| == WINDOW_MAX
  {
    match n.mode
    case Holding => (n, [])
    case Sending(_, _, _, _) =>
      if m.WindowAck? && m.sequence == n.txSequence then TakeWindowAck(n, limits, m) else (n, [])
    case Yielding(_) =>
      if m == TurnAck(n.turn) then CommitToken(n, false, 0, 0) else (n, [])
    case Receiving(_) => ReceiveAny(n, limits, m, wanted)
    case AcceptingTurn(attempt) =>
      if m == Commit(n.turn) then (n.(mode := Holding, turn := n.turn + 1), [])
      else if m == Turn(n.turn) then AcceptTurn(n, limits, attempt + 1)
      else (n, [])
    case AcceptingWindow(sequence, id, count, attempt) =>
      if m == Commit(n.turn) then (n.(mode := Holding, turn := n.turn + 1), [])
      else if m.Window? && m.sequence == sequence && CellValid(m.cell) && m.cell.id == id && m.cell.yielding && m.cell.end then
        AcceptWindow(n, limits, sequence, id, count, attempt + 1)
      else (n, [])
    case Ended(_) => (n, [])
  }

  /** Nothing usable arrived in time. */
  function Timeout(n: Node, limits: Limits): (Node, seq<Message>) {
    match n.mode
    case Holding => (n, [])
    case Sending(_, _, _, _) => Probe(n, limits)
    case Yielding(attempt) => OfferTurn(n, limits, attempt + 1)
    case Receiving(misses) => if misses + 1 > limits.retries + 1 then Fail(n, ErrTimeout) else (n.(mode := Receiving(misses + 1)), [])
    case AcceptingTurn(attempt) => AcceptTurn(n, limits, attempt + 1)
    case AcceptingWindow(sequence, id, count, attempt) => AcceptWindow(n, limits, sequence, id, count, attempt + 1)
    case Ended(_) => (n, [])
  }

  /** A turn of the holder's loop: send what the batch builder chose, or offer the token. */
  function TakeTurn(n: Node, limits: Limits, packets: seq<Packet>): (Node, seq<Message>)
    requires AllValid(packets) && |packets| < 0x100
  {
    if !n.mode.Holding? then (n, [])
    else if packets == [] then OfferTurn(n, limits, 0)
    else StartWindow(n, limits, packets, true)
  }

  function NewNode(holds: bool): (n: Node)
    ensures |n.inbox.buffer| == WINDOW_MAX
  {
    Node(if holds then Holding else Receiving(0), 0, None, 0, 0,
         Inbox(0, 0, 0, 0, [], false, seq(WINDOW_MAX, _ => 0)), None, [])
  }
}
