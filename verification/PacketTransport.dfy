/**
 The optical packet transport as functions on values: what each operation of
 the endpoint does to its transmit ring, receive ring, queues and parser.
 The class in PacketEndpoint.dfy is proved equal to these functions.
 */
module PacketTransport {
  import opened Bytes
  import opened Common

  const RECORD_BYTES := 2
  const MAX_PAYLOAD := 91
  const ACK_BYTES := 8
  const DATA_BYTES := MAX_PAYLOAD - ACK_BYTES
  const SLOTS := 16
  const MAX_QUEUE := 256
  const ACK_VERSION: byte := 1
  const PACKET_MODE: byte := 1

  type Packet = seq<byte>

  /** A transmit slot; `bytes` holds the first `length` bytes of the C array. */
  datatype TxCell = TxCell(occupied: bool, sequence: uint32, lastSent: nat, bytes: seq<byte>)

  /** A receive slot; `offset` counts the bytes the parser already took. */
  datatype RxCell = RxCell(occupied: bool, sequence: uint32, bytes: seq<byte>, offset: nat)

  const EMPTY_TX := TxCell(false, 0, 0, [])
  const EMPTY_RX := RxCell(false, 0, [], 0)

  type TxRing = s: seq<TxCell> | |s| == SLOTS witness seq(SLOTS, _ => EMPTY_TX)
  type RxRing = s: seq<RxCell> | |s| == SLOTS witness seq(SLOTS, _ => EMPTY_RX)

  datatype Config = Config(maxPacket: uint16, capacity: nat, window: nat, retransmitAfter: nat)

  predicate ValidConfig(c: Config) {
    && 1 <= c.maxPacket && 1 <= c.capacity <= MAX_QUEUE
    && 1 <= c.window <= SLOTS && 1 <= c.retransmitAfter
  }

  datatype Sender = Sender(
    ring: TxRing,
    outgoing: seq<Packet>,
    recordOffset: nat,
    next: uint32,
    remoteBase: uint32,
    random: bv32)

  /** The record parser: header bytes seen, announced length, body so far. */
  datatype Parser = Parser(headerLength: nat, expected: nat, body: seq<byte>)

  datatype Receiver = Receiver(
    ring: RxRing,
    incoming: seq<Packet>,
    parser: Parser,
    base: uint32)

  datatype Endpoint = Endpoint(tx: Sender, rx: Receiver)

  /** A stream frame: an acknowledgement header, then the bytes of a cell when `hasData`. */
  datatype Frame = Frame(sequence: uint32, payload: seq<byte>, hasData: bool)

  const START_PARSER := Parser(0, 0, [])
  function EmptyTxRing(): TxRing { seq(SLOTS, _ => EMPTY_TX) }

  function EmptyRxRing(): RxRing { seq(SLOTS, _ => EMPTY_RX) }

  lemma EmptyRings(transmit: TxRing, receive: RxRing)
    requires forall i | 0 <= i < SLOTS :: transmit[i] == EMPTY_TX && receive[i] == EMPTY_RX
    ensures transmit == EmptyTxRing() && receive == EmptyRxRing()
  {
  }

  function Min(a: nat, b: nat): nat { if a < b then a else b }

  // ---------------------------------------------------------------------
  // Records and cells
  // ---------------------------------------------------------------------

  predicate Sendable(p: Packet, maxPacket: uint16) {
    1 <= |p| <= maxPacket
  }

  /** A packet with its two-byte length in front. */
  function Record(p: Packet): (record: seq<byte>)
    requires |p| < 0x1_0000
    ensures |record| == RECORD_BYTES + |p|
  {
    WriteU16(|p|) + p
  }

  predicate Queueable(packets: seq<Packet>) {
    forall p <- packets :: 1 <= |p| < 0x1_0000
  }

  /** Takes up to `room` bytes of records from the queue, the first one from `offset` on. */
  function Serialize(outgoing: seq<Packet>, offset: nat, room: nat): (r: (seq<byte>, seq<Packet>, nat))
    requires Queueable(outgoing)
    requires outgoing != [] ==> offset < RECORD_BYTES + |outgoing[0]|
    decreases |outgoing|
  {
    if room == 0 || outgoing == [] then ([], outgoing, offset)
    else
      var record := Record(outgoing[0]);
      if room < |record| - offset then (record[offset..offset + room], outgoing, offset + room)
      else
        var (rest, queue, end) := Serialize(outgoing[1..], 0, room - (|record| - offset));
        (record[offset..] + rest, queue, end)
  }

  /** Serializing takes the record at the front as far as there is room, then goes on. */
  lemma SerializeStep(outgoing: seq<Packet>, offset: nat, room: nat)
    requires Queueable(outgoing) && outgoing != [] && offset < RECORD_BYTES + |outgoing[0]| && room > 0
    ensures var record := Record(outgoing[0]);
            var take := Min(room, |record| - offset);
            var rest := if offset + take == |record| then Serialize(outgoing[1..], 0, room - take)
                        else Serialize(outgoing, offset + take, room - take);
            Serialize(outgoing, offset, room) == (record[offset..offset + take] + rest.0, rest.1, rest.2)
  {
    var record := Record(outgoing[0]);
    if room < |record| - offset {
      assert record[offset..offset + room] + [] == record[offset..offset + room];
    } else {
      assert record[offset..|record|] == record[offset..];
    }
  }

  lemma SerializeDone(outgoing: seq<Packet>, offset: nat, room: nat)
    requires Queueable(outgoing) && (outgoing != [] ==> offset < RECORD_BYTES + |outgoing[0]|)
    requires room == 0 || outgoing == []
    ensures Serialize(outgoing, offset, room) == ([], outgoing, offset)
  {
  }

  /** What is left after serializing is again a queue with its offset inside the first record. */
  lemma {:induction false} SerializeValid(outgoing: seq<Packet>, offset: nat, room: nat)
    requires Queueable(outgoing)
    requires if outgoing == [] then offset == 0 else offset < RECORD_BYTES + |outgoing[0]|
    ensures var (_, queue, end) := Serialize(outgoing, offset, room);
            Queueable(queue) && if queue == [] then end == 0 else end < RECORD_BYTES + |queue[0]|
    decreases |outgoing|
  {
    if room > 0 && outgoing != [] && room >= |Record(outgoing[0])| - offset {
      SerializeValid(outgoing[1..], 0, room - (|Record(outgoing[0])| - offset));
    }
  }

  function InFlight(cells: seq<TxCell>): nat {
    if cells == [] then 0
    else InFlight(cells[..|cells| - 1]) + if cells[|cells| - 1].occupied then 1 else 0
  }

  /** True when the sender may cut a new cell. */
  predicate MayCreate(tx: Sender, c: Config) {
    && tx.outgoing != []
    && InFlight(tx.ring) < c.window
    && tx.next < tx.remoteBase + SLOTS
    && tx.next != UINT32_MAX
    && !tx.ring[tx.next % SLOTS].occupied
  }

  predicate ValidSender(tx: Sender) {
    && Queueable(tx.outgoing)
    && if tx.outgoing == [] then tx.recordOffset == 0 else tx.recordOffset < RECORD_BYTES + |tx.outgoing[0]|
  }

  /** Cuts the next cell into slot `next % 16`; its send time is filled in by the caller. */
  function CreateCell(tx: Sender, c: Config): Sender
    requires ValidSender(tx) && MayCreate(tx, c)
  {
    var (bytes, queue, offset) := Serialize(tx.outgoing, tx.recordOffset, DATA_BYTES);
    tx.(ring := tx.ring[tx.next % SLOTS := TxCell(true, tx.next, 0, bytes)],
        outgoing := queue, recordOffset := offset, next := tx.next + 1)
  }

  // ---------------------------------------------------------------------
  // Retransmission
  // ---------------------------------------------------------------------

  function ShiftLeft(x: bv32, k: nat): bv32
    requires k < 32
  {
    x ^ (x << k)
  }

  function ShiftRight(x: bv32, k: nat): bv32
    requires k < 32
  {
    x ^ (x >> k)
  }

  /** One xorshift draw; the new state is the drawn value. */
  function Draw(state: bv32): bv32 {
    ShiftLeft(ShiftRight(ShiftLeft(if state == 0 then 0x7061636b else state, 13), 17), 5)
  }

  /** The retry hash of the random state, the sequence number and the last send time. */
  function RetryHash(random: bv32, sequence: bv32, lastSent: bv32): bv32 {
    ShiftRight(ShiftRight(random ^ (sequence * 0x9e3779b9) ^ (lastSent * 0x85ebca6b), 16) * 0x7feb352d, 15)
  }

  function RetryDelay(random: bv32, retransmitAfter: nat, sequence: uint32, lastSent: nat): nat {
    var spread := if retransmitAfter < 4 then 4 else retransmitAfter;
    retransmitAfter + (RetryHash(random, sequence as bv32, (lastSent % TWO_32) as bv32) as int) % spread
  }

  /** A cell is due when it has waited, in 64-bit wrapping frame arithmetic, its retry delay. */
  predicate Due(cell: TxCell, random: bv32, retransmitAfter: nat, frame: nat) {
    cell.occupied &&
    (frame - cell.lastSent) % TWO_64 >= RetryDelay(random, retransmitAfter, cell.sequence, cell.lastSent)
  }

  function CountDue(cells: seq<TxCell>, random: bv32, retransmitAfter: nat, frame: nat): nat {
    if cells == [] then 0
    else CountDue(cells[..|cells| - 1], random, retransmitAfter, frame) +
         if Due(cells[|cells| - 1], random, retransmitAfter, frame) then 1 else 0
  }

  /** The slot of the due cell that has `choice` due cells before it, from `from` on. */
  function PickDue(ring: TxRing, random: bv32, retransmitAfter: nat, frame: nat, choice: nat, from: nat): (slot: Option<nat>)
    requires from <= SLOTS
    ensures slot.Some? ==> from <= slot.value < SLOTS && ring[slot.value].occupied
    decreases SLOTS - from
  {
    if from == SLOTS then None
    else if Due(ring[from], random, retransmitAfter, frame) then
      if choice == 0 then Some(from)
      else PickDue(ring, random, retransmitAfter, frame, choice - 1, from + 1)
    else PickDue(ring, random, retransmitAfter, frame, choice, from + 1)
  }

  /**
   The slot to retransmit and the random state afterwards.  The count is made
   with the old random state and the pick with the new one, as in the source,
   so a due cell may be counted and then not be picked.
   */
  function SelectRetry(ring: TxRing, random: bv32, retransmitAfter: nat, frame: nat): (r: (Option<nat>, bv32))
    ensures r.0.Some? ==> r.0.value < SLOTS && ring[r.0.value].occupied
  {
    var due := CountDue(ring, random, retransmitAfter, frame);
    if due == 0 then (None, random)
    else
      var drawn := Draw(random);
      (PickDue(ring, drawn, retransmitAfter, frame, (drawn as int) % due, 0), drawn)
  }

  // ---------------------------------------------------------------------
  // Acknowledgements
  // ---------------------------------------------------------------------

  /** The 32-bit sequence number `k` after `base`. */
  function After(base: uint32, k: nat): uint32 {
    (base + k) % TWO_32
  }

  predicate Holds(ring: RxRing, sequence: nat) {
    ring[sequence % SLOTS].occupied && ring[sequence % SLOTS].sequence == sequence
  }

  function ReceiveMask(rx: Receiver): seq<bool> {
    seq(SLOTS, k requires 0 <= k => Holds(rx.ring, After(rx.base, k)))
  }

  function AckHeader(base: uint32, mask: seq<bool>): (bytes: seq<byte>)
    requires |mask| == SLOTS
    ensures |bytes| == ACK_BYTES
  {
    MaskFits(mask);
    [ACK_VERSION, PACKET_MODE] + WriteU32(base) + WriteU16(MaskOf(mask))
  }

  lemma MaskFits(mask: seq<bool>)
    requires |mask| == SLOTS
    ensures MaskOf(mask) < 0x1_0000
  {
    MaskBound(mask);
    assert Pow2(4) == 0x10 && Pow2(8) == 0x100 && Pow2(12) == 0x1000 && Pow2(16) == 0x1_0000;
  }

  /** Empties the slot of `sequence` when that slot holds it. */
  function AckCell(ring: TxRing, sequence: uint32): TxRing {
    var slot := sequence % SLOTS;
    if ring[slot].occupied && ring[slot].sequence == sequence then ring[slot := EMPTY_TX] else ring
  }

  /** Acknowledges every cell below `base`, looking at the slots from `from` on. */
  function AckBelow(ring: TxRing, base: uint32, from: nat): TxRing
    requires from <= SLOTS
    decreases SLOTS - from
  {
    if from == SLOTS then ring
    else if ring[from].occupied && ring[from].sequence < base then
      AckBelow(AckCell(ring, ring[from].sequence), base, from + 1)
    else AckBelow(ring, base, from + 1)
  }

  function BitsOf(mask: uint16): (bits: seq<bool>)
    ensures |bits| == SLOTS
  {
    seq(SLOTS, k requires 0 <= k => TestBit(mask, k))
  }

  /** Acknowledges `base + bit` for every set bit of the mask from `from` on. */
  function AckMask(ring: TxRing, base: uint32, mask: seq<bool>, next: uint32, from: nat): TxRing
    requires from <= SLOTS == |mask|
    decreases SLOTS - from
  {
    if from == SLOTS then ring
    else if base + from < next && mask[from] then
      AckMask(AckCell(ring, base + from), base, mask, next, from + 1)
    else AckMask(ring, base, mask, next, from + 1)
  }

  function ApplyAck(tx: Sender, payload: seq<byte>): (Sender, Status) {
    if |payload| < ACK_BYTES || payload[0] != ACK_VERSION || payload[1] != PACKET_MODE then (tx, ErrHeader)
    else
      var base := ReadU32(payload, 2);
      var mask := BitsOf(ReadU16(payload, 6));
      if base > tx.next then (tx, ErrHeader)
      else
        var ring := AckMask(AckBelow(tx.ring, base, 0), base, mask, tx.next, 0);
        (tx.(ring := ring, remoteBase := if base > tx.remoteBase then base else tx.remoteBase), Ok)
  }

  lemma AckKeepsQueue(tx: Sender, payload: seq<byte>)
    ensures ApplyAck(tx, payload).0.outgoing == tx.outgoing
    ensures ApplyAck(tx, payload).0.recordOffset == tx.recordOffset
    ensures ValidSender(tx) ==> ValidSender(ApplyAck(tx, payload).0)
  {
  }

  // ---------------------------------------------------------------------
  // Receiving
  // ---------------------------------------------------------------------

  datatype Taken =
    | Bad(parser: Parser)          // the announced length is zero or too large
    | Blocked                      // the packet would complete but the queue is full
    | Partial(parser: Parser)      // the byte was taken
    | Whole(packet: Packet)        // the byte completed a packet

  function TakeByte(p: Parser, b: byte, full: bool, maxPacket: uint16): Taken {
    if p.headerLength == 0 then Partial(Parser(1, b as int * 0x100, p.body))
    else if p.headerLength == 1 then
      var expected := p.expected + b as int;
      if expected == 0 || expected > maxPacket then Bad(Parser(2, expected, p.body))
      else Partial(Parser(2, expected, p.body))
    else if |p.body| + 1 == p.expected then
      if full then Blocked else Whole(p.body + [b])
    else Partial(p.(body := p.body + [b]))
  }

  function Held(cells: seq<RxCell>): nat {
    if cells == [] then 0 else Held(cells[1..]) + if cells[0].occupied then 1 else 0
  }

  lemma {:induction false} HeldUpdate(cells: seq<RxCell>, slot: nat, cell: RxCell)
    requires slot < |cells|
    ensures Held(cells[slot := cell]) + (if cells[slot].occupied then 1 else 0) ==
            Held(cells) + if cell.occupied then 1 else 0
  {
    if slot > 0 {
      assert cells[slot := cell][1..] == cells[1..][slot - 1 := cell];
      HeldUpdate(cells[1..], slot - 1, cell);
    } else {
      assert cells[slot := cell][1..] == cells[1..];
    }
  }

  /** True when the next in-order cell is in its slot. */
  predicate Ready(rx: Receiver) {
    Holds(rx.ring, rx.base)
  }

  function Front(rx: Receiver): RxCell {
    rx.ring[rx.base % SLOTS]
  }

  function Advance(rx: Receiver): RxRing {
    rx.ring[rx.base % SLOTS := Front(rx).(offset := Front(rx).offset + 1)]
  }

  /** Takes one byte of the front cell, leaving the parser in state `p`. */
  function TakeFront(rx: Receiver, p: Parser): Receiver {
    rx.(parser := p, ring := Advance(rx))
  }

  /** Empties the finished front slot and moves the cumulative base. */
  function Retire(rx: Receiver): Receiver {
    rx.(ring := rx.ring[rx.base % SLOTS := EMPTY_RX], base := After(rx.base, 1))
  }

  datatype Move = Halt(rx: Receiver, status: Status) | Go(rx: Receiver)

  /** One turn of the drain loop: take a byte, retire a finished cell, or stop. */
  function Turn(rx: Receiver, c: Config): Move {
    if !Ready(rx) then Halt(rx, Ok)
    else if Front(rx).offset < |Front(rx).bytes| then
      match TakeByte(rx.parser, Front(rx).bytes[Front(rx).offset], |rx.incoming| == c.capacity, c.maxPacket)
      case Bad(p) => Halt(rx.(parser := p), ErrHeader)
      case Blocked => Halt(rx, Ok)
      case Partial(p) => Go(TakeFront(rx, p))
      case Whole(packet) => Go(TakeFront(rx, START_PARSER).(incoming := rx.incoming + [packet]))
    else Go(Retire(rx))
  }

  /** The bytes of the front cell still to take. */
  function FrontLeft(rx: Receiver): nat {
    if Front(rx).offset < |Front(rx).bytes| then |Front(rx).bytes| - Front(rx).offset else 0
  }

  lemma TurnShrinks(rx: Receiver, c: Config)
    requires Turn(rx, c).Go?
    ensures var next := Turn(rx, c).rx;
            Held(next.ring) < Held(rx.ring) ||
            (Held(next.ring) == Held(rx.ring) && FrontLeft(next) < FrontLeft(rx))
  {
    HeldUpdate(rx.ring, rx.base % SLOTS, Turn(rx, c).rx.ring[rx.base % SLOTS]);
  }

  /**
   Feeds the parser in-order bytes until the next cell is missing, the incoming
   queue is full, or a record announces an impossible length.
   */
  function Drain(rx: Receiver, c: Config): (Receiver, Status)
    decreases Held(rx.ring), FrontLeft(rx)
  {
    match Turn(rx, c)
    case Halt(after, status) => (after, status)
    case Go(next) => TurnShrinks(rx, c); Drain(next, c)
  }

  lemma DrainTurn(rx: Receiver, c: Config)
    ensures Turn(rx, c).Halt? ==> Drain(rx, c) == (Turn(rx, c).rx, Turn(rx, c).status)
    ensures Turn(rx, c).Go? ==> Drain(rx, c) == Drain(Turn(rx, c).rx, c)
    ensures !Ready(rx) ==> Turn(rx, c) == Halt(rx, Ok)
    ensures Ready(rx) && Front(rx).offset >= |Front(rx).bytes| ==> Turn(rx, c) == Go(Retire(rx))
  {
  }

  /** A turn that takes a byte keeps the front cell in place and moves its offset. */
  lemma ParsedTurn(rx: Receiver, c: Config)
    requires Ready(rx) && Front(rx).offset < |Front(rx).bytes| && Turn(rx, c).Go?
    ensures var next := Turn(rx, c).rx;
            && next.base == rx.base && Held(next.ring) == Held(rx.ring)
            && Front(next) == Front(rx).(offset := Front(rx).offset + 1)
  {
    HeldUpdate(rx.ring, rx.base % SLOTS, Turn(rx, c).rx.ring[rx.base % SLOTS]);
  }

  /** A drain ends well or meets a record of impossible length; nothing else. */
  lemma {:induction false} DrainStatus(rx: Receiver, c: Config)
    ensures Drain(rx, c).1 == Ok || Drain(rx, c).1 == ErrHeader
    decreases Held(rx.ring), FrontLeft(rx)
  {
    if Turn(rx, c).Go? {
      TurnShrinks(rx, c);
      DrainStatus(Turn(rx, c).rx, c);
    }
  }

  // ---------------------------------------------------------------------
  // The operations of an endpoint
  // ---------------------------------------------------------------------

  function Fresh(random: bv32): Endpoint {
    Endpoint(Sender(EmptyTxRing(), [], 0, 0, 0, random), Receiver(EmptyRxRing(), [], START_PARSER, 0))
  }

  function Enqueue(e: Endpoint, c: Config, packet: Packet): (Endpoint, Status) {
    if !Sendable(packet, c.maxPacket) then (e, ErrArgument)
    else if |e.tx.outgoing| == c.capacity then (e, ErrCapacity)
    else (e.(tx := e.tx.(outgoing := e.tx.outgoing + [packet])), Ok)
  }

  /** Drains, hands out the oldest packet, and drains again into the freed place. */
  function Dequeue(e: Endpoint, c: Config, room: nat): (Endpoint, Status, Packet) {
    if room == 0 then (e, ErrArgument, [])
    else
      var (before, drained) := Drain(e.rx, c);
      if drained != Ok then (e.(rx := before), drained, [])
      else if before.incoming == [] then (e.(rx := before), ErrTimeout, [])
      else if |before.incoming[0]| > room then (e.(rx := before), ErrCapacity, [])
      else
        var (after, status) := Drain(before.(incoming := before.incoming[1..]), c);
        (e.(rx := after), status, before.incoming[0])
  }

  /** The frame an endpoint sends in local frame `frame`, and its state afterwards. */
  function Build(e: Endpoint, c: Config, frame: nat): (Endpoint, Frame)
    requires ValidSender(e.tx)
  {
    var header := AckHeader(e.rx.base, ReceiveMask(e.rx));
    var (retry, random) := SelectRetry(e.tx.ring, e.tx.random, c.retransmitAfter, frame);
    var tx := e.tx.(random := random);
    if retry.Some? then SendSlot(e.(tx := tx), header, retry.value, frame)
    else if MayCreate(tx, c) then SendSlot(e.(tx := CreateCell(tx, c)), header, tx.next % SLOTS, frame)
    else (e.(tx := tx), Frame(UINT32_MAX, header, false))
  }

  function SendSlot(e: Endpoint, header: seq<byte>, slot: nat, frame: nat): (Endpoint, Frame)
    requires slot < SLOTS
  {
    var cell := e.tx.ring[slot];
    (e.(tx := e.tx.(ring := e.tx.ring[slot := cell.(lastSent := frame)])),
     Frame(cell.sequence, header + cell.bytes, true))
  }

  /** The receiver with the cell of the frame put into its slot. */
  function Stored(rx: Receiver, f: Frame): Receiver
    requires |f.payload| >= ACK_BYTES
  {
    rx.(ring := rx.ring[f.sequence % SLOTS := RxCell(true, f.sequence, f.payload[ACK_BYTES..], 0)])
  }

  /** Takes in the data part of a frame whose header was understood. */
  function Accept(rx: Receiver, c: Config, f: Frame): (Receiver, Status) {
    if !f.hasData then (rx, if |f.payload| == ACK_BYTES then Ok else ErrHeader)
    else if |f.payload| <= ACK_BYTES || |f.payload| > MAX_PAYLOAD then (rx, ErrHeader)
    else if f.sequence < rx.base then (rx, Ok)
    else if f.sequence >= rx.base + SLOTS then (rx, ErrHeader)
    else if rx.ring[f.sequence % SLOTS].occupied then
      (rx, if rx.ring[f.sequence % SLOTS].sequence != f.sequence then ErrHeader else Ok)
    else Drain(Stored(rx, f), c)
  }

  /** The frame brings a new cell of the window, and the drain after it meets a record of impossible length. */
  predicate DrainFails(e: Endpoint, c: Config, f: Frame) {
    && ApplyAck(e.tx, f.payload).1 == Ok && f.hasData && ACK_BYTES < |f.payload| <= MAX_PAYLOAD
    && e.rx.base <= f.sequence < e.rx.base + SLOTS && !e.rx.ring[f.sequence % SLOTS].occupied
    && Drain(Stored(e.rx, f), c).1 != Ok
  }

  /** Takes in a frame of the peer. */
  function Process(e: Endpoint, c: Config, f: Frame): (Endpoint, Status) {
    var (tx, status) := ApplyAck(e.tx, f.payload);
    if status != Ok then (e.(tx := tx), status)
    else
      var (rx, taken) := Accept(e.rx, c, f);
      (Endpoint(tx, rx), taken)
  }

  /** Forgets the sequence spaces and the half-sent and half-received packets; both queues stay. */
  function ResetGeneration(e: Endpoint): Endpoint {
    Endpoint(
      e.tx.(ring := EmptyTxRing(), recordOffset := 0, next := 0, remoteBase := 0),
      e.rx.(ring := EmptyRxRing(), parser := START_PARSER, base := 0))
  }
}
