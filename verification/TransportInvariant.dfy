/**
 What holds between the sender at one end and the receiver at the other, in one
 direction and one generation, and that every operation keeps it.
 */
module TransportInvariant {
  import opened Bytes
  import opened Common
  import opened PacketTransport
  import opened ByteStream

  /** The cell was handed to the parser, or waits in its slot. */
  predicate Received(rx: Receiver, s: nat) {
    s < rx.base || Holds(rx.ring, s)
  }

  predicate InTransmit(tx: Sender, s: nat) {
    tx.ring[s % SLOTS].occupied && tx.ring[s % SLOTS].sequence == s
  }

  ghost predicate AcceptedOk(accepted: seq<Packet>, maxPacket: uint16) {
    forall p <- accepted :: Sendable(p, maxPacket)
  }

  ghost predicate CellsOk(cells: Chunks) {
    |cells| <= UINT32_MAX && forall s | 0 <= s < |cells| :: 1 <= |cells[s]| <= DATA_BYTES
  }

  /** Occupied slots hold cells in [remoteBase, next), each in its own slot. */
  ghost predicate TxRingOk(tx: Sender, cells: Chunks) {
    forall i | 0 <= i < SLOTS && tx.ring[i].occupied ::
      var s := tx.ring[i].sequence;
      s % SLOTS == i && tx.remoteBase <= s < |cells| && tx.ring[i].bytes == cells[s]
  }

  /** The queue is the unsent tail of the accepted packets, and the cells are all that was sent before it. */
  ghost predicate QueueOk(outgoing: seq<Packet>, offset: nat, accepted: seq<Packet>, cells: Chunks)
    requires Queueable(accepted)
  {
    var popped := |accepted| - |outgoing|;
    && 0 <= popped && outgoing == accepted[popped..]
    && (if popped < |accepted| then offset < |Record(accepted[popped])| else offset == 0)
    && Flatten(cells) == Sent(accepted, popped, offset)
  }

  ghost predicate SenderOk(tx: Sender, accepted: seq<Packet>, cells: Chunks, c: Config) {
    && AcceptedOk(accepted, c.maxPacket) && CellsOk(cells)
    && QueueOk(tx.outgoing, tx.recordOffset, accepted, cells)
    && tx.next == |cells| && tx.remoteBase <= tx.next <= tx.remoteBase + SLOTS
    && TxRingOk(tx, cells)
  }

  /** Occupied slots hold cells in [base, base + 16); only the front one may be half parsed. */
  ghost predicate RxRingOk(rx: Receiver, cells: Chunks) {
    forall i | 0 <= i < SLOTS && rx.ring[i].occupied ::
      var s := rx.ring[i].sequence;
      && s % SLOTS == i && rx.base <= s < rx.base + SLOTS && s < |cells|
      && rx.ring[i].bytes == cells[s] && rx.ring[i].offset <= |cells[s]|
      && (rx.ring[i].offset > 0 ==> s == rx.base)
  }

  /** The parser is `headerLength + |body|` bytes into the record of packet `done`. */
  ghost predicate ParserOk(p: Parser, accepted: seq<Packet>, done: nat) {
    && done <= |accepted|
    && (p.headerLength == 0 || done < |accepted|)
    && match p.headerLength
       case 0 => p.expected == 0 && p.body == []
       case 1 => p.expected == |accepted[done]| / 0x100 * 0x100 && p.body == []
       case 2 => p.expected == |accepted[done]| && |p.body| < p.expected && p.body == accepted[done][..|p.body|]
       case _ => false
  }

  function FrontOffset(rx: Receiver): nat {
    if Ready(rx) then Front(rx).offset else 0
  }

  ghost predicate PositionOk(rx: Receiver, accepted: seq<Packet>, cells: Chunks, done: nat)
    requires Queueable(accepted) && rx.base <= |cells| && done <= |accepted|
  {
    |Flatten(cells[..rx.base])| + FrontOffset(rx) ==
    |Flatten(Records(accepted)[..done])| + rx.parser.headerLength + |rx.parser.body|
  }

  ghost predicate ReceiverOk(rx: Receiver, accepted: seq<Packet>, cells: Chunks, done: nat, c: Config) {
    && AcceptedOk(accepted, c.maxPacket) && CellsOk(cells)
    && rx.base <= |cells| && |rx.incoming| <= c.capacity
    && RxRingOk(rx, cells)
    && ParserOk(rx.parser, accepted, done)
    && PositionOk(rx, accepted, cells, done)
  }

  // ---------------------------------------------------------------------
  // Draining
  // ---------------------------------------------------------------------

  /** Two chunkings of one stream agree on the byte at a common position. */
  lemma SameByte(left: Chunks, right: Chunks, n: nat, at: nat, m: nat, k: nat)
    requires Flatten(left) <= Flatten(right)
    requires n < |left| && at < |left[n]| && m <= |right|
    requires |Flatten(left[..n])| + at == |Flatten(right[..m])| + k
    requires m < |right| ==> k < |right[m]|
    requires m == |right| ==> k == 0
    ensures m < |right| && left[n][at] == right[m][k]
  {
    ByteInWhole(left, n, at);
    assert right[..|right|] == right;
    assert m < |right|;
    ByteInWhole(right, m, k);
  }

  /** The receiver reads the accepted stream: its next byte is the next byte of record `done`. */
  lemma NextByte(rx: Receiver, accepted: seq<Packet>, cells: Chunks, done: nat, c: Config)
    requires ReceiverOk(rx, accepted, cells, done, c)
    requires Flatten(cells) <= Flatten(Records(accepted))
    requires Ready(rx) && Front(rx).offset < |Front(rx).bytes|
    ensures done < |accepted|
    ensures var k := rx.parser.headerLength + |rx.parser.body|;
            k < |Record(accepted[done])| && Front(rx).bytes[Front(rx).offset] == Record(accepted[done])[k]
  {
    SameByte(cells, Records(accepted), rx.base, Front(rx).offset, done, rx.parser.headerLength + |rx.parser.body|);
  }

  /** Nothing received is forgotten and the cumulative base does not move back. */
  ghost predicate Grows(before: Receiver, after: Receiver) {
    before.base <= after.base && forall s: nat | Received(before, s) :: Received(after, s)
  }

  lemma TakeFrontKeeps(rx: Receiver, p: Parser, incoming: seq<Packet>, cells: Chunks)
    requires RxRingOk(rx, cells) && Ready(rx) && Front(rx).offset < |Front(rx).bytes|
    ensures var next := TakeFront(rx, p).(incoming := incoming);
            RxRingOk(next, cells) && Grows(rx, next) && FrontOffset(next) == FrontOffset(rx) + 1
  {
  }

  /** `next` follows from `rx` by handing over zero or more of the next accepted packets. */
  ghost predicate Handed(rx: Receiver, next: Receiver, accepted: seq<Packet>, cells: Chunks, done: nat, c: Config) {
    var more := |next.incoming| - |rx.incoming|;
    && 0 <= more && done + more <= |accepted| && Grows(rx, next)
    && next.incoming == rx.incoming + accepted[done..done + more]
    && ReceiverOk(next, accepted, cells, done + more, c)
  }

  lemma HandedNothing(rx: Receiver, accepted: seq<Packet>, cells: Chunks, done: nat, c: Config)
    requires ReceiverOk(rx, accepted, cells, done, c)
    ensures Handed(rx, rx, accepted, cells, done, c)
  {
    assert accepted[done..done] == [];
  }

  lemma HandedLater(rx: Receiver, mid: Receiver, after: Receiver, accepted: seq<Packet>, cells: Chunks, done: nat, c: Config)
    requires Handed(rx, mid, accepted, cells, done, c)
    requires Handed(mid, after, accepted, cells, done + |mid.incoming| - |rx.incoming|, c)
    ensures Handed(rx, after, accepted, cells, done, c)
  {
    var k := done + |mid.incoming| - |rx.incoming|;
    var end := done + |after.incoming| - |rx.incoming|;
    assert accepted[done..k] + accepted[k..end] == accepted[done..end];
  }

  lemma HandedStep(rx: Receiver, next: Receiver, accepted: seq<Packet>, cells: Chunks, done: nat, c: Config)
    requires Handed(rx, next, accepted, cells, done, c)
    ensures |rx.incoming| <= |next.incoming|
    ensures ReceiverOk(next, accepted, cells, done + |next.incoming| - |rx.incoming|, c)
  {
  }

  /** A byte is due: the front cell has one and it is the next byte of the accepted stream. */
  ghost predicate Due(rx: Receiver, accepted: seq<Packet>, cells: Chunks, done: nat, c: Config) {
    && ReceiverOk(rx, accepted, cells, done, c)
    && Flatten(cells) <= Flatten(Records(accepted))
    && Ready(rx) && Front(rx).offset < |Front(rx).bytes|
  }

  function NextTaken(rx: Receiver, c: Config): Taken
    requires Front(rx).offset < |Front(rx).bytes|
  {
    TakeByte(rx.parser, Front(rx).bytes[Front(rx).offset], |rx.incoming| == c.capacity, c.maxPacket)
  }

  lemma PartialStep(rx: Receiver, p: Parser, accepted: seq<Packet>, cells: Chunks, done: nat, c: Config)
    requires Due(rx, accepted, cells, done, c) && NextTaken(rx, c) == Partial(p)
    ensures Handed(rx, TakeFront(rx, p), accepted, cells, done, c)
  {
    hide Grows, Flatten, RxRingOk, FrontOffset;
    NextByte(rx, accepted, cells, done, c);
    TakeFrontKeeps(rx, p, rx.incoming, cells);
    assert p.headerLength + |p.body| == rx.parser.headerLength + |rx.parser.body| + 1;
    assert ReceiverOk(TakeFront(rx, p), accepted, cells, done, c);
    assert accepted[done..done] == [];
  }

  lemma WholeStep(rx: Receiver, packet: Packet, accepted: seq<Packet>, cells: Chunks, done: nat, c: Config)
    requires Due(rx, accepted, cells, done, c) && NextTaken(rx, c) == Whole(packet)
    ensures Handed(rx, TakeFront(rx, START_PARSER).(incoming := rx.incoming + [packet]), accepted, cells, done, c)
  {
    hide Grows, Flatten, RxRingOk, FrontOffset;
    NextByte(rx, accepted, cells, done, c);
    TakeFrontKeeps(rx, START_PARSER, rx.incoming + [packet], cells);
    FlattenNext(Records(accepted), done);
    var next := TakeFront(rx, START_PARSER).(incoming := rx.incoming + [packet]);
    assert ReceiverOk(next, accepted, cells, done + 1, c);
    assert Grows(rx, next);
    assert packet == accepted[done];
    assert accepted[done..done + 1] == [packet];
  }

  lemma NeverBad(rx: Receiver, accepted: seq<Packet>, cells: Chunks, done: nat, c: Config)
    requires Due(rx, accepted, cells, done, c)
    ensures !NextTaken(rx, c).Bad?
  {
    NextByte(rx, accepted, cells, done, c);
    assert Sendable(accepted[done], c.maxPacket);
  }

  lemma RetireKeeps(rx: Receiver, cells: Chunks)
    requires RxRingOk(rx, cells) && CellsOk(cells) && Ready(rx)
    ensures RxRingOk(Retire(rx), cells) && Grows(rx, Retire(rx)) && FrontOffset(Retire(rx)) == 0
    ensures Retire(rx).base == rx.base + 1 <= |cells|
  {
  }

  lemma RetireStep(rx: Receiver, accepted: seq<Packet>, cells: Chunks, done: nat, c: Config)
    requires ReceiverOk(rx, accepted, cells, done, c)
    requires Ready(rx) && Front(rx).offset == |Front(rx).bytes|
    ensures Handed(rx, Retire(rx), accepted, cells, done, c)
  {
    hide Grows, Flatten, Records;
    RetireKeeps(rx, cells);
    FlattenNext(cells, rx.base);
    assert ReceiverOk(Retire(rx), accepted, cells, done, c);
    assert accepted[done..done] == [];
  }

  /** A drain stops only when the next cell is missing or its packet would overflow the queue. */
  predicate Stopped(rx: Receiver, c: Config) {
    !Ready(rx) || |rx.incoming| == c.capacity
  }

  /** A turn of the loop either stops in order, or hands over at most the next packet. */
  lemma TurnOk(rx: Receiver, accepted: seq<Packet>, cells: Chunks, done: nat, c: Config)
    requires ReceiverOk(rx, accepted, cells, done, c)
    requires Flatten(cells) <= Flatten(Records(accepted))
    ensures Turn(rx, c).Halt? ==> Turn(rx, c) == Halt(rx, Ok) && Stopped(rx, c)
    ensures Turn(rx, c).Go? ==> Handed(rx, Turn(rx, c).rx, accepted, cells, done, c)
  {
    if !Ready(rx) {
    } else if Front(rx).offset < |Front(rx).bytes| {
      NeverBad(rx, accepted, cells, done, c);
      match NextTaken(rx, c)
      case Blocked =>
      case Partial(p) => PartialStep(rx, p, accepted, cells, done, c);
      case Whole(packet) => WholeStep(rx, packet, accepted, cells, done, c);
    } else {
      RetireStep(rx, accepted, cells, done, c);
    }
  }

  /** A drain never fails on the peer's cells, and hands over the next accepted packets until it must stop. */
  lemma {:induction false} DrainOk(rx: Receiver, accepted: seq<Packet>, cells: Chunks, done: nat, c: Config)
    requires ReceiverOk(rx, accepted, cells, done, c)
    requires Flatten(cells) <= Flatten(Records(accepted))
    ensures Drain(rx, c).1 == Ok && Stopped(Drain(rx, c).0, c)
    ensures Handed(rx, Drain(rx, c).0, accepted, cells, done, c)
    decreases Held(rx.ring), FrontLeft(rx)
  {
    hide ReceiverOk, Turn, Ready, Handed, Stopped;
    TurnOk(rx, accepted, cells, done, c);
    match Turn(rx, c)
    case Halt(_, _) =>
      HandedNothing(rx, accepted, cells, done, c);
    case Go(next) =>
      TurnShrinks(rx, c);
      HandedStep(rx, next, accepted, cells, done, c);
      DrainOk(next, accepted, cells, done + |next.incoming| - |rx.incoming|, c);
      HandedLater(rx, next, Drain(next, c).0, accepted, cells, done, c);
  }
}
