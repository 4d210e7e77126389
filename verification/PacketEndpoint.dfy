/** One end of the optical packet transport, updated in place. */
module PacketEndpoints {
  import opened Bytes
  import opened Common
  import opened PacketTransport
  import opened PacketQueues

  lemma RecordByte(packet: Packet, k: nat)
    requires |packet| < 0x1_0000 && k < RECORD_BYTES + |packet|
    ensures Record(packet)[k] == if k == 0 then |packet| / 0x100 else if k == 1 then |packet| % 0x100
                                 else packet[k - RECORD_BYTES]
  {
  }

  class PacketEndpoint {
    const config: Config
    const outgoing: PacketQueue
    const incoming: PacketQueue
    const transmit: array<TxCell>
    const receive: array<RxCell>
    const receivePacket: array<byte>
    const instanceId: bv32
    var recordOffset: nat
    var headerLength: nat
    var packetLength: nat
    var packetExpected: nat
    var transmitNext: uint32
    var remoteBase: uint32
    var receiveBase: uint32
    var randomState: bv32

    /** Every object the endpoint is made of. */
    ghost function Repr(): set<object> {
      {this, outgoing, outgoing.bytes, outgoing.lengths, incoming, incoming.bytes, incoming.lengths,
       transmit, receive, receivePacket}
    }

    ghost predicate Shape()
      reads Repr()
    {
      && outgoing != incoming && outgoing.bytes != incoming.bytes && outgoing.lengths != incoming.lengths
      && receivePacket != outgoing.bytes && receivePacket != incoming.bytes
      && outgoing.Valid() && outgoing.maxPacket == config.maxPacket && outgoing.capacity == config.capacity
      && incoming.Valid() && incoming.maxPacket == config.maxPacket && incoming.capacity == config.capacity
      && transmit.Length == SLOTS && receive.Length == SLOTS && receivePacket.Length == config.maxPacket
      && packetLength <= receivePacket.Length
    }

    ghost function Tx(): Sender
      requires Shape()
      reads Repr()
    {
      Sender(transmit[..], outgoing.Contents, recordOffset, transmitNext, remoteBase, randomState)
    }

    ghost function Rx(): Receiver
      requires Shape()
      reads Repr()
    {
      Receiver(receive[..], incoming.Contents,
               Parser(headerLength, packetExpected, receivePacket[..packetLength]), receiveBase)
    }

    /** The abstract value of the endpoint. */
    ghost function State(): Endpoint
      requires Shape()
      reads Repr()
    {
      Endpoint(Tx(), Rx())
    }

    /** The parser is inside a record of acceptable length. */
    ghost predicate ParserSound()
      reads this
    {
      && headerLength <= RECORD_BYTES
      && (headerLength < RECORD_BYTES ==> packetLength == 0)
      && (headerLength == RECORD_BYTES ==> packetLength < packetExpected <= config.maxPacket)
    }

    ghost predicate Valid()
      reads Repr()
    {
      Shape() && ValidConfig(config) && ValidSender(Tx()) && ParserSound()
    }

    /** All fields zeroed and both queues empty. */
    ghost predicate Zeroed()
      reads Repr()
    {
      && Shape() && outgoing.Contents == [] && incoming.Contents == []
      && recordOffset == headerLength == packetLength == packetExpected == 0
      && transmitNext == remoteBase == receiveBase == 0
      && forall i | 0 <= i < SLOTS :: transmit[i] == EMPTY_TX && receive[i] == EMPTY_RX
    }

    lemma ZeroedIsFresh()
      requires Zeroed() && ValidConfig(config)
      ensures Valid() && State() == Fresh(randomState)
    {
      hide PacketQueue.Valid;
      EmptyRings(transmit[..], receive[..]);
      assert receivePacket[..0] == [];
    }

    constructor (config: Config, seed: bv32)
      requires ValidConfig(config)
      ensures Valid() && this.config == config
      ensures fresh(outgoing) && fresh(outgoing.bytes) && fresh(outgoing.lengths)
      ensures fresh(incoming) && fresh(incoming.bytes) && fresh(incoming.lengths)
      ensures fresh(transmit) && fresh(receive) && fresh(receivePacket)
      ensures State() == Fresh(Draw(seed))
      ensures instanceId == if Draw(seed) == 0 then 1 else Draw(seed)
    {
      hide PacketQueue.Valid, Draw, Valid, State;
      this.config := config;
      outgoing := new PacketQueue(config.capacity, config.maxPacket);
      incoming := new PacketQueue(config.capacity, config.maxPacket);
      transmit := new TxCell[SLOTS](_ => EMPTY_TX);
      receive := new RxCell[SLOTS](_ => EMPTY_RX);
      receivePacket := new byte[config.maxPacket];
      recordOffset, headerLength, packetLength, packetExpected := 0, 0, 0, 0;
      transmitNext, remoteBase, receiveBase := 0, 0, 0;
      randomState := Draw(seed);
      instanceId := if Draw(seed) == 0 then 1 else Draw(seed);
      new;
      ZeroedIsFresh();
    }

    method EnqueuePacket(packet: Packet) returns (status: Status)
      requires Valid()
      modifies Repr()
      ensures Valid() && (State(), status) == Enqueue(old(State()), config, packet)
    {
      hide PacketQueue.Valid;
      if |packet| == 0 || |packet| > config.maxPacket {
        return ErrArgument;
      }
      status := outgoing.Push(packet);
    }

    method CountInFlight() returns (n: nat)
      requires Shape()
      ensures n == InFlight(transmit[..])
    {
      n := 0;
      for i := 0 to SLOTS
        invariant n == InFlight(transmit[..i])
      {
        assert transmit[..i + 1][..i] == transmit[..i];
        if transmit[i].occupied {
          n := n + 1;
        }
      }
      assert transmit[..SLOTS] == transmit[..];
    }

    /** Copies `take` bytes of the record of `packet`, from the record offset on. */
    method CopyRecord(packet: Packet, take: nat) returns (bytes: seq<byte>)
      requires |packet| < 0x1_0000 && recordOffset + take <= RECORD_BYTES + |packet|
      modifies this`recordOffset
      ensures recordOffset == old(recordOffset) + take
      ensures |bytes| == take && bytes == Record(packet)[old(recordOffset)..recordOffset]
    {
      hide Record;
      bytes := [];
      var left := take;
      while left != 0
        invariant 0 <= left <= take && recordOffset + left == old(recordOffset) + take
        invariant bytes == Record(packet)[old(recordOffset)..recordOffset]
      {
        RecordByte(packet, recordOffset);
        var b := if recordOffset == 0 then |packet| / 0x100
                 else if recordOffset < RECORD_BYTES then |packet| % 0x100
                 else packet[recordOffset - RECORD_BYTES];
        bytes := bytes + [b];
        recordOffset := recordOffset + 1;
        left := left - 1;
      }
    }

    /** The queue with its offset inside the front record. */
    ghost predicate QueueSound()
      reads this, outgoing, outgoing.bytes, outgoing.lengths
    {
      && outgoing.Valid() && Queueable(outgoing.Contents)
      && if outgoing.Contents == [] then recordOffset == 0 else recordOffset < RECORD_BYTES + |outgoing.Contents[0]|
    }

    /** Copies from the record at the front of the queue, and drops the packet when its record is out. */
    method SerializeRecord(room: nat) returns (copied: seq<byte>)
      requires QueueSound() && outgoing.Contents != [] && room > 0
      modifies outgoing, this`recordOffset
      ensures QueueSound() && |copied| <= room
      ensures |outgoing.Contents| < |old(outgoing.Contents)| ||
              (|outgoing.Contents| == |old(outgoing.Contents)| && copied != [])
      ensures var r := Serialize(outgoing.Contents, recordOffset, room - |copied|);
              Serialize(old(outgoing.Contents), old(recordOffset), room) == (copied + r.0, r.1, r.2)
    {
      hide PacketQueue.Valid, Record, Serialize;
      var packet := outgoing.Head();
      assert packet in outgoing.Contents;
      SerializeStep(outgoing.Contents, recordOffset, room);
      var recordLength := RECORD_BYTES + |packet|;
      copied := CopyRecord(packet, Min(room, recordLength - recordOffset));
      if recordOffset == recordLength {
        outgoing.Pop();
        recordOffset := 0;
      }
    }

    /** Moves up to `capacity` bytes of queued records into a cell. */
    method SerializeCell(capacity: nat) returns (bytes: seq<byte>)
      requires QueueSound()
      modifies outgoing, this`recordOffset
      ensures outgoing.Valid()
      ensures (bytes, outgoing.Contents, recordOffset) == Serialize(old(outgoing.Contents), old(recordOffset), capacity)
    {
      hide PacketQueue.Valid, Serialize;
      bytes := [];
      ghost var whole := Serialize(outgoing.Contents, recordOffset, capacity);
      assert bytes + whole.0 == whole.0;
      while |bytes| < capacity && outgoing.count != 0
        invariant QueueSound() && |bytes| <= capacity
        invariant var r := Serialize(outgoing.Contents, recordOffset, capacity - |bytes|);
                  (bytes + r.0, r.1, r.2) == whole
        modifies outgoing, this`recordOffset
        decreases |outgoing.Contents|, capacity - |bytes|
      {
        var copied := SerializeRecord(capacity - |bytes|);
        ghost var r := Serialize(outgoing.Contents, recordOffset, capacity - |bytes| - |copied|);
        assert bytes + (copied + r.0) == bytes + copied + r.0;
        bytes := bytes + copied;
      }
      SerializeDone(outgoing.Contents, recordOffset, capacity - |bytes|);
      assert bytes + [] == bytes;
    }

    /** Cuts the next cell when the window allows one. */
    method CutCell() returns (slot: Option<nat>)
      requires Valid()
      modifies outgoing, transmit, this`recordOffset, this`transmitNext
      ensures Valid()
      ensures slot == if MayCreate(old(Tx()), config) then Some(old(transmitNext) % SLOTS) else None
      ensures Tx() == if MayCreate(old(Tx()), config) then CreateCell(old(Tx()), config) else old(Tx())
    {
      hide PacketQueue.Valid, Serialize;
      var inFlight := CountInFlight();
      if outgoing.count == 0 || inFlight >= config.window || transmitNext >= remoteBase + SLOTS || transmitNext == UINT32_MAX {
        return None;
      }
      var index := transmitNext % SLOTS;
      if transmit[index].occupied {
        return None;
      }
      SerializeValid(outgoing.Contents, recordOffset, DATA_BYTES);
      var bytes := SerializeCell(DATA_BYTES);
      transmit[index] := TxCell(true, transmitNext, 0, bytes);
      transmitNext := transmitNext + 1;
      slot := Some(index);
    }

    /** Picks the slot to send again, drawing from the random state when some cell is due. */
    method ChooseRetry(frame: nat) returns (slot: Option<nat>)
      requires Shape()
      modifies this`randomState
      ensures (slot, randomState) == SelectRetry(transmit[..], old(randomState), config.retransmitAfter, frame)
    {
      hide Due, Draw;
      var due := 0;
      for i := 0 to SLOTS
        invariant due == CountDue(transmit[..i], randomState, config.retransmitAfter, frame)
      {
        assert transmit[..i + 1][..i] == transmit[..i];
        if Due(transmit[i], randomState, config.retransmitAfter, frame) {
          due := due + 1;
        }
      }
      assert transmit[..SLOTS] == transmit[..];
      if due == 0 {
        return None;
      }
      randomState := Draw(randomState);
      var choice := (randomState as int) % due;
      ghost var picked := PickDue(transmit[..], randomState, config.retransmitAfter, frame, choice, 0);
      for i := 0 to SLOTS
        invariant choice >= 0 && picked == PickDue(transmit[..], randomState, config.retransmitAfter, frame, choice, i)
      {
        if Due(transmit[i], randomState, config.retransmitAfter, frame) {
          if choice == 0 {
            return Some(i);
          }
          choice := choice - 1;
        }
      }
      slot := None;
    }

    /** The acknowledgement header of the present state. */
    method WriteAck() returns (payload: seq<byte>)
      requires Shape()
      ensures payload == AckHeader(receiveBase, ReceiveMask(Rx()))
    {
      ghost var bits := ReceiveMask(Rx());
      var mask := 0;
      for bit := 0 to SLOTS
        invariant mask == MaskOf(bits[..bit])
      {
        var sequence := After(receiveBase, bit);
        var cell := receive[sequence % SLOTS];
        MaskAppend(bits[..bit], bits[bit]);
        assert bits[..bit + 1] == bits[..bit] + [bits[bit]];
        if cell.occupied && cell.sequence == sequence {
          mask := mask + Pow2(bit);
        }
      }
      assert bits[..SLOTS] == bits;
      MaskFits(bits);
      payload := [ACK_VERSION, PACKET_MODE] + WriteU32(receiveBase) + WriteU16(mask);
    }

    method ReleaseCell(sequence: uint32)
      requires transmit.Length == SLOTS
      modifies transmit
      ensures transmit[..] == AckCell(old(transmit[..]), sequence)
    {
      var slot := sequence % SLOTS;
      if transmit[slot].occupied && transmit[slot].sequence == sequence {
        transmit[slot] := EMPTY_TX;
      }
    }

    method TakeAck(payload: seq<byte>) returns (status: Status)
      requires Shape()
      modifies transmit, this`remoteBase
      ensures Shape() && (Tx(), status) == ApplyAck(old(Tx()), payload)
    {
      hide PacketQueue.Valid, AckCell, BitsOf;
      if |payload| < ACK_BYTES || payload[0] != ACK_VERSION || payload[1] != PACKET_MODE {
        return ErrHeader;
      }
      var base := ReadU32(payload, 2);
      var mask := BitsOf(ReadU16(payload, 6));
      if base > transmitNext {
        return ErrHeader;
      }
      if base > remoteBase {
        remoteBase := base;
      }
      ghost var below := AckBelow(transmit[..], base, 0);
      for i := 0 to SLOTS
        invariant AckBelow(transmit[..], base, i) == below
        modifies transmit
      {
        if transmit[i].occupied && transmit[i].sequence < base {
          ReleaseCell(transmit[i].sequence);
        }
      }
      ghost var ring := AckMask(transmit[..], base, mask, transmitNext, 0);
      for bit := 0 to SLOTS
        invariant AckMask(transmit[..], base, mask, transmitNext, bit) == ring
        modifies transmit
      {
        if base + bit < transmitNext && mask[bit] {
          ReleaseCell(base + bit);
        }
      }
      status := Ok;
    }

    /** Marks one more byte of the front cell as taken. */
    method StepOffset()
      requires Shape() && Ready(Rx())
      modifies receive
      ensures Shape() && receive[..] == Advance(old(Rx()))
    {
      hide PacketQueue.Valid;
      var slot := receiveBase % SLOTS;
      receive[slot] := receive[slot].(offset := receive[slot].offset + 1);
    }

    method ParseHeaderByte(b: byte) returns (stop: bool, status: Status)
      requires Valid() && Ready(Rx()) && Front(Rx()).offset < |Front(Rx()).bytes|
      requires b == Front(Rx()).bytes[Front(Rx()).offset] && headerLength < RECORD_BYTES
      modifies receive, this`headerLength, this`packetExpected
      ensures Shape() && (status == Ok ==> Valid())
      ensures Turn(old(Rx()), config) == if stop then Halt(Rx(), status) else Go(Rx())
      ensures !stop ==> status == Ok && Ready(Rx())
    {
      hide PacketQueue.Valid, ValidSender;
      headerLength := headerLength + 1;
      if headerLength == 1 {
        packetExpected := b as int * 0x100;
      } else {
        packetExpected := packetExpected + b as int;
        if packetExpected == 0 || packetExpected > config.maxPacket {
          return true, ErrHeader;
        }
      }
      StepOffset();
      return false, Ok;
    }

    method StoreBodyByte(b: byte)
      requires Shape() && packetLength < receivePacket.Length
      modifies receivePacket, this`packetLength
      ensures Shape() && packetLength == old(packetLength) + 1
      ensures receivePacket[..packetLength] == old(receivePacket[..packetLength]) + [b]
    {
      hide PacketQueue.Valid;
      receivePacket[packetLength] := b;
      packetLength := packetLength + 1;
    }

    /** Moves the finished packet to the incoming queue, which has room. */
    method FinishPacket()
      requires Shape() && incoming.count < incoming.capacity
      modifies incoming, incoming.bytes, incoming.lengths, this`headerLength, this`packetLength, this`packetExpected
      ensures Shape() && headerLength == packetLength == packetExpected == 0
      ensures incoming.Contents == old(incoming.Contents) + [old(receivePacket[..packetLength])]
    {
      hide PacketQueue.Valid;
      var pushed := incoming.Push(receivePacket[..packetLength]);
      headerLength, packetLength, packetExpected := 0, 0, 0;
    }

    method ParseBodyByte(b: byte) returns (stop: bool, status: Status)
      requires Valid() && Ready(Rx()) && Front(Rx()).offset < |Front(Rx()).bytes|
      requires b == Front(Rx()).bytes[Front(Rx()).offset] && headerLength == RECORD_BYTES
      modifies receive, receivePacket, incoming, incoming.bytes, incoming.lengths,
               this`headerLength, this`packetLength, this`packetExpected
      ensures Valid() && status == Ok
      ensures Turn(old(Rx()), config) == if stop then Halt(Rx(), status) else Go(Rx())
      ensures !stop ==> Ready(Rx())
    {
      hide PacketQueue.Valid, ValidSender;
      if packetLength + 1 == packetExpected && incoming.count == incoming.capacity {
        return true, Ok;
      }
      StoreBodyByte(b);
      StepOffset();
      if packetLength == packetExpected {
        FinishPacket();
      }
      return false, Ok;
    }

    /** Gives the parser one byte of the front cell; `stop` says that the drain ends here. */
    method ParseByte() returns (stop: bool, status: Status)
      requires Valid() && Ready(Rx()) && Front(Rx()).offset < |Front(Rx()).bytes|
      modifies receive, receivePacket, incoming, incoming.bytes, incoming.lengths,
               this`headerLength, this`packetLength, this`packetExpected
      ensures Shape() && (status == Ok ==> Valid())
      ensures Tx() == old(Tx())
      ensures Turn(old(Rx()), config) == if stop then Halt(Rx(), status) else Go(Rx())
      ensures !stop ==> status == Ok && Ready(Rx())
    {
      hide PacketQueue.Valid, ValidSender, Turn;
      var slot := receiveBase % SLOTS;
      var b := receive[slot].bytes[receive[slot].offset];
      if headerLength < RECORD_BYTES {
        stop, status := ParseHeaderByte(b);
      } else {
        stop, status := ParseBodyByte(b);
      }
    }

    /** Empties the slot of the finished front cell. */
    method RetireCell()
      requires Valid()
      modifies receive, this`receiveBase
      ensures Valid() && Rx() == Retire(old(Rx())) && Tx() == old(Tx())
    {
      hide PacketQueue.Valid, ValidSender;
      receive[receiveBase % SLOTS] := EMPTY_RX;
      receiveBase := After(receiveBase, 1);
    }

    /** Feeds the parser in-order bytes for as long as it can. */
    method DrainReceive() returns (status: Status)
      requires Valid()
      modifies receive, receivePacket, incoming, incoming.bytes, incoming.lengths,
               this`headerLength, this`packetLength, this`packetExpected, this`receiveBase
      ensures Shape() && (status == Ok ==> Valid())
      ensures (Rx(), status) == Drain(old(Rx()), config)
      ensures Tx() == old(Tx())
    {
      hide PacketQueue.Valid, ValidSender, Drain, Turn;
      ghost var result := Drain(Rx(), config);
      while true
        invariant Valid() && Tx() == old(Tx()) && Drain(Rx(), config) == result
        decreases Held(receive[..])
      {
        ghost var held := Held(receive[..]);
        var slot := receiveBase % SLOTS;
        DrainTurn(Rx(), config);
        if !receive[slot].occupied || receive[slot].sequence != receiveBase {
          return Ok;
        }
        while receive[slot].offset < |receive[slot].bytes|
          invariant Valid() && Tx() == old(Tx()) && Drain(Rx(), config) == result
          invariant Ready(Rx()) && slot == receiveBase % SLOTS && Held(receive[..]) == held
          decreases |receive[slot].bytes| - receive[slot].offset
        {
          ghost var before := Rx();
          DrainTurn(before, config);
          if Turn(before, config).Go? { ParsedTurn(before, config); }
          var stop, parsed := ParseByte();
          if stop {
            return parsed;
          }
        }
        DrainTurn(Rx(), config);
        HeldUpdate(receive[..], slot, EMPTY_RX);
        RetireCell();
      }
    }

    method DequeuePacket(room: nat) returns (status: Status, packet: Packet)
      requires Valid()
      modifies Repr()
      ensures Shape() && (status != ErrHeader ==> Valid())
      ensures (State(), status, packet) == Dequeue(old(State()), config, room)
    {
      hide PacketQueue.Valid, ValidSender, Drain;
      if room == 0 {
        return ErrArgument, [];
      }
      DrainStatus(Rx(), config);
      status := DrainReceive();
      if status != Ok {
        return status, [];
      }
      if incoming.count == 0 {
        return ErrTimeout, [];
      }
      packet := incoming.Head();
      if |packet| > room {
        return ErrCapacity, [];
      }
      incoming.Pop();
      DrainStatus(Rx(), config);
      status := DrainReceive();
    }

    /** The frame to send in local frame `frame`. */
    method BuildFrame(frame: nat) returns (f: Frame, retransmission: bool)
      requires Valid()
      modifies outgoing, transmit, this`recordOffset, this`transmitNext, this`randomState
      ensures Valid()
      ensures (State(), f) == Build(old(State()), config, frame)
      ensures retransmission == SelectRetry(old(transmit[..]), old(randomState), config.retransmitAfter, frame).0.Some?
    {
      hide PacketQueue.Valid, Serialize, SelectRetry, InFlight, AckHeader, ReceiveMask;
      ghost var start := State();
      var header := WriteAck();
      var slot := ChooseRetry(frame);
      retransmission := slot.Some?;
      if slot.None? {
        slot := CutCell();
      }
      if slot.None? {
        return Frame(UINT32_MAX, header, false), false;
      }
      var cell := transmit[slot.value];
      f := Frame(cell.sequence, header + cell.bytes, true);
      transmit[slot.value] := cell.(lastSent := frame);
    }

    /** Takes in a frame of the peer. */
    method ProcessFrame(f: Frame) returns (status: Status)
      requires Valid()
      modifies Repr()
      ensures Shape() && (status == Ok || !DrainFails(old(State()), config, f) ==> Valid())
      ensures (State(), status) == Process(old(State()), config, f)
    {
      hide PacketQueue.Valid, ValidSender, Drain, ApplyAck;
      AckKeepsQueue(Tx(), f.payload);
      status := TakeAck(f.payload);
      if status != Ok {
        return;
      }
      if !f.hasData {
        return if |f.payload| == ACK_BYTES then Ok else ErrHeader;
      }
      if |f.payload| <= ACK_BYTES || |f.payload| > MAX_PAYLOAD {
        return ErrHeader;
      }
      if f.sequence < receiveBase {
        return Ok;
      }
      if f.sequence >= receiveBase + SLOTS {
        return ErrHeader;
      }
      var slot := f.sequence % SLOTS;
      if receive[slot].occupied {
        return if receive[slot].sequence != f.sequence then ErrHeader else Ok;
      }
      ghost var stored := Stored(Rx(), f);
      receive[slot] := RxCell(true, f.sequence, f.payload[ACK_BYTES..], 0);
      assert Rx() == stored;
      status := DrainReceive();
    }

    method ClearTransmit()
      requires transmit.Length == SLOTS
      modifies transmit
      ensures transmit[..] == EmptyTxRing()
    {
      forall i | 0 <= i < SLOTS {
        transmit[i] := EMPTY_TX;
      }
    }

    method ClearReceive()
      requires receive.Length == SLOTS
      modifies receive
      ensures receive[..] == EmptyRxRing()
    {
      forall i | 0 <= i < SLOTS {
        receive[i] := EMPTY_RX;
      }
    }

    /** Forgets the generation: both rings, both sequence spaces, the half-sent record and the parser. */
    method ForgetGeneration()
      requires Shape() && ValidConfig(config) && Queueable(outgoing.Contents)
      modifies transmit, receive, this`recordOffset, this`headerLength, this`packetLength, this`packetExpected,
               this`transmitNext, this`remoteBase, this`receiveBase
      ensures Valid() && State() == ResetGeneration(old(State()))
    {
      hide PacketQueue.Valid, EmptyTxRing, EmptyRxRing, Queueable;
      ClearTransmit();
      ClearReceive();
      recordOffset, headerLength, packetLength, packetExpected := 0, 0, 0, 0;
      transmitNext, remoteBase, receiveBase := 0, 0, 0;
      assert receivePacket[..0] == [];
    }
  }
}
