/**
 The byte streams of a session without packets: fixed-size chunks, selective
 repeat with cumulative and bitmap acknowledgements, as functions on values.
 */
module LightStreams {
  import opened Bytes
  import opened Common

  const CHUNK := 83
  const ACK_BYTES := 8
  const ACK_BITS := 16
  const MAX_BYTES := 0x100_0000

  /** The sending half of a stream. */
  datatype Outgoing = Outgoing(source: seq<byte>, sent: seq<bool>, acked: seq<bool>, lastSent: seq<nat>)

  /** The receiving half. */
  datatype Incoming = Incoming(sink: seq<byte>, received: seq<bool>, base: nat, receivedBytes: nat)

  datatype StreamConfig = StreamConfig(window: nat, retransmitAfter: nat, seed: bv32)

  datatype StreamFrame = StreamFrame(sequence: uint32, payload: seq<byte>, hasData: bool)

  function Chunks(total: nat): nat { (total + CHUNK - 1) / CHUNK }

  function ChunkStart(k: nat): nat { k * CHUNK }

  function ChunkEnd(total: nat, k: nat): nat {
    if total < ChunkStart(k) + CHUNK then total else ChunkStart(k) + CHUNK
  }

  lemma ChunkInside(total: nat, k: nat)
    requires k < Chunks(total)
    ensures ChunkStart(k) < ChunkEnd(total, k) <= total && ChunkEnd(total, k) <= ChunkStart(k) + CHUNK
    ensures k + 1 < Chunks(total) ==> ChunkEnd(total, k) == ChunkStart(k + 1)
    ensures k + 1 == Chunks(total) ==> ChunkEnd(total, k) == total
  {
  }

  function ChunkOf(bytes: seq<byte>, k: nat): (chunk: seq<byte>)
    requires k < Chunks(|bytes|)
    ensures 1 <= |chunk| <= CHUNK
  {
    ChunkInside(|bytes|, k);
    bytes[ChunkStart(k)..ChunkEnd(|bytes|, k)]
  }

  predicate ValidOutgoing(out: Outgoing) {
    |out.source| <= MAX_BYTES && |out.sent| == |out.acked| == |out.lastSent| == Chunks(|out.source|)
  }

  predicate ValidIncoming(i: Incoming) {
    |i.sink| <= MAX_BYTES && |i.received| == Chunks(|i.sink|) && i.base <= |i.received|
  }

  function NewOutgoing(source: seq<byte>): Outgoing {
    var n := Chunks(|source|);
    Outgoing(source, seq(n, _ => false), seq(n, _ => false), seq(n, _ => 0))
  }

  function NewIncoming(sink: seq<byte>): Incoming {
    Incoming(sink, seq(Chunks(|sink|), _ => false), 0, 0)
  }

  predicate All(flags: seq<bool>) {
    forall k | 0 <= k < |flags| :: flags[k]
  }

  predicate SenderDone(out: Outgoing) { All(out.acked) }

  predicate ReceiverDone(i: Incoming) { i.base == |i.received| }

  // ---------------------------------------------------------------------
  // Acknowledgements
  // ---------------------------------------------------------------------

  function AckMask(i: Incoming): (mask: seq<bool>)
    ensures |mask| == ACK_BITS
  {
    seq(ACK_BITS, bit requires 0 <= bit < ACK_BITS => i.base + bit < |i.received| && i.received[i.base + bit])
  }

  lemma MaskFits(mask: seq<bool>)
    requires |mask| == ACK_BITS
    ensures MaskOf(mask) < 0x1_0000
  {
    MaskBound(mask);
    assert Pow2(4) == 0x10 && Pow2(8) == 0x100 && Pow2(12) == 0x1000 && Pow2(16) == 0x1_0000;
  }

  function AckHeader(base: uint32, mask: seq<bool>): (payload: seq<byte>)
    requires |mask| == ACK_BITS
    ensures |payload| == ACK_BYTES
  {
    MaskFits(mask);
    [1, 0] + WriteU32(base) + WriteU16(MaskOf(mask))
  }

  /** The acknowledgements a header makes; none unless it is well formed for this stream. */
  function ApplyAck(out: Outgoing, payload: seq<byte>): (Outgoing, Status) {
    if |payload| < ACK_BYTES || payload[0] != 1 || payload[1] != 0 then (out, ErrHeader)
    else
      var base, mask := ReadU32(payload, 2), ReadU16(payload, 6);
      if base > |out.acked| then (out, ErrHeader)
      else (out.(acked := Acked(out.acked, base, mask)), Ok)
  }

  function Acked(acked: seq<bool>, base: nat, mask: uint16): (after: seq<bool>)
    ensures |after| == |acked|
  {
    seq(|acked|, k requires 0 <= k < |acked| =>
      acked[k] || k < base || (k - base < ACK_BITS && TestBit(mask, k - base)))
  }

  // ---------------------------------------------------------------------
  // Receiving
  // ---------------------------------------------------------------------

  /** The first chunk from k on that is missing. */
  function FirstMissing(received: seq<bool>, k: nat): (m: nat)
    requires k <= |received|
    ensures k <= m <= |received| && (m < |received| ==> !received[m])
    ensures forall j | k <= j < m :: received[j]
    decreases |received| - k
  {
    if k < |received| && received[k] then FirstMissing(received, k + 1) else k
  }

  function Splice(sink: seq<byte>, at: nat, bytes: seq<byte>): (after: seq<byte>)
    requires at + |bytes| <= |sink|
    ensures |after| == |sink|
  {
    sink[..at] + bytes + sink[at + |bytes|..]
  }

  function Receive(i: Incoming, sequence: nat, chunk: seq<byte>): (Incoming, Status)
    requires ValidIncoming(i)
  {
    if sequence >= |i.received| then (i, ErrHeader)
    else
      ChunkInside(|i.sink|, sequence);
      if |chunk| != ChunkEnd(|i.sink|, sequence) - ChunkStart(sequence) then (i, ErrHeader)
      else if i.received[sequence] then (i, Ok)
      else
        var received := i.received[sequence := true];
        (Incoming(Splice(i.sink, ChunkStart(sequence), chunk), received, FirstMissing(received, i.base),
                  i.receivedBytes + |chunk|), Ok)
  }

  /** A frame acknowledges what this end sent and may bring a chunk. */
  function ProcessFrame(out: Outgoing, i: Incoming, f: StreamFrame): (Outgoing, Incoming, Status)
    requires ValidIncoming(i)
  {
    var (after, status) := ApplyAck(out, f.payload);
    if status != Ok then (after, i, status)
    else if !f.hasData then (after, i, if |f.payload| == ACK_BYTES then Ok else ErrHeader)
    else if |f.payload| <= ACK_BYTES then (after, i, ErrHeader)
    else
      var (got, taken) := Receive(i, f.sequence, f.payload[ACK_BYTES..]);
      (after, got, taken)
  }

  // ---------------------------------------------------------------------
  // Sending
  // ---------------------------------------------------------------------

  function Count(flags: seq<bool>): nat {
    if flags == [] then 0 else Count(flags[..|flags| - 1]) + if flags[|flags| - 1] then 1 else 0
  }

  function InFlightFlags(out: Outgoing): (flags: seq<bool>)
    requires ValidOutgoing(out)
    ensures |flags| == |out.sent|
  {
    seq(|out.sent|, k requires 0 <= k < |out.sent| => out.sent[k] && !out.acked[k])
  }

  function Scramble(x: bv32): bv32 {
    var a := (x ^ (x >> 16)) * 0x7feb_352d;
    a ^ (a >> 15)
  }

  function RetryHash(seed: bv32, sequence: bv32, lastSent: bv32): bv32 {
    Scramble(seed ^ (sequence * 0x9e37_79b9) ^ (lastSent * 0x85eb_ca6b))
  }

  function Low32(x: nat): bv32 { (x % TWO_32) as bv32 }

  /** At least `retransmitAfter` frames, spread by a hash of the constant seed. */
  function RetryDelay(c: StreamConfig, sequence: nat, lastSent: nat): (d: nat)
    ensures d >= c.retransmitAfter
  {
    var spread := if c.retransmitAfter < 4 then 4 else c.retransmitAfter;
    c.retransmitAfter + (RetryHash(c.seed, Low32(sequence), Low32(lastSent)) as int) % spread
  }

  function DueFlags(out: Outgoing, c: StreamConfig, frame: nat): (flags: seq<bool>)
    requires ValidOutgoing(out)
    ensures |flags| == |out.sent|
  {
    seq(|out.sent|, k requires 0 <= k < |out.sent| =>
      out.sent[k] && !out.acked[k] && (frame - out.lastSent[k]) % TWO_64 >= RetryDelay(c, k, out.lastSent[k]))
  }

  /** The place of the flag that has `choice` set flags before it, from k on. */
  function PickSet(flags: seq<bool>, choice: nat, k: nat): (p: Option<nat>)
    requires k <= |flags|
    ensures p.Some? ==> k <= p.value < |flags| && flags[p.value]
    decreases |flags| - k
  {
    if k == |flags| then None
    else if !flags[k] then PickSet(flags, choice, k + 1)
    else if choice == 0 then Some(k)
    else PickSet(flags, choice - 1, k + 1)
  }

  function Draw(state: bv32): bv32 {
    var v: bv32 := if state == 0 then 0xa511_e9b3 else state;
    var a := v ^ (v << 13);
    var b := a ^ (a >> 17);
    b ^ (b << 5)
  }

  function FirstUnsent(sent: seq<bool>, k: nat): (m: nat)
    requires k <= |sent|
    ensures k <= m <= |sent| && (m < |sent| ==> !sent[m])
    ensures forall j | k <= j < m :: sent[j]
    decreases |sent| - k
  {
    if k < |sent| && sent[k] then FirstUnsent(sent, k + 1) else k
  }

  /** The chunk to send: one that is due again, or else the next one if the window allows. */
  function Select(out: Outgoing, c: StreamConfig, random: bv32, frame: nat): (r: (Option<nat>, bool, bv32))
    requires ValidOutgoing(out)
    ensures r.0.Some? ==> r.0.value < |out.sent|
  {
    var due := Count(DueFlags(out, c, frame));
    var drawn := if due != 0 then Draw(random) else random;
    var again := if due != 0 then PickSet(DueFlags(out, c, frame), (drawn as int) % due, 0) else None;
    if again.Some? then (again, true, drawn)
    else if Count(InFlightFlags(out)) >= c.window || FirstUnsent(out.sent, 0) == |out.sent| then (None, false, drawn)
    else (Some(FirstUnsent(out.sent, 0)), false, drawn)
  }

  function MarkSent(out: Outgoing, k: nat, frame: nat): Outgoing
    requires ValidOutgoing(out) && k < |out.sent|
  {
    out.(sent := out.sent[k := true], lastSent := out.lastSent[k := frame])
  }

  /** The frame to send, the sending half and random state afterwards, and whether a chunk is repeated. */
  function BuildFrame(out: Outgoing, i: Incoming, c: StreamConfig, random: bv32, frame: nat): (StreamFrame, Outgoing, bv32, bool)
    requires ValidOutgoing(out) && ValidIncoming(i)
  {
    var header := AckHeader(i.base, AckMask(i));
    var (chosen, again, drawn) := Select(out, c, random, frame);
    match chosen
    case None => (StreamFrame(UINT32_MAX, header, false), out, drawn, false)
    case Some(k) =>
      (StreamFrame(k, header + ChunkOf(out.source, k), true), MarkSent(out, k, frame), drawn, again)
  }

  // ---------------------------------------------------------------------
  // The retry choice
  // ---------------------------------------------------------------------

  lemma {:induction false} CountNone(flags: seq<bool>)
    requires forall k | 0 <= k < |flags| :: !flags[k]
    ensures Count(flags) == 0
  {
    if flags != [] {
      CountNone(flags[..|flags| - 1]);
    }
  }

  lemma {:induction false} CountSplit(flags: seq<bool>, k: nat)
    requires k <= |flags|
    ensures Count(flags) == Count(flags[..k]) + Count(flags[k..])
    decreases |flags|
  {
    if k == |flags| {
      assert flags[..k] == flags;
    } else {
      var shorter := flags[..|flags| - 1];
      CountSplit(shorter, k);
      assert shorter[..k] == flags[..k] && flags[k..][..|flags| - k - 1] == shorter[k..];
    }
  }

  /** Both passes see the same flags, so a drawn choice below their count is always found. */
  lemma {:induction false} PickFinds(flags: seq<bool>, choice: nat, k: nat)
    requires k <= |flags| && choice < Count(flags[k..])
    ensures PickSet(flags, choice, k).Some?
    ensures Count(flags[k..PickSet(flags, choice, k).value]) == choice
    decreases |flags| - k
  {
    if k < |flags| {
      CountSplit(flags[k..], 1);
      assert flags[k..][1..] == flags[k + 1..] && flags[k..][..1] == [flags[k]];
      assert Count([flags[k]]) == if flags[k] then 1 else 0;
      if !flags[k] || choice > 0 {
        var rest := if flags[k] then choice - 1 else choice;
        PickFinds(flags, rest, k + 1);
        var p := PickSet(flags, rest, k + 1).value;
        CountSplit(flags[k..p], 1);
        assert flags[k..p][1..] == flags[k + 1..p] && flags[k..p][..1] == [flags[k]];
      }
    }
  }

  /** When a chunk is due, one is repeated: the one with as many due chunks before it as the draw says. */
  lemma RetryFinds(out: Outgoing, c: StreamConfig, random: bv32, frame: nat)
    requires ValidOutgoing(out)
    ensures var flags := DueFlags(out, c, frame);
            var r := Select(out, c, random, frame);
            if Count(flags) == 0 then !r.1 && r.2 == random
            else r.1 && r.0.Some? && flags[r.0.value] && Count(flags[..r.0.value]) == (Draw(random) as int) % Count(flags)
  {
    hide DueFlags, Draw, InFlightFlags;
    var flags := DueFlags(out, c, frame);
    if Count(flags) != 0 {
      assert flags[0..] == flags;
      PickFinds(flags, (Draw(random) as int) % Count(flags), 0);
    }
  }
}
