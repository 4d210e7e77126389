/**
 Two stream peers over a channel that loses, repeats and reorders frames.  The
 session layer only decides which frames a peer looks at, so it is part of the
 channel here.
 */
module StreamRuns {
  import opened Bytes
  import opened Common
  import opened LightStreams

  /** One peer; `made` is every frame it ever built. */
  datatype Peer = Peer(out: Outgoing, into: Incoming, config: StreamConfig, random: bv32, made: seq<StreamFrame>)

  datatype World = World(left: Peer, right: Peer)

  datatype Event =
    | BuildAt(atLeft: bool, frame: nat)
    | DeliverTo(atLeft: bool, index: nat)

  function Swap(w: World): World { World(w.right, w.left) }

  function ActLeft(w: World, event: Event): Peer {
    var p := w.left;
    if !ValidOutgoing(p.out) || !ValidIncoming(p.into) then p
    else match event
         case BuildAt(_, frame) =>
           var (f, out, random, again) := BuildFrame(p.out, p.into, p.config, p.random, frame);
           p.(out := out, random := random, made := p.made + [f])
         case DeliverTo(_, index) =>
           if index >= |w.right.made| then p
           else
             var (out, into, status) := ProcessFrame(p.out, p.into, w.right.made[index]);
             p.(out := out, into := into)
  }

  function Step(w: World, event: Event): World {
    if event.atLeft then w.(left := ActLeft(w, event)) else w.(right := ActLeft(Swap(w), event))
  }

  function Run(w: World, events: seq<Event>): World {
    if events == [] then w else Step(Run(w, events[..|events| - 1]), events[|events| - 1])
  }

  // ---------------------------------------------------------------------
  // One direction
  // ---------------------------------------------------------------------

  /** What was received is what was sent, and what was acknowledged was received. */
  ghost predicate Intact(out: Outgoing, into: Incoming) {
    && ValidOutgoing(out) && ValidIncoming(into) && |out.source| == |into.sink|
    && (forall k: nat | k < |into.received| && into.received[k] :: ChunkOf(into.sink, k) == ChunkOf(out.source, k))
    && (forall k: nat | k < |out.acked| && out.acked[k] :: into.received[k])
    && into.base == FirstMissing(into.received, 0)
  }

  ghost predicate WindowKept(out: Outgoing, c: StreamConfig) {
    ValidOutgoing(out) && Count(InFlightFlags(out)) <= c.window
  }

  /** The acknowledgement claims only what its maker received. */
  ghost predicate AckTrue(payload: seq<byte>, into: Incoming) {
    && |payload| >= ACK_BYTES && payload[0] == 1 && payload[1] == 0
    && ReadU32(payload, 2) <= into.base <= |into.received|
    && forall bit: nat | bit < ACK_BITS && TestBit(ReadU16(payload, 6), bit) && ReadU32(payload, 2) + bit < |into.received| ::
         into.received[ReadU32(payload, 2) + bit]
  }

  predicate DataTrue(f: StreamFrame, source: seq<byte>) {
    if f.hasData then
      && f.sequence < Chunks(|source|) && |f.payload| >= ACK_BYTES && f.payload[ACK_BYTES..] == ChunkOf(source, f.sequence)
    else |f.payload| == ACK_BYTES
  }

  ghost predicate MadeTrue(from: Peer) {
    forall f <- from.made :: AckTrue(f.payload, from.into) && DataTrue(f, from.out.source)
  }

  ghost predicate Invariant(w: World) {
    && Intact(w.left.out, w.right.into) && Intact(w.right.out, w.left.into)
    && WindowKept(w.left.out, w.left.config) && WindowKept(w.right.out, w.right.config)
    && MadeTrue(w.left) && MadeTrue(w.right)
  }

  // ---------------------------------------------------------------------
  // Acknowledgements
  // ---------------------------------------------------------------------

  lemma HeaderReads(base: uint32, mask: seq<bool>, rest: seq<byte>)
    requires |mask| == ACK_BITS
    ensures var payload := AckHeader(base, mask) + rest;
            && payload[0] == 1 && payload[1] == 0 && ReadU32(payload, 2) == base
            && MaskOf(mask) < 0x1_0000 && ReadU16(payload, 6) == MaskOf(mask) && payload[ACK_BYTES..] == rest
  {
    MaskFits(mask);
    var payload := AckHeader(base, mask) + rest;
    U32RoundTrip(base, [1, 0], WriteU16(MaskOf(mask)) + rest);
    assert payload == [1, 0] + WriteU32(base) + (WriteU16(MaskOf(mask)) + rest);
    U16RoundTrip(MaskOf(mask), [1, 0] + WriteU32(base), rest);
    assert payload == [1, 0] + WriteU32(base) + WriteU16(MaskOf(mask)) + rest;
  }

  lemma HeaderTrue(into: Incoming, rest: seq<byte>)
    requires ValidIncoming(into)
    ensures AckTrue(AckHeader(into.base, AckMask(into)) + rest, into)
  {
    var mask := AckMask(into);
    HeaderReads(into.base, mask, rest);
    forall bit: nat | bit < ACK_BITS && TestBit(MaskOf(mask), bit) && into.base + bit < |into.received|
      ensures into.received[into.base + bit]
    {
      MaskBits(mask, bit);
    }
  }

  predicate More(before: Incoming, after: Incoming) {
    && |before.received| == |after.received| && before.base <= after.base <= |after.received|
    && forall k | 0 <= k < |before.received| && before.received[k] :: after.received[k]
  }

  lemma AckLater(payload: seq<byte>, before: Incoming, after: Incoming)
    requires AckTrue(payload, before) && More(before, after)
    ensures AckTrue(payload, after)
  {
  }

  lemma {:induction false} FlagsFewer(before: seq<bool>, after: seq<bool>)
    requires |before| == |after| && forall k | 0 <= k < |after| && after[k] :: before[k]
    ensures Count(after) <= Count(before)
  {
    if before != [] {
      FlagsFewer(before[..|before| - 1], after[..|after| - 1]);
    }
  }

  lemma {:induction false} FlagsOneMore(before: seq<bool>, k: nat)
    requires k < |before|
    ensures Count(before[k := true]) <= Count(before) + 1
    ensures before[k] ==> before[k := true] == before
  {
    var n := |before| - 1;
    if k < n {
      FlagsOneMore(before[..n], k);
      assert before[k := true][..n] == before[..n][k := true];
    } else {
      assert before[k := true][..n] == before[..n];
    }
  }

  /** A true acknowledgement is accepted and marks only received chunks. */
  lemma AckKeeps(out: Outgoing, into: Incoming, c: StreamConfig, payload: seq<byte>)
    requires Intact(out, into) && WindowKept(out, c) && AckTrue(payload, into)
    ensures var (after, status) := ApplyAck(out, payload);
            status == Ok && Intact(after, into) && WindowKept(after, c) && after.source == out.source
  {
    var after := ApplyAck(out, payload).0;
    FlagsFewer(InFlightFlags(out), InFlightFlags(after));
  }

  // ---------------------------------------------------------------------
  // Receiving a chunk
  // ---------------------------------------------------------------------

  lemma ChunksApart(i: nat, k: nat)
    requires i < k
    ensures ChunkStart(i) + CHUNK <= ChunkStart(k)
  {
  }

  lemma SpliceOther(sink: seq<byte>, at: nat, bytes: seq<byte>, from: nat, to: nat)
    requires at + |bytes| <= |sink| && from <= to <= |sink| && (to <= at || at + |bytes| <= from)
    ensures Splice(sink, at, bytes)[from..to] == sink[from..to]
  {
  }

  lemma SpliceSelf(sink: seq<byte>, at: nat, bytes: seq<byte>)
    requires at + |bytes| <= |sink|
    ensures Splice(sink, at, bytes)[at..at + |bytes|] == bytes
  {
  }

  lemma OtherChunk(sink: seq<byte>, sequence: nat, chunk: seq<byte>, k: nat)
    requires sequence < Chunks(|sink|) && k < Chunks(|sink|) && k != sequence
    requires |chunk| == ChunkEnd(|sink|, sequence) - ChunkStart(sequence)
    ensures ChunkStart(sequence) + |chunk| <= |sink|
    ensures ChunkOf(Splice(sink, ChunkStart(sequence), chunk), k) == ChunkOf(sink, k)
  {
    hide Splice;
    ChunkInside(|sink|, sequence);
    ChunkInside(|sink|, k);
    if k < sequence { ChunksApart(k, sequence); } else { ChunksApart(sequence, k); }
    SpliceOther(sink, ChunkStart(sequence), chunk, ChunkStart(k), ChunkEnd(|sink|, k));
  }

  lemma ThisChunk(sink: seq<byte>, sequence: nat, chunk: seq<byte>)
    requires sequence < Chunks(|sink|)
    requires |chunk| == ChunkEnd(|sink|, sequence) - ChunkStart(sequence)
    ensures ChunkStart(sequence) + |chunk| <= |sink|
    ensures ChunkOf(Splice(sink, ChunkStart(sequence), chunk), sequence) == chunk
  {
    hide Splice;
    ChunkInside(|sink|, sequence);
    SpliceSelf(sink, ChunkStart(sequence), chunk);
  }

  /** The scan goes on from the old base to the same place as a scan from the start. */
  lemma {:induction false} ScanOn(received: seq<bool>, after: seq<bool>, k: nat)
    requires |received| == |after| && k <= |received|
    requires forall j | 0 <= j < |received| && received[j] :: after[j]
    ensures FirstMissing(after, FirstMissing(received, k)) == FirstMissing(after, k)
    decreases |received| - k
  {
    if k < |received| && received[k] {
      ScanOn(received, after, k + 1);
    }
  }

  /** The chunk of a true frame is never refused, lands in its place, and the base stays the exact contiguous prefix. */
  lemma ChunkKeeps(out: Outgoing, into: Incoming, sequence: nat)
    requires Intact(out, into) && sequence < Chunks(|out.source|)
    ensures var (after, status) := Receive(into, sequence, ChunkOf(out.source, sequence));
            status == Ok && Intact(out, after) && More(into, after)
  {
    hide Splice, FirstMissing;
    var chunk := ChunkOf(out.source, sequence);
    ChunkInside(|out.source|, sequence);
    if !into.received[sequence] {
      var after := Receive(into, sequence, chunk).0;
      ThisChunk(into.sink, sequence, chunk);
      forall k: nat | k < |after.received| && after.received[k]
        ensures ChunkOf(after.sink, k) == ChunkOf(out.source, k)
      {
        if k != sequence { OtherChunk(into.sink, sequence, chunk, k); }
      }
      ScanOn(into.received, after.received, 0);
      ScanGrows(into.received, after.received);
    }
  }

  lemma ScanGrows(received: seq<bool>, after: seq<bool>)
    requires |received| == |after| && forall j | 0 <= j < |received| && received[j] :: after[j]
    ensures FirstMissing(received, 0) <= FirstMissing(after, 0)
  {
  }

  lemma MoreSelf(into: Incoming)
    requires ValidIncoming(into)
    ensures More(into, into)
  {
  }

  // ---------------------------------------------------------------------
  // Steps
  // ---------------------------------------------------------------------

  lemma MadeLater(p: Peer, p': Peer)
    requires MadeTrue(p) && p'.made == p.made && p'.out.source == p.out.source && More(p.into, p'.into)
    ensures MadeTrue(p')
  {
    forall f | f in p'.made ensures AckTrue(f.payload, p'.into) && DataTrue(f, p'.out.source) {
      AckLater(f.payload, p.into, p'.into);
    }
  }

  /** No frame of the peer, however late or repeated, is refused. */
  lemma DeliverKeeps(w: World, index: nat)
    requires Invariant(w) && index < |w.right.made|
    ensures ProcessFrame(w.left.out, w.left.into, w.right.made[index]).2 == Ok
    ensures Invariant(w.(left := ActLeft(w, DeliverTo(true, index))))
  {
    hide Intact, WindowKept, AckTrue, ApplyAck, Receive, MadeTrue, More;
    var p, f := w.left, w.right.made[index];
    IntactValid(w.left.out, w.right.into);
    IntactValid(w.right.out, w.left.into);
    FrameTrue(w.right, f);
    AckKeeps(p.out, w.right.into, p.config, f.payload);
    MoreSelf(p.into);
    if f.hasData {
      ChunkKeeps(w.right.out, p.into, f.sequence);
    }
    MadeLater(p, ActLeft(w, DeliverTo(true, index)));
  }

  lemma IntactValid(out: Outgoing, into: Incoming)
    requires Intact(out, into)
    ensures ValidOutgoing(out) && ValidIncoming(into)
  {
  }

  lemma FrameTrue(from: Peer, f: StreamFrame)
    requires MadeTrue(from) && f in from.made
    ensures AckTrue(f.payload, from.into) && DataTrue(f, from.out.source)
    ensures f.hasData ==> |f.payload| > ACK_BYTES
  {
  }

  lemma MarkKeeps(out: Outgoing, into: Incoming, c: StreamConfig, k: nat, frame: nat)
    requires Intact(out, into) && WindowKept(out, c) && k < |out.sent|
    requires InFlightFlags(out)[k] || (Count(InFlightFlags(out)) < c.window)
    ensures Intact(MarkSent(out, k, frame), into) && WindowKept(MarkSent(out, k, frame), c)
  {
    var before, after := InFlightFlags(out), InFlightFlags(MarkSent(out, k, frame));
    FlagsOneMore(before, k);
    FlagsFewer(before[k := true], after);
  }

  lemma SelectKeeps(out: Outgoing, c: StreamConfig, random: bv32, frame: nat)
    requires ValidOutgoing(out)
    ensures var r := Select(out, c, random, frame);
            r.0.Some? ==> InFlightFlags(out)[r.0.value] || Count(InFlightFlags(out)) < c.window
  {
    hide Count, Draw;
  }

  lemma BuildKeeps(w: World, frame: nat)
    requires Invariant(w)
    ensures Invariant(w.(left := ActLeft(w, BuildAt(true, frame))))
  {
    hide Intact, WindowKept, AckTrue, Select, More, MadeTrue;
    var p := w.left;
    IntactValid(w.left.out, w.right.into);
    IntactValid(w.right.out, w.left.into);
    var (chosen, again, drawn) := Select(p.out, p.config, p.random, frame);
    SelectKeeps(p.out, p.config, p.random, frame);
    HeaderTrue(p.into, []);
    assert AckHeader(p.into.base, AckMask(p.into)) + [] == AckHeader(p.into.base, AckMask(p.into));
    if chosen.Some? {
      MarkKeeps(p.out, w.right.into, p.config, chosen.value, frame);
      HeaderTrue(p.into, ChunkOf(p.out.source, chosen.value));
    }
    MoreSelf(p.into);
    var after := ActLeft(w, BuildAt(true, frame));
    MadeLater(p, after.(made := p.made));
    MadeOneMore(after.(made := p.made), after.made[|p.made|]);
  }

  lemma MadeOneMore(p: Peer, f: StreamFrame)
    requires MadeTrue(p) && AckTrue(f.payload, p.into) && DataTrue(f, p.out.source)
    ensures MadeTrue(p.(made := p.made + [f]))
  {
  }

  lemma StepKeeps(w: World, event: Event)
    requires Invariant(w)
    ensures Invariant(Step(w, event))
  {
    hide Intact, WindowKept, MadeTrue, BuildFrame, ProcessFrame;
    var v := if event.atLeft then w else Swap(w);
    match event
    case BuildAt(_, frame) => BuildKeeps(v, frame);
    case DeliverTo(_, index) =>
      if index < |v.right.made| { DeliverKeeps(v, index); }
  }

  lemma {:induction false} RunKeeps(w: World, events: seq<Event>)
    requires Invariant(w)
    ensures Invariant(Run(w, events))
  {
    hide Invariant, Step;
    if events != [] {
      RunKeeps(w, events[..|events| - 1]);
      StepKeeps(Run(w, events[..|events| - 1]), events[|events| - 1]);
    }
  }

  // ---------------------------------------------------------------------
  // The theorems
  // ---------------------------------------------------------------------

  function NewPeer(source: seq<byte>, sink: seq<byte>, c: StreamConfig, random: bv32): Peer {
    Peer(NewOutgoing(source), NewIncoming(sink), c, random, [])
  }

  /** Two new peers whose incoming buffers have the lengths of the other's outgoing data. */
  ghost predicate Started(w: World) {
    && w.left == NewPeer(w.left.out.source, w.left.into.sink, w.left.config, w.left.random)
    && w.right == NewPeer(w.right.out.source, w.right.into.sink, w.right.config, w.right.random)
    && |w.left.out.source| == |w.right.into.sink| <= MAX_BYTES && |w.right.out.source| == |w.left.into.sink| <= MAX_BYTES
  }

  ghost predicate Reachable(w: World) {
    exists start: World, events: seq<Event> :: Started(start) && w == Run(start, events)
  }

  lemma StartOk(w: World)
    requires Started(w)
    ensures Invariant(w)
  {
    CountNone(InFlightFlags(w.left.out));
    CountNone(InFlightFlags(w.right.out));
  }

  lemma InvariantHolds(w: World)
    requires Reachable(w)
    ensures Invariant(w)
  {
    hide Run, Invariant;
    var start: World, events: seq<Event> :| Started(start) && w == Run(start, events);
    StartOk(start);
    RunKeeps(start, events);
  }

  lemma {:induction false} ChunksMakeWhole(a: seq<byte>, b: seq<byte>, n: nat)
    requires |a| == |b| && n <= Chunks(|a|)
    requires forall k: nat | k < n :: ChunkOf(a, k) == ChunkOf(b, k)
    ensures if n < Chunks(|a|) then ChunkStart(n) <= |a| && a[..ChunkStart(n)] == b[..ChunkStart(n)] else a == b
  {
    if n > 0 {
      ChunksMakeWhole(a, b, n - 1);
      ChunkInside(|a|, n - 1);
      var start, end := ChunkStart(n - 1), ChunkEnd(|a|, n - 1);
      assert ChunkOf(a, n - 1) == ChunkOf(b, n - 1);
      assert a[..end] == a[..start] + a[start..end] && b[..end] == b[..start] + b[start..end];
      assert end == |a| ==> a[..end] == a && b[..end] == b;
    }
  }

  lemma WholeWhen(out: Outgoing, into: Incoming)
    requires Intact(out, into) && (SenderDone(out) || ReceiverDone(into))
    ensures into.sink == out.source
  {
    forall k: nat | k < Chunks(|out.source|) ensures ChunkOf(into.sink, k) == ChunkOf(out.source, k) {
      if SenderDone(out) {
        assert out.acked[k];
      }
      assert into.received[k];
    }
    ChunksMakeWhole(into.sink, out.source, Chunks(|out.source|));
  }

  /** When either peer finds everything acknowledged and received, both sinks equal their sources. */
  lemma CompleteIsWhole(w: World)
    requires Reachable(w)
    ensures (SenderDone(w.left.out) && ReceiverDone(w.left.into)) || (SenderDone(w.right.out) && ReceiverDone(w.right.into)) ==>
              w.right.into.sink == w.left.out.source && w.left.into.sink == w.right.out.source
  {
    hide Reachable, WindowKept, MadeTrue, Intact, SenderDone, ReceiverDone;
    InvariantHolds(w);
    if SenderDone(w.left.out) || ReceiverDone(w.right.into) { WholeWhen(w.left.out, w.right.into); }
    if SenderDone(w.right.out) || ReceiverDone(w.left.into) { WholeWhen(w.right.out, w.left.into); }
  }

  /**
   In every run an acknowledged chunk was received intact, the base counts
   exactly the chunks received without a gap, the window is kept, and the peer
   refuses no frame.
   */
  lemma StreamsStayInOrder(w: World, k: nat, index: nat)
    requires Reachable(w)
    ensures ValidOutgoing(w.left.out) && ValidIncoming(w.left.into) && ValidIncoming(w.right.into)
    ensures |w.left.out.source| == |w.right.into.sink|
    ensures k < |w.left.out.acked| && w.left.out.acked[k] ==>
              w.right.into.received[k] && ChunkOf(w.right.into.sink, k) == ChunkOf(w.left.out.source, k)
    ensures k < w.right.into.base ==> w.right.into.received[k]
    ensures w.right.into.base < |w.right.into.received| ==> !w.right.into.received[w.right.into.base]
    ensures Count(InFlightFlags(w.left.out)) <= w.left.config.window
    ensures index < |w.right.made| ==> ProcessFrame(w.left.out, w.left.into, w.right.made[index]).2 == Ok
  {
    hide Reachable, MadeTrue, ProcessFrame;
    InvariantHolds(w);
    if index < |w.right.made| { DeliverKeeps(w, index); }
  }
}
