/**
 Delivery of a stream: what a frame that arrives achieves, and that from every
 state a run reaches the stream is complete in bounded time once no frame is lost.
 */
module StreamDelivery {
  import opened Bytes
  import opened Common
  import opened LightStreams
  import opened StreamRuns

  // ---------------------------------------------------------------------
  // What a frame achieves
  // ---------------------------------------------------------------------

  /** The acknowledgement of a receiver marks exactly the chunks it has below its base and in the sixteen from it. */
  lemma AckExact(out: Outgoing, into: Incoming, rest: seq<byte>, k: nat)
    requires ValidIncoming(into) && |out.acked| == |into.received| && k < |out.acked|
    ensures var (after, status) := ApplyAck(out, AckHeader(into.base, AckMask(into)) + rest);
            && status == Ok && after == out.(acked := after.acked) && |after.acked| == |out.acked|
            && (after.acked[k] <==> out.acked[k] || k < into.base || (k < into.base + ACK_BITS && into.received[k]))
  {
    var mask := AckMask(into);
    HeaderReads(into.base, mask, rest);
    if into.base <= k < into.base + ACK_BITS {
      MaskBits(mask, k - into.base);
    }
  }

  /** The chunk of a true frame that arrives has been received; one received before changes nothing. */
  lemma ChunkArrives(out: Outgoing, into: Incoming, f: StreamFrame)
    requires Intact(out, into) && DataTrue(f, out.source) && f.hasData
    ensures |f.payload| > ACK_BYTES && f.sequence < |into.received|
    ensures var after := Receive(into, f.sequence, f.payload[ACK_BYTES..]).0;
            && after.received == into.received[f.sequence := true]
            && (into.received[f.sequence] ==> after == into)
  {
    ChunkInside(|out.source|, f.sequence);
  }

  // ---------------------------------------------------------------------
  // Chunks are sent in order, and before they are received
  // ---------------------------------------------------------------------

  predicate SentInOrder(out: Outgoing) {
    forall j, k | 0 <= j < k < |out.sent| && out.sent[k] :: out.sent[j]
  }

  /** Nothing was received, or is on its way, that was not sent. */
  ghost predicate SentFirst(from: Peer, to: Peer) {
    && |to.into.received| == |from.out.sent|
    && (forall k | 0 <= k < |to.into.received| && to.into.received[k] :: from.out.sent[k])
    && forall f <- from.made :: f.hasData ==> f.sequence < |from.out.sent| && from.out.sent[f.sequence]
  }

  predicate SentBy(out: Outgoing, frame: nat) {
    |out.sent| == |out.lastSent| && forall k | 0 <= k < |out.sent| && out.sent[k] :: out.lastSent[k] <= frame
  }

  ghost predicate Good(w: World) {
    && Invariant(w) && SentInOrder(w.left.out) && SentInOrder(w.right.out)
    && SentFirst(w.left, w.right) && SentFirst(w.right, w.left)
  }

  /** A built frame repeats a chunk in flight or carries the first one never sent. */
  lemma BuildSends(out: Outgoing, i: Incoming, c: StreamConfig, random: bv32, frame: nat)
    requires ValidOutgoing(out) && ValidIncoming(i)
    ensures var (f, after, _, again) := BuildFrame(out, i, c, random, frame);
            && (f.hasData ==>
                  && f.sequence < |out.sent| && after == MarkSent(out, f.sequence, frame)
                  && (if again then DueFlags(out, c, frame)[f.sequence]
                      else f.sequence == FirstUnsent(out.sent, 0) && !out.sent[f.sequence]))
            && (!f.hasData ==> after == out && !again)
            && ACK_BYTES <= |f.payload| && f.payload == AckHeader(i.base, AckMask(i)) + f.payload[ACK_BYTES..]
  {
    hide Draw, DueFlags, InFlightFlags, AckHeader, AckMask, FirstUnsent;
    var flags := DueFlags(out, c, frame);
    RetryFinds(out, c, random, frame);
    SmallSequence(out);
  }

  lemma SmallSequence(out: Outgoing)
    requires ValidOutgoing(out)
    ensures |out.sent| < UINT32_MAX
  {
  }

  lemma MarkInOrder(out: Outgoing, k: nat, frame: nat)
    requires ValidOutgoing(out) && k < |out.sent| && SentInOrder(out) && (out.sent[k] || k == FirstUnsent(out.sent, 0))
    ensures SentInOrder(MarkSent(out, k, frame))
  {
    hide FirstUnsent;
    assert forall j | 0 <= j < FirstUnsent(out.sent, 0) :: out.sent[j];
  }

  lemma BuildGood(w: World, frame: nat)
    requires Good(w)
    ensures Good(w.(left := ActLeft(w, BuildAt(true, frame))))
  {
    hide Intact, WindowKept, MadeTrue, MarkSent, BuildFrame;
    BuildKeeps(w, frame);
    IntactValid(w.left.out, w.right.into);
    IntactValid(w.right.out, w.left.into);
    var p := w.left;
    BuildSends(p.out, p.into, p.config, p.random, frame);
    var (f, after, random, again) := BuildFrame(p.out, p.into, p.config, p.random, frame);
    if f.hasData {
      DueIsSent(p.out, p.config, frame, f.sequence);
      MarkInOrder(p.out, f.sequence, frame);
      MarkParts(p.out, f.sequence, frame);
    }
  }

  lemma DueIsSent(out: Outgoing, c: StreamConfig, frame: nat, k: nat)
    requires ValidOutgoing(out) && k < |out.sent|
    ensures DueFlags(out, c, frame)[k] ==> out.sent[k] && !out.acked[k]
  {
  }

  lemma MarkParts(out: Outgoing, k: nat, frame: nat)
    requires ValidOutgoing(out) && k < |out.sent|
    ensures var after := MarkSent(out, k, frame);
            && after.sent == out.sent[k := true] && after.lastSent == out.lastSent[k := frame]
            && after.acked == out.acked && after.source == out.source
  {
  }

  lemma DeliverGood(w: World, index: nat)
    requires Good(w) && index < |w.right.made|
    ensures Good(w.(left := ActLeft(w, DeliverTo(true, index))))
  {
    hide Intact, WindowKept, MadeTrue, ApplyAck, Receive;
    DeliverKeeps(w, index);
    IntactValid(w.left.out, w.right.into);
    IntactValid(w.right.out, w.left.into);
    var p, f := w.left, w.right.made[index];
    FrameTrue(w.right, f);
    AckKeepsSent(p.out, f.payload);
    if f.hasData {
      ChunkArrives(w.right.out, p.into, f);
    }
  }

  lemma AckKeepsSent(out: Outgoing, payload: seq<byte>)
    ensures ApplyAck(out, payload).0 == out.(acked := ApplyAck(out, payload).0.acked)
  {
  }

  lemma StepGood(w: World, event: Event)
    requires Good(w)
    ensures Good(Step(w, event))
  {
    hide Invariant, SentInOrder, SentFirst, BuildFrame, ProcessFrame;
    var v := if event.atLeft then w else Swap(w);
    assert Good(v) by { SwapGood(w); }
    match event
    case BuildAt(_, frame) =>
      BuildGood(v, frame);
      SwapGood(v.(left := ActLeft(v, BuildAt(true, frame))));
    case DeliverTo(_, index) =>
      if index < |v.right.made| {
        DeliverGood(v, index);
        SwapGood(v.(left := ActLeft(v, DeliverTo(true, index))));
      } else {
        SwapGood(v);
      }
  }

  lemma SwapGood(w: World)
    requires Good(w)
    ensures Good(Swap(w))
  {
    hide Intact, WindowKept, MadeTrue, SentInOrder, SentFirst;
  }

  lemma {:induction false} RunGood(w: World, events: seq<Event>)
    requires Good(w)
    ensures Good(Run(w, events))
  {
    hide Good, Step;
    if events != [] {
      RunGood(w, events[..|events| - 1]);
      StepGood(Run(w, events[..|events| - 1]), events[|events| - 1]);
    }
  }

  lemma ReachableIsGood(w: World)
    requires Reachable(w)
    ensures Good(w)
  {
    hide Run, Invariant;
    var start: World, events: seq<Event> :| Started(start) && w == Run(start, events);
    StartOk(start);
    RunGood(start, events);
  }

  // ---------------------------------------------------------------------
  // One exchange
  // ---------------------------------------------------------------------

  /** Both ends build a frame, and both frames arrive. */
  datatype Beat = Beat(frame: nat, answer: nat)

  function Spoken(w: World, b: Beat): World { Step(Step(w, BuildAt(true, b.frame)), BuildAt(false, b.answer)) }

  function Exchange(w: World, b: Beat): World {
    Step(Step(Spoken(w, b), DeliverTo(false, |w.left.made|)), DeliverTo(true, |w.right.made|))
  }

  function Exchanges(w: World, beats: seq<Beat>): World {
    if beats == [] then w else Exchange(Exchanges(w, beats[..|beats| - 1]), beats[|beats| - 1])
  }

  /** What the right end makes of a frame. */
  function Taken(into: Incoming, f: StreamFrame): Incoming
    requires ValidIncoming(into)
  {
    if f.hasData && |f.payload| > ACK_BYTES then Receive(into, f.sequence, f.payload[ACK_BYTES..]).0 else into
  }

  lemma ExchangeGood(w: World, b: Beat)
    requires Good(w)
    ensures Good(Step(w, BuildAt(true, b.frame))) && Good(Spoken(w, b)) && Good(Step(Spoken(w, b), DeliverTo(false, |w.left.made|)))
    ensures Good(Exchange(w, b))
  {
    hide Good, Step;
    StepGood(w, BuildAt(true, b.frame));
    StepGood(Step(w, BuildAt(true, b.frame)), BuildAt(false, b.answer));
    StepGood(Spoken(w, b), DeliverTo(false, |w.left.made|));
    StepGood(Step(Spoken(w, b), DeliverTo(false, |w.left.made|)), DeliverTo(true, |w.right.made|));
  }

  lemma GoodParts(w: World)
    requires Good(w)
    ensures ValidOutgoing(w.left.out) && ValidOutgoing(w.right.out) && ValidIncoming(w.left.into) && ValidIncoming(w.right.into)
    ensures |w.left.out.sent| == |w.left.out.acked| == |w.right.into.received| == |w.left.out.lastSent|
    ensures Intact(w.left.out, w.right.into) && Invariant(w) && SentInOrder(w.left.out)
    ensures Count(InFlightFlags(w.left.out)) <= w.left.config.window
    ensures forall k | 0 <= k < |w.right.into.received| && w.right.into.received[k] :: w.left.out.sent[k]
  {
    hide MadeTrue;
  }

  /** A peer hears a frame of the other. */
  lemma Hears(w: World, index: nat)
    requires Good(w) && index < |w.right.made|
    ensures ValidIncoming(w.left.into)
    ensures var f := w.right.made[index];
            ActLeft(w, DeliverTo(true, index)) == w.left.(out := ApplyAck(w.left.out, f.payload).0, into := Taken(w.left.into, f))
  {
    hide Intact, WindowKept, MadeTrue, ApplyAck, Receive, AckTrue, DataTrue;
    IntactValid(w.left.out, w.right.into);
    IntactValid(w.right.out, w.left.into);
    FrameTrue(w.right, w.right.made[index]);
    AckKeeps(w.left.out, w.right.into, w.left.config, w.right.made[index].payload);
  }

  /** A peer builds a frame. */
  lemma Builds(w: World, frame: nat)
    requires Good(w)
    ensures ValidOutgoing(w.left.out) && ValidIncoming(w.left.into)
    ensures var (f, out, random, again) := BuildFrame(w.left.out, w.left.into, w.left.config, w.left.random, frame);
            ActLeft(w, BuildAt(true, frame)) == w.left.(out := out, random := random, made := w.left.made + [f])
  {
    hide Intact, WindowKept, MadeTrue, BuildFrame;
    IntactValid(w.left.out, w.right.into);
    IntactValid(w.right.out, w.left.into);
  }

  /** Where the ends of the direction from left to right stand after an exchange. */
  lemma ExchangeEnds(w: World, b: Beat)
    requires Good(w)
    ensures ValidOutgoing(w.left.out) && ValidIncoming(w.left.into) && ValidOutgoing(w.right.out) && ValidIncoming(w.right.into)
    ensures var (f, out, random, again) := BuildFrame(w.left.out, w.left.into, w.left.config, w.left.random, b.frame);
            var g := BuildFrame(w.right.out, w.right.into, w.right.config, w.right.random, b.answer).0;
            var after := Exchange(w, b);
            && after.left.config == w.left.config && after.left.random == random
            && after.right.into == Taken(w.right.into, f) && after.left.out == ApplyAck(out, g.payload).0
  {
    hide Good, BuildFrame, ApplyAck, Receive, Taken, ActLeft;
    ExchangeGood(w, b);
    GoodParts(w);
    Builds(w, b.frame);
    var w1 := Step(w, BuildAt(true, b.frame));
    SwapGood(w1);
    Builds(Swap(w1), b.answer);
    BuildSide(Swap(w1), b.answer);
    var w2 := Spoken(w, b);
    SwapGood(w2);
    Hears(Swap(w2), |w.left.made|);
    HearSide(Swap(w2), |w.left.made|);
    Hears(Step(w2, DeliverTo(false, |w.left.made|)), |w.right.made|);
  }

  /** Which side an event names does not matter to the peer that acts. */
  lemma BuildSide(w: World, frame: nat)
    ensures ActLeft(w, BuildAt(false, frame)) == ActLeft(w, BuildAt(true, frame))
  {
  }

  lemma HearSide(w: World, index: nat)
    ensures ActLeft(w, DeliverTo(false, index)) == ActLeft(w, DeliverTo(true, index))
  {
  }

  // ---------------------------------------------------------------------
  // Progress
  // ---------------------------------------------------------------------

  function Lacking(w: World): set<nat> {
    set k: nat | k < |w.right.into.received| && !w.right.into.received[k]
  }

  /** The sender knows of every chunk the receiver can tell it about. */
  predicate Knows(w: World) {
    forall k: nat | k < |w.left.out.acked| && k < |w.right.into.received| && k < w.right.into.base + ACK_BITS && w.right.into.received[k] ::
      w.left.out.acked[k]
  }

  /** The chunks in flight that were last sent before this frame. */
  function Old(out: Outgoing, frame: nat): set<nat>
    requires ValidOutgoing(out)
  {
    set k: nat | k < |out.sent| && InFlightFlags(out)[k] && out.lastSent[k] < frame
  }

  lemma {:induction false} CountSet(flags: seq<bool>)
    ensures |(set k: nat | k < |flags| && flags[k])| == Count(flags)
  {
    var all := set k: nat | k < |flags| && flags[k];
    if flags != [] {
      var n := |flags| - 1;
      var rest := set k: nat | k < n && flags[..n][k];
      CountSet(flags[..n]);
      assert n !in rest;
      if flags[n] {
        assert all == rest + {n};
      } else {
        assert all == rest;
      }
    }
  }

  lemma Fewer(small: set<nat>, large: set<nat>)
    requires small <= large
    ensures |small| <= |large| && (small != large ==> |small| < |large|)
  {
    assert large == small + (large - small) && |large| == |small| + |large - small|;
  }

  lemma OldBound(out: Outgoing, frame: nat)
    requires ValidOutgoing(out)
    ensures |Old(out, frame)| <= Count(InFlightFlags(out))
  {
    CountSet(InFlightFlags(out));
    Fewer(Old(out, frame), set k: nat | k < |InFlightFlags(out)| && InFlightFlags(out)[k]);
  }

  /** What one exchange does to chunks, acknowledgements and send times. */
  lemma ExchangeMoves(w: World, b: Beat, sent: nat)
    requires Good(w) && SentBy(w.left.out, sent) && sent <= b.frame
    ensures Good(Exchange(w, b)) && ValidOutgoing(w.left.out) && ValidIncoming(w.left.into)
    ensures var after := Exchange(w, b);
            var (f, out, random, again) := BuildFrame(w.left.out, w.left.into, w.left.config, w.left.random, b.frame);
            && after.left.config == w.left.config && |after.right.into.received| == |w.right.into.received|
            && SentBy(after.left.out, b.frame) && Lacking(after) <= Lacking(w)
            && (f.hasData && !w.right.into.received[f.sequence] ==> f.sequence in Lacking(w) && f.sequence !in Lacking(after))
            && (Lacking(after) == Lacking(w) ==> after.right.into == w.right.into && Knows(after))
            && |after.left.out.acked| == |w.left.out.acked|
            && (forall k | 0 <= k < |w.left.out.acked| && w.left.out.acked[k] :: after.left.out.acked[k])
            && after.left.out.sent == out.sent && after.left.out.lastSent == out.lastSent
  {
    hide Good, BuildFrame, ApplyAck, Receive, AckHeader, AckMask, Intact, Invariant;
    GoodParts(w);
    ExchangeGood(w, b);
    GoodParts(Exchange(w, b));
    ExchangeEnds(w, b);
    var (f, out, random, again) := BuildFrame(w.left.out, w.left.into, w.left.config, w.left.random, b.frame);
    BuildSends(w.left.out, w.left.into, w.left.config, w.left.random, b.frame);
    BuiltTrue(w, b.frame);
    BuildSends(w.right.out, w.right.into, w.right.config, w.right.random, b.answer);
    var g := BuildFrame(w.right.out, w.right.into, w.right.config, w.right.random, b.answer).0;
    var after := Exchange(w, b);
    if f.hasData {
      ChunkArrives(w.left.out, w.right.into, f);
      MarkParts(w.left.out, f.sequence, b.frame);
    }
    AckKeepsSent(out, g.payload);
    forall k | 0 <= k < |out.acked|
      ensures |after.left.out.acked| == |out.acked|
      ensures after.left.out.acked[k] <==> out.acked[k] || k < w.right.into.base || (k < w.right.into.base + ACK_BITS && w.right.into.received[k])
    {
      AckExact(out, w.right.into, g.payload[ACK_BYTES..], k);
    }
    if f.hasData && !w.right.into.received[f.sequence] {
      assert f.sequence in Lacking(w);
    }
    assert |out.acked| == 0 ==> |after.left.out.acked| == 0;
  }

  /** The frame of a good peer is true. */
  lemma BuiltTrue(w: World, frame: nat)
    requires Good(w)
    ensures ValidOutgoing(w.left.out) && ValidIncoming(w.left.into)
    ensures DataTrue(BuildFrame(w.left.out, w.left.into, w.left.config, w.left.random, frame).0, w.left.out.source)
    ensures BuildFrame(w.left.out, w.left.into, w.left.config, w.left.random, frame).1.source == w.left.out.source
    ensures BuildFrame(w.left.out, w.left.into, w.left.config, w.left.random, frame).1.acked == w.left.out.acked
  {
    hide Good, BuildFrame, Select, MadeTrue;
    GoodParts(w);
    Builds(w, frame);
    BuildGood(w, frame);
    var after := w.(left := ActLeft(w, BuildAt(true, frame)));
    MadeParts(after, BuildFrame(w.left.out, w.left.into, w.left.config, w.left.random, frame).0);
    BuildKeepsSource(w.left.out, w.left.into, w.left.config, w.left.random, frame);
  }

  lemma MadeParts(w: World, f: StreamFrame)
    requires Good(w) && f in w.left.made
    ensures DataTrue(f, w.left.out.source)
  {
  }

  lemma BuildKeepsSource(out: Outgoing, i: Incoming, c: StreamConfig, random: bv32, frame: nat)
    requires ValidOutgoing(out) && ValidIncoming(i)
    ensures BuildFrame(out, i, c, random, frame).1.source == out.source
    ensures BuildFrame(out, i, c, random, frame).1.acked == out.acked
  {
    hide Select, AckHeader, AckMask;
  }

  // ---------------------------------------------------------------------
  // A sender whose frames bring nothing new
  // ---------------------------------------------------------------------

  /** The exchange brought the receiver nothing new. */
  predicate Stuck(w: World, b: Beat) { Lacking(Exchange(w, b)) == Lacking(w) }

  /** The receiver's first missing chunk, in flight at a sender that knows what it can. */
  ghost predicate Waits(w: World, m: nat) {
    Good(w) && Knows(w) && m == w.right.into.base && m < |w.left.out.sent| && w.left.out.sent[m]
  }

  lemma MissingIsLacking(w: World)
    requires Good(w)
    ensures var m := w.right.into.base;
            && (m < |w.right.into.received| ==> !w.right.into.received[m] && !w.left.out.acked[m])
            && (forall k: nat | k < m :: k < |w.right.into.received| && w.right.into.received[k])
            && (Lacking(w) == {} <==> m == |w.right.into.received|)
  {
    hide WindowKept, MadeTrue, SentInOrder, SentFirst;
    var into := w.right.into;
    if into.base < |into.received| {
      assert into.base in Lacking(w);
    }
  }

  /** A chunk never sent is not received, so sending it brings something new. */
  lemma NewIsNew(w: World, b: Beat, sent: nat)
    requires Good(w) && SentBy(w.left.out, sent) && sent <= b.frame && Stuck(w, b)
    ensures ValidOutgoing(w.left.out) && ValidIncoming(w.left.into)
    ensures var (f, out, random, again) := BuildFrame(w.left.out, w.left.into, w.left.config, w.left.random, b.frame);
            && (f.hasData ==>
                  again && f.sequence < |w.left.out.sent| && DueFlags(w.left.out, w.left.config, b.frame)[f.sequence]
                  && w.right.into.received[f.sequence] && out == MarkSent(w.left.out, f.sequence, b.frame))
            && (!f.hasData ==> out == w.left.out)
  {
    hide Good, BuildFrame, Exchange, Lacking, Knows, SentBy;
    GoodParts(w);
    ExchangeMoves(w, b, sent);
    BuildSends(w.left.out, w.left.into, w.left.config, w.left.random, b.frame);
  }

  /** When nothing of the stream is in flight the next chunk is sent. */
  lemma EmptyWindowSends(out: Outgoing, i: Incoming, c: StreamConfig, random: bv32, frame: nat, m: nat)
    requires ValidOutgoing(out) && ValidIncoming(i) && c.window >= 1 && m < |out.sent| && !out.sent[m]
    requires forall k | 0 <= k < |out.sent| && out.sent[k] :: out.acked[k]
    ensures var (f, _, _, again) := BuildFrame(out, i, c, random, frame); f.hasData && !again
  {
    hide AckHeader, AckMask, FirstUnsent, Draw;
    var due, flying := DueFlags(out, c, frame), InFlightFlags(out);
    CountNone(due);
    CountNone(flying);
    UnsentFound(out.sent, 0, m);
  }

  lemma {:induction false} UnsentFound(sent: seq<bool>, k: nat, m: nat)
    requires k <= m < |sent| && !sent[m]
    ensures FirstUnsent(sent, k) <= m
    decreases |sent| - k
  {
    if sent[k] {
      UnsentFound(sent, k + 1, m);
    }
  }

  /** A sender that knows what it can and brings nothing new has the first missing chunk in flight. */
  lemma MissingIsSent(w: World, b: Beat, sent: nat)
    requires Good(w) && Knows(w) && SentBy(w.left.out, sent) && sent <= b.frame && Stuck(w, b) && w.left.config.window >= 1
    requires w.right.into.base < |w.left.out.sent|
    ensures Waits(w, w.right.into.base)
  {
    hide Good, BuildFrame, Exchange, Lacking, SentBy, InFlightFlags;
    GoodParts(w);
    MissingIsLacking(w);
    NewIsNew(w, b, sent);
    var m := w.right.into.base;
    if !w.left.out.sent[m] {
      forall k | 0 <= k < |w.left.out.sent| && w.left.out.sent[k]
        ensures w.left.out.acked[k]
      {
        assert k < m;
        assert w.right.into.received[k];
      }
      EmptyWindowSends(w.left.out, w.left.into, w.left.config, w.left.random, b.frame, m);
    }
  }

  lemma DueMeans(out: Outgoing, c: StreamConfig, frame: nat, k: nat)
    requires ValidOutgoing(out) && k < |out.sent| && out.lastSent[k] <= frame < TWO_64
    ensures DueFlags(out, c, frame)[k] ==> out.sent[k] && !out.acked[k] && out.lastSent[k] + c.retransmitAfter <= frame
    ensures out.sent[k] && !out.acked[k] && out.lastSent[k] + Patience(c.retransmitAfter) <= frame + 1 ==> DueFlags(out, c, frame)[k]
  {
    hide RetryHash;
    var delay := RetryDelay(c, k, out.lastSent[k]);
    var spread := if c.retransmitAfter < 4 then 4 else c.retransmitAfter;
    var hash := RetryHash(c.seed, Low32(k), Low32(out.lastSent[k])) as int;
    assert hash % spread < spread;
  }

  /** In every run a chunk is not sent again before its retransmit delay has passed. */
  lemma NotRepeatedEarly(w: World, frame: nat, sent: nat)
    requires Reachable(w) && SentBy(w.left.out, sent) && sent <= frame < TWO_64
    ensures ValidOutgoing(w.left.out) && ValidIncoming(w.left.into)
    ensures var out := w.left.out;
            var f := BuildFrame(out, w.left.into, w.left.config, w.left.random, frame).0;
            f.hasData && f.sequence < |out.sent| && out.sent[f.sequence] ==>
              !out.acked[f.sequence] && out.lastSent[f.sequence] + w.left.config.retransmitAfter <= frame
  {
    hide Reachable, Good, BuildFrame, SentBy, DueFlags;
    ReachableIsGood(w);
    GoodParts(w);
    BuildSends(w.left.out, w.left.into, w.left.config, w.left.random, frame);
    var f := BuildFrame(w.left.out, w.left.into, w.left.config, w.left.random, frame).0;
    if f.hasData && w.left.out.sent[f.sequence] {
      SentByMeans(w.left.out, sent, f.sequence);
      DueMeans(w.left.out, w.left.config, frame, f.sequence);
    }
  }

  /** The longest retry delay, and one frame. */
  function Patience(retransmitAfter: nat): (frames: nat)
    ensures frames >= 4
  {
    retransmitAfter + if retransmitAfter < 4 then 4 else retransmitAfter
  }

  /** An exchange that brings nothing new leaves the first missing chunk in flight, and when it was due another chunk was repeated. */
  lemma StuckMoves(w: World, b: Beat, sent: nat, m: nat, since: nat)
    requires Waits(w, m) && SentBy(w.left.out, sent) && sent <= b.frame < TWO_64 && Stuck(w, b) && w.left.config.window >= 1
    ensures var after := Exchange(w, b);
            && Waits(after, m) && SentBy(after.left.out, b.frame) && after.left.config == w.left.config
            && after.left.out.lastSent[m] == w.left.out.lastSent[m] && Lacking(after) == Lacking(w)
            && ValidOutgoing(w.left.out) && ValidOutgoing(after.left.out)
            && (w.left.out.lastSent[m] + Patience(w.left.config.retransmitAfter) <= b.frame + 1 &&
                since <= b.frame < since + w.left.config.retransmitAfter ==>
                  |Old(after.left.out, since)| < |Old(w.left.out, since)|)
  {
    hide Good, BuildFrame, Exchange, Lacking, SentBy, MarkSent, DueFlags;
    GoodParts(w);
    ExchangeMoves(w, b, sent);
    GoodParts(Exchange(w, b));
    MissingIsLacking(w);
    MissingIsLacking(Exchange(w, b));
    NewIsNew(w, b, sent);
    var (f, out, random, again) := BuildFrame(w.left.out, w.left.into, w.left.config, w.left.random, b.frame);
    var after := Exchange(w, b);
    if f.hasData {
      MarkParts(w.left.out, f.sequence, b.frame);
      DueIsSent(w.left.out, w.left.config, b.frame, f.sequence);
      SentByMeans(w.left.out, sent, f.sequence);
      DueMeans(w.left.out, w.left.config, b.frame, f.sequence);
    }
    SentByMeans(w.left.out, sent, m);
    DueMeans(w.left.out, w.left.config, b.frame, m);
    if DueFlags(w.left.out, w.left.config, b.frame)[m] && since <= b.frame < since + w.left.config.retransmitAfter {
      DueSends(w.left.out, w.left.into, w.left.config, w.left.random, b.frame, m);
      OldShrinks(w.left.out, after.left.out, f.sequence, b.frame, since);
    }
  }

  lemma SentByMeans(out: Outgoing, sent: nat, k: nat)
    requires SentBy(out, sent) && k < |out.sent| && out.sent[k]
    ensures out.lastSent[k] <= sent
  {
  }

  /** When a chunk is due some chunk is sent. */
  lemma DueSends(out: Outgoing, i: Incoming, c: StreamConfig, random: bv32, frame: nat, m: nat)
    requires ValidOutgoing(out) && ValidIncoming(i) && m < |out.sent| && DueFlags(out, c, frame)[m]
    ensures BuildFrame(out, i, c, random, frame).0.hasData
  {
    hide AckHeader, AckMask, Draw, DueFlags, InFlightFlags;
    RetryFinds(out, c, random, frame);
    SetIsCounted(DueFlags(out, c, frame), m);
  }

  lemma {:induction false} SetIsCounted(flags: seq<bool>, m: nat)
    requires m < |flags| && flags[m]
    ensures Count(flags) > 0
  {
    if m < |flags| - 1 {
      SetIsCounted(flags[..|flags| - 1], m);
    }
  }

  /** Repeating a chunk sent before a moment leaves fewer of them. */
  lemma OldShrinks(out: Outgoing, after: Outgoing, k: nat, frame: nat, since: nat)
    requires ValidOutgoing(out) && ValidOutgoing(after) && k < |out.sent| == |after.sent|
    requires out.sent[k] && !out.acked[k] && out.lastSent[k] < since <= frame
    requires after.sent == out.sent && after.lastSent == out.lastSent[k := frame]
    requires forall j | 0 <= j < |out.acked| && out.acked[j] :: after.acked[j]
    ensures |Old(after, since)| < |Old(out, since)|
  {
    assert k in Old(out, since) && k !in Old(after, since);
    assert Old(after, since) <= Old(out, since);
    Fewer(Old(after, since), Old(out, since));
  }

  // ---------------------------------------------------------------------
  // Many exchanges
  // ---------------------------------------------------------------------

  /** Consecutive local frames, from `first` on, within 64 bits. */
  predicate Consecutive(beats: seq<Beat>, first: nat) {
    first + |beats| <= TWO_64 && forall i | 0 <= i < |beats| :: beats[i].frame == first + i
  }

  lemma ConsecutiveParts(beats: seq<Beat>, first: nat, n: nat)
    requires Consecutive(beats, first) && n <= |beats|
    ensures Consecutive(beats[..n], first) && Consecutive(beats[n..], first + n)
  {
  }

  lemma {:induction false} ExchangesJoin(w: World, first: seq<Beat>, rest: seq<Beat>)
    ensures Exchanges(w, first + rest) == Exchanges(Exchanges(w, first), rest)
  {
    hide Exchange;
    if rest == [] {
      assert first + rest == first;
    } else {
      var n := |rest|;
      ExchangesJoin(w, first, rest[..n - 1]);
      assert (first + rest)[..|first + rest| - 1] == first + rest[..n - 1];
    }
  }

  function LastFrame(first: nat, count: nat, sent: nat): nat {
    if count == 0 then sent else first + count - 1
  }

  lemma {:induction false} ExchangesMove(w: World, beats: seq<Beat>, first: nat, sent: nat)
    requires Good(w) && SentBy(w.left.out, sent) && sent < first && Consecutive(beats, first)
    ensures var after := Exchanges(w, beats);
            && Good(after) && SentBy(after.left.out, LastFrame(first, |beats|, sent)) && Lacking(after) <= Lacking(w)
            && after.left.config == w.left.config && |after.right.into.received| == |w.right.into.received|
  {
    hide Good, SentBy, Exchange, Lacking, Knows;
    if beats != [] {
      var n := |beats| - 1;
      ConsecutiveParts(beats, first, n);
      ExchangesMove(w, beats[..n], first, sent);
      ExchangeMoves(Exchanges(w, beats[..n]), beats[n], LastFrame(first, n, sent));
    }
  }

  /** While nothing new arrives the first missing chunk stays in flight; once it is due, each exchange repeats a chunk sent before. */
  lemma {:induction false} StuckLong(w: World, beats: seq<Beat>, first: nat, sent: nat, m: nat, since: nat)
    requires Waits(w, m) && SentBy(w.left.out, sent) && sent < first && Consecutive(beats, first) && w.left.config.window >= 1
    requires Lacking(Exchanges(w, beats)) == Lacking(w)
    ensures var after := Exchanges(w, beats);
            && Waits(after, m) && SentBy(after.left.out, LastFrame(first, |beats|, sent)) && after.left.config == w.left.config
            && ValidOutgoing(w.left.out) && ValidOutgoing(after.left.out)
            && m < |after.left.out.lastSent| == |w.left.out.lastSent| && after.left.out.lastSent[m] == w.left.out.lastSent[m]
            && (w.left.out.lastSent[m] + Patience(w.left.config.retransmitAfter) <= first + 1 &&
                since <= first && first + |beats| <= since + w.left.config.retransmitAfter ==>
                  |Old(after.left.out, since)| + |beats| <= |Old(w.left.out, since)|)
  {
    hide Good, SentBy, Exchange, Lacking, Knows, Old, ValidOutgoing, Consecutive, Waits, Patience;
    WaitsValid(w, m);
    if beats != [] {
      var n := |beats| - 1;
      var before := Exchanges(w, beats[..n]);
      ConsecutiveParts(beats, first, n);
      LastBeat(beats, first);
      WaitsGood(w, m);
      ExchangesMove(w, beats[..n], first, sent);
      ExchangeMoves(before, beats[n], LastFrame(first, n, sent));
      assert Lacking(before) == Lacking(w);
      StuckLong(w, beats[..n], first, sent, m, since);
      StuckMoves(before, beats[n], LastFrame(first, n, sent), m, since);
      WaitsValid(Exchanges(w, beats), m);
    }
  }

  lemma WaitsGood(w: World, m: nat)
    requires Waits(w, m)
    ensures Good(w)
  {
  }

  lemma WaitsValid(w: World, m: nat)
    requires Waits(w, m)
    ensures ValidOutgoing(w.left.out) && m < |w.left.out.lastSent| && |w.left.out.lastSent| == |w.left.out.sent|
    ensures |w.left.out.sent| == |w.right.into.received|
  {
    GoodParts(w);
  }

  /** How many exchanges bring a new chunk for certain. */
  function Pause(c: StreamConfig): nat { 2 + Patience(c.retransmitAfter) + c.window }

  /** A sender that knows what it can is not stuck for longer than its patience and its window. */
  lemma KnowingHelps(w: World, beats: seq<Beat>, first: nat, sent: nat)
    requires Good(w) && Knows(w) && SentBy(w.left.out, sent) && sent < first && Consecutive(beats, first)
    requires 1 <= w.left.config.window <= w.left.config.retransmitAfter
    requires |beats| == Patience(w.left.config.retransmitAfter) + w.left.config.window + 1 && Lacking(w) != {}
    ensures Lacking(Exchanges(w, beats)) != Lacking(w)
  {
    hide Good, SentBy, Exchange, Exchanges, Lacking, Knows, Old, ValidOutgoing, Consecutive;
    if Lacking(Exchanges(w, beats)) == Lacking(w) {
      var p := Patience(w.left.config.retransmitAfter);
      StillMissing(w);
      var m := w.right.into.base;
      FirstStuck(w, beats, first, sent);
      WaitsValid(w, m);
      SentByMeans(w.left.out, sent, m);
      Split(w, beats, first, sent, p);
      ConsecutiveParts(beats, first, p);
      StuckLong(w, beats[..p], first, sent, m, 0);
      DrainingIsShort(Exchanges(w, beats[..p]), beats[p..], first + p, LastFrame(first, p, sent), m);
    }
  }

  /** As many exchanges without loss as a pause bring at least one new chunk, if one is missing. */
  lemma PauseHelps(w: World, beats: seq<Beat>, first: nat, sent: nat)
    requires Good(w) && SentBy(w.left.out, sent) && sent < first && Consecutive(beats, first)
    requires 1 <= w.left.config.window <= w.left.config.retransmitAfter
    requires |beats| == Pause(w.left.config) && Lacking(w) != {}
    ensures |Lacking(Exchanges(w, beats))| < |Lacking(w)|
  {
    hide Good, SentBy, Exchange, Exchanges, Lacking, Knows, Old, ValidOutgoing, Consecutive;
    ExchangesMove(w, beats, first, sent);
    Fewer(Lacking(Exchanges(w, beats)), Lacking(w));
    if Lacking(Exchanges(w, beats)) == Lacking(w) {
      Split(w, beats, first, sent, 1);
      ConsecutiveParts(beats, first, 1);
      OneExchange(w, beats[0]);
      assert beats[..1] == [beats[0]];
      FirstFrame(beats, first);
      ExchangeMoves(w, beats[0], sent);
      KnowingHelps(Exchanges(w, beats[..1]), beats[1..], first + 1, first);
    }
  }

  lemma OneExchange(w: World, b: Beat)
    ensures Exchanges(w, [b]) == Exchange(w, b)
  {
    hide Exchange;
    assert [b][..0] == [];
  }

  lemma FirstFrame(beats: seq<Beat>, first: nat)
    requires Consecutive(beats, first) && beats != []
    ensures beats[0].frame == first
  {
  }

  /** If nothing new arrived at the end, nothing new arrived on the way. */
  lemma Split(w: World, beats: seq<Beat>, first: nat, sent: nat, n: nat)
    requires Good(w) && SentBy(w.left.out, sent) && sent < first && Consecutive(beats, first) && n <= |beats|
    requires Lacking(Exchanges(w, beats)) == Lacking(w)
    ensures var mid := Exchanges(w, beats[..n]);
            && Good(mid) && SentBy(mid.left.out, LastFrame(first, n, sent)) && Lacking(mid) == Lacking(w)
            && Exchanges(w, beats) == Exchanges(mid, beats[n..]) && Lacking(Exchanges(mid, beats[n..])) == Lacking(mid)
            && mid.left.config == w.left.config
  {
    hide Good, SentBy, Exchange, Exchanges, Lacking, Consecutive;
    ConsecutiveParts(beats, first, n);
    ExchangesMove(w, beats[..n], first, sent);
    assert beats == beats[..n] + beats[n..];
    ExchangesJoin(w, beats[..n], beats[n..]);
    ExchangesMove(Exchanges(w, beats[..n]), beats[n..], first + n, LastFrame(first, n, sent));
  }

  lemma StillMissing(w: World)
    requires Good(w) && Lacking(w) != {}
    ensures w.right.into.base < |w.right.into.received| && |w.right.into.received| == |w.left.out.sent|
  {
    GoodParts(w);
    MissingIsLacking(w);
  }

  lemma FirstStuck(w: World, beats: seq<Beat>, first: nat, sent: nat)
    requires Good(w) && Knows(w) && SentBy(w.left.out, sent) && sent < first && Consecutive(beats, first) && beats != []
    requires Lacking(Exchanges(w, beats)) == Lacking(w) && w.left.config.window >= 1 && w.right.into.base < |w.left.out.sent|
    ensures Waits(w, w.right.into.base)
  {
    hide Good, SentBy, Exchange, Exchanges, Lacking, Knows, Consecutive;
    Split(w, beats, first, sent, 1);
    OneExchange(w, beats[0]);
    assert beats[..1] == [beats[0]];
    FirstFrame(beats, first);
    MissingIsSent(w, beats[0], sent);
  }

  /** The chunks sent before a moment run out within the window, but the missing one is among them. */
  lemma DrainingIsShort(w: World, beats: seq<Beat>, since: nat, sent: nat, m: nat)
    requires Waits(w, m) && SentBy(w.left.out, sent) && sent < since && Consecutive(beats, since)
    requires 1 <= w.left.config.window <= w.left.config.retransmitAfter && |beats| == w.left.config.window + 1
    requires ValidOutgoing(w.left.out) && w.left.out.lastSent[m] + Patience(w.left.config.retransmitAfter) <= since + 1
    ensures Lacking(Exchanges(w, beats)) != Lacking(w)
  {
    hide Good, SentBy, Exchange, Exchanges, Lacking, Knows, Consecutive, Old, ValidOutgoing;
    if Lacking(Exchanges(w, beats)) == Lacking(w) {
      var n := w.left.config.window;
      Split(w, beats, since, sent, n);
      ConsecutiveParts(beats, since, n);
      StuckLong(w, beats[..n], since, sent, m, since);
      var after := Exchanges(w, beats[..n]);
      WaitsBound(w);
      OldHas(after, m, since);
    }
  }

  lemma WaitsBound(w: World)
    requires Good(w) && ValidOutgoing(w.left.out)
    ensures forall since: nat :: |Old(w.left.out, since)| <= w.left.config.window
  {
    hide Old;
    GoodParts(w);
    forall since: nat ensures |Old(w.left.out, since)| <= w.left.config.window {
      OldBound(w.left.out, since);
    }
  }

  lemma OldHas(w: World, m: nat, since: nat)
    requires Waits(w, m) && ValidOutgoing(w.left.out) && m < |w.left.out.lastSent| && w.left.out.lastSent[m] < since
    ensures |Old(w.left.out, since)| > 0
  {
    GoodParts(w);
    MissingIsLacking(w);
    assert m in Old(w.left.out, since);
  }

  lemma {:induction false} PausesFinish(w: World, beats: seq<Beat>, first: nat, sent: nat, times: nat)
    requires Good(w) && SentBy(w.left.out, sent) && sent < first && Consecutive(beats, first)
    requires 1 <= w.left.config.window <= w.left.config.retransmitAfter
    requires |Lacking(w)| <= times && times * Pause(w.left.config) <= |beats|
    ensures Lacking(Exchanges(w, beats)) == {}
    decreases times
  {
    hide Good, SentBy, Exchange, Exchanges, Lacking, Consecutive, Pause;
    ExchangesMove(w, beats, first, sent);
    if Lacking(w) != {} {
      var p := Pause(w.left.config);
      assert times * p == (times - 1) * p + p;
      ConsecutiveParts(beats, first, p);
      ExchangesMove(w, beats[..p], first, sent);
      PauseHelps(w, beats[..p], first, sent);
      assert beats == beats[..p] + beats[p..];
      ExchangesJoin(w, beats[..p], beats[p..]);
      PausesFinish(Exchanges(w, beats[..p]), beats[p..], first + p, LastFrame(first, p, sent), times - 1);
    }
  }

  /**
   From every world a run reaches, whatever was lost before: after a pause of
   exchanges without loss for each chunk still missing, and one more, the sink
   equals the source and the sender knows it, if the window is no larger than
   the retransmit delay.
   */
  lemma StreamArrives(w: World, beats: seq<Beat>, first: nat, sent: nat)
    requires Reachable(w) && SentBy(w.left.out, sent) && sent < first && Consecutive(beats, first)
    requires 1 <= w.left.config.window <= w.left.config.retransmitAfter
    requires 1 + |Lacking(w)| * Pause(w.left.config) <= |beats|
    ensures var after := Exchanges(w, beats);
            after.right.into.sink == after.left.out.source && SenderDone(after.left.out) && ReceiverDone(after.right.into)
  {
    hide Reachable, Good, SentBy, Exchange, Exchanges, Lacking, Consecutive, Pause, Knows;
    ReachableIsGood(w);
    var n := |beats| - 1;
    assert |Lacking(w)| * Pause(w.left.config) >= 0;
    ConsecutiveParts(beats, first, n);
    ExchangesMove(w, beats[..n], first, sent);
    ExchangesMove(w, beats, first, sent);
    PausesFinish(w, beats[..n], first, sent, |Lacking(w)|);
    var before, after := Exchanges(w, beats[..n]), Exchanges(w, beats);
    assert beats == beats[..n] + [beats[n]];
    ExchangesJoin(w, beats[..n], [beats[n]]);
    OneExchange(before, beats[n]);
    assert beats[n].frame == first + n by { LastBeat(beats, first); }
    ExchangeMoves(before, beats[n], LastFrame(first, n, sent));
    AllKnown(after);
  }

  lemma LastBeat(beats: seq<Beat>, first: nat)
    requires Consecutive(beats, first) && beats != []
    ensures beats[|beats| - 1].frame == first + |beats| - 1 < TWO_64
  {
  }

  /** When nothing is missing and the sender knows what it can, both ends are done. */
  lemma AllKnown(w: World)
    requires Good(w) && Lacking(w) == {} && Knows(w)
    ensures w.right.into.sink == w.left.out.source && SenderDone(w.left.out) && ReceiverDone(w.right.into)
  {
    hide Good;
    GoodParts(w);
    MissingIsLacking(w);
    assert ReceiverDone(w.right.into);
    forall k | 0 <= k < |w.left.out.acked| ensures w.left.out.acked[k] {
      assert k < w.right.into.base;
    }
    WholeWhen(w.left.out, w.right.into);
  }
}
