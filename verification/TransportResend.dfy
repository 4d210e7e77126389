/** How long a sender that hears nothing keeps silent about the cells it holds. */
module TransportResend {
  import opened Bytes
  import opened Common
  import opened PacketTransport
  import opened TransportSteps
  import opened TransportRuns
  import opened RetrySelection

  /** The longest retry delay, and one frame. */
  function Patience(retransmitAfter: nat): (frames: nat)
    ensures frames >= 4
  {
    retransmitAfter + if retransmitAfter < 4 then 4 else retransmitAfter
  }

  /** No cell was last sent after this frame. */
  predicate SentBy(ring: seq<TxCell>, sent: nat) {
    forall i | 0 <= i < |ring| && ring[i].occupied :: ring[i].lastSent <= sent
  }

  /** A frame so late that every cell sent by then has waited its delay; frames are 64-bit numbers. */
  predicate Late(c: Config, sent: nat, frame: nat) {
    sent + Patience(c.retransmitAfter) <= frame + 1 && frame < TWO_64
  }

  /** A cell that old is due, whatever the random state. */
  lemma OldIsDue(cell: TxCell, random: bv32, c: Config, sent: nat, frame: nat)
    requires cell.occupied && cell.lastSent <= sent && Late(c, sent, frame)
    ensures Due(cell, random, c.retransmitAfter, frame)
  {
    hide RetryHash;
    var spread := if c.retransmitAfter < 4 then 4 else c.retransmitAfter;
    var hash := RetryHash(random, cell.sequence as bv32, (cell.lastSent % TWO_32) as bv32) as int;
    assert hash % spread < spread;
    assert 0 <= frame - cell.lastSent < TWO_64;
  }

  lemma {:induction false} OldAreCounted(cells: seq<TxCell>, random: bv32, c: Config, sent: nat, frame: nat)
    requires SentBy(cells, sent) && Late(c, sent, frame)
    ensures CountDue(cells, random, c.retransmitAfter, frame) == InFlight(cells)
  {
    hide Due, Late;
    if cells != [] {
      var last := cells[|cells| - 1];
      OldAreCounted(cells[..|cells| - 1], random, c, sent, frame);
      if last.occupied {
        OldIsDue(last, random, c, sent, frame);
      } else {
        EmptyIsNotDue(last, random, c, frame);
      }
    }
  }

  lemma EmptyIsNotDue(cell: TxCell, random: bv32, c: Config, frame: nat)
    requires !cell.occupied
    ensures !Due(cell, random, c.retransmitAfter, frame)
  {
  }

  /** When every cell is that old the two passes agree, and one of the cells is sent again. */
  lemma OldIsPicked(ring: TxRing, random: bv32, c: Config, sent: nat, frame: nat)
    requires SentBy(ring, sent) && Late(c, sent, frame) && InFlight(ring) > 0
    ensures var slot := SelectRetry(ring, random, c.retransmitAfter, frame).0;
            slot.Some? && slot.value < SLOTS && ring[slot.value].occupied
  {
    hide CountDue, Late, RetryDelay, Draw, SelectRetry;
    OldAreCounted(ring, random, c, sent, frame);
    OldAreCounted(ring, Draw(random), c, sent, frame);
    RetryExact(ring, random, c.retransmitAfter, frame);
  }

  /** In every run a held cell is not sent again before its retransmit delay has passed. */
  lemma NotRepeatedEarly(w: World, sent: nat, frame: nat)
    requires Reachable(w) && SentBy(w.left.endpoint.tx.ring, sent) && sent <= frame < TWO_64
    ensures ValidSender(w.left.endpoint.tx)
    ensures var tx, f := w.left.endpoint.tx, Build(w.left.endpoint, w.left.config, frame).1;
            f.hasData && f.sequence < tx.next ==>
              exists i | 0 <= i < SLOTS ::
                tx.ring[i].occupied && tx.ring[i].sequence == f.sequence && tx.ring[i].lastSent + w.left.config.retransmitAfter <= frame
  {
    hide Reachable, SelectRetry, Serialize, InFlight, AckHeader, ReceiveMask, RetryDelay, FlowOk, FramesOk;
    InvariantHolds(w);
    BuildKeeps(w, frame);
    var tx, c := w.left.endpoint.tx, w.left.config;
    var retry := SelectRetry(tx.ring, tx.random, c.retransmitAfter, frame).0;
    RetryExact(tx.ring, tx.random, c.retransmitAfter, frame);
    if retry.Some? {
      DueIsLate(tx.ring[retry.value], Draw(tx.random), c.retransmitAfter, frame);
    }
  }

  lemma DueIsLate(cell: TxCell, random: bv32, retransmitAfter: nat, frame: nat)
    requires Due(cell, random, retransmitAfter, frame) && cell.lastSent <= frame < TWO_64
    ensures cell.lastSent + retransmitAfter <= frame
  {
    hide RetryHash;
    var spread := if retransmitAfter < 4 then 4 else retransmitAfter;
    var hash := RetryHash(random, cell.sequence as bv32, (cell.lastSent % TWO_32) as bv32) as int;
    assert 0 <= hash % spread;
  }

  /** A frame that late repeats a held cell, unless none is held. */
  lemma LateFrameRepeats(e: Endpoint, c: Config, sent: nat, frame: nat)
    requires ValidSender(e.tx) && SentBy(e.tx.ring, sent) && Late(c, sent, frame) && InFlight(e.tx.ring) > 0
    ensures var f := Build(e, c, frame).1;
            f.hasData && exists i | 0 <= i < SLOTS :: e.tx.ring[i].occupied && f.sequence == e.tx.ring[i].sequence
  {
    hide SelectRetry, CreateCell, Late, MayCreate;
    OldIsPicked(e.tx.ring, e.tx.random, c, sent, frame);
  }

  /** A frame without data leaves every cell as it was. */
  lemma SilenceKeepsRing(e: Endpoint, c: Config, frame: nat)
    requires ValidSender(e.tx) && !Build(e, c, frame).1.hasData
    ensures Build(e, c, frame).0 == e.(tx := e.tx.(random := Build(e, c, frame).0.tx.random))
    ensures SelectRetry(e.tx.ring, e.tx.random, c.retransmitAfter, frame).0.None?
    ensures !MayCreate(e.tx.(random := Build(e, c, frame).0.tx.random), c)
  {
    hide SelectRetry, CreateCell, MayCreate;
  }

  // ---------------------------------------------------------------------
  // Send times
  // ---------------------------------------------------------------------

  /** A frame stamps the cell it carries and no other. */
  lemma BuildStamps(e: Endpoint, c: Config, sent: nat, frame: nat)
    requires ValidSender(e.tx) && SentBy(e.tx.ring, sent)
    ensures SentBy(Build(e, c, frame).0.tx.ring, if frame <= sent then sent else frame)
  {
    hide SelectRetry;
  }

  /** An acknowledgement stamps nothing. */
  lemma AckStamps(tx: Sender, payload: seq<byte>, sent: nat)
    requires SlotsOk(tx.ring) && SentBy(tx.ring, sent)
    ensures SentBy(ApplyAck(tx, payload).0.ring, sent)
  {
    hide AckMask, AckBelow, BitsOf;
    var after := ApplyAck(tx, payload);
    if after.1 == Ok {
      forall i | 0 <= i < SLOTS
        ensures after.0.ring[i] == tx.ring[i] || after.0.ring[i] == EMPTY_TX
      {
        AckResult(tx.ring, ReadU32(payload, 2), BitsOf(ReadU16(payload, 6)), tx.next, i);
      }
    }
  }

  lemma RingSlots(tx: Sender, rx: Receiver, flow: Flow, c: Config)
    requires FlowOk(tx, rx, flow, c)
    ensures SlotsOk(tx.ring)
  {
  }

  lemma StepLeftStamps(w: World, event: Event, sent: nat)
    requires Invariant(w) && SentBy(w.left.endpoint.tx.ring, sent) && (event.BuildAt? ==> event.frame <= sent)
    ensures SentBy(StepLeft(w, event).left.endpoint.tx.ring, sent)
  {
    hide FlowOk, FramesOk, Build, ApplyAck, Accept, Drain, SentBy, ValidSender;
    match event
    case EnqueueAt(_, packet) =>
    case DequeueAt(_, room) =>
    case BuildAt(_, frame) =>
      if ValidSender(w.left.endpoint.tx) { BuildStamps(w.left.endpoint, w.left.config, sent, frame); }
    case DeliverTo(_, index) =>
      if index < |w.right.sent| {
        RingSlots(w.left.endpoint.tx, w.right.endpoint.rx, FlowFrom(w.left, w.right), w.right.config);
        AckStamps(w.left.endpoint.tx, w.right.sent[index].payload, sent);
      }
  }

  /** In every run no cell was last sent after the latest frame built. */
  lemma {:induction false} RunStamps(w: World, events: seq<Event>, sent: nat)
    requires Invariant(w) && SentBy(w.left.endpoint.tx.ring, sent) && SentBy(w.right.endpoint.tx.ring, sent)
    requires forall event <- events :: event.BuildAt? ==> event.frame <= sent
    ensures SentBy(Run(w, events).left.endpoint.tx.ring, sent) && SentBy(Run(w, events).right.endpoint.tx.ring, sent)
  {
    hide Invariant, StepLeft, SentBy;
    if events != [] {
      var rest, event := events[..|events| - 1], events[|events| - 1];
      var before := Run(w, rest);
      RunStamps(w, rest, sent);
      RunKeeps(w, rest);
      SwapKeeps(before);
      StepLeftStamps(before, event, sent);
      StepLeftStamps(Swap(before), event, sent);
      RightStays(before, event);
      RightStays(Swap(before), event);
    }
  }

  lemma SwapKeeps(w: World)
    requires Invariant(w)
    ensures Invariant(Swap(w))
  {
    hide WayOk, FramesOk;
  }

  /** A step at one end leaves the other alone. */
  lemma RightStays(w: World, event: Event)
    ensures StepLeft(w, event).right == w.right && StepLeft(w, event).left.config == w.left.config
  {
    hide Build, Process, Dequeue, Enqueue, CellsAfter, ValidSender;
  }

  // ---------------------------------------------------------------------
  // A sender on its own
  // ---------------------------------------------------------------------

  /** The left end builds one frame after the other and hears nothing. */
  function BuildsLeft(w: World, frames: seq<nat>): World {
    if frames == [] then w else BuildLeft(BuildsLeft(w, frames[..|frames| - 1]), frames[|frames| - 1])
  }

  lemma {:induction false} SilentBuilds(w: World, frames: seq<nat>)
    requires Invariant(w)
    ensures var after := BuildsLeft(w, frames);
            && Invariant(after) && after.left.config == w.left.config && w.left.sent <= after.left.sent
            && ((forall f <- after.left.sent[|w.left.sent|..] :: !f.hasData) ==>
                  after.left.endpoint.tx.ring == w.left.endpoint.tx.ring)
  {
    hide Invariant, Build, ValidSender;
    if frames != [] {
      var before := BuildsLeft(w, frames[..|frames| - 1]);
      var frame := frames[|frames| - 1];
      SilentBuilds(w, frames[..|frames| - 1]);
      BuildKeeps(before, frame);
      var after := BuildLeft(before, frame);
      var f := Build(before.left.endpoint, before.left.config, frame).1;
      assert after.left.sent == before.left.sent + [f];
      if forall g <- after.left.sent[|w.left.sent|..] :: !g.hasData {
        assert after.left.sent[|w.left.sent|..] == before.left.sent[|w.left.sent|..] + [f];
        assert forall g <- before.left.sent[|w.left.sent|..] :: g in after.left.sent[|w.left.sent|..];
        assert f in after.left.sent[|w.left.sent|..];
        SilenceKeepsRing(before.left.endpoint, before.left.config, frame);
      }
    }
  }

  /**
   In every run: a sender that holds a cell sends one within its patience after
   the last frame it sent one in, even if it hears nothing.
   */
  lemma SilenceIsBounded(w: World, frames: seq<nat>, sent: nat)
    requires Reachable(w) && InFlight(w.left.endpoint.tx.ring) > 0 && SentBy(w.left.endpoint.tx.ring, sent)
    requires frames != [] && Late(w.left.config, sent, frames[|frames| - 1])
    ensures var after := BuildsLeft(w, frames);
            w.left.sent <= after.left.sent && exists f :: f in after.left.sent[|w.left.sent|..] && f.hasData
  {
    hide Reachable, Late, Build, Invariant, SentBy, ValidSender;
    InvariantHolds(w);
    SilentBuilds(w, frames);
    var n := |frames| - 1;
    var before, after := BuildsLeft(w, frames[..n]), BuildsLeft(w, frames);
    SilentBuilds(w, frames[..n]);
    BuildKeeps(before, frames[n]);
    var f := Build(before.left.endpoint, before.left.config, frames[n]).1;
    assert after.left.sent == before.left.sent + [f];
    if forall g <- before.left.sent[|w.left.sent|..] :: !g.hasData {
      LateFrameRepeats(before.left.endpoint, before.left.config, sent, frames[n]);
      assert f == after.left.sent[|w.left.sent|..][|before.left.sent| - |w.left.sent|];
    } else {
      var g :| g in before.left.sent[|w.left.sent|..] && g.hasData;
      assert after.left.sent[|w.left.sent|..] == before.left.sent[|w.left.sent|..] + [f];
      assert g in after.left.sent[|w.left.sent|..];
    }
  }
}
