/** From the queue of one end to the network device of the other: what a turn of the token holder does. */
module ProxyTurns {
  import opened Bytes
  import opened Common
  import opened PacketTransport
  import opened ProxyWire
  import opened ProxyLink
  import opened ProxyWindows
  import opened ProxyQueues
  import opened ProxyRuns
  import opened ProxyProgress

  function NextJob(n: Node, packets: seq<Packet>): Job {
    Job((n.batchId + 1) % TWO_32, true, packets)
  }

  /** A holder offers its token exactly when it has nothing to send, and starts a window exactly when its batch fits one. */
  lemma TurnExact(n: Node, limits: Limits, packets: seq<Packet>)
    requires n.mode.Holding? && AllValid(packets) && |packets| < 0x100
    ensures var (after, sent) := TakeTurn(n, limits, packets);
            && (after.mode.Yielding? <==> packets == [] && limits.retries > 0)
            && (after.mode.Sending? <==> FitsLimit(NextJob(n, packets), limits.transmit) && limits.retries > 0)
            && (after.mode.Yielding? || after.mode.Sending? || after.mode.Ended?)
            && (after.mode.Yielding? ==> sent == [Turn(n.turn)])
  {
    hide BatchBytes, PendingCells, CellStart, CellCount;
    if packets != [] && limits.transmit > WINDOW_HEADER {
      var batch, capacity := BatchBytes(NextJob(n, packets).id, true, packets), limits.transmit - WINDOW_HEADER;
      BatchHasBytes(NextJob(n, packets));
      CountBounds(|batch|, capacity);
      var count := CellCount(|batch|, capacity);
      forall i: nat | i < count
        ensures CellStart(capacity, i) <= |batch|
      {
        StartsGrow(capacity, i, count - 1);
      }
    }
  }

  lemma BatchHasBytes(j: Job)
    requires Packable(j)
    ensures |BatchOf(j)| > BATCH_HEADER
  {
    assert ValidIp(j.packets[0]);
    assert Entries(j.packets) != [];
  }

  /** The packets a batch takes from a queue. */
  function Chosen(queue: Queue, limit: nat, dnsSent: nat, preferred: Option<Packet>): (packets: seq<Packet>)
    requires limit > WINDOW_HEADER
  {
    Packets(Fill(FirstDraft(queue, PlanFor(limit, dnsSent, preferred)), PlanFor(limit, dnsSent, preferred)).taken)
  }

  /**
   In every run: a holder whose queue is not empty starts a window with packets
   of it, and one round without loss writes exactly these at the other end, in
   the order of the batch.
   */
  lemma QueueGetsThrough(w: World, queue: Queue, dnsSent: nat, preferred: Option<Packet>, wanted: bool)
    requires Seen(w) && w.left.node.mode.Holding? && w.right.node.mode.Receiving?
    requires w.left.limits.retries > 0 && w.right.limits.retries > 0
    requires 128 <= w.left.limits.transmit <= MAX_BODY && 128 <= w.left.limits.receive <= MAX_BODY && QueueOk(queue) && queue != []
    requires forall e <- queue :: |e.packet| <= LinkMtu(w.left.limits.transmit, w.left.limits.receive)
    ensures var packets := Chosen(queue, w.left.limits.transmit, dnsSent, preferred);
            && packets != [] && AllValid(packets) && |packets| < 0x100
            && (forall p <- packets :: exists e :: e in queue && e.packet == p)
            && var v := Transferred(w, packets, wanted);
               && v.right.node.written == w.right.node.written + packets
               && v.left.node.txSequence == w.left.node.txSequence + 1
               && (if wanted then v.right.node.mode == Holding else v.left.node.mode == Holding)
  {
    hide Seen, QueueOk, LinkMtu, Fill, FirstDraft, Packets, FitsLimit, InspectBatch, BatchOf, TakeTurn, Transferred;
    var limit := w.left.limits.transmit;
    BatchIsSendable(queue, limit, w.left.limits.receive, dnsSent, preferred, NextJob(w.left.node, []).id, true);
    var packets := Chosen(queue, limit, dnsSent, preferred);
    assert FitsLimit(NextJob(w.left.node, packets), limit);
    FitsMeans(NextJob(w.left.node, packets), limit);
    ChosenWait(queue, limit, dnsSent, preferred);
    TurnExact(w.left.node, w.left.limits, packets);
    FreshWindowGetsThrough(w, packets, wanted);
  }

  lemma FitsMeans(j: Job, limit: nat)
    requires FitsLimit(j, limit)
    ensures Packable(j)
  {
  }

  /** Only packets that wait are chosen. */
  lemma ChosenWait(queue: Queue, limit: nat, dnsSent: nat, preferred: Option<Packet>)
    requires 128 <= limit <= MAX_BODY && QueueOk(queue)
    ensures forall p <- Chosen(queue, limit, dnsSent, preferred) :: exists e :: e in queue && e.packet == p
  {
    hide QueueOk, Fill, FirstDraft, Kin;
    var plan := PlanFor(limit, dnsSent, preferred);
    BatchConserves(queue, plan);
    var d := Fill(FirstDraft(queue, plan), plan);
    PartsWait(queue, d.taken, d.queue);
  }

  lemma PartsWait(queue: Queue, taken: Queue, left: Queue)
    requires multiset(taken) + multiset(left) == multiset(queue)
    ensures forall p <- Packets(taken) :: exists e :: e in queue && e.packet == p
  {
    forall i | 0 <= i < |taken| ensures taken[i] in queue {
      assert taken[i] in multiset(taken) + multiset(left);
    }
  }
}
