/**
 Whatever the channel does to cells, markers and acknowledgements, the packets
 written are those of the windows started, in order, each once.
 */
module ProxyDelivery {
  import opened Bytes
  import opened Common
  import opened PacketTransport
  import opened ProxyWire
  import opened ProxyLink
  import opened ProxyWindows
  import opened ProxyRuns

  // ---------------------------------------------------------------------
  // The sending side of a direction
  // ---------------------------------------------------------------------

  /** The window under way is the last one started. */
  predicate Current(n: Node, limits: Limits, jobs: seq<Job>) {
    && n.mode.Sending? && |jobs| == n.txSequence + 1
    && var j := jobs[n.txSequence];
       && FitsLimit(j, limits.transmit)
       && n.mode.batch == BatchOf(j) && n.batchId == j.id && n.mode.yielding == j.yielding
       && |n.mode.pending| == Cells(j, limits.transmit)
  }

  predicate CountsOk(n: Node, limits: Limits, jobs: seq<Job>) {
    match n.mode
    case Sending(_, _, _, _) => Current(n, limits, jobs)
    case Ended(_) => n.txSequence <= |jobs| <= n.txSequence + 1
    case _ => |jobs| == n.txSequence
  }

  /** Window messages carry cells of the window with their number. */
  ghost predicate CellsTrue(out: seq<Message>, jobs: seq<Job>, limit: nat)
    requires forall j <- jobs :: FitsLimit(j, limit)
  {
    forall m <- out :: m.Window? ==> m.sequence < |jobs| && Fits(jobs[m.sequence], limit, m.cell)
  }

  ghost predicate SendOk(n: Node, limits: Limits, jobs: seq<Job>, out: seq<Message>) {
    && (forall j <- jobs :: FitsLimit(j, limits.transmit))
    && CountsOk(n, limits, jobs)
    && CellsTrue(out, jobs, limits.transmit)
  }

  lemma RoundSends(n: Node, limits: Limits, jobs: seq<Job>)
    requires Current(n, limits, jobs) && forall j <- jobs :: FitsLimit(j, limits.transmit)
    ensures var r := NextRound(n, limits);
            CountsOk(r.0, limits, jobs) && CellsTrue(r.1, jobs, limits.transmit) && r.0.txSequence == n.txSequence
    ensures forall m <- NextRound(n, limits).1 :: m.Window?
  {
    hide RoundMessages, FitsLimit, Fits, BatchOf;
    RoundFits(n.txSequence, jobs[n.txSequence], limits.transmit, n.mode.pending);
    RoundIsWindows(n, limits);
    SendableLimit(jobs[n.txSequence], limits.transmit);
  }

  lemma SendableLimit(j: Job, limit: nat)
    requires FitsLimit(j, limit)
    ensures limit > WINDOW_HEADER && Packable(j)
  {
  }

  lemma OutMore(out: seq<Message>, more: seq<Message>, jobs: seq<Job>, limit: nat)
    requires forall j <- jobs :: FitsLimit(j, limit)
    requires CellsTrue(out, jobs, limit) && CellsTrue(more, jobs, limit)
    ensures CellsTrue(out + more, jobs, limit)
  {
  }

  lemma JobsMore(out: seq<Message>, jobs: seq<Job>, j: Job, limit: nat)
    requires (forall j <- jobs :: FitsLimit(j, limit)) && FitsLimit(j, limit)
    requires CellsTrue(out, jobs, limit)
    ensures CellsTrue(out, jobs + [j], limit)
  {
  }

  /** The acknowledgement that ends a window is heard only when the peer has written it. */
  lemma AckSends(n: Node, limits: Limits, jobs: seq<Job>, m: Message, written: nat)
    requires n.mode.Sending? && m.WindowAck? && m.sequence == n.txSequence
    requires CountsOk(n, limits, jobs) && forall j <- jobs :: FitsLimit(j, limits.transmit)
    requires n.txSequence <= written <= |jobs| && (m.complete ==> m.sequence < written)
    ensures var r := TakeWindowAck(n, limits, m);
            CountsOk(r.0, limits, jobs) && CellsTrue(r.1, jobs, limits.transmit) && r.0.txSequence <= written
    ensures forall k <- TakeWindowAck(n, limits, m).1 :: !k.WindowAck?
  {
    hide FitsLimit, Fits, NextRound;
    RoundSends(n.(mode := n.mode.(pending := Missing(Full(|n.mode.pending|)), attempt := n.mode.attempt + 1)), limits, jobs);
    if AckUsable(n, m) {
      RoundSends(n.(mode := n.mode.(pending := Missing(m.bitmap), attempt := n.mode.attempt + 1)), limits, jobs);
    }
  }

  /** A window that the holder begins fits its limits. */
  lemma StartSends(n: Node, limits: Limits, jobs: seq<Job>, packets: seq<Packet>)
    requires n.mode.Holding? && CountsOk(n, limits, jobs) && forall j <- jobs :: FitsLimit(j, limits.transmit)
    requires AllValid(packets) && 1 <= |packets| < 0x100
    ensures var r := StartWindow(n, limits, packets, true);
            var jobs' := if r.0.mode.Sending? then jobs + [Job(r.0.batchId, r.0.mode.yielding, packets)] else jobs;
            && (forall j <- jobs' :: FitsLimit(j, limits.transmit))
            && CountsOk(r.0, limits, jobs') && CellsTrue(r.1, jobs', limits.transmit) && r.0.txSequence == n.txSequence
            && forall m <- r.1 :: !m.WindowAck?
  {
    hide NextRound, Fits, BatchBytes, CellCount;
    var id := (n.batchId + 1) % TWO_32;
    var batch := BatchBytes(id, true, packets);
    if limits.transmit > WINDOW_HEADER && BATCH_HEADER < |batch| <= WINDOW_MAX {
      var count := CellCount(|batch|, limits.transmit - WINDOW_HEADER);
      if count <= MAX_CELLS {
        var job := Job(id, true, packets);
        var begun := n.(batchId := id, mode := Sending(batch, true, Full(count), 0));
        RoundSends(begun, limits, jobs + [job]);
        RoundOnly(begun, limits);
      }
    }
  }

  lemma RoundOnly(n: Node, limits: Limits)
    requires n.mode.Sending?
    ensures var r := NextRound(n, limits);
            (r.0.mode == n.mode && r.0.batchId == n.batchId) || (r.0.mode.Ended? && r.1 == [])
  {
    hide RoundMessages;
  }

  // ---------------------------------------------------------------------
  // The receiving side of a direction
  // ---------------------------------------------------------------------

  function PacketsOf(jobs: seq<Job>): seq<Packet> {
    if jobs == [] then [] else PacketsOf(jobs[..|jobs| - 1]) + jobs[|jobs| - 1].packets
  }

  lemma PacketsNext(jobs: seq<Job>, k: nat)
    requires k < |jobs|
    ensures PacketsOf(jobs[..k + 1]) == PacketsOf(jobs[..k]) + jobs[k].packets
  {
    assert jobs[..k + 1][..k] == jobs[..k];
  }

  ghost predicate DoneOk(d: Done, jobs: seq<Job>, limit: nat, next: nat)
    requires forall j <- jobs :: FitsLimit(j, limit)
  {
    && d.sequence < next <= |jobs|
    && d.id == jobs[d.sequence].id && d.count == Cells(jobs[d.sequence], limit)
    && d.yieldRequested == jobs[d.sequence].yielding
  }

  /** What was written are the windows before the one now expected, and the inbox collects that one. */
  ghost predicate ReceiveOk(n: Node, jobs: seq<Job>, limit: nat)
    requires forall j <- jobs :: FitsLimit(j, limit)
  {
    && |n.inbox.buffer| == WINDOW_MAX && n.inbox.sequence <= |jobs|
    && n.written == PacketsOf(jobs[..n.inbox.sequence])
    && (n.inbox.total != 0 ==> n.inbox.sequence < |jobs| && Collecting(n.inbox, jobs[n.inbox.sequence], limit))
    && (n.lastDone.Some? ==> DoneOk(n.lastDone.value, jobs, limit, n.inbox.sequence))
    && (n.mode.AcceptingWindow? ==> n.mode.sequence < n.inbox.sequence)
  }

  /** Acknowledgements say complete only of windows that were written. */
  predicate AcksTrue(out: seq<Message>, written: nat) {
    forall m <- out :: m.WindowAck? && m.complete ==> m.sequence < written
  }

  /** Fail never happens on a true cell; a node only ends for want of retries. */
  predicate Unharmed(before: Node, after: Node) {
    after.mode.Ended? ==> before.mode.Ended? || after.mode.status == ErrTimeout
  }

  lemma FinishReceives(n: Node, limits: Limits, jobs: seq<Job>, c: Cell, wanted: bool)
    requires forall j <- jobs :: FitsLimit(j, limits.receive)
    requires ReceiveOk(n, jobs, limits.receive) && n.inbox.total != 0 && n.mode.Receiving?
    requires n.inbox.bitmap == Full(n.inbox.count) && Fits(jobs[n.inbox.sequence], limits.receive, c)
    ensures n.inbox.total <= |n.inbox.buffer|
    ensures var r := FinishWindow(n, limits, n.inbox.sequence, c, wanted);
            && ReceiveOk(r.0, jobs, limits.receive) && AcksTrue(r.1, r.0.inbox.sequence) && Unharmed(n, r.0)
            && r.0.txSequence == n.txSequence && !HoldsToken(r.0) && n.inbox.sequence <= r.0.inbox.sequence
            && forall m <- r.1 :: !m.Window?
  {
    hide FitsLimit, Fits, InspectBatch, Collecting, Cells;
    var j := jobs[n.inbox.sequence];
    FitsIsValid(j, limits.receive, c);
    WholeInbox(n.inbox, j, limits.receive);
    PacketsNext(jobs, n.inbox.sequence);
  }

  lemma WholeInbox(inbox: Inbox, j: Job, limit: nat)
    requires FitsLimit(j, limit) && Collecting(inbox, j, limit) && inbox.bitmap == Full(inbox.count)
    ensures inbox.total <= |inbox.buffer| && InspectBatch(inbox.buffer[..inbox.total]) == Some(Batch(j.id, j.yielding, j.packets))
  {
    FullMeansWhole(inbox, j, limit);
  }

  lemma CollectingMeans(inbox: Inbox, j: Job, limit: nat)
    requires FitsLimit(j, limit) && Collecting(inbox, j, limit)
    ensures inbox.total > 0 && inbox.total <= |inbox.buffer| == WINDOW_MAX && inbox.count == Cells(j, limit)
  {
    BatchLong(j);
  }

  lemma CellReceives(n: Node, limits: Limits, jobs: seq<Job>, c: Cell, wanted: bool)
    requires forall j <- jobs :: FitsLimit(j, limits.receive)
    requires ReceiveOk(n, jobs, limits.receive) && n.mode.Receiving? && limits.receive > WINDOW_HEADER
    requires n.inbox.sequence < |jobs| && Fits(jobs[n.inbox.sequence], limits.receive, c)
    ensures CellValid(c)
    ensures var r := TakeCell(n, limits, n.inbox.sequence, c, wanted);
            && ReceiveOk(r.0, jobs, limits.receive) && AcksTrue(r.1, r.0.inbox.sequence) && Unharmed(n, r.0)
            && r.0.txSequence == n.txSequence && !HoldsToken(r.0) && n.inbox.sequence <= r.0.inbox.sequence
            && forall m <- r.1 :: !m.Window?
  {
    hide FitsLimit, Fits, Collecting, CellValid, FinishWindow, OpenInbox, StoreCell;
    var j, limit := jobs[n.inbox.sequence], limits.receive;
    FitsIsValid(j, limit, c);
    OpensRight(n.inbox, j, limit, c);
    var open := OpenInbox(n.inbox, c).value;
    StoresRight(open, j, limit, c);
    CollectingMeans(open, j, limit);
    var stored := StoreCell(open, c, Capacity(limit)).value;
    CollectingMeans(stored, j, limit);
    var after := n.(inbox := stored);
    if c.end && stored.bitmap == Full(c.count) {
      FinishReceives(after, limits, jobs, c, wanted);
    }
  }

  /** A true window message is never refused, and keeps what is written right. */
  lemma WindowReceives(n: Node, limits: Limits, jobs: seq<Job>, m: Message, wanted: bool)
    requires forall j <- jobs :: FitsLimit(j, limits.receive)
    requires ReceiveOk(n, jobs, limits.receive) && n.mode.Receiving?
    requires m.Window? && m.sequence < |jobs| && Fits(jobs[m.sequence], limits.receive, m.cell)
    ensures var r := ReceiveWindow(n, limits, m.sequence, m.cell, wanted);
            && ReceiveOk(r.0, jobs, limits.receive) && AcksTrue(r.1, r.0.inbox.sequence) && Unharmed(n, r.0)
            && r.0.txSequence == n.txSequence && !HoldsToken(r.0) && n.inbox.sequence <= r.0.inbox.sequence
            && forall k <- r.1 :: !k.Window?
  {
    hide FitsLimit, Fits, Collecting, CellValid, TakeCell, CellCount;
    FitsIsValid(jobs[m.sequence], limits.receive, m.cell);
    SendableLimit(jobs[m.sequence], limits.receive);
    if m.sequence == n.inbox.sequence {
      CellReceives(n, limits, jobs, m.cell, wanted);
    }
  }

  // ---------------------------------------------------------------------
  // Both sides
  // ---------------------------------------------------------------------

  /** One direction: the limits agree, both sides are in order, and nothing is acknowledged that was not written. */
  ghost predicate Lane(from: End, to: End) {
    && from.limits.transmit == to.limits.receive
    && SendOk(from.node, from.limits, from.jobs, from.out)
    && ReceiveOk(to.node, from.jobs, to.limits.receive)
    && AcksTrue(to.out, to.node.inbox.sequence)
    && from.node.txSequence <= to.node.inbox.sequence
  }

  /** An action that leaves the receiving side alone. */
  predicate InboxKept(n: Node, r: (Node, seq<Message>)) {
    && r.0.inbox == n.inbox && r.0.lastDone == n.lastDone && r.0.written == n.written
    && (r.0.mode.AcceptingWindow? ==> n.mode.AcceptingWindow? && r.0.mode.sequence == n.mode.sequence)
    && forall m <- r.1 :: m.WindowAck? ==> n.mode.AcceptingWindow? && m.sequence == n.mode.sequence
  }

  /** An action that leaves the sending side alone. */
  predicate OutboxKept(n: Node, r: (Node, seq<Message>)) {
    && r.0.txSequence == n.txSequence && !n.mode.Sending?
    && (n.mode.Ended? ==> r.0.mode.Ended?) && !r.0.mode.Sending?
    && forall m <- r.1 :: !m.Window?
  }

  lemma InboxStays(from: End, to: End, r: (Node, seq<Message>), packets: seq<Packet>)
    requires Lane(from, to) && InboxKept(to.node, r)
    ensures Lane(from, Acted(to, r, packets))
  {
    hide FitsLimit, Fits, Collecting;
  }

  lemma OutboxStays(from: End, to: End, r: (Node, seq<Message>))
    requires Lane(from, to) && OutboxKept(from.node, r)
    ensures Lane(Acted(from, r, []), to)
  {
    hide FitsLimit, Fits, Collecting;
  }

  /** The sending side moved within its windows. */
  lemma OutboxMoves(from: End, to: End, r: (Node, seq<Message>))
    requires Lane(from, to) && from.node.mode.Sending?
    requires CountsOk(r.0, from.limits, from.jobs) && CellsTrue(r.1, from.jobs, from.limits.transmit)
    requires r.0.txSequence <= to.node.inbox.sequence
    ensures Lane(Acted(from, r, []), to)
  {
    hide FitsLimit, Fits, Collecting, ReceiveOk;
    OutMore(from.out, r.1, from.jobs, from.limits.transmit);
  }

  lemma OutboxBegins(from: End, to: End, packets: seq<Packet>)
    requires Lane(from, to) && from.node.mode.Holding? && AllValid(packets) && 1 <= |packets| < 0x100
    ensures Lane(Acted(from, StartWindow(from.node, from.limits, packets, true), packets), to)
  {
    hide FitsLimit, Fits, Collecting, StartWindow, Cells;
    var r := StartWindow(from.node, from.limits, packets, true);
    StartSends(from.node, from.limits, from.jobs, packets);
    var after := Acted(from, r, packets);
    if r.0.mode.Sending? {
      JobsMore(from.out, from.jobs, Job(r.0.batchId, r.0.mode.yielding, packets), from.limits.transmit);
    }
    OutMore(from.out, r.1, after.jobs, from.limits.transmit);
    assert after.jobs[..to.node.inbox.sequence] == from.jobs[..to.node.inbox.sequence];
  }

  lemma InboxMoves(from: End, to: End, r: (Node, seq<Message>))
    requires Lane(from, to) && ReceiveOk(r.0, from.jobs, to.limits.receive)
    requires AcksTrue(r.1, r.0.inbox.sequence) && to.node.inbox.sequence <= r.0.inbox.sequence
    ensures Lane(from, Acted(to, r, []))
  {
    hide FitsLimit, Fits, Collecting, ReceiveOk, SendOk;
  }

  /** Receiving a message that is not a window. */
  lemma OtherReceived(n: Node, limits: Limits, m: Message, wanted: bool)
    requires n.mode.Receiving? && |n.inbox.buffer| == WINDOW_MAX && !m.Window?
    ensures InboxKept(n, ReceiveAny(n, limits, m, wanted)) && OutboxKept(n, ReceiveAny(n, limits, m, wanted))
  {
  }

  lemma DeliverLanes(a: End, b: End, index: nat, wanted: bool)
    requires Lane(a, b) && Lane(b, a) && index < |b.out|
    ensures |a.node.inbox.buffer| == WINDOW_MAX
    ensures var after := Acted(a, Deliver(a.node, a.limits, b.out[index], wanted), []);
            Lane(after, b) && Lane(b, after)
  {
    hide FitsLimit, Fits, Collecting, Cells, ReceiveAny, TakeWindowAck, Acted, Lane, CellValid;
    LaneParts(b, a);
    LaneParts(a, b);
    var n, m := a.node, b.out[index];
    var r := Deliver(n, a.limits, m, wanted);
    match n.mode
    case Sending(_, _, _, _) =>
      if m.WindowAck? && m.sequence == n.txSequence {
        AckSends(n, a.limits, a.jobs, m, b.node.inbox.sequence);
        OutboxMoves(a, b, r);
        AckKeepsInbox(n, a.limits, m);
        InboxStays(b, a, r, []);
      } else {
        NothingMoves(a, b);
      }
    case Receiving(_) =>
      if m.Window? {
        var awake := n.(mode := Receiving(0));
        AwakeSame(n, b.jobs, a.limits.receive);
        WindowReceives(awake, a.limits, b.jobs, m, wanted);
        ReceivesWindow(n, a.limits, m, wanted);
        OutboxStays(a, b, r);
        InboxMoves(b, a, r);
      } else {
        OtherReceived(n, a.limits, m, wanted);
        OutboxStays(a, b, r);
        InboxStays(b, a, r, []);
      }
    case Holding => NothingMoves(a, b);
    case Ended(_) => NothingMoves(a, b);
    case _ =>
      OutboxStays(a, b, r);
      InboxStays(b, a, r, []);
  }

  lemma LaneParts(from: End, to: End)
    requires Lane(from, to)
    ensures from.limits.transmit == to.limits.receive && SendOk(from.node, from.limits, from.jobs, from.out)
    ensures ReceiveOk(to.node, from.jobs, to.limits.receive) && AcksTrue(to.out, to.node.inbox.sequence)
    ensures from.node.txSequence <= to.node.inbox.sequence
    ensures |to.node.inbox.buffer| == WINDOW_MAX
  {
  }

  lemma AwakeSame(n: Node, jobs: seq<Job>, limit: nat)
    requires n.mode.Receiving? && forall j <- jobs :: FitsLimit(j, limit)
    requires ReceiveOk(n, jobs, limit)
    ensures ReceiveOk(n.(mode := Receiving(0)), jobs, limit)
  {
    hide FitsLimit, Collecting;
  }

  lemma ReceivesWindow(n: Node, limits: Limits, m: Message, wanted: bool)
    requires m.Window? && |n.inbox.buffer| == WINDOW_MAX
    ensures ReceiveAny(n, limits, m, wanted) == ReceiveWindow(n.(mode := Receiving(0)), limits, m.sequence, m.cell, wanted)
  {
    hide ReceiveWindow;
  }

  lemma NothingMoves(a: End, b: End)
    requires Lane(a, b) && Lane(b, a)
    ensures Lane(Acted(a, (a.node, []), []), b) && Lane(b, Acted(a, (a.node, []), []))
  {
    hide Lane;
    assert a.out + [] == a.out;
    assert Acted(a, (a.node, []), []) == a;
  }

  lemma AckKeepsInbox(n: Node, limits: Limits, m: Message)
    requires n.mode.Sending? && m.WindowAck?
    ensures InboxKept(n, TakeWindowAck(n, limits, m)) && InboxKept(n, Probe(n, limits))
  {
    hide RoundMessages;
    RoundIsWindows(n.(mode := n.mode.(pending := Missing(Full(|n.mode.pending|)), attempt := n.mode.attempt + 1)), limits);
    RoundIsWindows(n.(mode := n.mode.(pending := Missing(m.bitmap), attempt := n.mode.attempt + 1)), limits);
  }

  lemma TimeoutLanes(a: End, b: End)
    requires Lane(a, b) && Lane(b, a)
    ensures var after := Acted(a, Timeout(a.node, a.limits), []);
            Lane(after, b) && Lane(b, after)
  {
    hide FitsLimit, Fits, Collecting, Cells, Acted, Lane, Probe;
    LaneParts(a, b);
    LaneParts(b, a);
    var n := a.node;
    var r := Timeout(n, a.limits);
    match n.mode
    case Sending(_, _, _, _) =>
      ProbeSends(n, a.limits, a.jobs);
      OutboxMoves(a, b, r);
      AckKeepsInbox(n, a.limits, WindowAck(0, 0, [], false, false));
      InboxStays(b, a, r, []);
    case Holding => NothingMoves(a, b);
    case Ended(_) => NothingMoves(a, b);
    case _ =>
      OutboxStays(a, b, r);
      InboxStays(b, a, r, []);
  }

  lemma ProbeSends(n: Node, limits: Limits, jobs: seq<Job>)
    requires n.mode.Sending? && CountsOk(n, limits, jobs) && forall j <- jobs :: FitsLimit(j, limits.transmit)
    ensures var r := Probe(n, limits);
            CountsOk(r.0, limits, jobs) && CellsTrue(r.1, jobs, limits.transmit) && r.0.txSequence == n.txSequence
  {
    hide FitsLimit, Fits, NextRound;
    RoundSends(n.(mode := n.mode.(pending := Missing(Full(|n.mode.pending|)), attempt := n.mode.attempt + 1)), limits, jobs);
  }

  lemma TurnLanes(a: End, b: End, packets: seq<Packet>)
    requires Lane(a, b) && Lane(b, a) && AllValid(packets) && |packets| < 0x100
    ensures var after := Acted(a, TakeTurn(a.node, a.limits, packets), packets);
            Lane(after, b) && Lane(b, after)
  {
    hide FitsLimit, Fits, Collecting, Cells, Lane, StartWindow;
    var r := TakeTurn(a.node, a.limits, packets);
    if !a.node.mode.Holding? {
      NothingMoves(a, b);
    } else if packets == [] {
      OutboxStays(a, b, r);
      InboxStays(b, a, r, []);
    } else {
      OutboxBegins(a, b, packets);
      StartKeepsInbox(a.node, a.limits, packets);
      InboxStays(b, a, r, packets);
    }
  }

  lemma StartKeepsInbox(n: Node, limits: Limits, packets: seq<Packet>)
    requires AllValid(packets) && |packets| < 0x100 && n.mode.Holding?
    ensures InboxKept(n, StartWindow(n, limits, packets, true))
  {
    hide NextRound, BatchBytes, CellCount;
    var id := (n.batchId + 1) % TWO_32;
    var batch := BatchBytes(id, true, packets);
    if limits.transmit > WINDOW_HEADER {
      var begun := n.(batchId := id, mode := Sending(batch, true, Full(CellCount(|batch|, limits.transmit - WINDOW_HEADER)), 0));
      RoundIsWindows(begun, limits);
    }
  }

  ghost predicate Lanes(w: World) { Lane(w.left, w.right) && Lane(w.right, w.left) }

  lemma StepLeftLanes(w: World, event: Event)
    requires Lanes(w)
    ensures Lanes(StepLeft(w, event))
  {
    hide Lane, Acted, Deliver, Timeout, TakeTurn;
    match event
    case TurnAt(_, packets) =>
      if AllValid(packets) && |packets| < 0x100 { TurnLanes(w.left, w.right, packets); }
    case DeliverTo(_, index, wanted) =>
      if index < |w.right.out| { DeliverLanes(w.left, w.right, index, wanted); }
    case TimeoutAt(_) => TimeoutLanes(w.left, w.right);
  }

  lemma {:induction false} RunLanes(w: World, events: seq<Event>)
    requires Lanes(w)
    ensures Lanes(Run(w, events))
  {
    hide StepLeft, Lane;
    if events != [] {
      RunLanes(w, events[..|events| - 1]);
      var before, event := Run(w, events[..|events| - 1]), events[|events| - 1];
      if event.atLeft { StepLeftLanes(before, event); } else { StepLeftLanes(Swap(before), event); }
    }
  }

  lemma StartLanes(up: nat, down: nat, retries: nat, otherRetries: nat)
    ensures Lanes(Start(up, down, retries, otherRetries))
  {
  }
}
