/** How the turn and window numbers of an end go together, and that no message names a number to come. */
module ProxyNumbers {
  import opened Bytes
  import opened Common
  import opened PacketTransport
  import opened ProxyWire
  import opened ProxyLink
  import opened ProxyWindows
  import opened ProxyRuns
  import opened ProxyDelivery
  import opened ProxyToken

  /** What was committed or finished last is one behind the counter it advanced. */
  predicate Aligned(n: Node) {
    && (n.mode.Receiving? && n.lastCommit.Some? ==>
          && n.turn == n.lastCommit.value.turn + 1
          && (n.lastCommit.value.piggybacked ==> n.txSequence == n.lastCommit.value.sequence + 1))
    && n.inbox.sequence == (if n.lastDone.Some? then n.lastDone.value.sequence + 1 else 0)
    && (n.mode.AcceptingWindow? ==> n.lastDone == Some(Done(n.mode.id, n.mode.sequence, n.mode.count, true, true)))
  }

  /** The message, sent from this end, names a turn or window it has reached. */
  predicate Reached(n: Node, m: Message) {
    match m
    case Window(_, _) => true
    case WindowAck(sequence, _, _, _, _) => sequence <= n.inbox.sequence
    case Turn(turn) => turn <= n.turn
    case TurnAck(turn) => turn <= n.turn
    case Commit(turn) => turn <= n.turn
  }

  predicate Orderly(e: End) {
    Aligned(e.node) && forall m <- e.out :: Reached(e.node, m)
  }

  predicate NumberMove(n: Node, r: (Node, seq<Message>)) {
    && Aligned(r.0) && n.turn <= r.0.turn && n.inbox.sequence <= r.0.inbox.sequence
    && forall m <- r.1 :: Reached(r.0, m)
  }

  lemma RoundNumbers(n: Node, limits: Limits)
    requires n.mode.Sending? && Aligned(n)
    ensures NumberMove(n, NextRound(n, limits))
  {
    RoundIsWindows(n, limits);
    hide RoundMessages;
  }

  lemma SenderNumbers(n: Node, limits: Limits, m: Message)
    requires n.mode.Sending? && Aligned(n)
    ensures NumberMove(n, Probe(n, limits))
    ensures m.WindowAck? ==> NumberMove(n, TakeWindowAck(n, limits, m))
  {
    hide NextRound, Full, Missing;
    RoundNumbers(n.(mode := n.mode.(pending := Missing(Full(|n.mode.pending|)), attempt := n.mode.attempt + 1)), limits);
    if m.WindowAck? {
      RoundNumbers(n.(mode := n.mode.(pending := Missing(m.bitmap), attempt := n.mode.attempt + 1)), limits);
    }
  }

  lemma FinishNumbers(n: Node, limits: Limits, c: Cell, wanted: bool)
    requires n.mode.Receiving? && n.inbox.total <= |n.inbox.buffer| && Aligned(n)
    ensures NumberMove(n, FinishWindow(n, limits, n.inbox.sequence, c, wanted))
  {
    hide InspectBatch, Full;
  }

  lemma CollectNumbers(inbox: Inbox, c: Cell, capacity: nat)
    requires CellValid(c) && |inbox.buffer| == WINDOW_MAX
    ensures var open := OpenInbox(inbox, c);
            open.Some? ==>
              && open.value.sequence == inbox.sequence && |open.value.buffer| == WINDOW_MAX
              && var kept := StoreCell(open.value, c, capacity);
                 kept.Some? ==> kept.value.sequence == inbox.sequence
  {
    hide CellValid, Spliced, CellStart, CellEnd;
  }

  lemma CellNumbers(n: Node, limits: Limits, c: Cell, wanted: bool)
    requires CellValid(c) && limits.receive > WINDOW_HEADER && |n.inbox.buffer| == WINDOW_MAX
    requires n.mode.Receiving? && Aligned(n)
    ensures NumberMove(n, TakeCell(n, limits, n.inbox.sequence, c, wanted))
  {
    hide CellValid, FinishWindow, OpenInbox, StoreCell, Full;
    var capacity := limits.receive - WINDOW_HEADER;
    CollectNumbers(n.inbox, c, capacity);
    var open := OpenInbox(n.inbox, c);
    if open.Some? && StoreCell(open.value, c, capacity).Some? {
      var stored := n.(inbox := StoreCell(open.value, c, capacity).value);
      if stored.inbox.total <= |stored.inbox.buffer| {
        FinishNumbers(stored, limits, c, wanted);
      }
    }
  }

  lemma ReceiverNumbers(n: Node, limits: Limits, m: Message, wanted: bool)
    requires n.mode.Receiving? && |n.inbox.buffer| == WINDOW_MAX && Aligned(n)
    ensures NumberMove(n, ReceiveAny(n, limits, m, wanted))
  {
    hide CellValid, TakeCell, CellCount, Full;
    if m.Window? && CellValid(m.cell) && limits.receive > WINDOW_HEADER {
      CellNumbers(n.(mode := Receiving(0)), limits, m.cell, wanted);
    }
  }

  lemma DeliverNumbers(n: Node, limits: Limits, m: Message, wanted: bool)
    requires |n.inbox.buffer| == WINDOW_MAX && Aligned(n)
    ensures NumberMove(n, Deliver(n, limits, m, wanted))
  {
    hide TakeWindowAck, ReceiveAny, CellValid, Full;
    match n.mode
    case Sending(_, _, _, _) => SenderNumbers(n, limits, m);
    case Receiving(_) => ReceiverNumbers(n, limits, m, wanted);
    case _ =>
  }

  lemma TimeoutNumbers(n: Node, limits: Limits)
    requires Aligned(n)
    ensures NumberMove(n, Timeout(n, limits))
  {
    hide Probe, Full;
    if n.mode.Sending? {
      SenderNumbers(n, limits, Turn(0));
    }
  }

  lemma TurnNumbers(n: Node, limits: Limits, packets: seq<Packet>)
    requires AllValid(packets) && |packets| < 0x100 && Aligned(n)
    ensures NumberMove(n, TakeTurn(n, limits, packets))
  {
    hide NextRound, BatchBytes, CellCount, Full;
    if n.mode.Holding? && packets != [] {
      var id := (n.batchId + 1) % TWO_32;
      var batch := BatchBytes(id, true, packets);
      if limits.transmit > WINDOW_HEADER {
        var count := CellCount(|batch|, limits.transmit - WINDOW_HEADER);
        RoundNumbers(n.(batchId := id, mode := Sending(batch, true, Full(count), 0)), limits);
      }
    }
  }

  lemma StepLeftOrderly(w: World, event: Event)
    requires Orderly(w.left)
    ensures Orderly(StepLeft(w, event).left)
  {
    hide Deliver, Timeout, TakeTurn, Aligned;
    var n, limits := w.left.node, w.left.limits;
    match event
    case TurnAt(_, packets) =>
      if AllValid(packets) && |packets| < 0x100 {
        TurnNumbers(n, limits, packets);
      }
    case DeliverTo(_, index, wanted) =>
      if index < |w.right.out| && |n.inbox.buffer| == WINDOW_MAX {
        DeliverNumbers(n, limits, w.right.out[index], wanted);
      }
    case TimeoutAt(_) => TimeoutNumbers(n, limits);
  }

  lemma {:induction false} RunOrderly(w: World, events: seq<Event>)
    requires Orderly(w.left) && Orderly(w.right)
    ensures Orderly(Run(w, events).left) && Orderly(Run(w, events).right)
  {
    hide Orderly, ActLeft;
    if events != [] {
      var before, event := Run(w, events[..|events| - 1]), events[|events| - 1];
      RunOrderly(w, events[..|events| - 1]);
      StepLeftOrderly(before, event);
      StepLeftOrderly(Swap(before), event);
    }
  }

  lemma ReachableOrderly(w: World)
    requires Reachable(w)
    ensures Orderly(w.left) && Orderly(w.right)
  {
    hide Run;
    var up: nat, down: nat, retries: nat, other: nat, events: seq<Event> :| w == Run(Start(up, down, retries, other), events);
    RunOrderly(Start(up, down, retries, other), events);
  }

  // ---------------------------------------------------------------------
  // Messages and the counters of the other end
  // ---------------------------------------------------------------------

  /** The counter of this end that the number of the message goes with. */
  function Counter(n: Node, m: Message): nat {
    if m.Window? then n.inbox.sequence else if m.WindowAck? then n.txSequence else n.turn
  }

  function Number(m: Message): nat {
    if m.Window? || m.WindowAck? then m.sequence else m.turn
  }

  /** A message is at most one turn or window ahead of the end that hears it. */
  predicate NotAhead(n: Node, m: Message) {
    Number(m) <= Counter(n, m) + 1
  }

  /** What every run keeps about tokens, windows and numbers. */
  ghost predicate Sound(w: World) { AllKept(w) && Orderly(w.left) && Orderly(w.right) }

  lemma ReachableSound(w: World)
    requires Reachable(w)
    ensures Sound(w) && Sound(Swap(w))
  {
    hide Reachable, AllKept, Orderly;
    ReachableOrderly(w);
    ReachableKept(w);
    SwapKept(w);
  }

  lemma NoMessageIsAhead(w: World, m: Message)
    requires Sound(w) && m in w.right.out
    ensures NotAhead(w.left.node, m)
  {
    hide AcceptancesOk, OnItsWay, Lane, FitsLimit, Fits, Current;
    LaneParts(w.left, w.right);
    LaneParts(w.right, w.left);
    assert Reached(w.right.node, m);
    CountsNear(w.left.node, w.left.limits, w.left.jobs);
    CountsNear(w.right.node, w.right.limits, w.right.jobs);
  }

  lemma CountsNear(n: Node, limits: Limits, jobs: seq<Job>)
    requires CountsOk(n, limits, jobs)
    ensures n.txSequence <= |jobs| <= n.txSequence + 1
  {
  }
}
