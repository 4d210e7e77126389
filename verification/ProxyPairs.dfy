/** How the two proxy ends stand to each other: an end accepts only what the other offers, and the offer stands until it is committed. */
module ProxyPairs {
  import opened Bytes
  import opened Common
  import opened PacketTransport
  import opened ProxyWire
  import opened ProxyLink
  import opened ProxyWindows
  import opened ProxyRuns
  import opened ProxyDelivery
  import opened ProxyToken
  import opened ProxyNumbers

  // ---------------------------------------------------------------------
  // What one action may do
  // ---------------------------------------------------------------------

  /** The acknowledgement completes this window and accepts its offer, or not. */
  predicate CompletesWith(m: Message, sequence: nat, yielding: bool) {
    m.WindowAck? && m.complete && m.sequence == sequence && m.yielding == yielding
  }

  /** The mode stays within its phase, or starts what was heard. */
  predicate PhaseMove(n: Node, after: Node, heard: Option<Message>) {
    match n.mode
    case Holding => after.mode.Holding? || after.mode.Sending? || after.mode.Yielding?
    case Sending(_, _, _, _) => after.mode.Sending?
    case Yielding(_) => after.mode.Yielding?
    case Receiving(_) =>
      || after.mode.Receiving?
      || (after.mode.AcceptingTurn? && heard == Some(Turn(n.turn)))
      || (after.mode.AcceptingWindow? && after.mode.sequence == n.inbox.sequence
          && heard.Some? && heard.value.Window? && heard.value.sequence == n.inbox.sequence)
    case AcceptingTurn(_) => after.mode.AcceptingTurn?
    case AcceptingWindow(sequence, id, _, _) => after.mode.AcceptingWindow? && after.mode.sequence == sequence && after.mode.id == id
    case Ended(_) => false
  }

  predicate Finishes(n: Node, after: Node, heard: Option<Message>) {
    && n.mode.Sending? && after.mode.Holding? && after.turn == n.turn && after.txSequence == n.txSequence + 1
    && heard.Some? && CompletesWith(heard.value, n.txSequence, false)
  }

  predicate Gives(n: Node, after: Node, heard: Option<Message>) {
    && after.mode == Receiving(0) && after.turn == n.turn + 1 && heard.Some?
    && ((n.mode.Yielding? && heard.value == TurnAck(n.turn) && after.lastCommit == Some(LastCommit(n.turn, false, 0, 0)))
        || (n.mode.Sending? && CompletesWith(heard.value, n.txSequence, true)
            && after.lastCommit == Some(LastCommit(n.turn, true, n.txSequence, n.batchId))))
  }

  predicate Takes(n: Node, after: Node, heard: Option<Message>) {
    Accepting(n) && after.mode.Holding? && after.turn == n.turn + 1 && heard == Some(Commit(n.turn))
  }

  predicate Moves(n: Node, after: Node, heard: Option<Message>) {
    || after.mode.Ended?
    || (after.turn == n.turn && after.lastCommit == n.lastCommit && after.txSequence == n.txSequence && PhaseMove(n, after, heard))
    || Finishes(n, after, heard) || Gives(n, after, heard) || Takes(n, after, heard)
  }

  lemma SenderPhases(n: Node, limits: Limits, m: Message)
    requires n.mode.Sending?
    ensures Moves(n, NextRound(n, limits).0, None) && Moves(n, Probe(n, limits).0, None)
    ensures Moves(n, Probe(n, limits).0, Some(m))
    ensures m.WindowAck? && m.sequence == n.txSequence ==> Moves(n, TakeWindowAck(n, limits, m).0, Some(m))
  {
    hide RoundMessages, SendingOk, Full, Missing;
  }

  lemma ReceiverPhases(n: Node, limits: Limits, m: Message, wanted: bool)
    requires n.mode.Receiving? && |n.inbox.buffer| == WINDOW_MAX
    ensures Moves(n, ReceiveAny(n, limits, m, wanted).0, Some(m))
  {
    hide CellValid, TakeCell, CellCount, Full;
    if m.Window? && CellValid(m.cell) && limits.receive > WINDOW_HEADER {
      CellPhases(n.(mode := Receiving(0)), limits, m.sequence, m.cell, wanted);
    }
  }

  lemma CellPhases(n: Node, limits: Limits, sequence: nat, c: Cell, wanted: bool)
    requires n.mode.Receiving? && |n.inbox.buffer| == WINDOW_MAX && CellValid(c) && limits.receive > WINDOW_HEADER
    ensures var after := TakeCell(n, limits, sequence, c, wanted).0;
            && after.turn == n.turn && after.lastCommit == n.lastCommit && after.txSequence == n.txSequence
            && (after.mode == n.mode || after.mode.Ended? || (after.mode.AcceptingWindow? && after.mode.sequence == sequence))
  {
    hide CellValid, InspectBatch, OpenInbox, StoreCell, Full;
  }

  lemma DeliverPhases(n: Node, limits: Limits, m: Message, wanted: bool)
    requires |n.inbox.buffer| == WINDOW_MAX
    ensures Deliver(n, limits, m, wanted).0.mode.Ended? || Moves(n, Deliver(n, limits, m, wanted).0, Some(m))
  {
    hide TakeWindowAck, ReceiveAny, CellValid, Full;
    match n.mode
    case Sending(_, _, _, _) => SenderPhases(n, limits, m);
    case Receiving(_) => ReceiverPhases(n, limits, m, wanted);
    case _ =>
  }

  lemma TimeoutPhases(n: Node, limits: Limits)
    ensures Moves(n, Timeout(n, limits).0, None)
  {
    hide Probe, Full;
    if n.mode.Sending? {
      SenderPhases(n, limits, Turn(0));
    }
  }

  lemma TurnPhases(n: Node, limits: Limits, packets: seq<Packet>)
    requires AllValid(packets) && |packets| < 0x100
    ensures TakeTurn(n, limits, packets).0.mode.Ended? || Moves(n, TakeTurn(n, limits, packets).0, None)
  {
    hide RoundMessages, BatchBytes, CellCount, Full, Covers;
  }

  // ---------------------------------------------------------------------
  // What an end has said
  // ---------------------------------------------------------------------

  /** An offer of the present turn stands; the last window finished was answered in one way. */
  predicate Said(n: Node, m: Message) {
    && (m.Turn? ==> m.turn <= n.turn && (m.turn == n.turn ==> n.mode.Yielding? || n.mode.Ended?))
    && (m.WindowAck? && m.complete ==>
          n.lastDone.Some? && m.sequence <= n.lastDone.value.sequence &&
          (m.sequence == n.lastDone.value.sequence ==> m.yielding == n.lastDone.value.yieldAccepted))
  }

  /** What was said before an action stays so, and so is what it says. */
  predicate SaidMove(n: Node, r: (Node, seq<Message>)) {
    && n.turn <= r.0.turn && (n.mode.Ended? ==> r.0.mode.Ended?)
    && (n.mode.Yielding? && r.0.turn == n.turn ==> r.0.mode.Yielding? || r.0.mode.Ended?)
    && (r.0.lastDone == n.lastDone ||
        (r.0.lastDone.Some? && (n.lastDone.Some? ==> n.lastDone.value.sequence < r.0.lastDone.value.sequence)))
    && forall m <- r.1 :: Said(r.0, m)
  }

  lemma SaidLater(n: Node, r: (Node, seq<Message>), m: Message)
    requires SaidMove(n, r) && Said(n, m)
    ensures Said(r.0, m)
  {
  }

  lemma SenderSays(n: Node, limits: Limits, m: Message)
    requires n.mode.Sending?
    ensures SaidMove(n, NextRound(n, limits)) && SaidMove(n, Probe(n, limits))
    ensures m.WindowAck? ==> SaidMove(n, TakeWindowAck(n, limits, m))
  {
    hide RoundMessages, SendingOk, Full, Missing;
    RoundIsWindows(n, limits);
    RoundIsWindows(n.(mode := n.mode.(pending := Missing(Full(|n.mode.pending|)), attempt := n.mode.attempt + 1)), limits);
    if m.WindowAck? {
      RoundIsWindows(n.(mode := n.mode.(pending := Missing(m.bitmap), attempt := n.mode.attempt + 1)), limits);
    }
  }

  lemma CellSays(n: Node, limits: Limits, c: Cell, wanted: bool)
    requires CellValid(c) && limits.receive > WINDOW_HEADER && |n.inbox.buffer| == WINDOW_MAX
    requires n.mode.Receiving? && Aligned(n)
    ensures SaidMove(n, TakeCell(n, limits, n.inbox.sequence, c, wanted))
  {
    hide CellValid, FinishWindow, OpenInbox, StoreCell, Full;
    var capacity := limits.receive - WINDOW_HEADER;
    CollectNumbers(n.inbox, c, capacity);
    var open := OpenInbox(n.inbox, c);
    if open.Some? && StoreCell(open.value, c, capacity).Some? {
      var stored := n.(inbox := StoreCell(open.value, c, capacity).value);
      if stored.inbox.total <= |stored.inbox.buffer| {
        FinishSays(stored, limits, c, wanted);
      }
    }
  }

  lemma FinishSays(n: Node, limits: Limits, c: Cell, wanted: bool)
    requires n.mode.Receiving? && n.inbox.total <= |n.inbox.buffer| && Aligned(n)
    ensures SaidMove(n, FinishWindow(n, limits, n.inbox.sequence, c, wanted))
  {
    hide InspectBatch, Full;
  }

  lemma ReceiverSays(n: Node, limits: Limits, m: Message, wanted: bool)
    requires n.mode.Receiving? && |n.inbox.buffer| == WINDOW_MAX && Aligned(n)
    ensures SaidMove(n, ReceiveAny(n, limits, m, wanted))
  {
    hide CellValid, TakeCell, CellCount, Full;
    if m.Window? && CellValid(m.cell) && limits.receive > WINDOW_HEADER {
      CellSays(n.(mode := Receiving(0)), limits, m.cell, wanted);
    }
  }

  lemma DeliverSays(n: Node, limits: Limits, m: Message, wanted: bool)
    requires |n.inbox.buffer| == WINDOW_MAX && Aligned(n)
    ensures SaidMove(n, Deliver(n, limits, m, wanted))
  {
    hide TakeWindowAck, ReceiveAny, CellValid, Full;
    match n.mode
    case Sending(_, _, _, _) => SenderSays(n, limits, m);
    case Receiving(_) => ReceiverSays(n, limits, m, wanted);
    case _ =>
  }

  lemma TimeoutSays(n: Node, limits: Limits)
    requires Aligned(n)
    ensures SaidMove(n, Timeout(n, limits))
  {
    hide Probe, Full;
    if n.mode.Sending? {
      SenderSays(n, limits, Turn(0));
    }
  }

  lemma TurnSays(n: Node, limits: Limits, packets: seq<Packet>)
    requires AllValid(packets) && |packets| < 0x100
    ensures SaidMove(n, TakeTurn(n, limits, packets))
  {
    hide NextRound, BatchBytes, CellCount, Full;
    if n.mode.Holding? && packets != [] {
      var id := (n.batchId + 1) % TWO_32;
      var batch := BatchBytes(id, true, packets);
      if limits.transmit > WINDOW_HEADER {
        SenderSays(n.(batchId := id, mode := Sending(batch, true, Full(CellCount(|batch|, limits.transmit - WINDOW_HEADER)), 0)), limits, Turn(0));
      }
    }
  }

  // ---------------------------------------------------------------------
  // The pair
  // ---------------------------------------------------------------------

  /** What `b` accepts is what `a` offers, or what `a` has committed and is ready to commit again. */
  predicate Paired(a: Node, b: Node) {
    !a.mode.Ended? && !b.mode.Ended? ==>
      && (b.mode.AcceptingTurn? && a.turn == b.turn ==> a.mode.Yielding?)
      && (b.mode.AcceptingWindow? && a.turn == b.turn ==> a.mode.Sending? && b.mode.sequence == a.txSequence)
      && (a.turn == b.turn + 1 ==>
            && a.mode.Receiving? && Accepting(b) && a.lastCommit.Some?
            && var last := a.lastCommit.value;
            && last.turn == b.turn && (b.mode.AcceptingTurn? ==> !last.piggybacked)
            && (b.mode.AcceptingWindow? ==> last.piggybacked && last.sequence == b.mode.sequence && last.id == b.mode.id))
  }

  predicate AllSaid(e: End) { forall m <- e.out :: Said(e.node, m) }

  ghost predicate PairOk(w: World) {
    && Sound(w) && AllSaid(w.left) && AllSaid(w.right)
    && Paired(w.left.node, w.right.node) && Paired(w.right.node, w.left.node)
  }

  /** What the invariants of tokens and windows say about the other end's messages. */
  ghost predicate Facts(a: End, b: End) {
    && TokenOk(a.node, b.node) && CommitsPast(b)
    && AcceptancesOk(b.node, b.out, a.node.txSequence)
    && b.node.txSequence <= a.node.inbox.sequence && a.node.txSequence <= b.node.inbox.sequence <= |a.jobs|
    && (forall m <- b.out :: m.Window? ==> m.sequence < |b.jobs|)
    && |b.jobs| <= b.node.txSequence + 1 && (|b.jobs| == b.node.txSequence + 1 ==> b.node.mode.Sending? || b.node.mode.Ended?)
    && (a.node.turn != b.node.turn ==> |b.jobs| == b.node.txSequence)
    && (b.node.turn == a.node.turn + 1 ==> a.node.mode.Ended? || Accepting(a.node))
    && (a.node.mode.Sending? ==> a.node.txSequence < |a.jobs| && a.node.batchId == a.jobs[a.node.txSequence].id)
    && (b.node.lastDone.Some? ==> b.node.lastDone.value.sequence < |a.jobs| && b.node.lastDone.value.id == a.jobs[b.node.lastDone.value.sequence].id)
    && Aligned(a.node) && Aligned(b.node)
  }

  lemma SoundFacts(w: World)
    requires Sound(w)
    ensures Facts(w.left, w.right) && |w.left.node.inbox.buffer| == WINDOW_MAX
  {
    hide FitsLimit, Fits, BatchOf, Cells, Collecting, AcceptancesOk, Reached;
    LaneParts(w.left, w.right);
    LaneParts(w.right, w.left);
  }

  /** An end that acts keeps what the other one accepts paired with what it offers. */
  lemma OffererMoves(a: End, b: End, after: Node, heard: Option<Message>)
    requires Facts(a, b) && Paired(a.node, b.node) && Paired(b.node, a.node) && AllSaid(b)
    requires Moves(a.node, after, heard) && (heard.Some? ==> heard.value in b.out)
    ensures Paired(after, b.node)
  {
    hide Aligned;
    if b.node.mode.AcceptingWindow? {
      AlignedAccepts(b.node);
    }
    if heard.Some? {
      assert Said(b.node, heard.value);
    }
  }

  lemma AlignedAccepts(n: Node)
    requires Aligned(n) && n.mode.AcceptingWindow?
    ensures n.lastDone == Some(Done(n.mode.id, n.mode.sequence, n.mode.count, true, true))
  {
  }

  /** An end that acts accepts only what the other one offers. */
  lemma AcceptorMoves(a: End, b: End, after: Node, heard: Option<Message>)
    requires Facts(a, b) && Paired(a.node, b.node) && Paired(b.node, a.node) && AllSaid(b)
    requires Moves(a.node, after, heard) && (heard.Some? ==> heard.value in b.out)
    ensures Paired(b.node, after)
  {
    hide Aligned;
    if heard.Some? {
      assert Said(b.node, heard.value);
    }
  }

  lemma ActedPairs(w: World, r: (Node, seq<Message>), heard: Option<Message>, packets: seq<Packet>)
    requires PairOk(w) && Sound(w.(left := Acted(w.left, r, packets)))
    requires Moves(w.left.node, r.0, heard) && SaidMove(w.left.node, r) && (heard.Some? ==> heard.value in w.right.out)
    ensures PairOk(w.(left := Acted(w.left, r, packets)))
  {
    hide Sound, Facts, Moves, SaidMove, Said, Paired;
    SoundFacts(w);
    OffererMoves(w.left, w.right, r.0, heard);
    AcceptorMoves(w.left, w.right, r.0, heard);
    forall m | m in w.left.out + r.1
      ensures Said(r.0, m)
    {
      if m in w.left.out {
        SaidLater(w.left.node, r, m);
      } else {
        SaidNow(w.left.node, r, m);
      }
    }
  }

  lemma SaidNow(n: Node, r: (Node, seq<Message>), m: Message)
    requires SaidMove(n, r) && m in r.1
    ensures Said(r.0, m)
  {
  }

  lemma StepSound(w: World, event: Event)
    requires Sound(w)
    ensures Sound(Step(w, event)) && Sound(StepLeft(w, event)) && Sound(Swap(w))
  {
    hide AllKept, Orderly, ActLeft;
    SwapKept(w);
    StepLeftKept(w, event);
    StepLeftKept(Swap(w), event);
    SwapKept(StepLeft(Swap(w), event));
    StepLeftOrderly(w, event);
    StepLeftOrderly(Swap(w), event);
  }

  lemma StepLeftPairs(w: World, event: Event)
    requires PairOk(w)
    ensures PairOk(StepLeft(w, event))
  {
    hide Sound, Moves, SaidMove, Said, Paired, Deliver, Timeout, TakeTurn, Acted;
    var n, limits := w.left.node, w.left.limits;
    StepSound(w, event);
    SoundFacts(w);
    match event
    case TurnAt(_, packets) =>
      if AllValid(packets) && |packets| < 0x100 {
        TurnPhases(n, limits, packets);
        TurnSays(n, limits, packets);
        EndedMoves(n, TakeTurn(n, limits, packets).0, None);
        ActedPairs(w, TakeTurn(n, limits, packets), None, packets);
      }
    case DeliverTo(_, index, wanted) =>
      if index < |w.right.out| {
        var m := w.right.out[index];
        DeliverPhases(n, limits, m, wanted);
        DeliverSays(n, limits, m, wanted);
        EndedMoves(n, Deliver(n, limits, m, wanted).0, Some(m));
        ActedPairs(w, Deliver(n, limits, m, wanted), Some(m), []);
      }
    case TimeoutAt(_) =>
      TimeoutPhases(n, limits);
      TimeoutSays(n, limits);
      ActedPairs(w, Timeout(n, limits), None, []);
  }

  lemma EndedMoves(n: Node, after: Node, heard: Option<Message>)
    ensures after.mode.Ended? ==> Moves(n, after, heard)
  {
  }

  lemma SwapPairs(w: World)
    requires PairOk(w)
    ensures PairOk(Swap(w))
  {
    hide Orderly, Said, Paired, AllKept;
    SwapKept(w);
  }

  lemma StepPairs(w: World, event: Event)
    requires PairOk(w)
    ensures PairOk(Step(w, event))
  {
    hide PairOk, StepLeft;
    if event.atLeft {
      StepLeftPairs(w, event);
    } else {
      SwapPairs(w);
      StepLeftPairs(Swap(w), event);
      SwapPairs(StepLeft(Swap(w), event));
    }
  }

  /** In every run the two ends are paired. */
  lemma {:induction false} RunPairs(w: World, events: seq<Event>)
    requires PairOk(w)
    ensures PairOk(Run(w, events))
  {
    hide PairOk, Step;
    if events != [] {
      RunPairs(w, events[..|events| - 1]);
      StepPairs(Run(w, events[..|events| - 1]), events[|events| - 1]);
    }
  }

  lemma ReachablePairs(w: World)
    requires Reachable(w)
    ensures PairOk(w)
  {
    hide Run, AllKept;
    var up: nat, down: nat, retries: nat, other: nat, events: seq<Event> :| w == Run(Start(up, down, retries, other), events);
    StartKept(up, down, retries, other);
    RunPairs(Start(up, down, retries, other), events);
  }
}
