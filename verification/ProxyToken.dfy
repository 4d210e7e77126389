/** The token is never lost either: while nobody has given up, it is held or on its way to an end that waits for it. */
module ProxyToken {
  import opened Bytes
  import opened Common
  import opened PacketTransport
  import opened ProxyWire
  import opened ProxyLink
  import opened ProxyWindows
  import opened ProxyRuns
  import opened ProxyDelivery

  /** This end accepted the token with window s and still waits for the commit. */
  predicate WaitsFor(n: Node, s: nat) {
    n.mode.AcceptingWindow? && n.mode.sequence == s
  }

  /** An acceptance this end sent is outdated, or it still waits, or it has given up. */
  ghost predicate AcceptancesOk(n: Node, out: seq<Message>, peerFinished: nat) {
    && (forall m <- out :: m.TurnAck? ==> m.turn <= n.turn && (m.turn == n.turn ==> n.mode.AcceptingTurn? || n.mode.Ended?))
    && (forall m <- out :: m.WindowAck? && m.yielding ==>
          m.sequence < peerFinished || WaitsFor(n, m.sequence) || n.mode.Ended?)
    && (n.lastDone.Some? && n.lastDone.value.yieldAccepted ==>
          n.lastDone.value.sequence < peerFinished || WaitsFor(n, n.lastDone.value.sequence) || n.mode.Ended?)
  }

  /** A handover under way ends at b: its commit was sent and b waits for it. */
  ghost predicate OnItsWay(a: End, b: End) {
    && (a.node.turn == b.node.turn + 1 ==>
          (b.node.mode.Ended? || Accepting(b.node)) && Commit(b.node.turn) in a.out)
    && (a.node.turn != b.node.turn || HoldsToken(b.node) ==> |a.jobs| == a.node.txSequence)
  }

  ghost predicate Somewhere(a: Node, b: Node) {
    a.turn == b.turn && !a.mode.Ended? && !b.mode.Ended? ==> HoldsToken(a) || HoldsToken(b)
  }

  ghost predicate Kept(w: World) {
    && Somewhere(w.left.node, w.right.node)
    && OnItsWay(w.left, w.right) && OnItsWay(w.right, w.left)
    && AcceptancesOk(w.left.node, w.left.out, w.right.node.txSequence)
    && AcceptancesOk(w.right.node, w.right.out, w.left.node.txSequence)
  }

  /** How an action may change what this end waits for. */
  predicate WaitMove(n: Node, r: (Node, seq<Message>)) {
    && (n.mode.Ended? ==> r.0.mode.Ended?)
    && (HoldsToken(n) ==> HoldsToken(r.0) || r.0.mode.Ended? || r.0.turn == n.turn + 1)
    && (Accepting(n) && r.0.turn == n.turn ==> Accepting(r.0) || r.0.mode.Ended?)
    && (n.mode.AcceptingTurn? && r.0.turn == n.turn ==> r.0.mode.AcceptingTurn? || r.0.mode.Ended?)
    && (n.mode.AcceptingWindow? && r.0.turn == n.turn ==> WaitsFor(r.0, n.mode.sequence) || r.0.mode.Ended?)
    && (forall m <- r.1 :: m.TurnAck? ==> m.turn == n.turn == r.0.turn && r.0.mode.AcceptingTurn?)
    && (forall m <- r.1 :: m.WindowAck? && m.yielding ==> WaitsFor(r.0, m.sequence) || Repeats(n, m.sequence))
    && (r.0.lastDone == n.lastDone ||
        (n.mode.Receiving? && r.0.lastDone.Some? &&
         (r.0.lastDone.value.yieldAccepted ==> WaitsFor(r.0, r.0.lastDone.value.sequence) || r.0.mode.Ended?)))
  }

  predicate Repeats(n: Node, s: nat) {
    n.mode.Receiving? && n.lastDone.Some? && n.lastDone.value.yieldAccepted && n.lastDone.value.sequence == s
  }

  lemma ReceiverWaits(n: Node, limits: Limits, m: Message, wanted: bool)
    requires n.mode.Receiving? && |n.inbox.buffer| == WINDOW_MAX
    ensures WaitMove(n, ReceiveAny(n, limits, m, wanted))
  {
    hide CellValid, InspectBatch, OpenInbox, StoreCell, CellCount, Full;
  }

  lemma SenderWaits(n: Node, limits: Limits, m: Message)
    requires n.mode.Sending?
    ensures WaitMove(n, Probe(n, limits))
    ensures m.WindowAck? ==> WaitMove(n, TakeWindowAck(n, limits, m))
  {
    hide Full, Missing, RoundMessages;
    RoundIsWindows(n.(mode := n.mode.(pending := Missing(Full(|n.mode.pending|)), attempt := n.mode.attempt + 1)), limits);
    if m.WindowAck? {
      RoundIsWindows(n.(mode := n.mode.(pending := Missing(m.bitmap), attempt := n.mode.attempt + 1)), limits);
    }
  }

  lemma DeliverWaits(n: Node, limits: Limits, m: Message, wanted: bool)
    requires |n.inbox.buffer| == WINDOW_MAX
    ensures WaitMove(n, Deliver(n, limits, m, wanted))
  {
    hide ReceiveAny, TakeWindowAck, CellValid, Full;
    match n.mode
    case Sending(_, _, _, _) => SenderWaits(n, limits, m);
    case Receiving(_) => ReceiverWaits(n, limits, m, wanted);
    case _ =>
  }

  lemma TimeoutWaits(n: Node, limits: Limits)
    ensures WaitMove(n, Timeout(n, limits))
  {
    hide Probe, Full;
    if n.mode.Sending? {
      SenderWaits(n, limits, Turn(0));
    }
  }

  lemma TurnWaits(n: Node, limits: Limits, packets: seq<Packet>)
    requires AllValid(packets) && |packets| < 0x100
    ensures WaitMove(n, TakeTurn(n, limits, packets))
  {
    hide NextRound, Full, BatchBytes, CellCount;
    if n.mode.Holding? && packets != [] {
      var id := (n.batchId + 1) % TWO_32;
      var batch := BatchBytes(id, true, packets);
      if limits.transmit > WINDOW_HEADER {
        RoundIsWindows(n.(batchId := id, mode := Sending(batch, true, Full(CellCount(|batch|, limits.transmit - WINDOW_HEADER)), 0)), limits);
      }
    }
  }

  /** The holder gives the token away only to an end that accepted it. */
  ghost predicate GivenToAcceptor(a: End, b: End, r: (Node, seq<Message>)) {
    HoldsToken(a.node) && r.0.turn == a.node.turn + 1 ==>
      (Accepting(b.node) || b.node.mode.Ended?) && Commit(a.node.turn) in r.1
  }

  lemma DeliverGives(a: End, b: End, index: nat, wanted: bool)
    requires Kept(World(a, b)) && TokenOk(a.node, b.node) && index < |b.out| && |a.node.inbox.buffer| == WINDOW_MAX
    ensures GivenToAcceptor(a, b, Deliver(a.node, a.limits, b.out[index], wanted))
  {
    hide ReceiveAny, TakeWindowAck, Full;
    var m := b.out[index];
    assert m in b.out;
    if a.node.mode.Sending? {
      AcceptorOfWindow(b.node, b.out, a.node.txSequence, m);
      SenderMovesTurn(a.node, a.limits, m);
    }
  }

  lemma SenderMovesTurn(n: Node, limits: Limits, m: Message)
    requires n.mode.Sending?
    ensures NextRound(n, limits).0.turn == n.turn && Probe(n, limits).0.turn == n.turn
    ensures m.WindowAck? && TakeWindowAck(n, limits, m).0.turn != n.turn ==>
              m.yielding && TakeWindowAck(n, limits, m).1 == [Commit(n.turn)]
  {
    hide RoundMessages;
  }

  lemma AcceptorOfWindow(n: Node, out: seq<Message>, peerFinished: nat, m: Message)
    requires AcceptancesOk(n, out, peerFinished) && m in out
    ensures m.WindowAck? && m.yielding && m.sequence >= peerFinished ==> Accepting(n) || n.mode.Ended?
  {
  }

  // ---------------------------------------------------------------------
  // Steps
  // ---------------------------------------------------------------------

  lemma AcceptancesMove(a: End, r: (Node, seq<Message>), packets: seq<Packet>, peerFinished: nat, heard: seq<Message>)
    requires AcceptancesOk(a.node, a.out, peerFinished) && WaitMove(a.node, r) && TokenMove(a.node, r.0, r.1, heard)
    requires a.node.mode.AcceptingWindow? && r.0.turn == a.node.turn + 1 ==> a.node.mode.sequence < peerFinished
    ensures AcceptancesOk(r.0, Acted(a, r, packets).out, peerFinished)
  {
    var out := a.out + r.1;
    forall m | m in out && m.WindowAck? && m.yielding
      ensures m.sequence < peerFinished || WaitsFor(r.0, m.sequence) || r.0.mode.Ended?
    {
      if m in a.out {
      } else {
        assert m in r.1;
      }
    }
    forall m | m in out && m.TurnAck?
      ensures m.turn <= r.0.turn && (m.turn == r.0.turn ==> r.0.mode.AcceptingTurn? || r.0.mode.Ended?)
    {
      if m in a.out {
      } else {
        assert m in r.1;
      }
    }
  }

  lemma PeerAcceptancesStay(b: End, finished: nat, finished': nat)
    requires AcceptancesOk(b.node, b.out, finished) && finished <= finished'
    ensures AcceptancesOk(b.node, b.out, finished')
  {
  }

  /** Starting windows and finishing them keeps step with the token. */
  predicate JobsMove(a: End, after: End) {
    && after.node.txSequence >= a.node.txSequence
    && (!HoldsToken(a.node) ==> after.jobs == a.jobs && after.node.txSequence == a.node.txSequence)
    && (after.node.turn == a.node.turn + 1 ==> |after.jobs| == after.node.txSequence)
  }

  lemma TokenKept(a: End, b: End, r: (Node, seq<Message>), heard: seq<Message>, packets: seq<Packet>)
    requires Kept(World(a, b)) && SafeToken(World(a, b)) && Lane(a, b) && Lane(b, a)
    requires TokenMove(a.node, r.0, r.1, heard) && WaitMove(a.node, r) && GivenToAcceptor(a, b, r)
    requires JobsMove(a, Acted(a, r, packets)) && forall m <- heard :: m in b.out
    ensures Kept(World(Acted(a, r, packets), b))
  {
    hide Lane, AcceptancesOk, WaitsFor;
    var after := Acted(a, r, packets);
    LaneParts(a, b);
    LaneParts(b, a);
    if a.node.mode.AcceptingWindow? && r.0.turn == a.node.turn + 1 {
      WaitingIsOld(a, b);
    }
    AcceptancesMove(a, r, packets, b.node.txSequence, heard);
    PeerAcceptancesStay(b, a.node.txSequence, r.0.txSequence);
    TokenPlaces(a, b, r, heard, packets);
  }

  /** A window whose offer was accepted is finished once the commit is there. */
  lemma WaitingIsOld(a: End, b: End)
    requires SafeToken(World(a, b)) && OnItsWay(b, a) && ReceiveFacts(a, b)
    requires a.node.mode.AcceptingWindow? && Commit(a.node.turn) in b.out
    ensures a.node.mode.sequence < b.node.txSequence
  {
  }

  /** The part of a lane this argument needs. */
  predicate ReceiveFacts(a: End, b: End) {
    a.node.inbox.sequence <= |b.jobs| && (a.node.mode.AcceptingWindow? ==> a.node.mode.sequence < a.node.inbox.sequence)
  }

  lemma TokenPlaces(a: End, b: End, r: (Node, seq<Message>), heard: seq<Message>, packets: seq<Packet>)
    requires Somewhere(a.node, b.node) && OnItsWay(a, b) && OnItsWay(b, a) && SafeToken(World(a, b))
    requires TokenMove(a.node, r.0, r.1, heard) && WaitMove(a.node, r) && GivenToAcceptor(a, b, r)
    requires JobsMove(a, Acted(a, r, packets)) && forall m <- heard :: m in b.out
    ensures var after := Acted(a, r, packets);
            Somewhere(after.node, b.node) && OnItsWay(after, b) && OnItsWay(b, after)
  {
  }

  lemma DeliverJobs(a: End, m: Message, wanted: bool)
    requires CountsOk(a.node, a.limits, a.jobs) && |a.node.inbox.buffer| == WINDOW_MAX
    ensures JobsMove(a, Acted(a, Deliver(a.node, a.limits, m, wanted), []))
  {
    hide ReceiveWindow, NextRound, Full, BatchOf, FitsLimit, Cells;
    if a.node.mode.Sending? {
      var n := a.node;
      RoundOnly(n.(mode := n.mode.(pending := Missing(Full(|n.mode.pending|)), attempt := n.mode.attempt + 1)), a.limits);
      SenderMovesTurn(n, a.limits, m);
      SendingJobs(n, a.limits, m);
    } else if a.node.mode.Receiving? && m.Window? {
      WindowKeepsTurn(a.node.(mode := Receiving(0)), a.limits, m.sequence, m.cell, wanted);
    }
  }

  lemma SendingJobs(n: Node, limits: Limits, m: Message)
    requires n.mode.Sending?
    ensures Probe(n, limits).0.txSequence == n.txSequence && Probe(n, limits).0.turn == n.turn
    ensures m.WindowAck? ==>
              var after := TakeWindowAck(n, limits, m).0;
              && n.txSequence <= after.txSequence <= n.txSequence + 1
              && (after.turn != n.turn ==> after.txSequence == n.txSequence + 1)
  {
    hide RoundMessages;
  }

  lemma WindowKeepsTurn(n: Node, limits: Limits, sequence: nat, c: Cell, wanted: bool)
    requires n.mode.Receiving? && |n.inbox.buffer| == WINDOW_MAX
    ensures var after := ReceiveWindow(n, limits, sequence, c, wanted).0;
            after.turn == n.turn && after.txSequence == n.txSequence && !after.mode.Sending?
  {
    hide CellValid, InspectBatch, OpenInbox, StoreCell, CellCount, Full;
  }

  lemma TimeoutJobs(a: End)
    requires CountsOk(a.node, a.limits, a.jobs)
    ensures JobsMove(a, Acted(a, Timeout(a.node, a.limits), []))
    ensures Timeout(a.node, a.limits).0.turn == a.node.turn
  {
    hide Probe, Full, BatchOf, FitsLimit, Cells;
    if a.node.mode.Sending? {
      SendingJobs(a.node, a.limits, Turn(0));
    }
  }

  lemma TurnJobs(a: End, packets: seq<Packet>)
    requires AllValid(packets) && |packets| < 0x100
    ensures JobsMove(a, Acted(a, TakeTurn(a.node, a.limits, packets), packets))
    ensures TakeTurn(a.node, a.limits, packets).0.turn == a.node.turn
  {
    hide RoundMessages, Full, BatchBytes, CellCount;
  }

  ghost predicate AllKept(w: World) { Kept(w) && SafeToken(w) && Lanes(w) }

  lemma StepLeftKept(w: World, event: Event)
    requires AllKept(w)
    ensures AllKept(StepLeft(w, event))
  {
    hide Kept, SafeToken, Lane, TokenMove, WaitMove, GivenToAcceptor, JobsMove, Deliver, Timeout, TakeTurn, Acted;
    StepLeftSafe(w, event);
    StepLeftLanes(w, event);
    LaneParts(w.left, w.right);
    LaneParts(w.right, w.left);
    var n, limits := w.left.node, w.left.limits;
    match event
    case TurnAt(_, packets) =>
      if AllValid(packets) && |packets| < 0x100 {
        TurnMoves(n, limits, packets);
        TurnWaits(n, limits, packets);
        TurnJobs(w.left, packets);
        NotGiven(w.left, w.right, TakeTurn(n, limits, packets));
        TokenKept(w.left, w.right, TakeTurn(n, limits, packets), [], packets);
      }
    case DeliverTo(_, index, wanted) =>
      if index < |w.right.out| {
        var m := w.right.out[index];
        DeliverMoves(n, limits, m, wanted);
        DeliverWaits(n, limits, m, wanted);
        DeliverJobs(w.left, m, wanted);
        assert TokenOk(n, w.right.node) by { SafeMeans(w); }
        DeliverGives(w.left, w.right, index, wanted);
        TokenKept(w.left, w.right, Deliver(n, limits, m, wanted), [m], []);
      }
    case TimeoutAt(_) =>
      TimeoutMoves(n, limits);
      TimeoutWaits(n, limits);
      TimeoutJobs(w.left);
      NotGiven(w.left, w.right, Timeout(n, limits));
      TokenKept(w.left, w.right, Timeout(n, limits), [], []);
  }

  lemma SafeMeans(w: World)
    requires SafeToken(w)
    ensures TokenOk(w.left.node, w.right.node)
  {
  }

  lemma NotGiven(a: End, b: End, r: (Node, seq<Message>))
    requires r.0.turn == a.node.turn
    ensures GivenToAcceptor(a, b, r)
  {
  }

  lemma {:induction false} RunKept(w: World, events: seq<Event>)
    requires AllKept(w)
    ensures AllKept(Run(w, events))
  {
    hide StepLeft, Lanes, SafeToken, AcceptancesOk, OnItsWay, TokenOk;
    if events != [] {
      RunKept(w, events[..|events| - 1]);
      var before, event := Run(w, events[..|events| - 1]), events[|events| - 1];
      SwapKept(before);
      if event.atLeft {
        StepLeftKept(before, event);
      } else {
        StepLeftKept(Swap(before), event);
        SwapKept(StepLeft(Swap(before), event));
      }
    }
  }

  lemma SwapKept(w: World)
    requires AllKept(w)
    ensures AllKept(Swap(w))
  {
    hide Lane, AcceptancesOk, OnItsWay;
  }

  lemma StartKept(up: nat, down: nat, retries: nat, otherRetries: nat)
    ensures AllKept(Start(up, down, retries, otherRetries))
  {
    StartLanes(up, down, retries, otherRetries);
  }

  // ---------------------------------------------------------------------
  // The theorems
  // ---------------------------------------------------------------------

  ghost predicate Reachable(w: World) {
    exists up: nat, down: nat, retries: nat, other: nat, events: seq<Event> ::
      w == Run(Start(up, down, retries, other), events)
  }

  lemma ReachableKept(w: World)
    requires Reachable(w)
    ensures AllKept(w)
  {
    hide Run, AllKept;
    var up: nat, down: nat, retries: nat, other: nat, events: seq<Event> :| w == Run(Start(up, down, retries, other), events);
    StartKept(up, down, retries, other);
    RunKept(Start(up, down, retries, other), events);
  }

  /**
   In every run at most one end holds the token and the turn numbers differ by
   at most one; and while neither end has given up, the token is held, or its
   commit was sent and the other end waits for it.
   */
  lemma OneToken(w: World)
    requires Reachable(w)
    ensures var a, b := w.left.node, w.right.node;
            && !(HoldsToken(a) && HoldsToken(b))
            && a.turn <= b.turn + 1 && b.turn <= a.turn + 1
            && (!a.mode.Ended? && !b.mode.Ended? ==>
                  || HoldsToken(a) || HoldsToken(b)
                  || (Accepting(b) && Commit(b.turn) in w.left.out)
                  || (Accepting(a) && Commit(a.turn) in w.right.out))
  {
    hide Reachable, Lanes, AcceptancesOk;
    ReachableKept(w);
  }

  /**
   In every run the packets an end wrote are those of the windows the other end
   started, in order and each once; windows the sender has finished are written.
   */
  lemma WindowsArriveInOrder(w: World)
    requires Reachable(w)
    ensures w.left.node.txSequence <= w.right.node.inbox.sequence <= |w.left.jobs|
    ensures w.right.node.written == PacketsOf(w.left.jobs[..w.right.node.inbox.sequence])
    ensures w.right.node.txSequence <= w.left.node.inbox.sequence <= |w.right.jobs|
    ensures w.left.node.written == PacketsOf(w.right.jobs[..w.left.node.inbox.sequence])
  {
    hide Reachable, Kept, SafeToken, SendOk, AcksTrue;
    ReachableKept(w);
  }

  /** In every run no window message of the peer, however late or repeated, makes an end give up. */
  lemma NoWindowIsRefused(w: World, index: nat, wanted: bool)
    requires Reachable(w) && index < |w.right.out| && w.right.out[index].Window? && w.left.node.mode.Receiving?
    ensures |w.left.node.inbox.buffer| == WINDOW_MAX
    ensures var after := Deliver(w.left.node, w.left.limits, w.right.out[index], wanted).0;
            after.mode.Ended? ==> after.mode.status == ErrTimeout
  {
    hide Reachable, Kept, SafeToken, Lane, ReceiveWindow, FitsLimit, Fits;
    ReachableKept(w);
    LaneParts(w.right, w.left);
    var n, m := w.left.node, w.right.out[index];
    AwakeSame(n, w.right.jobs, w.left.limits.receive);
    WindowReceives(n.(mode := Receiving(0)), w.left.limits, w.right.jobs, m, wanted);
    ReceivesWindow(n, w.left.limits, m, wanted);
  }
}
