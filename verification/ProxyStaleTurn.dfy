/** Exactly which messages of the peer make an end give up for another reason than silence. */
module ProxyStaleTurn {
  import opened Common
  import opened PacketTransport
  import opened ProxyWire
  import opened ProxyLink
  import opened ProxyWindows
  import opened ProxyRuns
  import opened ProxyDelivery
  import opened ProxyToken
  import opened ProxyNumbers

  // ---------------------------------------------------------------------
  // Giving up
  // ---------------------------------------------------------------------

  /** The end has given up, and not because it heard nothing usable for too long. */
  predicate Broken(n: Node) { n.mode.Ended? && n.mode.status != ErrTimeout }

  lemma SenderIsNotBroken(n: Node, limits: Limits, m: Message)
    requires n.mode.Sending? && m.WindowAck?
    ensures !Broken(TakeWindowAck(n, limits, m).0)
  {
    hide RoundMessages, SendingOk, Full, Missing;
  }

  /** The offer arrives at an end that waits, and names a turn that is over. */
  predicate StaleOffer(n: Node, m: Message) {
    n.mode.Receiving? && m.Turn? && m.turn < n.turn
  }

  /** A receiver never hears an offer of a turn to come. */
  lemma OffersAreNotAhead(w: World, m: Message)
    requires Reachable(w) && m in w.right.out && m.Turn? && w.left.node.mode.Receiving?
    ensures m.turn <= w.left.node.turn
  {
    hide Reachable, Lanes, AcceptancesOk;
    ReachableOrderly(w);
    assert Reached(w.right.node, m);
    ReachableKept(w);
    assert OnItsWay(w.right, w.left);
  }

  /**
   In every run a message of the peer, however late or repeated, breaks an end
   exactly when it is an offer of a turn that is over and the end waits for the peer.
   */
  lemma StaleOfferBreaksExactly(w: World, index: nat, wanted: bool)
    requires Reachable(w) && index < |w.right.out| && !w.left.node.mode.Ended?
    ensures |w.left.node.inbox.buffer| == WINDOW_MAX
    ensures Broken(Deliver(w.left.node, w.left.limits, w.right.out[index], wanted).0) <==>
            StaleOffer(w.left.node, w.right.out[index])
  {
    var n, m := w.left.node, w.right.out[index];
    assert |n.inbox.buffer| == WINDOW_MAX by {
      ReachableKept(w);
      LaneParts(w.right, w.left);
    }
    hide Reachable, TakeWindowAck, ReceiveWindow, CellValid, AsksForCommit, Full;
    if n.mode.Sending? && m.WindowAck? {
      SenderIsNotBroken(n, w.left.limits, m);
    }
    if n.mode.Receiving? && m.Window? {
      NoWindowIsRefused(w, index, wanted);
    }
    if n.mode.Receiving? && m.Turn? {
      OffersAreNotAhead(w, m);
    }
  }

  // ---------------------------------------------------------------------
  // A run in which it happens
  // ---------------------------------------------------------------------

  lemma RunMore(w: World, events: seq<Event>, event: Event)
    ensures Run(w, events + [event]) == Step(Run(w, events), event)
  {
    assert (events + [event])[..|events|] == events;
  }

  /** The left end offers the token, and the right end takes it. */
  const OVER: seq<Event> := [TurnAt(true, [])] + [DeliverTo(false, 0, true)] + [DeliverTo(true, 0, true)] +
                            [DeliverTo(false, 1, true)]

  /** The right end offers it back, and the left end accepts. */
  const BACK: seq<Event> := OVER + [TurnAt(false, [])] + [DeliverTo(true, 1, true)] + [DeliverTo(false, 2, true)]

  /** Then the first offer arrives a second time. */
  const STALE_RUN: seq<Event> := BACK + [DeliverTo(false, 0, true)]

  const FRESH: World := Start(128, 128, 5, 5)

  lemma OverRuns()
    ensures var w := Run(FRESH, OVER);
            && w.left == FRESH.left.(node := FRESH.left.node.(mode := Receiving(0), turn := 1,
                                       lastCommit := Some(LastCommit(0, false, 0, 0))), out := [Turn(0), Commit(0)])
            && w.right == FRESH.right.(node := FRESH.right.node.(mode := Holding, turn := 1), out := [TurnAck(0)])
  {
    hide NewNode;
    assert FRESH.left.node == NewNode(true) && FRESH.right.node == NewNode(false);
    NewParts();
    var a := [TurnAt(true, [])];
    RunMore(FRESH, [], TurnAt(true, []));
    RunMore(FRESH, a, DeliverTo(false, 0, true));
    RunMore(FRESH, a + [DeliverTo(false, 0, true)], DeliverTo(true, 0, true));
    RunMore(FRESH, a + [DeliverTo(false, 0, true)] + [DeliverTo(true, 0, true)], DeliverTo(false, 1, true));
  }

  lemma NewParts()
    ensures NewNode(true).mode == Holding && NewNode(false).mode == Receiving(0)
    ensures forall holds :: NewNode(holds).turn == 0 && NewNode(holds).lastCommit == None
    ensures forall holds :: |NewNode(holds).inbox.buffer| == WINDOW_MAX
  {
  }

  lemma BackRuns()
    ensures var w, over := Run(FRESH, BACK), Run(FRESH, OVER);
            && w.left == over.left.(node := over.left.node.(mode := AcceptingTurn(0)), out := [Turn(0), Commit(0), TurnAck(1)])
            && w.right == over.right.(node := over.right.node.(mode := Receiving(0), turn := 2,
                                        lastCommit := Some(LastCommit(1, false, 0, 0))), out := [TurnAck(0), Turn(1), Commit(1)])
  {
    hide NewNode;
    NewParts();
    OverRuns();
    var over := OVER;
    RunMore(FRESH, over, TurnAt(false, []));
    RunMore(FRESH, over + [TurnAt(false, [])], DeliverTo(true, 1, true));
    RunMore(FRESH, over + [TurnAt(false, [])] + [DeliverTo(true, 1, true)], DeliverTo(false, 2, true));
  }

  /** In this run nobody gives up before, and the second arrival of the offer ends the session with a header error. */
  lemma StaleOfferBreaks()
    ensures var w := Run(FRESH, BACK); Reachable(w) && !w.left.node.mode.Ended? && !w.right.node.mode.Ended?
    ensures Run(FRESH, STALE_RUN).right.node.mode == Ended(ErrHeader)
  {
    hide NewNode;
    NewParts();
    OverRuns();
    BackRuns();
    RunMore(FRESH, BACK, DeliverTo(false, 0, true));
  }
}
