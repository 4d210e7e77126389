/** However the messages of a proxy session were lost, once they arrive again one end holds the token and the other listens. */
module ProxyRecovery {
  import opened Common
  import opened PacketTransport
  import opened ProxyWire
  import opened ProxyLink
  import opened ProxyWindows
  import opened ProxyRuns
  import opened ProxyDelivery
  import opened ProxyToken
  import opened ProxyNumbers
  import opened ProxyPairs
  import opened ProxyProgress

  /** One end holds the token and may start a window, and the other listens. */
  predicate Quiet(w: World) {
    (w.left.node.mode.Holding? && w.right.node.mode.Receiving?) || (w.right.node.mode.Holding? && w.left.node.mode.Receiving?)
  }

  /** The end has tries left for what it is doing. */
  predicate TriesLeft(e: End) {
    match e.node.mode
    case Sending(_, _, _, attempt) => attempt + 2 < e.limits.retries * ROUNDS_PER_RETRY
    case Yielding(attempt) => attempt + 1 < e.limits.retries
    case AcceptingTurn(attempt) => attempt + 1 < e.limits.retries
    case AcceptingWindow(_, _, _, attempt) => attempt + 1 < e.limits.retries
    case Ended(_) => false
    case _ => e.limits.retries > 0
  }

  // ---------------------------------------------------------------------
  // An offer that was accepted with a window
  // ---------------------------------------------------------------------

  /** The end marker of the window, heard again by the end that accepted its offer. */
  lemma MarkerAccepted(w: World, j: Job, c: Cell)
    requires PairOk(w) && w.left.node.mode.Sending? && w.right.node.mode.AcceptingWindow? && TriesLeft(w.right)
    requires w.left.node.txSequence < |w.left.jobs| && j == w.left.jobs[w.left.node.txSequence] && Packable(j)
    requires c == EndMarker(BatchOf(j), j.id, j.yielding, |w.left.node.mode.pending|)
    ensures |w.right.node.inbox.buffer| == WINDOW_MAX
    ensures var n := w.right.node;
            Deliver(n, w.right.limits, Window(w.left.node.txSequence, c), false) ==
            (n.(mode := n.mode.(attempt := n.mode.attempt + 1)),
             [WindowAck(w.left.node.txSequence, j.id, Full(|w.left.node.mode.pending|), true, true)])
    ensures w.left.node.mode.yielding
  {
    hide FitsLimit, Fits, Cells, BatchOf, Full, CellValid, OnItsWay, CellCount, AcceptancesOk, Said;
    LaneParts(w.left, w.right);
    LaneParts(w.right, w.left);
    MarkerFits(j, w.left.limits.transmit);
    FitsIsValid(j, w.left.limits.transmit, c);
    SendableLimit(j, w.left.limits.transmit);
  }

  lemma AcceptedWindow(w: World)
    requires PairOk(w) && w.left.node.mode.Sending? && w.right.node.mode.AcceptingWindow? && TriesLeft(w.left) && TriesLeft(w.right)
    ensures var v := HandedOver(Answered(Probed(w, false))); v.left.node.mode == Receiving(0) && v.right.node.mode == Holding
  {
    hide FitsLimit, Cells, BatchOf, Deliver, Timeout, Full, CellCount, OnItsWay, AcceptancesOk, Said, EndMarker, Reached, CellsTrue, DoneOk;
    LaneParts(w.left, w.right);
    LaneParts(w.right, w.left);
    var n, limits := w.left.node, w.left.limits;
    var j := w.left.jobs[n.txSequence];
    ProbeSent(n, limits, w.left.jobs);
    var c := EndMarker(BatchOf(j), j.id, j.yielding, |n.mode.pending|);
    MarkerAccepted(w, j, c);
    var u := Step(w, TimeoutAt(true));
    assert u.left.out == w.left.out + [Window(n.txSequence, c)];
    var p := Probed(w, false);
    CompletionHeard(p.left.node, limits, w.left.jobs, true);
    var q := Answered(p);
    assert q.left.out == p.left.out + [Commit(n.turn)];
    CommitTakes(q.right.node, w.right.limits);
  }

  // ---------------------------------------------------------------------
  // An explicit offer
  // ---------------------------------------------------------------------

  /** The holder offers again. */
  function OfferedAgain(w: World): World {
    HandedOver(Answered(LastHeard(Step(w, TimeoutAt(true)), false)))
  }

  lemma OfferHeard(n: Node, limits: Limits)
    requires |n.inbox.buffer| == WINDOW_MAX && limits.retries > 0
    requires n.mode.Receiving? || (n.mode.AcceptingTurn? && n.mode.attempt + 1 < limits.retries)
    ensures var r := Deliver(n, limits, Turn(n.turn), false);
            r.1 == [TurnAck(n.turn)] && r.0.mode.AcceptingTurn? && r.0 == n.(mode := r.0.mode)
  {
  }

  lemma OfferRepeated(n: Node, limits: Limits)
    requires n.mode.Yielding? && n.mode.attempt + 1 < limits.retries
    ensures Timeout(n, limits) == (n.(mode := Yielding(n.mode.attempt + 1)), [Turn(n.turn)])
  {
  }

  lemma OfferGetsThrough(w: World)
    requires PairOk(w) && w.left.node.mode.Yielding? && TriesLeft(w.left) && TriesLeft(w.right)
    requires w.right.node.mode.Receiving? || w.right.node.mode.AcceptingTurn?
    ensures var v := OfferedAgain(w); v.left.node.mode == Receiving(0) && v.right.node.mode == Holding
  {
    hide Deliver, Timeout, AcceptancesOk, OnItsWay, Orderly, Said;
    LaneParts(w.left, w.right);
    LaneParts(w.right, w.left);
    var t := w.left.node.turn;
    OfferRepeated(w.left.node, w.left.limits);
    var u := Step(w, TimeoutAt(true));
    assert u.left.out == w.left.out + [Turn(t)];
    OfferHeard(w.right.node, w.right.limits);
    var x := LastHeard(u, false);
    assert x.right.out == w.right.out + [TurnAck(t)];
    AcceptanceTaken(u.left.node, w.left.limits);
    var y := Answered(x);
    assert y.left.out == u.left.out + [Commit(t)];
    CommitTakes(y.right.node, w.right.limits);
  }

  // ---------------------------------------------------------------------
  // A commit that was lost
  // ---------------------------------------------------------------------

  /** The acceptor accepts again, and the commit is repeated. */
  function CommittedAgain(w: World): World {
    LastHeard(Answered(Step(w, TimeoutAt(false))), false)
  }

  /** The acceptance of an end that waits for its commit. */
  function Acceptance(n: Node): Message
    requires Accepting(n)
  {
    if n.mode.AcceptingTurn? then TurnAck(n.turn) else WindowAck(n.mode.sequence, n.mode.id, Full(n.mode.count), true, true)
  }

  lemma AcceptedAgain(n: Node, limits: Limits)
    requires Accepting(n) && n.mode.attempt + 1 < limits.retries
    ensures Timeout(n, limits) == (n.(mode := n.mode.(attempt := n.mode.attempt + 1)), [Acceptance(n)])
  {
    hide Full;
  }

  lemma CommitRepeated(a: Node, b: Node, limits: Limits)
    requires Paired(a, b) && !a.mode.Ended? && !b.mode.Ended? && a.turn == b.turn + 1 && |a.inbox.buffer| == WINDOW_MAX
    ensures Accepting(b) && Deliver(a, limits, Acceptance(b), false) == (a.(mode := Receiving(0)), [Commit(b.turn)])
  {
    hide Full;
  }

  lemma LostCommit(w: World)
    requires PairOk(w) && w.left.node.turn == w.right.node.turn + 1 && TriesLeft(w.left) && TriesLeft(w.right)
    ensures var v := CommittedAgain(w); v.left.node.mode == Receiving(0) && v.right.node.mode == Holding
  {
    hide Deliver, Timeout, AcceptancesOk, OnItsWay, Orderly, Said, Full;
    LaneParts(w.left, w.right);
    LaneParts(w.right, w.left);
    CommitRepeated(w.left.node, w.right.node, w.left.limits);
    AcceptedAgain(w.right.node, w.right.limits);
    var u := Step(w, TimeoutAt(false));
    assert u.right.out == w.right.out + [Acceptance(w.right.node)];
    var x := Answered(u);
    assert x.left.out == w.left.out + [Commit(w.right.node.turn)];
    CommitTakes(x.right.node, w.right.limits);
  }

  // ---------------------------------------------------------------------
  // The theorem
  // ---------------------------------------------------------------------

  /** What the ends do when messages arrive again, for the end that is to act first on the left. */
  function RecoveredLeft(w: World, wanted: bool): World {
    if w.left.node.mode.Sending? then
      if w.right.node.mode.Receiving? then Repaired(w, wanted) else HandedOver(Answered(Probed(w, false)))
    else if w.left.node.mode.Yielding? then OfferedAgain(w)
    else if w.left.node.turn == w.right.node.turn + 1 then CommittedAgain(w)
    else w
  }

  function Recovered(w: World, wanted: bool): World {
    if HoldsToken(w.left.node) || w.left.node.turn == w.right.node.turn + 1 then RecoveredLeft(w, wanted)
    else Swap(RecoveredLeft(Swap(w), wanted))
  }

  lemma LeftRecovers(w: World, wanted: bool)
    requires Seen(w) && PairOk(w) && TriesLeft(w.left) && TriesLeft(w.right)
    requires HoldsToken(w.left.node) || w.left.node.turn == w.right.node.turn + 1
    ensures Quiet(RecoveredLeft(w, wanted))
  {
    hide Seen, AcceptancesOk, Lane, Orderly, Said, Repaired, Answered, Probed, OfferedAgain, CommittedAgain, HandedOver;
    if w.left.node.mode.Sending? {
      if w.right.node.mode.Receiving? {
        WindowGetsThrough(w, wanted);
      } else {
        AcceptedWindow(w);
      }
    } else if w.left.node.mode.Yielding? {
      OfferGetsThrough(w);
    } else if w.left.node.turn == w.right.node.turn + 1 {
      LostCommit(w);
    }
  }

  /**
   In every run, wherever it stands and whatever was lost: while both ends have
   tries left, one probe, offer or acceptance, with the messages it leads to
   arriving, brings the session back to one end with the token and one that
   listens.
   */
  lemma Recovers(w: World, wanted: bool)
    requires Reachable(w) && TriesLeft(w.left) && TriesLeft(w.right)
    ensures Quiet(Recovered(w, wanted))
  {
    hide Reachable, AcceptancesOk, Lane, Orderly, Said, TriesLeft, RecoveredLeft;
    ReachablePairs(w);
    SwapPairs(w);
    NobodyEnded(w.left);
    NobodyEnded(w.right);
    assert Seen(w) && Seen(Swap(w));
    if HoldsToken(w.left.node) || w.left.node.turn == w.right.node.turn + 1 {
      LeftRecovers(w, wanted);
    } else {
      LeftRecovers(Swap(w), wanted);
    }
  }

  lemma NobodyEnded(e: End)
    requires TriesLeft(e)
    ensures !e.node.mode.Ended?
  {
  }

  // ---------------------------------------------------------------------
  // Silence
  // ---------------------------------------------------------------------

  /** The end after it heard nothing usable `count` times in a row. */
  function Silent(n: Node, limits: Limits, count: nat): Node {
    if count == 0 then n else Timeout(Silent(n, limits, count - 1), limits).0
  }

  /** How often an end that waits may hear nothing before it gives up. */
  function Allowance(limits: Limits): nat { limits.retries * ROUNDS_PER_RETRY + 2 }

  /** The times already used up. */
  function Used(n: Node, limits: Limits): nat {
    match n.mode
    case Sending(_, _, _, attempt) => attempt
    case Yielding(attempt) => attempt
    case Receiving(misses) => misses
    case AcceptingTurn(attempt) => attempt
    case AcceptingWindow(_, _, _, attempt) => attempt
    case _ => 0
  }

  /** An end that can send its window, or is not sending one. */
  predicate Able(n: Node, limits: Limits) { n.mode.Sending? ==> SendingOk(n, limits) }

  lemma TimeoutUses(n: Node, limits: Limits)
    requires !n.mode.Holding? && !n.mode.Ended? && Able(n, limits)
    ensures var after := Timeout(n, limits).0;
            && !after.mode.Holding? && Able(after, limits)
            && (after.mode.Ended? ==> after.mode.status == ErrTimeout)
            && (!after.mode.Ended? ==> Used(after, limits) == Used(n, limits) + 1)
            && (Used(n, limits) + 1 >= Allowance(limits) ==> after.mode.Ended?)
  {
    hide RoundMessages, CellCount;
  }

  /** An end that waits and hears nothing gives up with a timeout after its allowance, and for no other reason. */
  lemma {:induction false} SilenceEnds(n: Node, limits: Limits, count: nat)
    requires !n.mode.Holding? && !n.mode.Ended? && Able(n, limits)
    ensures var after := Silent(n, limits, count);
            && !after.mode.Holding? && Able(after, limits) && (after.mode.Ended? ==> after.mode.status == ErrTimeout)
            && (!after.mode.Ended? ==> Used(after, limits) == Used(n, limits) + count)
            && (Used(n, limits) + count >= Allowance(limits) && count > 0 ==> after.mode.Ended?)
  {
    hide Timeout, Used, Able;
    if count > 0 {
      SilenceEnds(n, limits, count - 1);
      var before := Silent(n, limits, count - 1);
      if !before.mode.Ended? {
        TimeoutUses(before, limits);
      } else {
        EndedStays(before, limits);
      }
    }
  }

  lemma EndedStays(n: Node, limits: Limits)
    requires n.mode.Ended?
    ensures Timeout(n, limits).0 == n
  {
  }
}
