/**
 Two proxy ends over a channel that loses, repeats and reorders messages: the
 token is never in two hands, and windows are written whole, once and in order.
 */
module ProxyRuns {
  import opened Bytes
  import opened Common
  import opened PacketTransport
  import opened ProxyWire
  import opened ProxyLink
  import opened ProxyWindows

  /** One end with what it did: the windows it started and every message it ever sent. */
  datatype End = End(node: Node, limits: Limits, jobs: seq<Job>, out: seq<Message>)

  datatype World = World(left: End, right: End)

  /** A delivery takes any message ever sent by the other end. */
  datatype Event =
    | TurnAt(atLeft: bool, packets: seq<Packet>)
    | DeliverTo(atLeft: bool, index: nat, wanted: bool)
    | TimeoutAt(atLeft: bool)

  function Swap(w: World): World { World(w.right, w.left) }

  /** The end after an action; a window that was begun goes to its history. */
  function Acted(e: End, r: (Node, seq<Message>), packets: seq<Packet>): End {
    e.(node := r.0, out := e.out + r.1,
       jobs := if r.0.mode.Sending? && !e.node.mode.Sending? then e.jobs + [Job(r.0.batchId, r.0.mode.yielding, packets)] else e.jobs)
  }

  function ActLeft(w: World, event: Event): End {
    match event
    case TurnAt(_, packets) =>
      if AllValid(packets) && |packets| < 0x100 then Acted(w.left, TakeTurn(w.left.node, w.left.limits, packets), packets)
      else w.left
    case DeliverTo(_, index, wanted) =>
      if index < |w.right.out| && |w.left.node.inbox.buffer| == WINDOW_MAX then
        Acted(w.left, Deliver(w.left.node, w.left.limits, w.right.out[index], wanted), [])
      else w.left
    case TimeoutAt(_) => Acted(w.left, Timeout(w.left.node, w.left.limits), [])
  }

  function StepLeft(w: World, event: Event): World { w.(left := ActLeft(w, event)) }

  function Step(w: World, event: Event): World {
    if event.atLeft then StepLeft(w, event) else Swap(StepLeft(Swap(w), event))
  }

  function Run(w: World, events: seq<Event>): World {
    if events == [] then w else Step(Run(w, events[..|events| - 1]), events[|events| - 1])
  }

  /** The client holds the token at first; each end transmits within the limit the other receives with. */
  function Start(up: nat, down: nat, retries: nat, otherRetries: nat): World {
    World(End(NewNode(true), Limits(up, down, retries), [], []),
          End(NewNode(false), Limits(down, up, otherRetries), [], []))
  }

  // ---------------------------------------------------------------------
  // The token
  // ---------------------------------------------------------------------

  ghost predicate CommitsPast(e: End) {
    && (forall m <- e.out :: m.Commit? ==> m.turn < e.node.turn)
    && (e.node.lastCommit.Some? ==> e.node.lastCommit.value.turn < e.node.turn)
  }

  /** The turn numbers agree while someone holds the token and differ by one while it is handed over. */
  predicate TokenOk(a: Node, b: Node) {
    && a.turn <= b.turn + 1 && b.turn <= a.turn + 1
    && !(HoldsToken(a) && HoldsToken(b))
    && (a.turn != b.turn ==> !HoldsToken(a) && !HoldsToken(b))
  }

  ghost predicate SafeToken(w: World) {
    TokenOk(w.left.node, w.right.node) && CommitsPast(w.left) && CommitsPast(w.right)
  }

  /** What an action may do to the token of one end. */
  predicate TokenMove(before: Node, after: Node, out: seq<Message>, heard: seq<Message>) {
    || // nothing: the same hands, and only commits of the past are repeated
       (&& after.turn == before.turn && (HoldsToken(after) ==> HoldsToken(before))
        && after.lastCommit == before.lastCommit
        && forall m <- out :: m.Commit? ==> before.lastCommit.Some? && m.turn == before.lastCommit.value.turn)
    || // giving it away
       (&& HoldsToken(before) && !HoldsToken(after) && after.turn == before.turn + 1 && out == [Commit(before.turn)]
        && after.lastCommit.Some? && after.lastCommit.value.turn == before.turn)
    || // taking it over
       (&& Accepting(before) && after.mode.Holding? && after.turn == before.turn + 1 && out == []
        && after.lastCommit == before.lastCommit && Commit(before.turn) in heard)
  }

  lemma SenderMoves(n: Node, limits: Limits, m: Message)
    requires n.mode.Sending?
    ensures var r := NextRound(n, limits); TokenMove(n, r.0, r.1, [m])
    ensures var r := Probe(n, limits); TokenMove(n, r.0, r.1, [m])
    ensures m.WindowAck? ==> var r := TakeWindowAck(n, limits, m); TokenMove(n, r.0, r.1, [m])
  {
    hide Full, Missing, RoundMessages;
    RoundIsWindows(n, limits);
    RoundIsWindows(n.(mode := n.mode.(pending := Missing(Full(|n.mode.pending|)), attempt := n.mode.attempt + 1)), limits);
    if m.WindowAck? {
      RoundIsWindows(n.(mode := n.mode.(pending := Missing(m.bitmap), attempt := n.mode.attempt + 1)), limits);
    }
  }

  lemma RoundIsWindows(n: Node, limits: Limits)
    requires n.mode.Sending?
    ensures forall m <- NextRound(n, limits).1 :: m.Window?
    ensures NextRound(n, limits).0 == n || NextRound(n, limits).0 == n.(mode := Ended(ErrTimeout))
  {
    if SendingOk(n, limits) {
      CellsAreWindows(n.txSequence, n.mode.batch, n.batchId, n.mode.yielding, limits.transmit - WINDOW_HEADER, n.mode.pending, 0);
    }
  }

  lemma {:induction false} CellsAreWindows(sequence: nat, batch: seq<byte>, id: uint32, yielding: bool, capacity: nat, pending: seq<bool>, index: nat)
    requires index <= |pending| && Covers(batch, capacity, |pending|)
    ensures forall m <- PendingCells(sequence, batch, id, yielding, capacity, pending, index) :: m.Window?
    decreases |pending| - index
  {
    if index < |pending| {
      CellsAreWindows(sequence, batch, id, yielding, capacity, pending, index + 1);
    }
  }

  lemma ReceiverMoves(n: Node, limits: Limits, m: Message, wanted: bool)
    requires n.mode.Receiving? && |n.inbox.buffer| == WINDOW_MAX
    ensures var r := ReceiveAny(n, limits, m, wanted); TokenMove(n, r.0, r.1, [m])
  {
    hide CellValid, InspectBatch, OpenInbox, StoreCell, CellCount, Full;
  }

  lemma DeliverMoves(n: Node, limits: Limits, m: Message, wanted: bool)
    requires |n.inbox.buffer| == WINDOW_MAX
    ensures var r := Deliver(n, limits, m, wanted); TokenMove(n, r.0, r.1, [m])
  {
    hide ReceiveAny, TakeWindowAck, CellValid, Full;
    match n.mode
    case Sending(_, _, _, _) => SenderMoves(n, limits, m);
    case Receiving(_) => ReceiverMoves(n, limits, m, wanted);
    case _ =>
  }

  lemma TimeoutMoves(n: Node, limits: Limits)
    ensures var r := Timeout(n, limits); TokenMove(n, r.0, r.1, [])
  {
    hide Probe, Full;
    if n.mode.Sending? {
      SenderMoves(n, limits, Turn(0));
      var r := Probe(n, limits);
      assert TokenMove(n, r.0, r.1, [Turn(0)]);
    }
  }

  lemma TurnMoves(n: Node, limits: Limits, packets: seq<Packet>)
    requires AllValid(packets) && |packets| < 0x100
    ensures var r := TakeTurn(n, limits, packets); TokenMove(n, r.0, r.1, [])
  {
    hide NextRound, Full, BatchBytes, CellCount;
    if n.mode.Holding? && packets != [] {
      var id := (n.batchId + 1) % TWO_32;
      var batch := BatchBytes(id, true, packets);
      if limits.transmit > WINDOW_HEADER {
        var count := CellCount(|batch|, limits.transmit - WINDOW_HEADER);
        RoundIsWindows(n.(batchId := id, mode := Sending(batch, true, Full(count), 0)), limits);
      }
    }
  }

  lemma TokenSteps(a: End, b: End, r: (Node, seq<Message>), heard: seq<Message>, packets: seq<Packet>)
    requires SafeToken(World(a, b)) && TokenMove(a.node, r.0, r.1, heard)
    requires forall m <- heard :: m in b.out
    ensures SafeToken(World(Acted(a, r, packets), b))
  {
    hide HoldsToken;
    if Accepting(a.node) {
      assert !HoldsToken(a.node) by { AcceptorsDoNotHold(a.node); }
    }
  }

  lemma AcceptorsDoNotHold(n: Node)
    requires Accepting(n)
    ensures !HoldsToken(n)
  {
  }

  lemma StepLeftSafe(w: World, event: Event)
    requires SafeToken(w)
    ensures SafeToken(StepLeft(w, event))
  {
    hide SafeToken, TokenMove, Deliver, Timeout, TakeTurn, Acted;
    var n, limits := w.left.node, w.left.limits;
    match event
    case TurnAt(_, packets) =>
      if AllValid(packets) && |packets| < 0x100 {
        TurnMoves(n, limits, packets);
        TokenSteps(w.left, w.right, TakeTurn(n, limits, packets), [], packets);
      }
    case DeliverTo(_, index, wanted) =>
      if index < |w.right.out| && |n.inbox.buffer| == WINDOW_MAX {
        DeliverMoves(n, limits, w.right.out[index], wanted);
        TokenSteps(w.left, w.right, Deliver(n, limits, w.right.out[index], wanted), [w.right.out[index]], []);
      }
    case TimeoutAt(_) =>
      TimeoutMoves(n, limits);
      TokenSteps(w.left, w.right, Timeout(n, limits), [], []);
  }

  lemma {:induction false} RunSafe(w: World, events: seq<Event>)
    requires SafeToken(w)
    ensures SafeToken(Run(w, events))
  {
    hide StepLeft;
    if events != [] {
      RunSafe(w, events[..|events| - 1]);
      var before, event := Run(w, events[..|events| - 1]), events[|events| - 1];
      if event.atLeft { StepLeftSafe(before, event); } else { StepLeftSafe(Swap(before), event); }
    }
  }
}
