/**
 The turn and window numbers of the source have sixteen bits.  An end that
 keeps only those behaves like one with unbounded numbers as long as no message
 arrives 65536 turns or windows late; after that two ends may hold the token.
 */
module ProxyWrap {
  import opened Bytes
  import opened Common
  import opened PacketTransport
  import opened ProxyWire
  import opened ProxyLink
  import opened ProxyWindows
  import opened ProxyRuns
  import opened ProxyDelivery
  import opened ProxyToken
  import opened ProxyNumbers

  const WRAP := 0x1_0000

  function Narrow(k: nat): (r: nat)
    ensures r < WRAP
  {
    k % WRAP
  }

  lemma NarrowFacts(k: nat)
    ensures Narrow(Narrow(k)) == Narrow(k) && Narrow(Narrow(k) + 1) == Narrow(k + 1)
  {
  }

  /** Numbers less than a whole round apart are told apart. */
  lemma NearIsSame(a: nat, b: nat)
    requires a < b + WRAP && b < a + WRAP
    ensures Narrow(a) == Narrow(b) <==> a == b
  {
  }

  // ---------------------------------------------------------------------
  // What sixteen bits keep
  // ---------------------------------------------------------------------

  function NarrowMessage(m: Message): Message {
    match m
    case Window(sequence, cell) => Window(Narrow(sequence), cell)
    case WindowAck(sequence, id, bitmap, complete, yielding) => WindowAck(Narrow(sequence), id, bitmap, complete, yielding)
    case Turn(turn) => Turn(Narrow(turn))
    case TurnAck(turn) => TurnAck(Narrow(turn))
    case Commit(turn) => Commit(Narrow(turn))
  }

  function NarrowAll(out: seq<Message>): (r: seq<Message>)
    ensures |r| == |out|
  {
    seq(|out|, i requires 0 <= i < |out| => NarrowMessage(out[i]))
  }

  function NarrowMode(mode: Mode): Mode {
    if mode.AcceptingWindow? then mode.(sequence := Narrow(mode.sequence)) else mode
  }

  function NarrowNode(n: Node): Node {
    n.(mode := NarrowMode(n.mode), turn := Narrow(n.turn), txSequence := Narrow(n.txSequence),
       inbox := n.inbox.(sequence := Narrow(n.inbox.sequence)),
       lastCommit := if n.lastCommit.None? then None else
         Some(n.lastCommit.value.(turn := Narrow(n.lastCommit.value.turn), sequence := Narrow(n.lastCommit.value.sequence))),
       lastDone := if n.lastDone.None? then None else
         Some(n.lastDone.value.(sequence := Narrow(n.lastDone.value.sequence))))
  }

  /** The result of an action in an end with sixteen-bit fields. */
  function Stored(r: (Node, seq<Message>)): (Node, seq<Message>) {
    (NarrowNode(r.0), NarrowAll(r.1))
  }

  /** Both actions come to the same once their numbers are cut to sixteen bits. */
  predicate Alike(r: (Node, seq<Message>), s: (Node, seq<Message>)) {
    Stored(r) == Stored(s)
  }

  lemma NarrowTwice(n: Node, out: seq<Message>)
    ensures NarrowNode(NarrowNode(n)) == NarrowNode(n)
    ensures NarrowAll(NarrowAll(out)) == NarrowAll(out)
  {
  }

  /** The message is less than 65536 turns or windows late. */
  predicate Recent(n: Node, m: Message) {
    Counter(n, m) < Number(m) + WRAP
  }

  // ---------------------------------------------------------------------
  // One action
  // ---------------------------------------------------------------------

  lemma {:induction false} PendingNarrow(sequence: nat, batch: seq<byte>, id: uint32, yielding: bool, capacity: nat, pending: seq<bool>, index: nat)
    requires index <= |pending| && Covers(batch, capacity, |pending|)
    ensures NarrowAll(PendingCells(Narrow(sequence), batch, id, yielding, capacity, pending, index)) ==
            NarrowAll(PendingCells(sequence, batch, id, yielding, capacity, pending, index))
    decreases |pending| - index
  {
    hide Narrow;
    NarrowFacts(sequence);
    if index < |pending| {
      PendingNarrow(sequence, batch, id, yielding, capacity, pending, index + 1);
      var short, long := PendingCells(Narrow(sequence), batch, id, yielding, capacity, pending, index + 1),
                         PendingCells(sequence, batch, id, yielding, capacity, pending, index + 1);
      assert |short| == |long| by { assert |NarrowAll(short)| == |NarrowAll(long)|; }
      if pending[index] {
        var c := CellAt(batch, id, yielding, capacity, |pending|, index, long == []);
        HeadNarrow(Window(Narrow(sequence), c), Window(sequence, c), short, long);
      }
    }
  }

  lemma HeadNarrow(a: Message, b: Message, short: seq<Message>, long: seq<Message>)
    requires NarrowMessage(a) == NarrowMessage(b) && NarrowAll(short) == NarrowAll(long)
    ensures NarrowAll([a] + short) == NarrowAll([b] + long)
  {
    assert NarrowAll([a] + short) == [NarrowMessage(a)] + NarrowAll(short);
    assert NarrowAll([b] + long) == [NarrowMessage(b)] + NarrowAll(long);
  }

  lemma OneNarrow(a: Message, b: Message)
    requires NarrowMessage(a) == NarrowMessage(b)
    ensures NarrowAll([a]) == NarrowAll([b])
  {
  }

  lemma TurnsNarrow(t: nat)
    ensures NarrowAll([Turn(Narrow(t))]) == NarrowAll([Turn(t)])
    ensures NarrowAll([TurnAck(Narrow(t))]) == NarrowAll([TurnAck(t)])
    ensures NarrowAll([Commit(Narrow(t))]) == NarrowAll([Commit(t)])
  {
    hide Narrow;
    NarrowFacts(t);
    OneNarrow(Turn(Narrow(t)), Turn(t));
    OneNarrow(TurnAck(Narrow(t)), TurnAck(t));
    OneNarrow(Commit(Narrow(t)), Commit(t));
  }

  lemma AcksNarrow(sequence: nat, id: uint32, bitmap: seq<bool>, complete: bool, yielding: bool)
    ensures NarrowAll([WindowAck(Narrow(sequence), id, bitmap, complete, yielding)]) ==
            NarrowAll([WindowAck(sequence, id, bitmap, complete, yielding)])
  {
    hide Narrow;
    NarrowFacts(sequence);
    OneNarrow(WindowAck(Narrow(sequence), id, bitmap, complete, yielding), WindowAck(sequence, id, bitmap, complete, yielding));
  }

  lemma AcceptNarrow(n: Node, short: Node, limits: Limits, sequence: nat, id: uint32, count: nat, attempt: nat)
    requires NarrowNode(short) == NarrowNode(n)
    ensures Alike(AcceptWindow(short, limits, Narrow(sequence), id, count, attempt), AcceptWindow(n, limits, sequence, id, count, attempt))
  {
    hide Narrow, Full, NarrowAll;
    NarrowFacts(sequence);
    AcksNarrow(sequence, id, Full(count), true, true);
  }

  lemma AcceptTurnNarrow(n: Node, limits: Limits, attempt: nat)
    ensures Alike(AcceptTurn(NarrowNode(n), limits, attempt), AcceptTurn(n, limits, attempt))
  {
    hide Narrow, NarrowAll;
    NarrowTwice(n, []);
    TurnsNarrow(n.turn);
  }

  lemma OfferNarrow(n: Node, limits: Limits, attempt: nat)
    ensures Alike(OfferTurn(NarrowNode(n), limits, attempt), OfferTurn(n, limits, attempt))
  {
    hide Narrow, NarrowAll;
    NarrowTwice(n, []);
    TurnsNarrow(n.turn);
  }

  lemma RoundNarrow(n: Node, limits: Limits)
    ensures Alike(NextRound(NarrowNode(n), limits), NextRound(n, limits))
  {
    hide Narrow, PendingCells;
    NarrowTwice(n, []);
    NarrowFacts(n.txSequence);
    if SendingOk(n, limits) {
      var capacity := limits.transmit - WINDOW_HEADER;
      PendingNarrow(n.txSequence, n.mode.batch, n.batchId, n.mode.yielding, capacity, n.mode.pending, 0);
      var marker := EndMarker(n.mode.batch, n.batchId, n.mode.yielding, |n.mode.pending|);
      OneNarrow(Window(Narrow(n.txSequence), marker), Window(n.txSequence, marker));
      assert |NarrowAll(PendingCells(Narrow(n.txSequence), n.mode.batch, n.batchId, n.mode.yielding, capacity, n.mode.pending, 0))|
          == |NarrowAll(PendingCells(n.txSequence, n.mode.batch, n.batchId, n.mode.yielding, capacity, n.mode.pending, 0))|;
    }
  }

  lemma CommitNarrow(n: Node, piggybacked: bool, sequence: nat, id: uint32)
    ensures Alike(CommitToken(NarrowNode(n), piggybacked, Narrow(sequence), id), CommitToken(n, piggybacked, sequence, id))
  {
    hide Narrow;
    NarrowTwice(n, []);
    NarrowFacts(n.turn);
    NarrowFacts(sequence);
    OneNarrow(Commit(Narrow(n.turn)), Commit(n.turn));
  }

  lemma ProbeNarrow(n: Node, limits: Limits)
    requires n.mode.Sending?
    ensures Alike(Probe(NarrowNode(n), limits), Probe(n, limits))
  {
    hide Narrow, NextRound;
    RoundNarrow(n.(mode := n.mode.(pending := Missing(Full(|n.mode.pending|)), attempt := n.mode.attempt + 1)), limits);
  }

  lemma AckNarrow(n: Node, limits: Limits, m: Message)
    requires n.mode.Sending? && m.WindowAck?
    ensures Alike(TakeWindowAck(NarrowNode(n), limits, NarrowMessage(m)), TakeWindowAck(n, limits, m))
  {
    hide Narrow, NextRound, CommitToken, Probe, Full, Missing;
    ProbeNarrow(n, limits);
    RoundNarrow(n.(mode := n.mode.(pending := Missing(m.bitmap), attempt := n.mode.attempt + 1)), limits);
    FinishNarrow(n);
  }

  lemma FinishNarrow(n: Node)
    ensures var short, long := NarrowNode(n), n;
            && NarrowNode(short.(txSequence := short.txSequence + 1)) == NarrowNode(long.(txSequence := long.txSequence + 1))
            && Alike(CommitToken(short.(txSequence := short.txSequence + 1), true, short.txSequence, short.batchId),
                     CommitToken(long.(txSequence := long.txSequence + 1), true, long.txSequence, long.batchId))
  {
    hide Narrow;
    NarrowTwice(n, []);
    NarrowFacts(n.turn);
    NarrowFacts(n.txSequence);
    OneNarrow(Commit(Narrow(n.turn)), Commit(n.turn));
  }

  lemma TurnNarrow(n: Node, limits: Limits, packets: seq<Packet>)
    requires AllValid(packets) && |packets| < 0x100
    ensures Alike(TakeTurn(NarrowNode(n), limits, packets), TakeTurn(n, limits, packets))
  {
    hide Narrow, NarrowAll, NextRound, OfferTurn, BatchBytes, CellCount, Full;
    NarrowTwice(n, []);
    OfferNarrow(n, limits, 0);
    if n.mode.Holding? && packets != [] {
      var id := (n.batchId + 1) % TWO_32;
      var batch := BatchBytes(id, true, packets);
      if limits.transmit > WINDOW_HEADER {
        RoundNarrow(n.(batchId := id, mode := Sending(batch, true, Full(CellCount(|batch|, limits.transmit - WINDOW_HEADER)), 0)), limits);
      }
    }
  }

  lemma TimeoutNarrow(n: Node, limits: Limits)
    ensures Alike(Timeout(NarrowNode(n), limits), Timeout(n, limits))
  {
    hide Narrow, NarrowAll, Probe, OfferTurn, AcceptTurn, AcceptWindow;
    NarrowTwice(n, []);
    match n.mode
    case Sending(_, _, _, _) => ProbeNarrow(n, limits);
    case Yielding(attempt) => OfferNarrow(n, limits, attempt + 1);
    case AcceptingTurn(attempt) => AcceptTurnNarrow(n, limits, attempt + 1);
    case AcceptingWindow(sequence, id, count, attempt) =>
      AcceptNarrow(n, NarrowNode(n), limits, sequence, id, count, attempt + 1);
    case _ =>
  }

  lemma FinishedNarrow(n: Node, limits: Limits, sequence: nat, c: Cell, wanted: bool)
    requires n.inbox.total <= |n.inbox.buffer|
    ensures Alike(FinishWindow(NarrowNode(n), limits, Narrow(sequence), c, wanted), FinishWindow(n, limits, sequence, c, wanted))
  {
    hide Narrow, InspectBatch, Full, AcceptWindow;
    NarrowTwice(n, []);
    NarrowFacts(sequence);
    NarrowFacts(n.inbox.sequence);
    AcksNarrow(sequence, c.id, Full(c.count), true, false);
    var batch := InspectBatch(n.inbox.buffer[..n.inbox.total]);
    if batch.Some? && batch.value.id == c.id && batch.value.yielding == c.yielding && c.yielding && wanted {
      AcceptNarrow(Finished(n, batch.value, sequence, c), Finished(NarrowNode(n), batch.value, Narrow(sequence), c),
                   limits, sequence, c.id, c.count, 0);
    }
  }

  /** The end after a window that was accepted with its offer. */
  function Finished(n: Node, batch: Batch, sequence: nat, c: Cell): Node {
    n.(written := n.written + batch.packets,
       inbox := n.inbox.(sequence := n.inbox.sequence + 1, total := 0, count := 0, bitmap := [], yielding := false),
       lastDone := Some(Done(c.id, sequence, c.count, c.yielding, true)))
  }

  function Cut(inbox: Inbox): Inbox {
    inbox.(sequence := Narrow(inbox.sequence))
  }

  /** Collecting cells does not look at the number of the window. */
  lemma CollectNarrow(inbox: Inbox, c: Cell, capacity: nat)
    requires CellValid(c) && |inbox.buffer| == WINDOW_MAX
    ensures var open, short := OpenInbox(inbox, c), OpenInbox(Cut(inbox), c);
            && short == (if open.None? then None else Some(Cut(open.value)))
            && (open.Some? ==>
                  && |open.value.buffer| == WINDOW_MAX
                  && var kept := StoreCell(open.value, c, capacity);
                     StoreCell(Cut(open.value), c, capacity) == (if kept.None? then None else Some(Cut(kept.value))))
  {
    hide Narrow, CellValid, Spliced, CellStart, CellEnd;
  }

  lemma InboxNarrow(n: Node, inbox: Inbox)
    ensures NarrowNode(n).(inbox := Cut(inbox)) == NarrowNode(n.(inbox := inbox))
  {
  }

  /** A cell of the window under way. */
  lemma CellNarrow(n: Node, limits: Limits, sequence: nat, c: Cell, wanted: bool)
    requires CellValid(c) && limits.receive > WINDOW_HEADER && |n.inbox.buffer| == WINDOW_MAX
    ensures Alike(TakeCell(NarrowNode(n), limits, Narrow(sequence), c, wanted), TakeCell(n, limits, sequence, c, wanted))
  {
    hide Narrow, CellValid, FinishWindow, Full, OpenInbox, StoreCell, NarrowNode, NarrowAll, Cut;
    var capacity := limits.receive - WINDOW_HEADER;
    CollectNarrow(n.inbox, c, capacity);
    assert NarrowNode(n).inbox == Cut(n.inbox) && NarrowNode(n).mode == NarrowMode(n.mode) by { NodeParts(n); }
    NarrowTwice(n, []);
    NarrowFails(n);
    var open := OpenInbox(n.inbox, c);
    if open.Some? {
      InboxNarrow(n, open.value);
      NarrowFails(n.(inbox := open.value));
      var kept := StoreCell(open.value, c, capacity);
      if kept.Some? {
        InboxNarrow(n, kept.value);
        CutParts(kept.value);
        var stored := n.(inbox := kept.value);
        NarrowTwice(stored, []);
        NarrowFails(stored);
        AcksNarrow(sequence, c.id, kept.value.bitmap, false, false);
        if kept.value.total <= |kept.value.buffer| {
          FinishedNarrow(stored, limits, sequence, c, wanted);
        }
      }
    }
  }

  lemma NodeParts(n: Node)
    ensures NarrowNode(n).inbox == Cut(n.inbox) && NarrowNode(n).mode == NarrowMode(n.mode)
    ensures NarrowNode(n).turn == Narrow(n.turn) && NarrowNode(n).txSequence == Narrow(n.txSequence)
  {
  }

  lemma CutParts(inbox: Inbox)
    ensures Cut(inbox).bitmap == inbox.bitmap && Cut(inbox).total == inbox.total && Cut(inbox).buffer == inbox.buffer
  {
  }

  lemma NarrowFails(n: Node)
    ensures Alike(Fail(NarrowNode(n), ErrHeader), Fail(n, ErrHeader))
  {
    hide Narrow;
    NarrowTwice(n, []);
  }

  lemma WindowNarrow(n: Node, limits: Limits, sequence: nat, c: Cell, wanted: bool)
    requires |n.inbox.buffer| == WINDOW_MAX && Aligned(n) && Recent(n, Window(sequence, c)) && NotAhead(n, Window(sequence, c))
    ensures Alike(ReceiveWindow(NarrowNode(n), limits, Narrow(sequence), c, wanted), ReceiveWindow(n, limits, sequence, c, wanted))
  {
    hide Narrow, NarrowAll, TakeCell, CellValid, CellCount, Full;
    NarrowTwice(n, []);
    NarrowFacts(sequence);
    NearIsSame(sequence, n.inbox.sequence);
    if n.lastDone.Some? {
      NearIsSame(sequence, n.lastDone.value.sequence);
      var accepted := n.lastDone.value.yieldAccepted;
      AcksNarrow(sequence, c.id, Full(c.count), true, accepted);
    }
    if limits.receive > WINDOW_HEADER && CellValid(c) {
      CellNarrow(n, limits, sequence, c, wanted);
    }
  }

  lemma AnyNarrow(n: Node, limits: Limits, m: Message, wanted: bool)
    requires |n.inbox.buffer| == WINDOW_MAX && n.mode.Receiving? && Aligned(n) && Recent(n, m) && NotAhead(n, m)
    ensures Alike(ReceiveAny(NarrowNode(n), limits, NarrowMessage(m), wanted), ReceiveAny(n, limits, m, wanted))
  {
    hide Narrow, NarrowAll, ReceiveWindow, AcceptTurn;
    NarrowTwice(n, []);
    NearIsSame(Number(m), Counter(n, m));
    AcceptTurnNarrow(n.(mode := Receiving(0)), limits, 0);
    if n.lastCommit.Some? {
      var last := n.lastCommit.value;
      TurnsNarrow(last.turn);
      if m.TurnAck? { NearIsSame(m.turn, last.turn); }
      if m.WindowAck? && last.piggybacked { NearIsSame(m.sequence, last.sequence); }
    }
    if m.Window? {
      WindowNarrow(n.(mode := Receiving(0)), limits, m.sequence, m.cell, wanted);
    }
  }

  /** The commit that an accepting end waits for. */
  lemma CommitHeard(n: Node)
    ensures var taken := NarrowNode(n).(mode := Holding, turn := NarrowNode(n).turn + 1);
            NarrowNode(taken) == NarrowNode(n.(mode := Holding, turn := n.turn + 1))
  {
    hide Narrow;
    NarrowTwice(n, []);
    NarrowFacts(n.turn);
  }

  lemma AcceptorNarrow(n: Node, limits: Limits, m: Message, wanted: bool)
    requires |n.inbox.buffer| == WINDOW_MAX && Accepting(n) && Aligned(n) && Recent(n, m) && NotAhead(n, m)
    ensures Alike(Deliver(NarrowNode(n), limits, NarrowMessage(m), wanted), Deliver(n, limits, m, wanted))
  {
    hide Narrow, NarrowNode, NarrowAll, AcceptTurn, AcceptWindow, CellValid;
    NodeParts(n);
    NarrowTwice(n, []);
    NearIsSame(Number(m), Counter(n, m));
    CommitHeard(n);
    match n.mode
    case AcceptingTurn(attempt) => AcceptTurnNarrow(n, limits, attempt + 1);
    case AcceptingWindow(sequence, id, count, attempt) =>
      AcceptNarrow(n, NarrowNode(n), limits, sequence, id, count, attempt + 1);
      if m.Window? { NearIsSame(m.sequence, sequence); }
  }

  /** An end with sixteen-bit numbers takes a message that is not too late as the end with unbounded numbers does. */
  lemma DeliverNarrow(n: Node, limits: Limits, m: Message, wanted: bool)
    requires |n.inbox.buffer| == WINDOW_MAX && Aligned(n) && Recent(n, m) && NotAhead(n, m)
    ensures Alike(Deliver(NarrowNode(n), limits, NarrowMessage(m), wanted), Deliver(n, limits, m, wanted))
  {
    hide Narrow, NarrowNode, NarrowAll, ReceiveAny, TakeWindowAck, CommitToken, AcceptTurn, AcceptWindow, CellValid;
    NodeParts(n);
    NarrowTwice(n, []);
    NearIsSame(Number(m), Counter(n, m));
    if n.mode.Sending? {
      if m.WindowAck? { AckNarrow(n, limits, m); }
    } else if n.mode.Yielding? {
      assert Narrow(0) == 0 by { NearIsSame(0, Narrow(0)); NarrowFacts(0); }
      CommitNarrow(n, false, 0, 0);
    } else if n.mode.Receiving? {
      AnyNarrow(n, limits, m, wanted);
    } else if Accepting(n) {
      AcceptorNarrow(n, limits, m, wanted);
    }
  }

  // ---------------------------------------------------------------------
  // Runs
  // ---------------------------------------------------------------------

  function NarrowEnd(e: End): End {
    e.(node := NarrowNode(e.node), out := NarrowAll(e.out))
  }

  function NarrowWorld(w: World): World { World(NarrowEnd(w.left), NarrowEnd(w.right)) }

  /** A step of two ends with sixteen-bit fields. */
  function Step16(w: World, event: Event): World { NarrowWorld(Step(w, event)) }

  function Run16(w: World, events: seq<Event>): World {
    if events == [] then w else Step16(Run16(w, events[..|events| - 1]), events[|events| - 1])
  }

  predicate TimelyAt(to: End, from: End, index: nat) {
    index < |from.out| ==> Recent(to.node, from.out[index])
  }

  predicate Timely(w: World, event: Event) {
    event.DeliverTo? ==>
      if event.atLeft then TimelyAt(w.left, w.right, event.index) else TimelyAt(w.right, w.left, event.index)
  }

  /** No message of the run is heard 65536 turns or windows late. */
  predicate TimelyRun(w: World, events: seq<Event>) {
    events == [] ||
    (TimelyRun(w, events[..|events| - 1]) && Timely(Run(w, events[..|events| - 1]), events[|events| - 1]))
  }

  lemma ActedNarrow(e: End, r: (Node, seq<Message>), s: (Node, seq<Message>), packets: seq<Packet>)
    requires Alike(r, s)
    ensures NarrowEnd(Acted(NarrowEnd(e), r, packets)) == NarrowEnd(Acted(e, s, packets))
  {
    hide Narrow;
    NarrowTwice(e.node, e.out);
    assert r.0.mode.Sending? == s.0.mode.Sending? && (r.0.mode.Sending? ==> r.0.mode.yielding == s.0.mode.yielding) by {
      assert NarrowNode(r.0).mode == NarrowNode(s.0).mode;
    }
    assert r.0.batchId == s.0.batchId by { assert NarrowNode(r.0).batchId == NarrowNode(s.0).batchId; }
    assert NarrowAll(NarrowAll(e.out) + r.1) == NarrowAll(e.out + s.1) by {
      assert NarrowAll(NarrowAll(e.out) + r.1) == NarrowAll(NarrowAll(e.out)) + NarrowAll(r.1);
      assert NarrowAll(e.out + s.1) == NarrowAll(e.out) + NarrowAll(s.1);
    }
  }

  lemma ActNarrow(w: World, event: Event)
    requires Aligned(w.left.node) && (event.DeliverTo? && event.index < |w.right.out| ==>
               Recent(w.left.node, w.right.out[event.index]) && NotAhead(w.left.node, w.right.out[event.index]))
    ensures NarrowEnd(ActLeft(NarrowWorld(w), event)) == NarrowEnd(ActLeft(w, event))
  {
    hide Narrow, Acted, Alike, Deliver, Timeout, TakeTurn, Aligned, Recent, NotAhead;
    var e, n, limits := w.left, w.left.node, w.left.limits;
    match event
    case TurnAt(_, packets) =>
      if AllValid(packets) && |packets| < 0x100 {
        TurnNarrow(n, limits, packets);
        ActedNarrow(e, TakeTurn(NarrowNode(n), limits, packets), TakeTurn(n, limits, packets), packets);
      }
      NarrowTwice(n, e.out);
    case DeliverTo(_, index, wanted) =>
      if index < |w.right.out| && |n.inbox.buffer| == WINDOW_MAX {
        var m := w.right.out[index];
        DeliverNarrow(n, limits, m, wanted);
        ActedNarrow(e, Deliver(NarrowNode(n), limits, NarrowMessage(m), wanted), Deliver(n, limits, m, wanted), []);
      }
      NarrowTwice(n, e.out);
    case TimeoutAt(_) =>
      TimeoutNarrow(n, limits);
      ActedNarrow(e, Timeout(NarrowNode(n), limits), Timeout(n, limits), []);
  }

  lemma EndTwice(e: End)
    ensures NarrowEnd(NarrowEnd(e)) == NarrowEnd(e)
  {
    hide Narrow;
    NarrowTwice(e.node, e.out);
  }

  lemma StepNarrow(w: World, event: Event)
    requires Reachable(w) && Timely(w, event)
    ensures Step16(NarrowWorld(w), event) == NarrowWorld(Step(w, event))
  {
    hide Reachable, NarrowEnd, ActLeft, Recent, NotAhead, Aligned, AllKept, Reached;
    ReachableSound(w);
    EndTwice(w.left);
    EndTwice(w.right);
    if event.atLeft {
      if event.DeliverTo? && event.index < |w.right.out| { NoMessageIsAhead(w, w.right.out[event.index]); }
      ActNarrow(w, event);
    } else {
      if event.DeliverTo? && event.index < |w.left.out| { NoMessageIsAhead(Swap(w), w.left.out[event.index]); }
      ActNarrow(Swap(w), event);
    }
  }

  lemma {:induction false} RunNarrow(up: nat, down: nat, retries: nat, other: nat, events: seq<Event>)
    requires TimelyRun(Start(up, down, retries, other), events)
    ensures Run16(Start(up, down, retries, other), events) == NarrowWorld(Run(Start(up, down, retries, other), events))
  {
    hide Step16, Step, NarrowWorld, Timely;
    var w := Start(up, down, retries, other);
    if events == [] {
      StartIsNarrow(up, down, retries, other);
    } else {
      var rest := events[..|events| - 1];
      RunNarrow(up, down, retries, other, rest);
      StepNarrow(Run(w, rest), events[|events| - 1]);
    }
  }

  lemma StartIsNarrow(up: nat, down: nat, retries: nat, other: nat)
    ensures NarrowWorld(Start(up, down, retries, other)) == Start(up, down, retries, other)
  {
  }

  // ---------------------------------------------------------------------
  // The theorems
  // ---------------------------------------------------------------------

  /**
   With sixteen-bit numbers, in every run in which no message is heard 65536 or
   more turns or windows late: at most one end holds the token; while neither
   has given up, it is held or its commit was sent to an end that waits; and the
   packets an end wrote are those of the first windows the other end started.
   */
  lemma SixteenBitsSuffice(up: nat, down: nat, retries: nat, other: nat, events: seq<Event>)
    requires TimelyRun(Start(up, down, retries, other), events)
    ensures var v := Run16(Start(up, down, retries, other), events);
            var (a, b) := (v.left.node, v.right.node);
            && !(HoldsToken(a) && HoldsToken(b))
            && (!a.mode.Ended? && !b.mode.Ended? ==>
                  || HoldsToken(a) || HoldsToken(b)
                  || (Accepting(b) && Commit(b.turn) in v.left.out)
                  || (Accepting(a) && Commit(a.turn) in v.right.out))
            && (exists k: nat :: k <= |v.left.jobs| && b.inbox.sequence == Narrow(k) && b.written == PacketsOf(v.left.jobs[..k]))
            && (exists k: nat :: k <= |v.right.jobs| && a.inbox.sequence == Narrow(k) && a.written == PacketsOf(v.right.jobs[..k]))
  {
    hide TimelyRun, Run16, Run, Narrow, PacketsOf;
    RunNarrow(up, down, retries, other, events);
    var w := Run(Start(up, down, retries, other), events);
    OneToken(w);
    WindowsArriveInOrder(w);
    NarrowHolds(w.left, Commit(w.right.node.turn));
    NarrowHolds(w.right, Commit(w.left.node.turn));
  }

  lemma NarrowHolds(e: End, m: Message)
    ensures m in e.out ==> NarrowMessage(m) in NarrowEnd(e).out
  {
    hide Narrow;
    if m in e.out {
      var i :| 0 <= i < |e.out| && e.out[i] == m;
      assert NarrowAll(e.out)[i] == NarrowMessage(m);
    }
  }

  // ---------------------------------------------------------------------
  // A message that is a whole round late
  // ---------------------------------------------------------------------

  lemma Run16More(w: World, events: seq<Event>, event: Event)
    ensures Run16(w, events + [event]) == Step16(Run16(w, events), event)
  {
    assert (events + [event])[..|events|] == events;
  }

  /** Both ends are idle in turn t, the left one with the token, and all numbers have sixteen bits. */
  predicate Idle(w: World, t: nat) {
    && w.left.node.mode == Holding && w.right.node.mode == Receiving(0)
    && w.left.node.turn == w.right.node.turn == Narrow(t)
    && |w.left.node.inbox.buffer| == |w.right.node.inbox.buffer| == WINDOW_MAX
    && w.left.limits.retries > 0 && w.right.limits.retries > 0
    && NarrowWorld(w) == w
  }

  /** The left end offers the token, and the right end takes it. */
  function Over(w: World): World {
    var n := |w.left.out|;
    Step16(Step16(Step16(Step16(w, TurnAt(true, [])), DeliverTo(false, n, true)), DeliverTo(true, |w.right.out|, true)),
           DeliverTo(false, n + 1, true))
  }

  /** What one action of the left end does to a world of sixteen-bit numbers. */
  lemma LeftActs(w: World, event: Event, r: (Node, seq<Message>))
    requires NarrowWorld(w) == w && event.atLeft && !r.0.mode.Sending? && ActLeft(w, event) == Acted(w.left, r, [])
    ensures Step16(w, event) == World(w.left.(node := NarrowNode(r.0), out := w.left.out + NarrowAll(r.1)), w.right)
    ensures NarrowWorld(Step16(w, event)) == Step16(w, event)
  {
    hide Narrow, ActLeft;
    assert NarrowAll(w.left.out + r.1) == NarrowAll(w.left.out) + NarrowAll(r.1);
    NarrowTwice(r.0, w.left.out + r.1);
  }

  lemma RightActs(w: World, event: Event, r: (Node, seq<Message>))
    requires NarrowWorld(w) == w && !event.atLeft && !r.0.mode.Sending? && ActLeft(Swap(w), event) == Acted(w.right, r, [])
    ensures Step16(w, event) == World(w.left, w.right.(node := NarrowNode(r.0), out := w.right.out + NarrowAll(r.1)))
    ensures NarrowWorld(Step16(w, event)) == Step16(w, event)
  {
    hide Narrow, ActLeft;
    assert NarrowAll(w.right.out + r.1) == NarrowAll(w.right.out) + NarrowAll(r.1);
    NarrowTwice(r.0, w.right.out + r.1);
  }

  /** The holder offers, the other end accepts. */
  lemma OfferIsAccepted(w: World, t: nat)
    requires Idle(w, t)
    ensures var s := Narrow(t);
            var v := Step16(Step16(w, TurnAt(true, [])), DeliverTo(false, |w.left.out|, true));
            && v.left == w.left.(node := w.left.node.(mode := Yielding(0)), out := w.left.out + [Turn(s)])
            && v.right == w.right.(node := w.right.node.(mode := AcceptingTurn(0)), out := w.right.out + [TurnAck(s)])
            && NarrowWorld(v) == v
  {
    hide Narrow;
    NarrowFacts(t);
    var n := w.left.node;
    var offered := (n.(mode := Yielding(0)), [Turn(n.turn)]);
    LeftActs(w, TurnAt(true, []), offered);
    assert NarrowNode(offered.0) == offered.0 && NarrowAll(offered.1) == offered.1;
    var v := Step16(w, TurnAt(true, []));
    var accepted := (w.right.node.(mode := AcceptingTurn(0)), [TurnAck(n.turn)]);
    RightActs(v, DeliverTo(false, |w.left.out|, true), accepted);
    assert NarrowNode(accepted.0) == accepted.0 && NarrowAll(accepted.1) == accepted.1;
  }

  /** The acceptance is heard, and the commit after it. */
  lemma OverHands(w: World, t: nat)
    requires Idle(w, t)
    ensures var v, s := Over(w), Narrow(t);
            && Idle(Swap(v), t + 1)
            && v.left.out == w.left.out + [Turn(s), Commit(s)] && v.right.out == w.right.out + [TurnAck(s)]
  {
    hide Narrow, Step16;
    NarrowFacts(t);
    OfferIsAccepted(w, t);
    var s := Narrow(t);
    var i, j := |w.left.out|, |w.right.out|;
    var u := Step16(Step16(w, TurnAt(true, [])), DeliverTo(false, i, true));
    var n := u.left.node;
    var given := (n.(mode := Receiving(0), turn := s + 1, lastCommit := Some(LastCommit(s, false, 0, 0))), [Commit(s)]);
    assert u.right.out[j] == TurnAck(s);
    LeftActs(u, DeliverTo(true, j, true), given);
    assert NarrowAll(given.1) == given.1;
    var x := Step16(u, DeliverTo(true, j, true));
    assert x.left.out[i + 1] == Commit(s);
    var taken := (u.right.node.(mode := Holding, turn := s + 1), []);
    RightActs(x, DeliverTo(false, i + 1, true), taken);
    assert NarrowAll(taken.1) == [];
    SwapNarrow(Over(w));
  }

  lemma SwapNarrow(w: World)
    ensures NarrowWorld(Swap(w)) == Swap(NarrowWorld(w))
  {
  }

  /** A run of sixteen-bit ends leads from one world to the other. */
  ghost predicate Leads(w: World, v: World) {
    exists events: seq<Event> :: Run16(w, events) == v
  }

  lemma LeadsNowhere(w: World)
    ensures Leads(w, w)
  {
    assert Run16(w, []) == w;
  }

  lemma LeadsOn(w: World, v: World, event: Event)
    requires Leads(w, v)
    ensures Leads(w, Step16(v, event))
  {
    hide Step16;
    var events: seq<Event> :| Run16(w, events) == v;
    Run16More(w, events, event);
  }

  lemma OverLeads(w: World, v: World)
    requires Leads(w, v)
    ensures Leads(w, Over(v))
  {
    hide Step16, Leads;
    var n := |v.left.out|;
    var a := Step16(v, TurnAt(true, []));
    var b := Step16(a, DeliverTo(false, n, true));
    var c := Step16(b, DeliverTo(true, |v.right.out|, true));
    LeadsOn(w, v, TurnAt(true, []));
    LeadsOn(w, a, DeliverTo(false, n, true));
    LeadsOn(w, b, DeliverTo(true, |v.right.out|, true));
    LeadsOn(w, c, DeliverTo(false, n + 1, true));
  }

  lemma StepMirrors(w: World, event: Event)
    ensures Step16(Swap(w), event.(atLeft := !event.atLeft)) == Swap(Step16(w, event))
  {
    hide NarrowEnd, Deliver, Timeout, TakeTurn, Acted;
  }

  function Mirror(events: seq<Event>): seq<Event> {
    seq(|events|, i requires 0 <= i < |events| => events[i].(atLeft := !events[i].atLeft))
  }

  lemma {:induction false} RunMirrors(w: World, events: seq<Event>)
    ensures Run16(Swap(w), Mirror(events)) == Swap(Run16(w, events))
  {
    hide Step16;
    if events != [] {
      var n := |events| - 1;
      RunMirrors(w, events[..n]);
      assert Mirror(events)[..n] == Mirror(events[..n]);
      StepMirrors(Run16(w, events[..n]), events[n]);
    }
  }

  lemma LeadsSwaps(w: World, v: World)
    requires Leads(w, v)
    ensures Leads(Swap(w), Swap(v))
  {
    hide Run16;
    var events: seq<Event> :| Run16(w, events) == v;
    RunMirrors(w, events);
  }

  /** Over to the right end and back. */
  function Round(w: World): World { Swap(Over(Swap(Over(w)))) }

  lemma RoundLeads(w: World, v: World, t: nat)
    requires Leads(w, v) && Idle(v, t)
    ensures Leads(w, Round(v)) && Idle(Round(v), t + 2)
    ensures v.left.out <= Round(v).left.out
    ensures |v.left.out| + 2 <= |Round(v).left.out| && Round(v).left.out[|v.left.out|..|v.left.out| + 2] == [Turn(Narrow(t)), Commit(Narrow(t))]
  {
    hide Narrow, Over, Idle, Leads;
    OverHands(v, t);
    OverHands(Swap(Over(v)), t + 1);
    OverLeads(w, v);
    LeadsSwaps(w, Over(v));
    OverLeads(Swap(w), Swap(Over(v)));
    LeadsSwaps(Swap(w), Over(Swap(Over(v))));
  }

  function Rounds(w: World, k: nat): World {
    if k == 0 then w else Round(Rounds(w, k - 1))
  }

  lemma {:induction false} RoundsLead(w: World, k: nat)
    requires Idle(w, 0) && w.left.out == []
    ensures Leads(w, Rounds(w, k)) && Idle(Rounds(w, k), 2 * k)
    ensures k > 0 ==> |Rounds(w, k).left.out| >= 2 && Rounds(w, k).left.out[..2] == [Turn(0), Commit(0)]
  {
    hide Round, Idle, Leads;
    if k == 0 {
      LeadsNowhere(w);
    } else {
      RoundsLead(w, k - 1);
      RoundLeads(w, Rounds(w, k - 1), 2 * (k - 1));
    }
  }

  /**
   The bound is sharp: an offer and its commit that are heard again after exactly
   65536 turns give the token to both ends.
   */
  lemma LateMessagesBreakToken()
    ensures exists events: seq<Event> ::
              var v := Run16(Start(128, 128, 5, 5), events);
              HoldsToken(v.left.node) && HoldsToken(v.right.node)
  {
    hide Rounds, Narrow, Step16, NewNode;
    var w := Start(128, 128, 5, 5);
    FreshIsIdle();
    RoundsLead(w, WRAP / 2);
    assert Narrow(WRAP) == 0 by { WholeRound(); }
    var v := Rounds(w, WRAP / 2);
    SecondHolder(v);
    LeadsOn(w, v, DeliverTo(false, 0, true));
    LeadsOn(w, Step16(v, DeliverTo(false, 0, true)), DeliverTo(false, 1, true));
  }

  lemma WholeRound()
    ensures Narrow(WRAP) == 0
  {
  }

  lemma FreshIsIdle()
    ensures Idle(Start(128, 128, 5, 5), 0)
  {
    StartIsNarrow(128, 128, 5, 5);
  }

  lemma SecondHolder(v: World)
    requires Idle(v, WRAP) && |v.left.out| >= 2 && v.left.out[..2] == [Turn(0), Commit(0)]
    ensures var after := Step16(Step16(v, DeliverTo(false, 0, true)), DeliverTo(false, 1, true));
            HoldsToken(after.left.node) && HoldsToken(after.right.node)
  {
    hide Narrow, Step16;
    assert Narrow(WRAP) == 0 by { WholeRound(); }
    assert v.left.out[0] == Turn(0) && v.left.out[1] == Commit(0);
    var accepted := (v.right.node.(mode := AcceptingTurn(0)), [TurnAck(0)]);
    RightActs(v, DeliverTo(false, 0, true), accepted);
    var x := Step16(v, DeliverTo(false, 0, true));
    var taken := (x.right.node.(mode := Holding, turn := 1), []);
    RightActs(x, DeliverTo(false, 1, true), taken);
  }
}
