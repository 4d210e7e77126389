/** What the proxy is for: a window whose messages arrive is written and finished, and a token that is offered is taken. */
module ProxyProgress {
  import opened Bytes
  import opened Common
  import opened PacketTransport
  import opened ProxyWire
  import opened ProxyLink
  import opened ProxyWindows
  import opened ProxyRuns
  import opened ProxyDelivery
  import opened ProxyToken
  import opened ProxyNumbers
  import opened ProxyPairs

  // ---------------------------------------------------------------------
  // A receiver that hears a round
  // ---------------------------------------------------------------------

  /** The receiver already has cell i of the window it waits for. */
  predicate Has(inbox: Inbox, i: nat) {
    inbox.total != 0 && i < |inbox.bitmap| && inbox.bitmap[i]
  }

  /** A receiver that waits for window s of the peer. */
  ghost predicate Awaits(n: Node, limits: Limits, jobs: seq<Job>) {
    && (forall j <- jobs :: FitsLimit(j, limits.receive))
    && n.mode.Receiving? && n.inbox.sequence < |jobs| && ReceiveOk(n, jobs, limits.receive)
  }

  /** The receiver after a window, written whole and answered; it takes the token when it is offered and wanted. */
  function Completed(n: Node, j: Job, inbox: Inbox, count: nat, wanted: bool): Node {
    var s := n.inbox.sequence;
    n.(mode := if j.yielding && wanted then AcceptingWindow(s, j.id, count, 0) else Receiving(0),
       written := n.written + j.packets,
       inbox := inbox.(sequence := s + 1, total := 0, count := 0, bitmap := [], yielding := false),
       lastDone := Some(Done(j.id, s, count, j.yielding, j.yielding && wanted)))
  }

  function Completion(n: Node, j: Job, count: nat, wanted: bool): Message {
    WindowAck(n.inbox.sequence, j.id, Full(count), true, j.yielding && wanted)
  }

  /** The result of hearing what completes the window. */
  predicate Completes(n: Node, j: Job, count: nat, wanted: bool, r: (Node, seq<Message>)) {
    && r.0 == Completed(n, j, r.0.inbox, count, wanted)
    && r.0.inbox.sequence == n.inbox.sequence + 1 && |r.0.inbox.buffer| == WINDOW_MAX
    && r.1 == [Completion(n, j, count, wanted)]
  }

  lemma FinishCompletes(n: Node, limits: Limits, j: Job, c: Cell, wanted: bool)
    requires FitsLimit(j, limits.receive) && Fits(j, limits.receive, c) && Collecting(n.inbox, j, limits.receive)
    requires n.mode == Receiving(0) && n.inbox.bitmap == Full(n.inbox.count) && limits.retries > 0
    ensures n.inbox.total <= |n.inbox.buffer|
    ensures Completes(n, j, Cells(j, limits.receive), wanted, FinishWindow(n, limits, n.inbox.sequence, c, wanted))
  {
    hide FitsLimit, Fits, InspectBatch, Cells, Full;
    FitsIsValid(j, limits.receive, c);
    WholeInbox(n.inbox, j, limits.receive);
    CollectingMeans(n.inbox, j, limits.receive);
  }

  /** Opening keeps the cells there are. */
  lemma OpenBits(inbox: Inbox, j: Job, limit: nat, c: Cell)
    requires FitsLimit(j, limit) && Fits(j, limit, c) && |inbox.buffer| == WINDOW_MAX
    requires inbox.total == 0 || Collecting(inbox, j, limit)
    ensures OpenInbox(inbox, c).Some?
    ensures var open := OpenInbox(inbox, c).value;
            && open.total != 0 && |open.bitmap| == Cells(j, limit) == open.count
            && forall i: nat | i < Cells(j, limit) :: open.bitmap[i] <==> Has(inbox, i)
  {
    hide CellStart, BatchOf, CellCount, HasCell;
    FitsIsValid(j, limit, c);
    BatchLong(j);
  }

  /** A true cell of the window that is waited for is taken. */
  lemma DeliverTakes(n: Node, limits: Limits, jobs: seq<Job>, c: Cell, wanted: bool)
    requires Awaits(n, limits, jobs) && Fits(jobs[n.inbox.sequence], limits.receive, c)
    ensures |n.inbox.buffer| == WINDOW_MAX && limits.receive > WINDOW_HEADER && CellValid(c)
    ensures Deliver(n, limits, Window(n.inbox.sequence, c), wanted) ==
            TakeCell(n.(mode := Receiving(0)), limits, n.inbox.sequence, c, wanted)
  {
    hide FitsLimit, Fits, Collecting, CellValid, TakeCell, CellCount, Cells;
    FitsIsValid(jobs[n.inbox.sequence], limits.receive, c);
    SendableLimit(jobs[n.inbox.sequence], limits.receive);
  }

  function StoredInbox(inbox: Inbox, limit: nat, c: Cell): Option<Inbox>
    requires CellValid(c) && limit > WINDOW_HEADER && |inbox.buffer| == WINDOW_MAX
  {
    match OpenInbox(inbox, c)
    case None => None
    case Some(open) => StoreCell(open, c, Capacity(limit))
  }

  /** The inbox with the cell taken in. */
  lemma CellStored(inbox: Inbox, j: Job, limit: nat, c: Cell)
    requires FitsLimit(j, limit) && Fits(j, limit, c) && |inbox.buffer| == WINDOW_MAX
    requires inbox.total == 0 || Collecting(inbox, j, limit)
    ensures limit > WINDOW_HEADER && CellValid(c)
    ensures OpenInbox(inbox, c).Some? && StoredInbox(inbox, limit, c).Some?
    ensures var stored := StoredInbox(inbox, limit, c).value;
            && Collecting(stored, j, limit) && stored.sequence == inbox.sequence && stored.total != 0
            && stored.total <= |stored.buffer| && stored.count == c.count == Cells(j, limit) == |stored.bitmap|
            && forall i: nat | i < Cells(j, limit) :: stored.bitmap[i] <==> Has(inbox, i) || i == c.index
  {
    hide FitsLimit, Fits, Collecting, CellValid, OpenInbox, StoreCell, Cells;
    FitsIsValid(j, limit, c);
    SendableLimit(j, limit);
    OpensRight(inbox, j, limit, c);
    var open := OpenInbox(inbox, c).value;
    OpenBits(inbox, j, limit, c);
    CollectingMeans(open, j, limit);
    StoresRight(open, j, limit, c);
    var stored := StoreCell(open, c, Capacity(limit)).value;
    CollectingMeans(stored, j, limit);
    CollectingBits(stored, j, limit);
  }

  lemma CollectingBits(inbox: Inbox, j: Job, limit: nat)
    requires FitsLimit(j, limit) && Collecting(inbox, j, limit)
    ensures |inbox.bitmap| == inbox.count
  {
  }

  /** One cell of the window, or its end marker, heard by a receiver that waits for it. */
  lemma CellHeard(n: Node, limits: Limits, jobs: seq<Job>, c: Cell, wanted: bool)
    requires Awaits(n, limits, jobs) && limits.retries > 0 && Fits(jobs[n.inbox.sequence], limits.receive, c)
    ensures |n.inbox.buffer| == WINDOW_MAX
    ensures var j := jobs[n.inbox.sequence];
            var r := Deliver(n, limits, Window(n.inbox.sequence, c), wanted);
            var all := forall i: nat | i < Cells(j, limits.receive) && i != c.index :: Has(n.inbox, i);
            if c.end && all then Completes(n, j, Cells(j, limits.receive), wanted, r)
            else
              && Awaits(r.0, limits, jobs) && r.0 == n.(mode := Receiving(0), inbox := r.0.inbox)
              && r.0.inbox.sequence == n.inbox.sequence && r.0.inbox.total != 0
              && |r.0.inbox.bitmap| == Cells(j, limits.receive)
              && (forall i: nat | i < Cells(j, limits.receive) :: Has(r.0.inbox, i) <==> Has(n.inbox, i) || i == c.index)
              && r.1 == if c.end then [WindowAck(n.inbox.sequence, j.id, r.0.inbox.bitmap, false, false)] else []
  {
    hide FitsLimit, Fits, Collecting, CellValid, Deliver, FinishWindow, OpenInbox, StoreCell, Cells, Completes;
    var s, limit := n.inbox.sequence, limits.receive;
    var j := jobs[s];
    FitsIsValid(j, limit, c);
    DeliverTakes(n, limits, jobs, c, wanted);
    CellStored(n.inbox, j, limit, c);
    var stored := StoredInbox(n.inbox, limit, c).value;
    var after := n.(mode := Receiving(0), inbox := stored);
    StillAwaits(n, limits, jobs, stored);
    if c.end && forall i: nat | i < Cells(j, limit) && i != c.index :: Has(n.inbox, i) {
      assert stored.bitmap == Full(c.count);
      FinishCompletes(after, limits, j, c, wanted);
      CompletesSame(n, after, j, Cells(j, limit), wanted, FinishWindow(after, limits, s, c, wanted));
    } else if c.end {
      var i: nat :| i < Cells(j, limit) && i != c.index && !Has(n.inbox, i);
      assert !stored.bitmap[i];
    }
  }

  lemma StillAwaits(n: Node, limits: Limits, jobs: seq<Job>, stored: Inbox)
    requires Awaits(n, limits, jobs) && stored.sequence == n.inbox.sequence
    requires Collecting(stored, jobs[n.inbox.sequence], limits.receive)
    ensures Awaits(n.(mode := Receiving(0), inbox := stored), limits, jobs)
  {
    hide FitsLimit, DoneOk;
  }

  lemma CompletesSame(n: Node, after: Node, j: Job, count: nat, wanted: bool, r: (Node, seq<Message>))
    requires after == n.(mode := after.mode, inbox := after.inbox) && after.inbox.sequence == n.inbox.sequence
    requires Completes(after, j, count, wanted, r)
    ensures Completes(n, j, count, wanted, r)
  {
  }

  // ---------------------------------------------------------------------
  // A round
  // ---------------------------------------------------------------------

  /** The node after it heard messages one after the other, and all that it answered. */
  function HearAll(n: Node, limits: Limits, messages: seq<Message>, wanted: bool): (Node, seq<Message>)
    decreases |messages|
  {
    if messages == [] || |n.inbox.buffer| != WINDOW_MAX then (n, [])
    else
      var r := Deliver(n, limits, messages[0], wanted);
      var rest := HearAll(r.0, limits, messages[1..], wanted);
      (rest.0, r.1 + rest.1)
  }

  /** The receiver lacks no cell but those of the round from this index on. */
  predicate Covered(inbox: Inbox, pending: seq<bool>, index: nat) {
    forall i: nat | i < |pending| && !(i >= index && pending[i]) :: Has(inbox, i)
  }

  /** A receiver that hears a round with every cell it lacks completes the window with the last message. */
  lemma {:induction false} CellsComplete(n: Node, limits: Limits, jobs: seq<Job>, pending: seq<bool>, index: nat, wanted: bool)
    requires Awaits(n, limits, jobs) && limits.retries > 0
    requires var j := jobs[n.inbox.sequence];
             |pending| == Cells(j, limits.receive) && index <= |pending| && Covered(n.inbox, pending, index)
    requires exists i :: index <= i < |pending| && pending[i]
    ensures var j := jobs[n.inbox.sequence];
            && Covers(BatchOf(j), Capacity(limits.receive), |pending|)
            && var cells := PendingCells(n.inbox.sequence, BatchOf(j), j.id, j.yielding, Capacity(limits.receive), pending, index);
               cells != [] && Completes(n, j, |pending|, wanted, HearAll(n, limits, cells, wanted))
    decreases |pending| - index
  {
    hide FitsLimit, Fits, BatchOf, Cells, Deliver, Completes, Has, CellCount;
    var s, limit := n.inbox.sequence, limits.receive;
    var j := jobs[s];
    SendableLimit(j, limit);
    CoversBatch(j, limit);
    PendingFit(s, j, limit, pending, index);
    var cells := PendingCells(s, BatchOf(j), j.id, j.yielding, Capacity(limit), pending, index);
    if !pending[index] {
      CellsComplete(n, limits, jobs, pending, index + 1, wanted);
    } else {
      var rest := PendingCells(s, BatchOf(j), j.id, j.yielding, Capacity(limit), pending, index + 1);
      PendingLeft(s, BatchOf(j), j.id, j.yielding, Capacity(limit), pending, index + 1);
      var c := cells[0].cell;
      assert cells[0] in cells && cells[1..] == rest && cells[0] == Window(s, c) && c.end == (rest == []) && c.index == index;
      CellHeard(n, limits, jobs, c, wanted);
      var r := Deliver(n, limits, cells[0], wanted);
      if rest == [] {
        assert HearAll(r.0, limits, rest, wanted) == (r.0, []);
        assert r.1 + [] == r.1;
      } else {
        CellsComplete(r.0, limits, jobs, pending, index + 1, wanted);
        CompletesSame(n, r.0, j, |pending|, wanted, HearAll(r.0, limits, rest, wanted));
        assert [] + HearAll(r.0, limits, rest, wanted).1 == HearAll(r.0, limits, rest, wanted).1;
      }
    }
  }

  lemma {:induction false} PendingLeft(s: nat, batch: seq<byte>, id: uint32, yielding: bool, capacity: nat, pending: seq<bool>, index: nat)
    requires index <= |pending| && Covers(batch, capacity, |pending|)
    ensures PendingCells(s, batch, id, yielding, capacity, pending, index) != [] <==> exists i :: index <= i < |pending| && pending[i]
    decreases |pending| - index
  {
    if index < |pending| {
      PendingLeft(s, batch, id, yielding, capacity, pending, index + 1);
    }
  }

  // ---------------------------------------------------------------------
  // The sender
  // ---------------------------------------------------------------------

  /** The sender after the window it sent was acknowledged whole. */
  lemma CompletionHeard(n: Node, limits: Limits, jobs: seq<Job>, given: bool)
    requires Current(n, limits, jobs) && |n.inbox.buffer| == WINDOW_MAX
    requires given ==> n.mode.yielding
    ensures var m := WindowAck(n.txSequence, jobs[n.txSequence].id, Full(|n.mode.pending|), true, given);
            var finished := n.(txSequence := n.txSequence + 1);
            Deliver(n, limits, m, false) ==
            if given then CommitToken(finished, true, n.txSequence, n.batchId) else (finished.(mode := Holding), [])
  {
    hide FitsLimit, BatchOf, Cells, Full;
  }

  /** The sender after it heard which cells the receiver has. */
  lemma BitmapHeard(n: Node, limits: Limits, jobs: seq<Job>, bitmap: seq<bool>)
    requires Current(n, limits, jobs) && |n.inbox.buffer| == WINDOW_MAX
    requires |bitmap| == |n.mode.pending| && n.mode.attempt + 1 < limits.retries * ROUNDS_PER_RETRY
    ensures var j := jobs[n.txSequence];
            && Covers(BatchOf(j), Capacity(limits.transmit), |bitmap|)
            && Deliver(n, limits, WindowAck(n.txSequence, j.id, bitmap, false, false), false) ==
               (n.(mode := n.mode.(pending := Missing(bitmap), attempt := n.mode.attempt + 1)),
                RoundMessages(n.txSequence, BatchOf(j), j.id, j.yielding, Capacity(limits.transmit), Missing(bitmap)))
  {
    hide FitsLimit, BatchOf, Cells, Full, RoundMessages, CellCount;
    CoversBatch(jobs[n.txSequence], limits.transmit);
    SendableLimit(jobs[n.txSequence], limits.transmit);
  }

  /** The sender that heard nothing asks for the bitmap. */
  lemma ProbeSent(n: Node, limits: Limits, jobs: seq<Job>)
    requires Current(n, limits, jobs) && n.mode.attempt + 1 < limits.retries * ROUNDS_PER_RETRY
    ensures var j := jobs[n.txSequence];
            && Packable(j)
            && Timeout(n, limits) ==
               (n.(mode := n.mode.(pending := Missing(Full(|n.mode.pending|)), attempt := n.mode.attempt + 1)),
                [Window(n.txSequence, EndMarker(BatchOf(j), j.id, j.yielding, |n.mode.pending|))])
  {
    hide FitsLimit, BatchOf, Cells, CellCount;
    var j, pending := jobs[n.txSequence], Missing(Full(|n.mode.pending|));
    CoversBatch(j, limits.transmit);
    SendableLimit(j, limits.transmit);
    PendingLeft(n.txSequence, BatchOf(j), j.id, j.yielding, Capacity(limits.transmit), pending, 0);
  }

  // ---------------------------------------------------------------------
  // Worlds
  // ---------------------------------------------------------------------

  /** The right end hears `count` messages of the left one, from `first` on and in order. */
  function Heard(first: nat, count: nat, wanted: bool): seq<Event> {
    seq(count, i requires 0 <= i => DeliverTo(false, first + i, wanted))
  }

  lemma DeliverStartsNothing(n: Node, limits: Limits, m: Message, wanted: bool)
    requires |n.inbox.buffer| == WINDOW_MAX && !n.mode.Sending?
    ensures !Deliver(n, limits, m, wanted).0.mode.Sending?
  {
    hide CellValid, InspectBatch, OpenInbox, StoreCell, CellCount, Full;
  }

  /** The right end hears one message. */
  function HearOne(n: Node, limits: Limits, m: Message, wanted: bool): (Node, seq<Message>) {
    if |n.inbox.buffer| == WINDOW_MAX then Deliver(n, limits, m, wanted) else (n, [])
  }

  lemma OneHeard(w: World, index: nat, wanted: bool)
    requires index < |w.left.out| && !w.right.node.mode.Sending?
    ensures var r := HearOne(w.right.node, w.right.limits, w.left.out[index], wanted);
            && Step(w, DeliverTo(false, index, wanted)) == w.(right := w.right.(node := r.0, out := w.right.out + r.1))
            && !r.0.mode.Sending?
  {
    hide Deliver;
    if |w.right.node.inbox.buffer| == WINDOW_MAX {
      DeliverStartsNothing(w.right.node, w.right.limits, w.left.out[index], wanted);
    } else {
      assert w.right.out + [] == w.right.out;
    }
  }

  lemma {:induction false} HeardIs(w: World, first: nat, count: nat, wanted: bool)
    requires first + count <= |w.left.out| && !w.right.node.mode.Sending?
    ensures var r := HearAll(w.right.node, w.right.limits, w.left.out[first..first + count], wanted);
            && Run(w, Heard(first, count, wanted)) == w.(right := w.right.(node := r.0, out := w.right.out + r.1))
            && !r.0.mode.Sending?
    decreases count
  {
    hide Deliver, Step, HearOne;
    if count == 0 {
      assert w.right.out + [] == w.right.out;
    } else {
      var before := count - 1;
      assert Heard(first, count, wanted)[..before] == Heard(first, before, wanted);
      HeardIs(w, first, before, wanted);
      var messages := w.left.out[first..first + count];
      assert messages[..before] == w.left.out[first..first + before];
      var mid := Run(w, Heard(first, before, wanted));
      OneHeard(mid, first + before, wanted);
      HearLast(w.right.node, w.right.limits, messages, wanted);
      var r := HearAll(w.right.node, w.right.limits, messages[..before], wanted);
      assert w.right.out + r.1 + HearOne(r.0, w.right.limits, messages[before], wanted).1 ==
             w.right.out + (r.1 + HearOne(r.0, w.right.limits, messages[before], wanted).1);
    }
  }

  /** Hearing all is hearing all but the last, then the last. */
  lemma {:induction false} HearLast(n: Node, limits: Limits, messages: seq<Message>, wanted: bool)
    requires messages != []
    ensures var before := HearAll(n, limits, messages[..|messages| - 1], wanted);
            var r := HearOne(before.0, limits, messages[|messages| - 1], wanted);
            HearAll(n, limits, messages, wanted) == (r.0, before.1 + r.1)
    decreases |messages|
  {
    hide Deliver;
    if |n.inbox.buffer| == WINDOW_MAX {
      var r := Deliver(n, limits, messages[0], wanted);
      if |messages| == 1 {
        assert HearAll(r.0, limits, messages[1..], wanted) == (r.0, []);
        assert r.1 + [] == [] + r.1;
      } else {
        HearLast(r.0, limits, messages[1..], wanted);
        assert messages[1..][..|messages| - 2] == messages[..|messages| - 1][1..];
        var before := HearAll(r.0, limits, messages[1..][..|messages| - 2], wanted);
        var last := HearOne(before.0, limits, messages[|messages| - 1], wanted);
        assert r.1 + (before.1 + last.1) == r.1 + before.1 + last.1;
      }
    } else {
      var none: seq<Message> := [];
      assert none + none == none;
    }
  }

  /** What every run keeps, seen from either end. */
  ghost predicate Seen(w: World) { Reachable(w) || Reachable(Swap(w)) }

  lemma SeenSound(w: World)
    requires Seen(w)
    ensures Sound(w)
  {
    hide Reachable, Sound;
    if Reachable(w) {
      ReachableSound(w);
    } else {
      ReachableSound(Swap(w));
    }
  }

  lemma RunSound(w: World, events: seq<Event>)
    requires Sound(w)
    ensures Sound(Run(w, events))
  {
    hide AllKept, Orderly;
    RunKept(w, events);
    RunOrderly(w, events);
  }

  /** The left end hears the last message of the right one. */
  function Answered(w: World): World {
    if w.right.out == [] then w else Step(w, DeliverTo(true, |w.right.out| - 1, false))
  }

  /** The right end hears the last message of the left one. */
  function LastHeard(w: World, wanted: bool): World {
    if w.left.out == [] then w else Step(w, DeliverTo(false, |w.left.out| - 1, wanted))
  }

  /** The right end hears in order all that the left one sent from message `first` on. */
  function RoundHeard(w: World, first: nat, wanted: bool): World {
    if first <= |w.left.out| then Run(w, Heard(first, |w.left.out| - first, wanted)) else w
  }

  /** The left end sends a window and the right one waits for it; `j` is the window. */
  ghost predicate Facing(w: World, j: Job) {
    && Sound(w) && w.left.node.mode.Sending? && w.right.node.mode.Receiving? && w.right.limits.retries > 0
    && w.left.node.txSequence < |w.left.jobs| && j == w.left.jobs[w.left.node.txSequence]
  }

  /** What the two ends of a transfer know of each other. */
  lemma FacingParts(w: World, j: Job)
    requires Facing(w, j)
    ensures var (n, limits) := (w.left.node, w.left.limits);
            && Current(n, limits, w.left.jobs) && limits.transmit == w.right.limits.receive
            && |n.inbox.buffer| == |w.right.node.inbox.buffer| == WINDOW_MAX
            && n.mode.batch == BatchOf(j) && n.batchId == j.id && n.mode.yielding == j.yielding
            && |n.mode.pending| == Cells(j, limits.transmit) && FitsLimit(j, limits.transmit)
            && n.turn == w.right.node.turn
            && n.txSequence <= w.right.node.inbox.sequence <= n.txSequence + 1
            && (n.txSequence == w.right.node.inbox.sequence ==> Awaits(w.right.node, w.right.limits, w.left.jobs))
  {
    hide AcceptancesOk, OnItsWay, Orderly, FitsLimit, Cells, BatchOf, CellsTrue, DoneOk;
    LaneParts(w.left, w.right);
    LaneParts(w.right, w.left);
  }

  /** The window is finished at both ends; `taken` says whether its offer was accepted. */
  ghost predicate Through(w: World, v: World, taken: bool) {
    && v.left.node.txSequence == w.left.node.txSequence + 1 && v.left.jobs == w.left.jobs
    && v.right.node.written == PacketsOf(w.left.jobs)
    && v.left.limits == w.left.limits && v.right.limits == w.right.limits
    && if taken then v.left.node.mode == Receiving(0) && v.right.node.mode == Holding
       else v.left.node.mode == Holding && v.right.node.mode == Receiving(0)
  }

  /** The right end has completed the window and its answer is on the way. */
  ghost predicate Answering(w: World, j: Job, given: bool) {
    && Sound(w) && w.left.node.mode.Sending?
    && w.left.node.txSequence < |w.left.jobs| && j == w.left.jobs[w.left.node.txSequence]
    && w.right.node.inbox.sequence == w.left.node.txSequence + 1
    && w.right.out != []
    && w.right.out[|w.right.out| - 1] == WindowAck(w.left.node.txSequence, j.id, Full(|w.left.node.mode.pending|), true, given)
    && (if given then w.right.node.mode.AcceptingWindow? else w.right.node.mode == Receiving(0))
    && (given ==> w.left.node.mode.yielding)
  }

  /** The left end after a token it gave away. */
  function HandedOver(w: World): World {
    if w.left.node.mode.Receiving? then LastHeard(w, false) else w
  }

  lemma AnswerFinishes(w: World, j: Job, given: bool)
    requires Answering(w, j, given)
    ensures Through(w, HandedOver(Answered(w)), given)
  {
    hide FitsLimit, Cells, BatchOf, CellsTrue, DoneOk, Deliver, AcceptancesOk, OnItsWay, Orderly, Full, PacketsOf;
    LaneParts(w.left, w.right);
    LaneParts(w.right, w.left);
    var n := w.left.node;
    CompletionHeard(n, w.left.limits, w.left.jobs, given);
    StepSound(w, DeliverTo(true, |w.right.out| - 1, false));
    var v := Answered(w);
    assert v.right == w.right;
    assert w.left.jobs[..|w.left.jobs|] == w.left.jobs;
    if given {
      assert v.left.out == w.left.out + [Commit(n.turn)];
      assert n.turn == w.right.node.turn;
      CommitTakes(w.right.node, w.right.limits);
    }
  }

  lemma CommitTakes(n: Node, limits: Limits)
    requires Accepting(n) && |n.inbox.buffer| == WINDOW_MAX
    ensures Deliver(n, limits, Commit(n.turn), false) == (n.(mode := Holding, turn := n.turn + 1), [])
  {
  }

  /** The cells of a round of the window. */
  function CellsOf(n: Node, limits: Limits, pending: seq<bool>): seq<Message>
    requires n.mode.Sending? && limits.transmit > WINDOW_HEADER
    requires Covers(n.mode.batch, limits.transmit - WINDOW_HEADER, |pending|)
  {
    PendingCells(n.txSequence, n.mode.batch, n.batchId, n.mode.yielding, limits.transmit - WINDOW_HEADER, pending, 0)
  }

  /** A round with every cell the receiver lacks, heard in order, completes the window. */
  lemma RoundAnswers(w: World, j: Job, first: nat, pending: seq<bool>, wanted: bool)
    requires Facing(w, j) && w.right.node.inbox.sequence == w.left.node.txSequence
    requires |pending| == Cells(j, w.left.limits.transmit) && first <= |w.left.out|
    requires Covered(w.right.node.inbox, pending, 0) && exists i :: 0 <= i < |pending| && pending[i]
    requires w.left.limits.transmit > WINDOW_HEADER && Covers(w.left.node.mode.batch, w.left.limits.transmit - WINDOW_HEADER, |pending|)
    requires w.left.out[first..] == CellsOf(w.left.node, w.left.limits, pending)
    ensures Answering(RoundHeard(w, first, wanted), j, j.yielding && wanted)
    ensures RoundHeard(w, first, wanted).left == w.left
  {
    hide FitsLimit, Cells, BatchOf, Deliver, Full, PendingCells, Sound, Covered, HearAll, CellCount, Covers;
    FacingParts(w, j);
    CellsComplete(w.right.node, w.right.limits, w.left.jobs, pending, 0, wanted);
    assert w.left.out[first..] == w.left.out[first..|w.left.out|];
    HeardIs(w, first, |w.left.out| - first, wanted);
    RunSound(w, Heard(first, |w.left.out| - first, wanted));
  }

  /** The left end asks for the bitmap and the right one answers. */
  function Probed(w: World, wanted: bool): World {
    LastHeard(Step(w, TimeoutAt(true)), wanted)
  }

  /** The receiver still lacks cells and its bitmap is on the way. */
  ghost predicate Lacking(p: World, j: Job) {
    && Facing(p, j) && p.right.node.inbox.sequence == p.left.node.txSequence
    && p.right.out != []
    && var bitmap := p.right.node.inbox.bitmap;
       && p.right.node.inbox.total != 0
       && |bitmap| == |p.left.node.mode.pending| && (exists i :: 0 <= i < |bitmap| && !bitmap[i])
       && p.right.out[|p.right.out| - 1] == WindowAck(p.left.node.txSequence, j.id, bitmap, false, false)
  }

  lemma ProbeAnswers(w: World, j: Job, wanted: bool)
    requires Facing(w, j) && w.left.node.mode.attempt + 1 < w.left.limits.retries * ROUNDS_PER_RETRY
    ensures var p := Probed(w, wanted);
            && p.left.node == w.left.node.(mode := p.left.node.mode) && p.left.jobs == w.left.jobs
            && p.left.limits == w.left.limits && p.right.limits == w.right.limits
            && |p.left.out| == |w.left.out| + 1
            && (Answering(p, j, w.right.node.inbox.sequence == w.left.node.txSequence && j.yielding && wanted) ||
                (Lacking(p, j) && w.right.node.inbox.sequence == w.left.node.txSequence &&
                 p.left.node.mode.attempt == w.left.node.mode.attempt + 1))
  {
    hide FitsLimit, Cells, BatchOf, Deliver, Timeout, Full, Sound, Missing, CellCount, Awaits;
    FacingParts(w, j);
    ProbeSent(w.left.node, w.left.limits, w.left.jobs);
    StepSound(w, TimeoutAt(true));
    var u := Step(w, TimeoutAt(true));
    var count := |w.left.node.mode.pending|;
    var c := EndMarker(BatchOf(j), j.id, j.yielding, count);
    assert u.left.out == w.left.out + [Window(w.left.node.txSequence, c)];
    StepSound(u, DeliverTo(false, |w.left.out|, wanted));
    if w.right.node.inbox.sequence == w.left.node.txSequence {
      MarkerFits(j, w.left.limits.transmit);
      CellHeard(w.right.node, w.right.limits, w.left.jobs, c, wanted);
    } else {
      MarkerRepeated(u, j, c, wanted);
    }
  }

  lemma MarkerFits(j: Job, limit: nat)
    requires FitsLimit(j, limit)
    ensures Fits(j, limit, EndMarker(BatchOf(j), j.id, j.yielding, Cells(j, limit)))
  {
  }

  /** A window that was completed before is acknowledged again. */
  lemma MarkerRepeated(w: World, j: Job, c: Cell, wanted: bool)
    requires Facing(w, j) && w.right.node.inbox.sequence == w.left.node.txSequence + 1
    requires c == EndMarker(BatchOf(j), j.id, j.yielding, |w.left.node.mode.pending|)
    ensures |w.right.node.inbox.buffer| == WINDOW_MAX
    ensures Deliver(w.right.node, w.right.limits, Window(w.left.node.txSequence, c), wanted) ==
            (w.right.node.(mode := Receiving(0)),
             [WindowAck(w.left.node.txSequence, j.id, Full(|w.left.node.mode.pending|), true, false)])
  {
    hide FitsLimit, Fits, Cells, BatchOf, Full, TakeCell, CellValid, OnItsWay, CellCount;
    FacingParts(w, j);
    LaneParts(w.left, w.right);
    MarkerFits(j, w.left.limits.transmit);
    FitsIsValid(j, w.left.limits.transmit, c);
    SendableLimit(j, w.left.limits.transmit);
  }

  /** The sender hears which cells are lacking and sends them again. */
  lemma RepairSent(p: World, j: Job)
    requires Lacking(p, j) && p.left.node.mode.attempt + 1 < p.left.limits.retries * ROUNDS_PER_RETRY
    ensures var q, pending := Answered(p), Missing(p.right.node.inbox.bitmap);
            && Facing(q, j) && q.right == p.right && q.left.jobs == p.left.jobs && q.left.limits == p.left.limits
            && q.left.node == p.left.node.(mode := q.left.node.mode)
            && |pending| == Cells(j, q.left.limits.transmit)
            && q.left.limits.transmit > WINDOW_HEADER
            && Covers(q.left.node.mode.batch, q.left.limits.transmit - WINDOW_HEADER, |pending|)
            && q.left.out == p.left.out + CellsOf(q.left.node, q.left.limits, pending)
  {
    hide FitsLimit, Cells, BatchOf, Deliver, Full, Sound, CellCount, Awaits, PendingCells, Covers;
    FacingParts(p, j);
    SendableLimit(j, p.left.limits.transmit);
    var bitmap := p.right.node.inbox.bitmap;
    BitmapHeard(p.left.node, p.left.limits, p.left.jobs, bitmap);
    StepSound(p, DeliverTo(true, |p.right.out| - 1, false));
    var i :| 0 <= i < |bitmap| && !bitmap[i];
    assert Missing(bitmap)[i];
    PendingLeft(p.left.node.txSequence, BatchOf(j), j.id, j.yielding, Capacity(p.left.limits.transmit), Missing(bitmap), 0);
  }

  /** Asks for the bitmap, and repairs with one round if cells are lacking. */
  function Repaired(w: World, wanted: bool): World {
    var p := Answered(Probed(w, wanted));
    HandedOver(if p.left.node.mode.Sending? then Answered(RoundHeard(p, |w.left.out| + 1, wanted)) else p)
  }

  /**
   In every run, whatever was lost before: a window under way, with two rounds
   left to its sender, is finished by one probe and at most one round that
   arrive.  Then everything the sender started was written, and the receiver
   holds the token if it was offered, wanted, and not yet refused.
   */
  lemma WindowGetsThrough(w: World, wanted: bool)
    requires Seen(w) && w.left.node.mode.Sending? && w.right.node.mode.Receiving? && w.right.limits.retries > 0
    requires w.left.node.mode.attempt + 2 < w.left.limits.retries * ROUNDS_PER_RETRY
    ensures var open := w.right.node.inbox.sequence == w.left.node.txSequence;
            Through(w, Repaired(w, wanted), open && w.left.node.mode.yielding && wanted)
  {
    hide Seen, Probed, Through, Answering, Answered, RoundHeard, HandedOver, CellsOf, Covers, Cells, FitsLimit;
    SeenSound(w);
    var j := SentJob(w);
    FacingParts(w, j);
    ProbeAnswers(w, j, wanted);
    var p := Probed(w, wanted);
    var given := w.right.node.inbox.sequence == w.left.node.txSequence && j.yielding && wanted;
    if Answering(p, j, given) {
      AnswerFinishes(p, j, given);
      AnswerNotSending(p, j, given);
      ThroughFrom(w, p, HandedOver(Answered(p)), given);
    } else {
      RepairSent(p, j);
      var q := Answered(p);
      var bitmap := p.right.node.inbox.bitmap;
      var i :| 0 <= i < |bitmap| && !bitmap[i];
      assert Missing(bitmap)[i];
      assert q.left.out[|w.left.out| + 1..] == CellsOf(q.left.node, q.left.limits, Missing(bitmap));
      RoundAnswers(q, j, |w.left.out| + 1, Missing(bitmap), wanted);
      var v := RoundHeard(q, |w.left.out| + 1, wanted);
      AnswerFinishes(v, j, j.yielding && wanted);
      RoundKeepsLimits(q, |w.left.out| + 1, wanted);
      ThroughFrom(w, v, HandedOver(Answered(v)), given);
    }
  }

  function SentJob(w: World): (j: Job)
    requires Sound(w) && w.left.node.mode.Sending?
    ensures w.left.node.txSequence < |w.left.jobs| && j == w.left.jobs[w.left.node.txSequence]
  {
    w.left.jobs[w.left.node.txSequence]
  }

  lemma AnswerNotSending(p: World, j: Job, given: bool)
    requires Answering(p, j, given)
    ensures !Answered(p).left.node.mode.Sending?
  {
    hide FitsLimit, Cells, BatchOf, CellsTrue, DoneOk, Deliver, AcceptancesOk, OnItsWay, Orderly, Full, PacketsOf;
    LaneParts(p.left, p.right);
    LaneParts(p.right, p.left);
    CompletionHeard(p.left.node, p.left.limits, p.left.jobs, given);
  }

  lemma RoundKeepsLimits(w: World, first: nat, wanted: bool)
    requires first <= |w.left.out| && !w.right.node.mode.Sending?
    ensures RoundHeard(w, first, wanted).right.limits == w.right.limits
  {
    HeardIs(w, first, |w.left.out| - first, wanted);
  }

  lemma ThroughFrom(w: World, p: World, v: World, taken: bool)
    requires Through(p, v, taken)
    requires p.left.node.txSequence == w.left.node.txSequence && p.left.jobs == w.left.jobs
    requires p.left.limits == w.left.limits && p.right.limits == w.right.limits
    ensures Through(w, v, taken)
  {
  }

  // ---------------------------------------------------------------------
  // Without loss
  // ---------------------------------------------------------------------

  /** The holder sends a window, its messages arrive in order, and so does the answer. */
  function Transferred(w: World, packets: seq<Packet>, wanted: bool): World {
    HandedOver(Answered(RoundHeard(Step(w, TurnAt(true, packets)), |w.left.out|, wanted)))
  }

  /** In every run: a window the holder starts is written and finished by one round without loss. */
  lemma FreshWindowGetsThrough(w: World, packets: seq<Packet>, wanted: bool)
    requires Seen(w) && w.left.node.mode.Holding? && w.right.node.mode.Receiving? && w.right.limits.retries > 0
    requires AllValid(packets) && 1 <= |packets| < 0x100
    requires TakeTurn(w.left.node, w.left.limits, packets).0.mode.Sending?
    ensures var v := Transferred(w, packets, wanted);
            && v.left.node.txSequence == w.left.node.txSequence + 1
            && v.right.node.written == w.right.node.written + packets
            && if wanted then v.left.node.mode == Receiving(0) && v.right.node.mode == Holding
               else v.left.node.mode == Holding && v.right.node.mode == Receiving(0)
  {
    hide Seen, Answering, Answered, RoundHeard, HandedOver, CellsOf, Covers, Cells, FitsLimit, BatchOf, DoneOk, CellsTrue,
      AcceptancesOk, OnItsWay, Orderly, CellCount, BatchBytes, PendingCells, PacketsOf, TakeTurn;
    SeenSound(w);
    StepSound(w, TurnAt(true, packets));
    LaneParts(w.left, w.right);
    var u := Step(w, TurnAt(true, packets));
    WindowStarted(w.left.node, w.left.limits, packets);
    var j := SentJob(u);
    FacingParts(u, j);
    var pending := u.left.node.mode.pending;
    assert pending[0];
    assert u.left.out[|w.left.out|..] == CellsOf(u.left.node, u.left.limits, pending);
    RoundAnswers(u, j, |w.left.out|, pending, wanted);
    AnswerFinishes(RoundHeard(u, |w.left.out|, wanted), j, j.yielding && wanted);
    PacketsNext(u.left.jobs, |w.left.jobs|);
    assert u.left.jobs[..|w.left.jobs|] == w.left.jobs && u.left.jobs[..|w.left.jobs| + 1] == u.left.jobs;
    assert w.left.jobs[..|w.left.jobs|] == w.left.jobs;
  }

  lemma WindowStarted(n: Node, limits: Limits, packets: seq<Packet>)
    requires AllValid(packets) && 1 <= |packets| < 0x100 && n.mode.Holding?
    requires TakeTurn(n, limits, packets).0.mode.Sending?
    ensures limits.transmit > WINDOW_HEADER
    ensures var r := TakeTurn(n, limits, packets);
            && r.0.txSequence == n.txSequence && r.0.inbox == n.inbox && r.0.mode.yielding && r.0.turn == n.turn
            && |r.0.mode.pending| > 0 && r.0.mode.pending == Full(|r.0.mode.pending|)
            && Covers(r.0.mode.batch, limits.transmit - WINDOW_HEADER, |r.0.mode.pending|)
            && r.1 == CellsOf(r.0, limits, r.0.mode.pending)
  {
    hide BatchBytes, PendingCells, CellStart;
    var id := (n.batchId + 1) % TWO_32;
    var batch := BatchBytes(id, true, packets);
    var capacity := limits.transmit - WINDOW_HEADER;
    CountBounds(|batch|, capacity);
    var pending := Full(CellCount(|batch|, capacity));
    assert pending[0];
    forall i: nat | i < |pending|
      ensures CellStart(capacity, i) <= |batch|
    {
      StartsGrow(capacity, i, |pending| - 1);
    }
    PendingLeft(n.txSequence, batch, id, true, capacity, pending, 0);
  }

  /** The holder offers the token and every message arrives. */
  function Offered(w: World): World {
    HandedOver(Answered(LastHeard(Step(w, TurnAt(true, [])), false)))
  }

  /** In every run: a token that is offered, accepted and committed without loss is held by the other end. */
  lemma TokenGetsThrough(w: World)
    requires Seen(w) && w.left.node.mode.Holding? && w.right.node.mode.Receiving?
    requires w.left.limits.retries > 0 && w.right.limits.retries > 0
    ensures var v := Offered(w); v.left.node.mode == Receiving(0) && v.right.node.mode == Holding
  {
    hide Seen, Deliver, AcceptancesOk, OnItsWay, Orderly;
    SeenSound(w);
    LaneParts(w.left, w.right);
    LaneParts(w.right, w.left);
    var t := w.left.node.turn;
    var u := Step(w, TurnAt(true, []));
    assert u.left.out == w.left.out + [Turn(t)];
    OfferTaken(w.right.node, w.right.limits);
    var x := LastHeard(u, false);
    assert x.right.out == w.right.out + [TurnAck(t)];
    AcceptanceTaken(u.left.node, w.left.limits);
    var y := Answered(x);
    assert y.left.out == u.left.out + [Commit(t)];
    CommitTakes(y.right.node, w.right.limits);
  }

  lemma OfferTaken(n: Node, limits: Limits)
    requires n.mode.Receiving? && |n.inbox.buffer| == WINDOW_MAX && limits.retries > 0
    ensures Deliver(n, limits, Turn(n.turn), false) == (n.(mode := AcceptingTurn(0)), [TurnAck(n.turn)])
  {
  }

  lemma AcceptanceTaken(n: Node, limits: Limits)
    requires n.mode.Yielding? && |n.inbox.buffer| == WINDOW_MAX
    ensures Deliver(n, limits, TurnAck(n.turn), false) == CommitToken(n, false, 0, 0)
  {
  }
}
