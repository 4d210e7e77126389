/** When a batch ends, and what DNS may take of it. */
module ProxyBatch {
  import opened Common
  import opened PacketTransport
  import opened ProxyWire
  import opened ProxyQueues

  // ---------------------------------------------------------------------
  // The end of a batch
  // ---------------------------------------------------------------------

  /** The packet could still join: nothing of its flow is before it, its kind and its flow are allowed, and it fits. */
  predicate MayJoin(d: Draft, p: Plan, i: nat)
    requires i < |d.queue|
  {
    && (forall j | 0 <= j < i :: !SharesFlow(d.queue[j].packet, d.queue[i].packet))
    && (d.queue[i].priority == DNS && (exists j :: 0 <= j < |d.queue| && d.queue[j].priority != DNS) ==>
          p.dnsSent + d.dnsTaken < DNS_BURST)
    && (d.flow.Some? ==> SharesFlow(d.flow.value, d.queue[i].packet))
    && d.used + BATCH_ENTRY + |d.queue[i].packet| <= d.limit
  }

  /** A batch that has begun stops exactly when it is full, closed, or nothing more may join. */
  lemma BatchStops(d: Draft, p: Plan)
    requires d.taken != [] && forall e <- d.queue :: |e.packet| > 0
    ensures NextDraft(d, p).None? <==>
            || d.queue == [] || |d.taken| >= BATCH_PACKETS || d.closed
            || forall i | 0 <= i < |d.queue| :: !MayJoin(d, p, i)
  {
    hide SharesFlow;
    if d.queue != [] && d.used + BATCH_ENTRY < d.limit {
      var f := Filter(AllowDns(d, p), d.flow, Some(d.limit - d.used - BATCH_ENTRY));
      forall i | 0 <= i < |d.queue|
        ensures Eligible(d.queue, i, f) <==> MayJoin(d, p, i)
      {
      }
    } else {
      forall i | 0 <= i < |d.queue| ensures !MayJoin(d, p, i) {
        assert d.queue[i] in d.queue;
      }
    }
  }

  lemma {:induction false} FillStops(d: Draft, p: Plan)
    ensures NextDraft(Fill(d, p), p).None?
    decreases |d.queue|
  {
    hide NextDraft;
    if NextDraft(d, p).Some? {
      FillStops(NextDraft(d, p).value, p);
    }
  }

  lemma {:induction false} FillKeepsLong(d: Draft, p: Plan)
    requires forall e <- d.queue :: |e.packet| > 0
    ensures forall e <- Fill(d, p).queue :: |e.packet| > 0
    decreases |d.queue|
  {
    hide Pick, LimitFor;
    if NextDraft(d, p).Some? {
      FillKeepsLong(NextDraft(d, p).value, p);
    }
  }

  /**
   A batch that took anything ends only when the queue is empty, it holds 255
   packets, it was closed after one large interactive packet, or no packet that
   waits may join it.
   */
  lemma BatchEnds(queue: Queue, p: Plan)
    requires QueueOk(queue)
    ensures var d := Fill(FirstDraft(queue, p), p);
            d.taken != [] ==>
              || d.queue == [] || |d.taken| >= BATCH_PACKETS || d.closed
              || forall i | 0 <= i < |d.queue| :: !MayJoin(d, p, i)
  {
    hide Fill, MayJoin, NextDraft, CountDns, CountDiscovery;
    forall e | e in queue ensures |e.packet| > 0 {
      assert EntryOk(e);
    }
    FillStops(FirstDraft(queue, p), p);
    FillKeepsLong(FirstDraft(queue, p), p);
    var d := Fill(FirstDraft(queue, p), p);
    if d.taken != [] {
      BatchStops(d, p);
    }
  }

  // ---------------------------------------------------------------------
  // The share of DNS
  // ---------------------------------------------------------------------

  function Share(p: Plan): nat { if p.dnsSent < DNS_BURST then DNS_BURST - p.dnsSent else 0 }

  /** While other traffic waits DNS has not taken more than its share, but for one reply. */
  predicate WithinShare(d: Draft, p: Plan) {
    && d.dnsTaken == CountDns(d.taken)
    && (HasNonDns(d.queue) ==> d.dnsTaken <= Share(p) + if d.replying then 1 else 0)
    && (d.taken == [] ==> d.dnsTaken == 0 && !d.replying)
  }

  lemma OneMoreDns(taken: Queue, e: Entry)
    ensures CountDns(taken + [e]) == CountDns(taken) + if e.priority == DNS then 1 else 0
  {
    assert (taken + [e])[..|taken|] == taken;
  }

  lemma FewerWait(queue: Queue, i: nat)
    requires i < |queue|
    ensures HasNonDns(Without(queue, i)) ==> HasNonDns(queue)
  {
    if HasNonDns(Without(queue, i)) {
      var j :| 0 <= j < |Without(queue, i)| && Without(queue, i)[j].priority != DNS;
      assert queue[if j < i then j else j + 1].priority != DNS;
    }
  }

  lemma NextWithinShare(d: Draft, p: Plan)
    requires WithinShare(d, p) && NextDraft(d, p).Some?
    ensures WithinShare(NextDraft(d, p).value, p)
  {
    hide EarlierKin, SharesFlow, ChooseReply, HasNonDns, CountDns, LimitFor, Without;
    var i := Pick(d, p).value.0;
    OneMoreDns(d.taken, d.queue[i]);
    FewerWait(d.queue, i);
  }

  lemma {:induction false} FillWithinShare(d: Draft, p: Plan)
    requires WithinShare(d, p)
    ensures WithinShare(Fill(d, p), p)
    decreases |d.queue|
  {
    hide WithinShare, NextDraft;
    if NextDraft(d, p).Some? {
      NextWithinShare(d, p);
      FillWithinShare(NextDraft(d, p).value, p);
    }
  }

  /**
   When traffic other than DNS still waits after a batch, the batch took no more
   DNS packets than were left of the burst, but for one that answers the
   conversation heard last.
   */
  lemma DnsWithinBurst(queue: Queue, p: Plan)
    ensures var d := Fill(FirstDraft(queue, p), p);
            (exists i :: 0 <= i < |d.queue| && d.queue[i].priority != DNS) ==>
              CountDns(d.taken) <= (if p.dnsSent < DNS_BURST then DNS_BURST - p.dnsSent else 0) + if d.replying then 1 else 0
  {
    hide Fill, CountDns;
    assert CountDns([]) == 0 by { NoDns(); }
    FillWithinShare(FirstDraft(queue, p), p);
  }

  lemma NoDns()
    ensures CountDns([]) == 0
  {
  }

  lemma {:induction false} FillGoesOn(d: Draft, p: Plan)
    ensures d.taken <= Fill(d, p).taken
    decreases |d.queue|
  {
    hide Pick, LimitFor;
    if NextDraft(d, p).Some? {
      FillGoesOn(NextDraft(d, p).value, p);
    }
  }

  /** After a burst of DNS, waiting traffic of another kind is served first, unless a reply is due. */
  lemma OthersAreServed(queue: Queue, p: Plan)
    requires p.dnsSent >= DNS_BURST && ChooseReply(queue, p.preferred).None?
    requires exists i :: 0 <= i < |queue| && queue[i].priority != DNS
    ensures var d := Fill(FirstDraft(queue, p), p); d.taken != [] ==> d.taken[0].priority != DNS
  {
    hide ChooseReply, EarlierKin, SharesFlow, LimitFor;
    var first := FirstDraft(queue, p);
    if NextDraft(first, p).Some? {
      FillGoesOn(NextDraft(first, p).value, p);
    }
  }

  // ---------------------------------------------------------------------
  // Interactive batches, flows and replies
  // ---------------------------------------------------------------------

  predicate Interactive(e: Entry) { e.priority == CONTROL || e.priority == DNS }

  /** A batch that began with an interactive packet is short, or is that packet alone. */
  predicate Short(d: Draft, p: Plan) {
    && d.used <= p.body && d.limit <= p.body && (d.taken == [] ==> d.limit == p.body && !d.closed) && (d.taken != [] ==> d.used <= d.limit)
    && (d.taken != [] && Interactive(d.taken[0]) ==> d.limit <= p.interactive || (d.closed && |d.taken| == 1))
  }

  lemma NextShort(d: Draft, p: Plan)
    requires Short(d, p) && PlanOk(p) && NextDraft(d, p).Some?
    ensures Short(NextDraft(d, p).value, p)
  {
    hide Pick, Without;
    var next := NextDraft(d, p).value;
    assert d.taken != [] ==> next.taken[0] == d.taken[0];
  }

  lemma {:induction false} FillShort(d: Draft, p: Plan)
    requires Short(d, p) && PlanOk(p)
    ensures Short(Fill(d, p), p)
    decreases |d.queue|
  {
    hide Short, NextDraft;
    if NextDraft(d, p).Some? {
      NextShort(d, p);
      FillShort(NextDraft(d, p).value, p);
    }
  }

  /** A batch whose first packet is DNS or control stays within the interactive capacity, or is that one packet. */
  lemma InteractiveIsShort(queue: Queue, p: Plan)
    requires PlanOk(p)
    ensures var d := Fill(FirstDraft(queue, p), p);
            d.taken != [] && Interactive(d.taken[0]) ==> d.used <= p.interactive || |d.taken| == 1
  {
    hide Fill;
    FillShort(FirstDraft(queue, p), p);
  }

  lemma TcpHasFlow(e: Entry)
    requires EntryOk(e) && e.priority == TCP_DATA
    ensures FlowKey(e.packet).Some?
  {
  }

  /** The TCP data taken is of the flow the batch keeps to, and there is none before it keeps to one. */
  predicate OneFlow(d: Draft) {
    && (forall e <- d.queue :: EntryOk(e)) && (d.taken == [] ==> d.flow.None?)
    && forall e <- d.taken :: e.priority == TCP_DATA ==> d.flow.Some? && SharesFlow(d.flow.value, e.packet)
  }

  lemma WithoutSome(queue: Queue, i: nat)
    requires i < |queue| && forall e <- queue :: EntryOk(e)
    ensures forall e <- Without(queue, i) :: EntryOk(e)
  {
    hide EntryOk;
  }

  lemma NextOneFlow(d: Draft, p: Plan)
    requires OneFlow(d) && NextDraft(d, p).Some?
    ensures OneFlow(NextDraft(d, p).value)
  {
    hide EntryOk, FlowKey, LimitFor, Without, EarlierKin, ReversesFlow;
    var picked := Pick(d, p).value;
    var e := d.queue[picked.0];
    assert e in d.queue;
    WithoutSome(d.queue, picked.0);
    if e.priority == TCP_DATA {
      TcpHasFlow(e);
    }
    if d.taken == [] {
      ReplyShares(d.queue, p.preferred);
    }
  }

  /** The reply chosen is of the flow the batch then keeps to. */
  lemma ReplyShares(queue: Queue, preferred: Option<Packet>)
    ensures var r := ChooseReply(queue, preferred); r.Some? ==> SharesFlow(r.value.1, queue[r.value.0].packet)
  {
    hide FlowKey, ReversesFlow;
  }

  lemma {:induction false} FillOneFlow(d: Draft, p: Plan)
    requires OneFlow(d)
    ensures OneFlow(Fill(d, p))
    decreases |d.queue|
  {
    hide OneFlow, NextDraft;
    if NextDraft(d, p).Some? {
      NextOneFlow(d, p);
      FillOneFlow(NextDraft(d, p).value, p);
    }
  }

  /** A batch carries the data of one TCP flow only. */
  lemma BatchHasOneFlow(queue: Queue, p: Plan)
    requires QueueOk(queue)
    ensures var d := Fill(FirstDraft(queue, p), p);
            forall i, j | 0 <= i < |d.taken| && 0 <= j < |d.taken| && d.taken[i].priority == TCP_DATA && d.taken[j].priority == TCP_DATA ::
              SharesFlow(d.taken[i].packet, d.taken[j].packet)
  {
    hide Fill, EntryOk, FlowKey, CountDns, CountDiscovery;
    FillOneFlow(FirstDraft(queue, p), p);
    var d := Fill(FirstDraft(queue, p), p);
    forall i, j | 0 <= i < |d.taken| && 0 <= j < |d.taken| && d.taken[i].priority == TCP_DATA && d.taken[j].priority == TCP_DATA
      ensures SharesFlow(d.taken[i].packet, d.taken[j].packet)
    {
      assert d.taken[i] in d.taken && d.taken[j] in d.taken;
    }
  }

  lemma {:induction false} ReplyIsFirst(queue: Queue, preferred: Packet, dataOnly: bool, i: nat, m: nat)
    requires i <= m < |queue| && ReversesFlow(preferred, queue[m].packet) && (dataOnly ==> queue[m].priority == TCP_DATA)
    ensures FirstReply(queue, preferred, dataOnly, i) <= m
    decreases |queue| - i
  {
    hide ReversesFlow;
    if i < m {
      ReplyIsFirst(queue, preferred, dataOnly, i + 1, m);
    }
  }

  lemma {:induction false} FlowIsFirst(queue: Queue, flow: Packet, i: nat, m: nat)
    requires i <= m < |queue| && SharesFlow(flow, queue[m].packet)
    ensures FirstOfFlow(queue, flow, i) <= m
    decreases |queue| - i
  {
    hide SharesFlow;
    if i < m {
      FlowIsFirst(queue, flow, i + 1, m);
    }
  }

  /** A batch starts with the first waiting packet that answers the conversation heard last, if there is one. */
  lemma ReplyComesFirst(queue: Queue, p: Plan, m: nat)
    requires queue != [] && p.preferred.Some? && m < |queue| && ReversesFlow(p.preferred.value, queue[m].packet)
    requires forall j | 0 <= j < m :: !ReversesFlow(p.preferred.value, queue[j].packet)
    ensures Pick(FirstDraft(queue, p), p).Some? && Pick(FirstDraft(queue, p), p).value.0 == m
  {
    hide FlowKey, Opposite;
    var preferred := p.preferred.value;
    ReplyIsFirst(queue, preferred, false, 0, m);
    var any, data := FirstReply(queue, preferred, false, 0), FirstReply(queue, preferred, true, 0);
    var outbound := queue[if data < |queue| then data else any].packet;
    assert SharesFlow(outbound, queue[m].packet);
    FlowIsFirst(queue, outbound, 0, m);
    var first := FirstOfFlow(queue, outbound, 0);
    assert ReversesFlow(preferred, queue[first].packet);
  }
}
