/** Exactly which packets the bounded queue of the proxy takes in, and what leaves for them. */
module ProxyAdmission {
  import opened Common
  import opened PacketTransport
  import opened ProxyWire
  import opened ProxyQueues

  /** The new packet is another one of the queue, or brings it up to date. */
  predicate Matches(waiting: Entry, e: Entry) {
    waiting.packet == e.packet || Supersedes(e.packet, waiting.packet)
  }

  predicate Unmatched(queue: Queue, e: Entry) {
    forall waiting <- queue :: !Matches(waiting, e)
  }

  /** The shares of DNS queries and of tunnel discovery are not used up. */
  predicate WithinShares(queue: Queue, e: Entry) {
    && (e.discovery ==> CountDiscovery(queue) < DISCOVERY_LIMIT)
    && (e.priority == DNS ==> CountDns(queue) < DNS_LIMIT)
  }

  /** The packet answers the conversation heard last. */
  predicate Replies(e: Entry, preferred: Option<Packet>) {
    e.priority == TCP_DATA && preferred.Some? && ReversesFlow(preferred.value, e.packet)
  }

  /** No later packet of its flow waits, and it is not of the flow of a reply that comes in. */
  predicate MayLeave(queue: Queue, i: nat, e: Entry, preferred: Option<Packet>)
    requires i < |queue|
  {
    && (forall j | i < j < |queue| :: !SharesFlow(queue[i].packet, queue[j].packet))
    && (Replies(e, preferred) ==> !SharesFlow(e.packet, queue[i].packet))
  }

  /** It may leave, matters less than the new packet, or as much as a reply. */
  predicate Yields(queue: Queue, i: nat, e: Entry, preferred: Option<Packet>)
    requires i < |queue|
  {
    MayLeave(queue, i, e, preferred) &&
    (queue[i].priority < e.priority || (queue[i].priority == e.priority && Replies(e, preferred)))
  }

  /** It may leave, and of all that may it matters least, the latest of equals. */
  predicate First(queue: Queue, i: nat, e: Entry, preferred: Option<Packet>)
    requires i < |queue|
  {
    MayLeave(queue, i, e, preferred) &&
    forall j | 0 <= j < |queue| && MayLeave(queue, j, e, preferred) ::
      queue[i].priority < queue[j].priority || (queue[i].priority == queue[j].priority && j <= i)
  }

  lemma EvictableIs(queue: Queue, i: nat, e: Entry, preferred: Option<Packet>)
    requires i < |queue|
    ensures Evictable(queue, i, e, Replies(e, preferred)) <==> MayLeave(queue, i, e, preferred)
  {
    hide SharesFlow, ReversesFlow;
  }

  lemma NoMatch(queue: Queue, e: Entry)
    ensures FirstMatch(queue, e.packet, 0) == |queue| <==> Unmatched(queue, e)
  {
    hide Supersedes;
    FirstMatchBefore(queue, e.packet, 0);
    var m := FirstMatch(queue, e.packet, 0);
    if m < |queue| {
      assert queue[m] in queue;
    }
  }

  lemma {:induction false} FirstMatchBefore(queue: Queue, p: Packet, i: nat)
    requires i <= |queue|
    ensures forall k | i <= k < FirstMatch(queue, p, i) :: !(queue[k].packet == p || Supersedes(p, queue[k].packet))
    decreases |queue| - i
  {
    hide Supersedes;
    if i < |queue| && !(queue[i].packet == p || Supersedes(p, queue[i].packet)) {
      FirstMatchBefore(queue, p, i + 1);
    }
  }

  /**
   A valid packet that is not suppressed, matches none of the queue and is within
   its share joins the end of a queue that is not full; everything else stays.
   */
  lemma NewPacketJoins(queue: Queue, e: Entry, preferred: Option<Packet>)
    requires ValidIp(e.packet) && Unmatched(queue, e) && WithinShares(queue, e) && |queue| != QUEUE_PACKETS
    ensures Admit(queue, e, false, preferred) == (queue + [e], Ok)
  {
    hide Unmatched, ValidIp, CountDns, CountDiscovery;
    NoMatch(queue, e);
  }

  /**
   A full queue takes such a packet in exactly when a packet yields to it; then
   one packet leaves, the first to go, and there is exactly one such packet.
   */
  lemma FullQueueExact(queue: Queue, e: Entry, preferred: Option<Packet>)
    requires ValidIp(e.packet) && Unmatched(queue, e) && WithinShares(queue, e) && |queue| == QUEUE_PACKETS
    ensures var after := Admit(queue, e, false, preferred);
            && after.1 == Ok
            && (if exists i: nat :: i < |queue| && Yields(queue, i, e, preferred)
                then exists low: nat :: low < |queue| && First(queue, low, e, preferred) && after.0 == Without(queue, low) + [e]
                else after.0 == queue)
    ensures forall i: nat, j: nat | i < |queue| && j < |queue| && First(queue, i, e, preferred) && First(queue, j, e, preferred) :: i == j
  {
    hide Unmatched, ValidIp, CountDns, CountDiscovery, MayLeave, Evictable, ReversesFlow;
    NoMatch(queue, e);
    forall i: nat | i < |queue|
      ensures Evictable(queue, i, e, Replies(e, preferred)) <==> MayLeave(queue, i, e, preferred)
    {
      EvictableIs(queue, i, e, preferred);
    }
    var low := Lowest(queue, e, Replies(e, preferred), |queue|);
    if low.Some? {
      assert First(queue, low.value, e, preferred);
      if MakeRoom(queue, e, preferred).Some? {
        assert Yields(queue, low.value, e, preferred);
      }
    }
  }

  /** A packet that matches takes the place of the first it supersedes, or leaves the queue as it is if it waits already. */
  lemma MatchingPacketStays(queue: Queue, e: Entry, preferred: Option<Packet>, m: nat)
    requires ValidIp(e.packet) && m < |queue| && Matches(queue[m], e) && forall k | 0 <= k < m :: !Matches(queue[k], e)
    ensures Admit(queue, e, false, preferred) == (if queue[m].packet == e.packet then queue else queue[m := e], Ok)
  {
    hide Supersedes, ValidIp, CountDns, CountDiscovery;
    FirstMatchBefore(queue, e.packet, 0);
  }

  /** Everything else is turned away: no valid packet is an error, the others are dropped. */
  lemma OthersAreDropped(queue: Queue, e: Entry, suppressed: bool, preferred: Option<Packet>)
    ensures !ValidIp(e.packet) ==> Admit(queue, e, suppressed, preferred) == (queue, ErrHeader)
    ensures ValidIp(e.packet) && (suppressed || (Unmatched(queue, e) && !WithinShares(queue, e))) ==>
              Admit(queue, e, suppressed, preferred) == (queue, Ok)
  {
    hide Unmatched, ValidIp, CountDns, CountDiscovery;
    NoMatch(queue, e);
  }
}
