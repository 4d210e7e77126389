/** The proxy's queue as the source keeps it, searched by loops and changed in place. */
module ProxyStates {
  import opened Common
  import opened PacketTransport
  import opened ProxyWire
  import opened ProxyQueues

  class ProxyState {
    var queue: Queue
    var preferred: Option<Packet>
    var consecutiveDns: nat

    method HasEarlierKin(i: nat) returns (found: bool)
      requires i < |queue|
      ensures found == EarlierKin(queue, i)
    {
      hide SharesFlow;
      for j := 0 to i
        invariant forall k | 0 <= k < j :: !SharesFlow(queue[k].packet, queue[i].packet)
      {
        if SharesFlow(queue[j].packet, queue[i].packet) {
          return true;
        }
      }
      found := false;
    }

    method HasLaterKin(i: nat) returns (found: bool)
      requires i < |queue|
      ensures found == LaterKin(queue, i)
    {
      hide SharesFlow;
      for j := i + 1 to |queue|
        invariant forall k | i < k < j :: !SharesFlow(queue[i].packet, queue[k].packet)
      {
        if SharesFlow(queue[i].packet, queue[j].packet) {
          return true;
        }
      }
      found := false;
    }

    method CountNonDns() returns (any: bool)
      ensures any == HasNonDns(queue)
    {
      for i := 0 to |queue|
        invariant forall k | 0 <= k < i :: queue[k].priority == DNS
      {
        if queue[i].priority != DNS {
          return true;
        }
      }
      any := false;
    }

    /** The selection loop: skips what may not go, keeps the best so far. */
    method SelectIndex(f: Filter) returns (selected: Option<nat>)
      ensures selected == Choose(queue, f)
    {
      hide SharesFlow, EarlierKin;
      selected := None;
      for i := 0 to |queue|
        invariant selected == Best(queue, f, i)
      {
        var e := queue[i];
        var earlier := HasEarlierKin(i);
        if (!f.allowDns && e.priority == DNS) || (f.flow.Some? && !SharesFlow(f.flow.value, e.packet)) ||
           (f.room.Some? && |e.packet| > f.room.value) || earlier {
          continue;
        }
        if selected.None? || e.priority > queue[selected.value].priority {
          selected := Some(i);
        }
      }
    }

    /** The packet that continues the conversation heard last. */
    method SelectReply() returns (reply: Option<(nat, Packet)>)
      ensures reply == ChooseReply(queue, preferred)
    {
      hide SharesFlow, ReversesFlow, EarlierKin;
      if preferred.None? {
        return None;
      }
      var data, any := |queue|, |queue|;
      var i := 0;
      while i < |queue|
        invariant i <= |queue| && (any == |queue| || any < i)
        invariant if any < |queue| then any == FirstReply(queue, preferred.value, false, 0)
                  else FirstReply(queue, preferred.value, false, i) == FirstReply(queue, preferred.value, false, 0)
        invariant data == |queue|
        invariant FirstReply(queue, preferred.value, true, i) == FirstReply(queue, preferred.value, true, 0)
      {
        if ReversesFlow(preferred.value, queue[i].packet) {
          if any == |queue| {
            any := i;
          }
          if queue[i].priority == TCP_DATA {
            data := i;
            break;
          }
        }
        i := i + 1;
      }
      if any == |queue| {
        return None;
      }
      var outbound := queue[if data < |queue| then data else any].packet;
      var first := 0;
      while first < |queue| && !SharesFlow(outbound, queue[first].packet)
        invariant first <= |queue| && FirstOfFlow(queue, outbound, first) == FirstOfFlow(queue, outbound, 0)
      {
        first := first + 1;
      }
      return if first < |queue| then Some((first, outbound)) else None;
    }

    /** Builds a batch from the queue; what it took leaves the queue. */
    method BuildBatch(body: nat, interactive: nat) returns (packets: seq<Packet>, used: nat)
      requires body <= WINDOW_MAX && BATCH_HEADER < interactive <= body
      modifies this
      ensures var p := Plan(body, interactive, consecutiveDns, old(preferred));
              var end := Fill(FirstDraft(old(queue), p), p);
              && packets == Packets(end.taken) && queue == end.queue
              && used == (if end.taken == [] then 0 else end.used)
              && preferred == (if end.taken != [] && end.replying then None else old(preferred))
              && consecutiveDns == old(consecutiveDns)
    {
      hide Pick, Take;
      ghost var p := Plan(body, interactive, consecutiveDns, preferred);
      var d := Draft(queue, [], BATCH_HEADER, body, None, 0, false, false);
      ghost var end := Fill(d, p);
      while queue != [] && |d.taken| < BATCH_PACKETS && !d.closed
        invariant queue == d.queue && preferred == p.preferred && consecutiveDns == p.dnsSent && Fill(d, p) == end
        decreases |d.queue|
      {
        var picked := PickNext(d, p);
        if picked.None? {
          break;
        }
        var (i, flow, replying) := picked.value;
        var next := Take(d, Plan(body, interactive, consecutiveDns, preferred), i, flow, replying);
        if next.None? {
          break;
        }
        assert |next.value.queue| == |d.queue| - 1 by { TakeShrinks(d, p, i, flow, replying); }
        d := next.value;
        queue := d.queue;
      }
      packets := seq(|d.taken|, k requires 0 <= k < |d.taken| => d.taken[k].packet);
      used := if d.taken == [] then 0 else d.used;
      if d.taken != [] && d.replying {
        preferred := None;
      }
    }

    lemma TakeShrinks(d: Draft, p: Plan, i: nat, flow: Option<Packet>, replying: bool)
      requires i < |d.queue| && Take(d, p, i, flow, replying).Some?
      ensures |Take(d, p, i, flow, replying).value.queue| == |d.queue| - 1
    {
    }

    method PickNext(d: Draft, ghost p: Plan) returns (picked: Option<(nat, Option<Packet>, bool)>)
      requires queue == d.queue && preferred == p.preferred && consecutiveDns == p.dnsSent
      ensures picked == Pick(d, p)
    {
      hide Choose, ChooseReply;
      var nonDns := CountNonDns();
      var allowDns := !nonDns || consecutiveDns + d.dnsTaken < DNS_BURST;
      if d.taken == [] {
        var reply := SelectReply();
        if reply.Some? {
          return Some((reply.value.0, Some(reply.value.1), true));
        }
        var first := SelectIndex(Filter(allowDns, None, None));
        return if first.None? then None else Some((first.value, d.flow, d.replying));
      }
      if d.limit < d.used || d.limit - d.used <= BATCH_ENTRY {
        return None;
      }
      var i := SelectIndex(Filter(allowDns, d.flow, Some(d.limit - d.used - BATCH_ENTRY)));
      return if i.None? then None else Some((i.value, d.flow, d.replying));
    }

    /** The packet to drop when the queue is full. */
    method LowestIndex(e: Entry, replies: bool) returns (low: Option<nat>)
      ensures low == Lowest(queue, e, replies, |queue|)
    {
      hide SharesFlow, LaterKin;
      low := None;
      for i := 0 to |queue|
        invariant low == Lowest(queue, e, replies, i)
      {
        var later := HasLaterKin(i);
        if later || (replies && SharesFlow(e.packet, queue[i].packet)) {
          continue;
        }
        if low.None? || queue[i].priority <= queue[low.value].priority {
          low := Some(i);
        }
      }
    }

    method CountKinds() returns (dns: nat, discovery: nat)
      ensures dns == CountDns(queue) && discovery == CountDiscovery(queue)
    {
      dns, discovery := 0, 0;
      for i := 0 to |queue|
        invariant dns == CountDns(queue[..i]) && discovery == CountDiscovery(queue[..i])
      {
        assert queue[..i + 1][..i] == queue[..i];
        if queue[i].priority == DNS {
          dns := dns + 1;
        }
        if queue[i].discovery {
          discovery := discovery + 1;
        }
      }
      assert queue[..|queue|] == queue;
    }

    /** Admits a packet, drops it, or lets it take another's place. */
    method AdmitPacket(e: Entry, suppressed: bool) returns (status: Status)
      requires QueueOk(queue) && (ValidIp(e.packet) ==> EntryOk(e))
      modifies this
      ensures (queue, status) == Admit(old(queue), e, suppressed, preferred)
      ensures QueueOk(queue) && preferred == old(preferred) && consecutiveDns == old(consecutiveDns)
    {
      hide ValidIp, EntryOk, QueueOk, Supersedes, SharesFlow, ReversesFlow, CountDns, CountDiscovery;
      AdmitKeeps(queue, e, suppressed, preferred);
      if !ValidIp(e.packet) {
        return ErrHeader;
      }
      if suppressed {
        return Ok;
      }
      for i := 0 to |queue|
        invariant FirstMatch(queue, e.packet, i) == FirstMatch(queue, e.packet, 0)
        invariant queue == old(queue) && preferred == old(preferred) && consecutiveDns == old(consecutiveDns)
      {
        if queue[i].packet == e.packet {
          return Ok;
        }
        if Supersedes(e.packet, queue[i].packet) {
          queue := queue[i := e];
          return Ok;
        }
      }
      var dns, discovery := CountKinds();
      if e.discovery && discovery >= DISCOVERY_LIMIT {
        return Ok;
      }
      if e.priority == DNS && dns >= DNS_LIMIT {
        return Ok;
      }
      if |queue| == QUEUE_PACKETS {
        var replies := e.priority == TCP_DATA && preferred.Some? && ReversesFlow(preferred.value, e.packet);
        var low := LowestIndex(e, replies);
        if low.None? || e.priority < queue[low.value].priority || (e.priority == queue[low.value].priority && !replies) {
          return Ok;
        }
        queue := Without(queue, low.value);
      }
      queue := queue + [e];
      status := Ok;
    }
  }
}
