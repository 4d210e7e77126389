/**
 Runs without restarts: sessions may time out and be set up again any number of
 times, and still nothing is lost, repeated or moved.
 */
module SessionReconnect {
  import opened Bytes
  import opened PacketTransport
  import opened TransportSteps
  import opened LightSession
  import opened SessionRoute
  import opened SessionRuns

  predicate IsRestart(event: Event) {
    event.RestartClient? || event.RestartGateway?
  }

  /** The generation is the first one, and before it began nothing left the queue. */
  predicate FirstGeneration(r: Route, tx: Sender, joined: bool) {
    && r.start == 0 && r.heardFrom == 0 && |r.tags| == r.heard.done
    && (!joined ==> |tx.outgoing| == |r.log| && r.tags == [])
  }

  ghost predicate Calm(w: World) {
    && (w.client.link.remote.None? || Joined(w))
    && (w.gateway.link.remote.None? || Knows(w.gateway.link, w.client.link.instance))
    && FirstGeneration(w.up, ClientEnd(w).tx, Joined(w))
    && FirstGeneration(w.down, GatewayEnd(w).tx, Joined(w))
  }

  lemma NoTagsNoPackets(r: Route, incoming: seq<Packet>)
    requires TagsOk(r, incoming) && r.tags == []
    ensures incoming == []
  {
    assert |r.dequeued + incoming| == 0;
  }

  lemma CleanDequeue(e: Endpoint, c: Config, room: nat)
    requires Unsynced(e) && e.rx.incoming == []
    ensures Out(Dequeue(e, c, room)) == [] && Dequeue(e, c, room).0 == e
  {
    DrainTurn(e.rx, c);
  }

  lemma EmptyQueues(w: World)
    requires Invariant(w) && Calm(w) && !Joined(w)
    ensures ClientEnd(w).rx.incoming == [] && GatewayEnd(w).rx.incoming == []
    ensures Unsynced(ClientEnd(w)) && Unsynced(GatewayEnd(w))
    ensures w.client.phase != ClientPhase.Connected && w.gateway.phase != GatewayPhase.Connected
  {
    hide TagsOk, JoinedOk, ApartOk, Unsynced;
    NoTagsNoPackets(w.up, GatewayEnd(w).rx.incoming);
    NoTagsNoPackets(w.down, ClientEnd(w).rx.incoming);
  }

  lemma DequeuesCalm(w: World, atClient: bool, room: nat)
    requires Invariant(w) && Calm(w)
    ensures Calm(Dequeues(w, atClient, room))
  {
    hide RouteOk, Dequeue, Unsynced, HandshakeOk;
    var l := if atClient then w.client.link else w.gateway.link;
    if Joined(w) {
      DequeueKeepsSender(l.endpoint, l.config, room);
    } else {
      EmptyQueues(w);
      CleanDequeue(l.endpoint, l.config, room);
    }
  }

  lemma DequeueKeepsSender(e: Endpoint, c: Config, room: nat)
    ensures Dequeue(e, c, room).0.tx == e.tx
  {
    hide Drain;
  }

  lemma EnqueuesCalm(w: World, atClient: bool, packet: Packet)
    requires Invariant(w) && Calm(w)
    ensures Calm(Enqueues(w, atClient, packet))
  {
    hide RouteOk, Unsynced, HandshakeOk;
  }

  lemma SendsCalm(w: World, clientFrame: nat, gatewayFrame: nat)
    requires Invariant(w) && Calm(w)
    ensures Calm(ClientSends(w, clientFrame).0)
    ensures Calm(GatewaySends(w, gatewayFrame).0)
  {
    hide RouteOk, Unsynced, HandshakeOk, Build, ValidSender;
    if !Joined(w) {
      EmptyQueues(w);
    }
  }

  lemma GatewayTakesCalm(w: World, f: LightFrame)
    requires Invariant(w) && Calm(w) && FromClient(f, w)
    ensures Calm(GatewayTakes(w, f))
  {
    hide RouteOk, Unsynced, TakeStream, ResetGeneration, ControlPayload, ControlValid;
    ControlReads(w.client.link.config.maxPacket, w.client.link.instance, w.gateway.link.config.maxPacket);
    if !Joined(w) {
      EmptyQueues(w);
      LearnCleans(w.gateway.link, w.client.link.instance);
      NothingHanded(w.up, GatewayEnd(w).rx);
    }
    StreamKeepsLink(w.gateway.link, f);
    StreamKeepsQueue(w.gateway.link, f);
  }

  lemma StreamKeepsQueue(l: Link, f: LightFrame)
    ensures TakeStream(l, f).0.endpoint.tx.outgoing == l.endpoint.tx.outgoing
  {
    AckKeepsQueue(l.endpoint.tx, f.payload);
  }

  lemma ClientTakesCalm(w: World, f: LightFrame)
    requires Invariant(w) && Calm(w) && FromGateway(f, w)
    ensures Calm(ClientTakes(w, f))
  {
    hide RouteOk, Unsynced, TakeStream, ResetGeneration, ControlPayload, ControlValid, TagsOk;
    ControlReads(w.gateway.link.config.maxPacket, w.gateway.link.instance, w.client.link.config.maxPacket);
    if !Joined(w) {
      EmptyQueues(w);
      LearnCleans(w.client.link, w.gateway.link.instance);
      NothingHanded(w.down, ClientEnd(w).rx);
    }
    StreamKeepsLink(w.client.link, f);
    StreamKeepsQueue(w.client.link, f);
  }

  lemma TimeoutsCalm(w: World, client: bool, gateway: bool, next: uint32)
    requires Calm(w)
    ensures Calm(Timeouts(w, client, gateway, next))
  {
    hide FirstGeneration;
  }

  lemma RoundsCalm(w: World, clientFrame: nat, gatewayFrame: nat, toGateway: bool, toClient: bool, next: uint32)
    requires Invariant(w) && Calm(w)
    ensures Calm(Rounds(w, clientFrame, gatewayFrame, toGateway, toClient, next))
  {
    hide Invariant, Calm, ClientSends, GatewaySends, GatewayTakes, ClientTakes, FromClient, FromGateway, Timeouts;
    var (w1, upward) := ClientSends(w, clientFrame);
    ClientSendsKeeps(w, clientFrame);
    SendsCalm(w, clientFrame, gatewayFrame);
    var (w2, downward) := GatewaySends(w1, gatewayFrame);
    GatewaySendsKeeps(w1, gatewayFrame, upward);
    SendsCalm(w1, clientFrame, gatewayFrame);
    var w3 := w2;
    if toGateway && upward.Some? && downward.Some? {
      w3 := GatewayTakes(w2, upward.value);
      GatewayTakesKeeps(w2, upward.value);
      GatewayTakesCalm(w2, upward.value);
      GatewayFrameStays(w2, upward.value, downward.value);
    }
    var w4 := w3;
    if toClient && upward.Some? && downward.Some? {
      w4 := ClientTakes(w3, downward.value);
      ClientTakesCalm(w3, downward.value);
    }
    TimeoutsCalm(w4, upward.Some?, downward.Some?, next);
  }

  lemma StepCalm(w: World, event: Event)
    requires Invariant(w) && Calm(w) && !IsRestart(event)
    ensures Calm(Step(w, event))
  {
    hide Invariant, Calm, Rounds, Enqueues, Dequeues;
    match event
    case EnqueueAt(atClient, packet) => EnqueuesCalm(w, atClient, packet);
    case DequeueAt(atClient, room) => DequeuesCalm(w, atClient, room);
    case Round(cf, gf, toGateway, toClient, next) => RoundsCalm(w, cf, gf, toGateway, toClient, next);
  }

  lemma {:induction false} RunCalm(w: World, events: seq<Event>)
    requires Invariant(w) && Calm(w) && AllowedRun(w, events)
    requires forall event <- events :: !IsRestart(event)
    ensures Calm(Run(w, events))
  {
    hide Invariant, Calm, Step, Allowed, IsRestart;
    if events != [] {
      var before := events[..|events| - 1];
      assert forall event <- before :: event in events;
      RunCalm(w, before);
      RunKeeps(w, before);
      StepCalm(Run(w, before), events[|events| - 1]);
    }
  }

  lemma WholePrefix(r: Route, tx: Sender, joined: bool, incoming: seq<Packet>)
    requires FirstGeneration(r, tx, joined) && TagsOk(r, incoming)
    ensures r.dequeued + incoming <= r.log
  {
    var all := r.dequeued + incoming;
    assert r.tags[0..] == r.tags == Range(0, |r.tags|);
    assert |all| > 0 ==> r.tags[|all| - 1] == |all| - 1;
    assert forall i | 0 <= i < |all| :: r.log[i] == all[i];
  }

  /**
   Without restarts, whatever is dropped and however often sessions time out and
   begin again, the packets that come out are a prefix of those that went in.
   */
  lemma ReconnectingLosesNothing(c: Client, g: Gateway, events: seq<Event>)
    requires Created(c, g) && AllowedRun(Start(c, g), events)
    requires forall event <- events :: !IsRestart(event)
    ensures var w := Run(Start(c, g), events);
            w.up.dequeued <= w.up.log && w.down.dequeued <= w.down.log
  {
    hide Run, AllowedRun, TagsOk, ApartOk, JoinedOk, HandshakeOk, IsRestart;
    var start := Start(c, g);
    StartOk(c, g);
    RunKeeps(start, events);
    RunCalm(start, events);
    var w := Run(start, events);
    WholePrefix(w.up, ClientEnd(w).tx, Joined(w), GatewayEnd(w).rx.incoming);
    WholePrefix(w.down, GatewayEnd(w).tx, Joined(w), ClientEnd(w).rx.incoming);
  }
}
