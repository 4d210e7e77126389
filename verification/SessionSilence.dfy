/** When a peer gives up: exactly when it has heard nothing for its whole timeout, whatever else happens. */
module SessionSilence {
  import opened Bytes
  import opened Common
  import opened PacketTransport
  import opened LightSession
  import opened SessionRoute
  import opened SessionRuns

  // ---------------------------------------------------------------------
  // A peer that is up has heard its peer lately
  // ---------------------------------------------------------------------

  predicate Awake(l: Link) {
    l.hasReceived && l.lastReceive <= l.frame < l.lastReceive + l.timeout
  }

  predicate HeardLately(w: World) {
    && w.client.link.lastReceive <= w.client.link.frame && (w.client.phase != Discovering ==> Awake(w.client.link))
    && w.gateway.link.lastReceive <= w.gateway.link.frame && (w.gateway.phase != Listening ==> Awake(w.gateway.link))
  }

  /** What a round leaves alone in a link until its peer is heard. */
  predicate SameClock(l: Link, after: Link) {
    && after.lastReceive == l.lastReceive && after.hasReceived == l.hasReceived
    && after.frame >= l.frame && after.timeout == l.timeout
  }

  /** What a link that heard its peer looks like. */
  predicate JustHeard(l: Link, after: Link) {
    after.frame == l.frame && after.timeout == l.timeout && after.hasReceived && after.lastReceive == after.frame
  }

  lemma SendsClock(w: World, frame: nat)
    ensures var (after, f) := ClientSends(w, frame);
            && after.gateway == w.gateway && SameClock(w.client.link, after.client.link)
            && after.client.phase == w.client.phase && after.client.session == w.client.session
            && (f.None? ==> after == w)
    ensures var (after, f) := GatewaySends(w, frame);
            && after.client == w.client && SameClock(w.gateway.link, after.gateway.link)
            && after.gateway.phase == w.gateway.phase && after.gateway.session == w.gateway.session
            && (f.None? ==> after == w)
  {
    hide Build, ControlPayload, ValidSender;
  }

  lemma TakesClock(w: World, f: LightFrame)
    ensures var after := GatewayTakes(w, f);
            && after.client == w.client
            && (after.gateway == w.gateway || JustHeard(w.gateway.link, after.gateway.link) ||
                (after.gateway.phase == w.gateway.phase && SameClock(w.gateway.link, after.gateway.link)))
    ensures var after := ClientTakes(w, f);
            && after.gateway == w.gateway
            && (after.client == w.client || JustHeard(w.client.link, after.client.link) ||
                (after.client.phase == w.client.phase && SameClock(w.client.link, after.client.link)))
  {
    hide Process, ControlValid, ReceiverReset, SenderReset, Handing, Join, ResetGeneration;
  }

  /** Queue operations do not touch the clocks. */
  lemma QueuesClock(w: World, atClient: bool, packet: Packet, room: nat)
    ensures forall after | after in {Enqueues(w, atClient, packet), Dequeues(w, atClient, room)} ::
              && SameClock(w.client.link, after.client.link) && after.client.phase == w.client.phase && after.client.session == w.client.session
              && after.client.link.frame == w.client.link.frame
              && SameClock(w.gateway.link, after.gateway.link) && after.gateway.phase == w.gateway.phase && after.gateway.session == w.gateway.session
              && after.gateway.link.frame == w.gateway.link.frame
  {
    hide Enqueue, Dequeue, Logging, Handing;
  }

  lemma RoundHeard(w: World, clientFrame: nat, gatewayFrame: nat, toGateway: bool, toClient: bool, next: uint32)
    requires HeardLately(w)
    ensures HeardLately(Rounds(w, clientFrame, gatewayFrame, toGateway, toClient, next))
  {
    hide ClientSends, GatewaySends, ClientTakes, GatewayTakes;
    var (w1, upward) := ClientSends(w, clientFrame);
    var (w2, downward) := GatewaySends(w1, gatewayFrame);
    SendsClock(w, clientFrame);
    SendsClock(w1, gatewayFrame);
    if upward.Some? && downward.Some? {
      TakesClock(w2, upward.value);
      var w3 := if toGateway then GatewayTakes(w2, upward.value) else w2;
      TakesClock(w3, downward.value);
    }
  }

  lemma StepHeard(w: World, event: Event)
    requires HeardLately(w)
    ensures HeardLately(Step(w, event))
  {
    hide Rounds, Enqueues, Dequeues, SenderCrash, ReceiverCrash, Fresh;
    match event
    case EnqueueAt(atClient, packet) => QueuesClock(w, atClient, packet, 0);
    case DequeueAt(atClient, room) => QueuesClock(w, atClient, [], room);
    case Round(cf, gf, toGateway, toClient, next) => RoundHeard(w, cf, gf, toGateway, toClient, next);
    case _ =>
  }

  lemma {:induction false} RunHeard(w: World, events: seq<Event>)
    requires HeardLately(w)
    ensures HeardLately(Run(w, events))
  {
    hide HeardLately, Step;
    if events != [] {
      RunHeard(w, events[..|events| - 1]);
      StepHeard(Run(w, events[..|events| - 1]), events[|events| - 1]);
    }
  }

  /** In every run, with crashes and restarts: a peer that has begun a handshake or is connected has heard a frame within its timeout. */
  lemma NobodyWaitsLonger(w: World)
    requires Reachable(w)
    ensures HeardLately(w)
  {
    var c: Client, g: Gateway, events: seq<Event> :|
      Created(c, g) && AllowedRun(Start(c, g), events) && w == Run(Start(c, g), events);
    RunHeard(Start(c, g), events);
  }

  // ---------------------------------------------------------------------
  // How long silence is borne
  // ---------------------------------------------------------------------

  function Deadline(l: Link): nat { l.lastReceive + l.timeout }

  /** No frame reaches this peer, and it is not restarted. */
  predicate SilentFor(event: Event, client: bool) {
    match event
    case Round(_, _, toGateway, toClient, _) => if client then !toClient else !toGateway
    case RestartClient(_, _, _, _, _) => !client
    case RestartGateway(_, _, _, _) => client
    case _ => true
  }

  /** The client is as it was until its deadline, and looks for the gateway after. */
  predicate ClientBears(before: Client, after: Client) {
    && Deadline(after.link) == Deadline(before.link) && after.link.timeout == before.link.timeout && after.link.frame >= before.link.frame
    && if after.link.frame < Deadline(before.link) then
         after.phase == before.phase && after.session == before.session && after.link.hasReceived
       else after.phase == Discovering
  }

  predicate GatewayBears(before: Gateway, after: Gateway) {
    && Deadline(after.link) == Deadline(before.link) && after.link.timeout == before.link.timeout && after.link.frame >= before.link.frame
    && if after.link.frame < Deadline(before.link) then
         after.phase == before.phase && after.session == before.session && after.link.hasReceived
       else after.phase == Listening
  }

  lemma RoundBears(before: World, w: World, clientFrame: nat, gatewayFrame: nat, toGateway: bool, toClient: bool, next: uint32)
    requires w.client.link.lastReceive <= w.client.link.frame && w.gateway.link.lastReceive <= w.gateway.link.frame
    ensures var after := Rounds(w, clientFrame, gatewayFrame, toGateway, toClient, next);
            && (ClientBears(before.client, w.client) && !toClient ==> ClientBears(before.client, after.client))
            && (GatewayBears(before.gateway, w.gateway) && !toGateway ==> GatewayBears(before.gateway, after.gateway))
  {
    hide ClientSends, GatewaySends, ClientTakes, GatewayTakes;
    var (w1, upward) := ClientSends(w, clientFrame);
    var (w2, downward) := GatewaySends(w1, gatewayFrame);
    SendsClock(w, clientFrame);
    SendsClock(w1, gatewayFrame);
    if upward.Some? && downward.Some? {
      TakesClock(w2, upward.value);
      var w3 := if toGateway then GatewayTakes(w2, upward.value) else w2;
      TakesClock(w3, downward.value);
    }
  }

  lemma StepBears(before: World, w: World, event: Event)
    requires HeardLately(w)
    ensures ClientBears(before.client, w.client) && SilentFor(event, true) ==> ClientBears(before.client, Step(w, event).client)
    ensures GatewayBears(before.gateway, w.gateway) && SilentFor(event, false) ==> GatewayBears(before.gateway, Step(w, event).gateway)
  {
    hide Rounds, Enqueues, Dequeues, SenderCrash, ReceiverCrash, Fresh;
    match event
    case EnqueueAt(atClient, packet) => QueuesClock(w, atClient, packet, 0);
    case DequeueAt(atClient, room) => QueuesClock(w, atClient, [], room);
    case Round(cf, gf, toGateway, toClient, next) => RoundBears(before, w, cf, gf, toGateway, toClient, next);
    case _ =>
  }

  /**
   From every state a run can reach: a client that hears nothing keeps its phase
   and its session exactly until its local frame is the timeout past the last one
   it heard a frame in, whatever the gateway does.
   */
  lemma {:induction false} ClientBearsSilence(w: World, events: seq<Event>)
    requires HeardLately(w) && w.client.phase != Discovering && forall event <- events :: SilentFor(event, true)
    ensures ClientBears(w.client, Run(w, events).client)
  {
    assert ClientBears(w.client, w.client);
    hide HeardLately, Step, SilentFor, ClientBears, GatewayBears;
    if events != [] {
      var n := |events| - 1;
      assert events[n] in events && forall event <- events[..n] :: event in events;
      ClientBearsSilence(w, events[..n]);
      RunHeard(w, events[..n]);
      StepBears(w, Run(w, events[..n]), events[n]);
    }
  }

  /** So does the gateway. */
  lemma {:induction false} GatewayBearsSilence(w: World, events: seq<Event>)
    requires HeardLately(w) && w.gateway.phase != Listening && forall event <- events :: SilentFor(event, false)
    ensures GatewayBears(w.gateway, Run(w, events).gateway)
  {
    assert GatewayBears(w.gateway, w.gateway);
    hide HeardLately, Step, SilentFor, ClientBears, GatewayBears;
    if events != [] {
      var n := |events| - 1;
      assert events[n] in events && forall event <- events[..n] :: event in events;
      GatewayBearsSilence(w, events[..n]);
      RunHeard(w, events[..n]);
      StepBears(w, Run(w, events[..n]), events[n]);
    }
  }

  // ---------------------------------------------------------------------
  // Nothing else ends a connection
  // ---------------------------------------------------------------------

  /** No frame disconnects a peer: not a discovery of another session, not a repeated handshake, not a damaged cell. */
  lemma FramesKeepConnections(w: World, f: LightFrame)
    ensures w.gateway.phase == GatewayPhase.Connected ==>
              GatewayTakes(w, f).gateway.phase == GatewayPhase.Connected && GatewayTakes(w, f).gateway.session == w.gateway.session
    ensures w.client.phase == ClientPhase.Connected ==>
              ClientTakes(w, f).client.phase == ClientPhase.Connected && ClientTakes(w, f).client.session == w.client.session
  {
    hide Process, ControlValid, ReceiverReset, SenderReset, Handing, Join, ResetGeneration;
  }

  /** A connected client stays so in its session, unless it is restarted or has heard nothing for its timeout. */
  predicate ClientLasts(before: Client, after: Client) {
    before.phase == ClientPhase.Connected ==>
      if after.link.frame < Deadline(after.link) then after.phase == ClientPhase.Connected && after.session == before.session
      else after.phase == Discovering
  }

  predicate GatewayLasts(before: Gateway, after: Gateway) {
    before.phase == GatewayPhase.Connected ==>
      if after.link.frame < Deadline(after.link) then after.phase == GatewayPhase.Connected && after.session == before.session
      else after.phase == Listening
  }

  lemma RoundLasts(w: World, clientFrame: nat, gatewayFrame: nat, toGateway: bool, toClient: bool, next: uint32)
    requires HeardLately(w)
    ensures var after := Rounds(w, clientFrame, gatewayFrame, toGateway, toClient, next);
            ClientLasts(w.client, after.client) && GatewayLasts(w.gateway, after.gateway)
  {
    hide ClientSends, GatewaySends, ClientTakes, GatewayTakes;
    var (w1, upward) := ClientSends(w, clientFrame);
    var (w2, downward) := GatewaySends(w1, gatewayFrame);
    SendsClock(w, clientFrame);
    SendsClock(w1, gatewayFrame);
    if upward.Some? && downward.Some? {
      TakesClock(w2, upward.value);
      FramesKeepConnections(w2, upward.value);
      var w3 := if toGateway then GatewayTakes(w2, upward.value) else w2;
      TakesClock(w3, downward.value);
      FramesKeepConnections(w3, downward.value);
    }
  }

  /** In every run a connection ends only by a restart or by silence. */
  lemma ConnectionsEndBySilence(w: World, event: Event)
    requires Reachable(w)
    ensures !event.RestartClient? ==> ClientLasts(w.client, Step(w, event).client)
    ensures !event.RestartGateway? ==> GatewayLasts(w.gateway, Step(w, event).gateway)
  {
    NobodyWaitsLonger(w);
    hide Reachable, Rounds, Enqueues, Dequeues, SenderCrash, ReceiverCrash, Fresh;
    match event
    case EnqueueAt(atClient, packet) => QueuesClock(w, atClient, packet, 0);
    case DequeueAt(atClient, room) => QueuesClock(w, atClient, [], room);
    case Round(cf, gf, toGateway, toClient, next) => RoundLasts(w, cf, gf, toGateway, toClient, next);
    case _ =>
  }
}
