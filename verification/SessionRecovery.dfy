/**
 Recovery: from every world a run reaches, however it was broken before, the
 peers are connected after a bounded number of rounds without loss.
 */
module SessionRecovery {
  import opened Bytes
  import opened PacketTransport
  import opened TransportSteps
  import opened LightSession
  import opened SessionRoute
  import opened SessionRuns

  // ---------------------------------------------------------------------
  // Phases of one session
  // ---------------------------------------------------------------------

  predicate ClockOk(l: Link, idle: bool) {
    l.lastReceive <= l.frame && (!idle ==> l.hasReceived)
  }

  /** Within one session the two phases are at most one step apart. */
  predicate PhasesOk(w: World) {
    var c, g := w.client, w.gateway;
    && ClockOk(c.link, c.phase == Discovering) && ClockOk(g.link, g.phase == Listening)
    && (g.session == c.session ==>
          match g.phase
          case Listening => true
          case Offering => c.phase != ClientPhase.Connected
          case Accepted => c.phase != Discovering
          case Connected => c.phase == ClientPhase.Connected)
  }

  /** An acceptance on its way to the client is still meant. */
  predicate ReadyMeant(f: LightFrame, w: World) {
    f.session == w.client.session && f.kind == Ready ==>
      w.gateway.phase == Accepted || w.gateway.phase == GatewayPhase.Connected
  }

  predicate SameLimit(w: World) {
    w.client.link.config.maxPacket == w.gateway.link.config.maxPacket
  }

  /** What a frame of the client does to the gateway's phase, session and clock. */
  lemma GatewayOutcome(w: World, f: LightFrame)
    requires Invariant(w) && FromClient(f, w)
    ensures var g, after := w.gateway, GatewayTakes(w, f).gateway;
            var same := g.session == w.client.session;
            && after.link.frame == g.link.frame && after.link.timeout == g.link.timeout && after.link.config == g.link.config
            && match f.kind
               case Discover =>
                 if !SameLimit(w) || (g.phase == GatewayPhase.Connected && !same) then after == g
                 else && after.session == w.client.session && after.link.hasReceived && after.link.lastReceive == g.link.frame
                      && after.phase == if same then g.phase else Offering
               case Confirm =>
                 if SameLimit(w) && same && (g.phase == Offering || g.phase == Accepted) then
                   && after.session == g.session && after.phase == Accepted
                   && after.link.hasReceived && after.link.lastReceive == g.link.frame
                 else after == g
               case _ =>
                 if same && (g.phase == Accepted || g.phase == GatewayPhase.Connected) then
                   && after.session == g.session && after.phase == GatewayPhase.Connected
                   && after.link.hasReceived && after.link.lastReceive == g.link.frame
                 else after == g
    ensures GatewayTakes(w, f).client == w.client
  {
    hide RouteOk, Unsynced, Handing, More, SenderReset, ReceiverReset, ResetGeneration, ControlPayload, ControlValid,
      AckOk, DataOk, Process, TakeStream;
    ControlReads(w.client.link.config.maxPacket, w.client.link.instance, w.gateway.link.config.maxPacket);
    if IsStream(f) && Joined(w) {
      ProcessMoves(GatewayEnd(w), w.gateway.link.config, StreamPart(f), ClientEnd(w), w.client.link.config, w.up, w.down);
      TakenStream(w.gateway.link, f);
    }
  }

  /** What a frame of the gateway does to the client's phase, session and clock. */
  lemma ClientOutcome(w: World, f: LightFrame)
    requires Invariant(w) && FromGateway(f, w)
    ensures var c, after := w.client, ClientTakes(w, f).client;
            && after.link.frame == c.link.frame && after.link.timeout == c.link.timeout && after.link.config == c.link.config
            && after.session == c.session
            && if f.session != c.session then after == c
               else match f.kind
                    case Offer =>
                      if !SameLimit(w) || c.phase == ClientPhase.Connected then after == c
                      else after.phase == Confirming && after.link.hasReceived && after.link.lastReceive == c.link.frame
                    case Ready =>
                      if !SameLimit(w) || c.phase == Discovering then after == c
                      else after.phase == ClientPhase.Connected && after.link.hasReceived && after.link.lastReceive == c.link.frame
                    case _ =>
                      if c.phase == ClientPhase.Connected then
                        after.phase == ClientPhase.Connected && after.link.hasReceived && after.link.lastReceive == c.link.frame
                      else after == c
    ensures ClientTakes(w, f).gateway == w.gateway
  {
    hide RouteOk, Unsynced, Handing, More, Join, ResetGeneration, ControlPayload, ControlValid,
      AckOk, DataOk, Process, TakeStream;
    ControlReads(w.gateway.link.config.maxPacket, w.gateway.link.instance, w.client.link.config.maxPacket);
    if IsStream(f) && f.session == w.client.session {
      ProcessMoves(ClientEnd(w), w.client.link.config, StreamPart(f), GatewayEnd(w), w.gateway.link.config, w.down, w.up);
      TakenStream(w.client.link, f);
    }
  }

  // ---------------------------------------------------------------------
  // A round in terms of phases
  // ---------------------------------------------------------------------

  /** The kind of frame each phase sends. */
  lemma ClientSpeaks(w: World, frame: nat)
    requires Invariant(w) && PhasesOk(w)
    ensures var (after, f) := ClientSends(w, frame);
            && after.gateway == w.gateway && after.client.phase == w.client.phase && after.client.session == w.client.session
            && after.client.link == w.client.link.(frame := after.client.link.frame, endpoint := ClientEnd(after))
            && (f.Some? ==>
                  && after.client.link.frame == frame
                  && match w.client.phase
                     case Discovering => f.value.kind == Discover
                     case Confirming => f.value.kind == Confirm
                     case Connected => IsStream(f.value))
            && (f.None? ==> after == w)
            && PhasesOk(after)
  {
    hide Build, ValidSender, RouteOk, HandshakeOk, Cutting;
  }

  lemma GatewaySpeaks(w: World, frame: nat)
    requires Invariant(w) && PhasesOk(w)
    ensures var (after, f) := GatewaySends(w, frame);
            && after.client == w.client && after.gateway.phase == w.gateway.phase && after.gateway.session == w.gateway.session
            && after.gateway.link == w.gateway.link.(frame := after.gateway.link.frame, endpoint := GatewayEnd(after))
            && (f.Some? ==>
                  && after.gateway.link.frame == frame && f.value.session == w.gateway.session
                  && ReadyMeant(f.value, after)
                  && match w.gateway.phase
                     case Listening => f.value.kind == Idle
                     case Offering => f.value.kind == Offer
                     case Accepted => f.value.kind == Ready
                     case Connected => IsStream(f.value))
            && (f.None? ==> after == w)
            && PhasesOk(after)
  {
    hide Build, ValidSender, RouteOk, CleanOk, KnowledgeOk, Cutting;
  }

  lemma GatewayTakesPhases(w: World, f: LightFrame, downward: LightFrame)
    requires Invariant(w) && PhasesOk(w) && FromClient(f, w) && FromGateway(downward, w) && ReadyMeant(downward, w)
    ensures PhasesOk(GatewayTakes(w, f)) && ReadyMeant(downward, GatewayTakes(w, f))
  {
    hide RouteOk, CleanOk, GatewayTakes;
    GatewayOutcome(w, f);
  }

  lemma ClientTakesPhases(w: World, f: LightFrame)
    requires Invariant(w) && PhasesOk(w) && FromGateway(f, w) && ReadyMeant(f, w)
    ensures PhasesOk(ClientTakes(w, f))
  {
    hide RouteOk, CleanOk, ClientTakes;
    ClientOutcome(w, f);
  }

  lemma TimeoutsPhases(w: World, clientRuns: bool, gatewayRuns: bool, next: uint32)
    requires Invariant(w) && PhasesOk(w) && FreshId(next, w.used)
    ensures PhasesOk(Timeouts(w, clientRuns, gatewayRuns, next))
  {
    hide RouteOk, CleanOk;
  }

  lemma RoundsPhases(w: World, clientFrame: nat, gatewayFrame: nat, toGateway: bool, toClient: bool, next: uint32)
    requires Invariant(w) && PhasesOk(w) && FreshId(next, w.used)
    ensures PhasesOk(Rounds(w, clientFrame, gatewayFrame, toGateway, toClient, next))
  {
    hide Invariant, PhasesOk, ClientSends, GatewaySends, GatewayTakes, ClientTakes, Timeouts, FromClient, FromGateway, ReadyMeant;
    var (w1, upward) := ClientSends(w, clientFrame);
    ClientSendsKeeps(w, clientFrame);
    ClientSpeaks(w, clientFrame);
    var (w2, downward) := GatewaySends(w1, gatewayFrame);
    GatewaySendsKeeps(w1, gatewayFrame, upward);
    GatewaySpeaks(w1, gatewayFrame);
    var w3 := w2;
    if toGateway && upward.Some? && downward.Some? {
      w3 := GatewayTakes(w2, upward.value);
      GatewayTakesKeeps(w2, upward.value);
      GatewayTakesPhases(w2, upward.value, downward.value);
      GatewayFrameStays(w2, upward.value, downward.value);
    }
    var w4 := w3;
    if toClient && upward.Some? && downward.Some? {
      w4 := ClientTakes(w3, downward.value);
      ClientTakesKeeps(w3, downward.value);
      ClientTakesPhases(w3, downward.value);
    }
    UsedSame(w, clientFrame, gatewayFrame, toGateway, toClient);
    TimeoutsPhases(w4, upward.Some?, downward.Some?, next);
  }

  lemma StepPhases(w: World, event: Event)
    requires Invariant(w) && PhasesOk(w) && Allowed(event, w.used)
    ensures PhasesOk(Step(w, event))
  {
    hide RouteOk, CleanOk, Rounds, Enqueue, Dequeue;
    match event
    case Round(cf, gf, toGateway, toClient, next) => RoundsPhases(w, cf, gf, toGateway, toClient, next);
    case _ =>
  }

  lemma {:induction false} RunPhases(w: World, events: seq<Event>)
    requires Invariant(w) && PhasesOk(w) && AllowedRun(w, events)
    ensures PhasesOk(Run(w, events))
  {
    hide Invariant, PhasesOk, Step, Allowed;
    if events != [] {
      RunPhases(w, events[..|events| - 1]);
      RunKeeps(w, events[..|events| - 1]);
      StepPhases(Run(w, events[..|events| - 1]), events[|events| - 1]);
    }
  }

  lemma PhasesHold(w: World)
    requires Reachable(w)
    ensures PhasesOk(w)
  {
    hide Run, AllowedRun, Invariant;
    var c: Client, g: Gateway, events: seq<Event> :|
      Created(c, g) && AllowedRun(Start(c, g), events) && w == Run(Start(c, g), events);
    StartOk(c, g);
    RunPhases(Start(c, g), events);
  }

  // ---------------------------------------------------------------------
  // Rounds without loss
  // ---------------------------------------------------------------------

  predicate BothConnected(w: World) {
    w.client.phase == ClientPhase.Connected && w.gateway.phase == GatewayPhase.Connected
  }

  /** How many frames are left, at least one, before silence is taken for a lost peer. */
  function Patience(l: Link): nat {
    if l.lastReceive + l.timeout <= l.frame + 1 then 1 else l.lastReceive + l.timeout - l.frame
  }

  /** An upper bound for the rounds without loss that are still needed. */
  function Rank(w: World): nat {
    var c, g := w.client, w.gateway;
    if g.session == c.session then
      match g.phase
      case Listening => 5
      case Offering => if c.phase == Discovering then 4 else 3
      case Accepted => if c.phase == Confirming then 2 else 1
      case Connected => 0
    else if c.phase != Discovering then 5 + Patience(c.link)
    else if g.phase == GatewayPhase.Connected then 5 + Patience(g.link)
    else 5
  }

  lemma {:induction false} LosslessRound(w: World, clientFrame: nat, gatewayFrame: nat, next: uint32)
    requires Invariant(w) && PhasesOk(w) && SameLimit(w) && FreshId(next, w.used)
    requires clientFrame > w.client.link.frame && gatewayFrame > w.gateway.link.frame
    requires w.client.link.timeout >= 1 && w.gateway.link.timeout >= 1
    ensures var after := Rounds(w, clientFrame, gatewayFrame, true, true, next);
            && SameLimit(after)
            && after.client.link.frame == clientFrame && after.gateway.link.frame == gatewayFrame
            && after.client.link.timeout == w.client.link.timeout && after.gateway.link.timeout == w.gateway.link.timeout
            && if BothConnected(w) then BothConnected(after) else Rank(after) < Rank(w)
  {
    hide RouteOk, CleanOk, ClientSends, GatewaySends, GatewayTakes, ClientTakes, FromClient, FromGateway;
    var (w1, upward) := ClientSends(w, clientFrame);
    ClientSendsKeeps(w, clientFrame);
    ClientSpeaks(w, clientFrame);
    var (w2, downward) := GatewaySends(w1, gatewayFrame);
    GatewaySendsKeeps(w1, gatewayFrame, upward);
    GatewaySpeaks(w1, gatewayFrame);
    var w3 := GatewayTakes(w2, upward.value);
    GatewayTakesKeeps(w2, upward.value);
    GatewayOutcome(w2, upward.value);
    GatewayFrameStays(w2, upward.value, downward.value);
    var w4 := ClientTakes(w3, downward.value);
    ClientOutcome(w3, downward.value);
  }

  /** Rounds in which no frame is lost and both local frame counters move on. */
  predicate Lossless(w: World, events: seq<Event>) {
    events == [] ||
    var before := events[..|events| - 1];
    var event := events[|events| - 1];
    && Lossless(w, before)
    && event.Round? && event.toGateway && event.toClient
    && event.clientFrame > Run(w, before).client.link.frame && event.gatewayFrame > Run(w, before).gateway.link.frame
  }

  lemma {:induction false} LosslessRun(w: World, events: seq<Event>)
    requires Invariant(w) && PhasesOk(w) && SameLimit(w)
    requires AllowedRun(w, events) && Lossless(w, events)
    requires w.client.link.timeout >= 1 && w.gateway.link.timeout >= 1
    ensures var after := Run(w, events);
            && SameLimit(after)
            && after.client.link.timeout == w.client.link.timeout && after.gateway.link.timeout == w.gateway.link.timeout
            && (BothConnected(after) || Rank(after) + |events| <= Rank(w))
  {
    hide Invariant, PhasesOk, Rank, SameLimit, BothConnected, Rounds;
    if events != [] {
      var before := events[..|events| - 1];
      var event := events[|events| - 1];
      LosslessRun(w, before);
      RunKeeps(w, before);
      RunPhases(w, before);
      LosslessRound(Run(w, before), event.clientFrame, event.gatewayFrame, event.nextSession);
    }
  }

  lemma RankBound(w: World)
    requires PhasesOk(w)
    ensures Rank(w) <= 5 + w.client.link.timeout || Rank(w) <= 5 + w.gateway.link.timeout || Rank(w) <= 6
    ensures Rank(w) == 0 ==> BothConnected(w)
  {
  }

  /**
   From every reachable world, however broken: peers with equal packet limits are
   connected after as many rounds without loss as the longer timeout and five more.
   */
  lemma Recovers(w: World, events: seq<Event>)
    requires Reachable(w) && AllowedRun(w, events) && Lossless(w, events)
    requires w.client.link.config.maxPacket == w.gateway.link.config.maxPacket
    requires w.client.link.timeout >= 1 && w.gateway.link.timeout >= 1
    requires |events| >= 5 + w.client.link.timeout && |events| >= 5 + w.gateway.link.timeout
    ensures BothConnected(Run(w, events))
  {
    hide Reachable, Invariant, PhasesOk, Rank, BothConnected, Lossless, AllowedRun, Run;
    InvariantHolds(w);
    PhasesHold(w);
    LosslessRun(w, events);
    RunPhases(w, events);
    RankBound(w);
    RankBound(Run(w, events));
  }
}
