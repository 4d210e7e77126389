/**
 Delivery over a session: after runs without restarts, whatever was dropped
 before, rounds without loss connect the peers and bring every packet over.
 */
module SessionDelivery {
  import opened Bytes
  import opened Common
  import opened PacketTransport
  import opened ByteStream
  import opened TransportInvariant
  import opened TransportSteps
  import opened LightSession
  import opened SessionRoute
  import opened SessionRuns
  import opened SessionRecovery
  import opened SessionReconnect
  import opened SessionProgress
  import opened TransportResend
  import TransportDelivery
  import T = TransportRuns

  // ---------------------------------------------------------------------
  // What every peer keeps
  // ---------------------------------------------------------------------

  /** The drain stopped only where it must, and no cell was sent after the present frame. */
  predicate Tended(l: Link) {
    && ValidConfig(l.config) && Stopped(l.endpoint.rx, l.config) && SentBy(l.endpoint.tx.ring, l.frame)
  }

  predicate BothTended(w: World) { Tended(w.client.link) && Tended(w.gateway.link) }

  lemma EmptyIsTended(e: Endpoint, c: Config, frame: nat)
    requires ValidConfig(c)
    ensures Stopped(ResetGeneration(e).rx, c) && SentBy(ResetGeneration(e).tx.ring, frame)
    ensures forall random: bv32 :: Stopped(Fresh(random).rx, c) && SentBy(Fresh(random).tx.ring, frame)
  {
  }

  lemma LearnTends(l: Link, instance: uint32)
    requires Tended(l)
    ensures Tended(Learn(l, instance))
  {
    hide Stopped, ResetGeneration, SentBy;
    EmptyIsTended(l.endpoint, l.config, l.frame);
  }

  lemma DequeueTends(l: Link, room: nat, tx: Sender, d: Config, r: Route, joined: bool)
    requires Tended(l) && RouteOk(tx, d, l.endpoint.rx, l.config, r, joined)
    ensures Tended(l.(endpoint := Dequeue(l.endpoint, l.config, room).0))
  {
    hide RouteOk, ReceiverOk, Stopped, Dequeue, Flatten, Records;
    EndsOk(tx, d, l.endpoint.rx, l.config, r, joined);
    DequeueFlow(l.endpoint, l.config, room, r.heard);
    TransportDelivery.DequeueSettles(l.endpoint, l.config, room, r.heard);
  }

  lemma BuildTends(l: Link, frame: nat)
    requires Tended(l) && ValidSender(l.endpoint.tx) && frame >= l.frame
    ensures Tended(l.(frame := frame)) && Tended(l.(frame := frame, endpoint := Build(l.endpoint, l.config, frame).0))
  {
    hide Stopped, Build;
    BuildStamps(l.endpoint, l.config, l.frame, frame);
    BuildKeepsReceiver(l.endpoint, l.config, frame);
  }

  lemma ProcessTends(l: Link, f: Frame, peer: Endpoint, d: Config, inward: Flow, outward: Flow)
    requires Tended(l) && FlowOk(peer.tx, l.endpoint.rx, inward, l.config) && FlowOk(l.endpoint.tx, peer.rx, outward, d)
    requires AckOk(f.payload, peer.rx, outward.cells) && DataOk(f, inward.cells, l.endpoint.rx)
    ensures Tended(l.(endpoint := Process(l.endpoint, l.config, f).0))
  {
    hide FlowOk, AckOk, DataOk, ApplyAck, Accept, Stopped, SentBy;
    RingSlots(l.endpoint.tx, peer.rx, outward, d);
    AckStamps(l.endpoint.tx, f.payload, l.frame);
    ApplyAckOk(l.endpoint.tx, peer.rx, outward, d, f.payload);
    TransportDelivery.AcceptSettles(peer.tx, l.endpoint.rx, inward, l.config, f);
  }

  lemma HeardTends(l: Link)
    requires Tended(l)
    ensures Tended(Heard(l))
  {
  }

  lemma EnqueueTends(l: Link, packet: Packet)
    requires Tended(l)
    ensures Tended(l.(endpoint := Enqueue(l.endpoint, l.config, packet).0))
  {
  }

  lemma SendsTend(w: World, frame: nat)
    requires Invariant(w) && BothTended(w)
    ensures BothTended(ClientSends(w, frame).0) && BothTended(GatewaySends(w, frame).0)
  {
    hide RouteOk, HandshakeOk, Build, ValidSender, Tended, Cutting;
    RoutesValid(w);
    if frame >= w.client.link.frame {
      BuildTends(w.client.link, frame);
    }
    if frame >= w.gateway.link.frame {
      BuildTends(w.gateway.link, frame);
    }
  }

  lemma GatewayTakesTends(w: World, f: LightFrame)
    requires Invariant(w) && FromClient(f, w) && BothTended(w)
    ensures BothTended(GatewayTakes(w, f))
  {
    hide RouteOk, CleanOk, Tended, Learn, Process, TakeStream, ControlValid, AckOk, DataOk, Handing, More, SenderReset, ReceiverReset;
    var g := w.gateway.link;
    LearnTends(g, ReadAt(f));
    HeardTends(Learn(g, ReadAt(f)));
    HeardTends(g);
    if IsStream(f) && f.session == w.gateway.session && (w.gateway.phase == Accepted || w.gateway.phase == GatewayPhase.Connected) {
      assert Joined(w);
      JoinedFlows(w);
      ProcessMoves(GatewayEnd(w), g.config, StreamPart(f), ClientEnd(w), w.client.link.config, w.up, w.down);
      TakenStream(g, f);
      ProcessTends(g, StreamPart(f), ClientEnd(w), w.client.link.config, w.up.heard, w.down.heard);
      HeardTends(g.(endpoint := Process(g.endpoint, g.config, StreamPart(f)).0));
    }
  }

  /** The instance a control frame names. */
  function ReadAt(f: LightFrame): uint32 {
    if |f.payload| == CONTROL_BYTES then ReadU32(f.payload, 4) else 0
  }

  lemma JoinedFlows(w: World)
    requires Invariant(w) && Joined(w)
    ensures FlowOk(ClientEnd(w).tx, GatewayEnd(w).rx, w.up.heard, w.gateway.link.config) && w.up.heard.cells == w.up.cells
    ensures FlowOk(GatewayEnd(w).tx, ClientEnd(w).rx, w.down.heard, w.client.link.config) && w.down.heard.cells == w.down.cells
  {
    hide FlowOk, TagsOk, HandshakeOk;
  }

  lemma ClientTakesTends(w: World, f: LightFrame)
    requires Invariant(w) && FromGateway(f, w) && BothTended(w)
    ensures BothTended(ClientTakes(w, f))
  {
    hide RouteOk, CleanOk, Tended, Learn, Process, TakeStream, ControlValid, AckOk, DataOk, Handing, More, Join;
    var c := w.client.link;
    LearnTends(c, ReadAt(f));
    HeardTends(Learn(c, ReadAt(f)));
    HeardTends(c);
    if IsStream(f) && f.session == w.client.session && w.client.phase == ClientPhase.Connected {
      JoinedFlows(w);
      ProcessMoves(ClientEnd(w), c.config, StreamPart(f), GatewayEnd(w), w.gateway.link.config, w.down, w.up);
      TakenStream(c, f);
      ProcessTends(c, StreamPart(f), GatewayEnd(w), w.gateway.link.config, w.down.heard, w.up.heard);
      HeardTends(c.(endpoint := Process(c.endpoint, c.config, StreamPart(f)).0));
    }
  }

  lemma TimeoutsTend(w: World, client: bool, gateway: bool, next: uint32)
    requires BothTended(w)
    ensures BothTended(Timeouts(w, client, gateway, next))
  {
  }

  lemma RoundsTend(w: World, clientFrame: nat, gatewayFrame: nat, toGateway: bool, toClient: bool, next: uint32)
    requires Invariant(w) && BothTended(w)
    ensures BothTended(Rounds(w, clientFrame, gatewayFrame, toGateway, toClient, next))
  {
    hide Invariant, BothTended, ClientSends, GatewaySends, GatewayTakes, ClientTakes, FromClient, FromGateway, Timeouts;
    var (w1, upward) := ClientSends(w, clientFrame);
    ClientSendsKeeps(w, clientFrame);
    SendsTend(w, clientFrame);
    var (w2, downward) := GatewaySends(w1, gatewayFrame);
    GatewaySendsKeeps(w1, gatewayFrame, upward);
    SendsTend(w1, gatewayFrame);
    var w3 := w2;
    if toGateway && upward.Some? && downward.Some? {
      w3 := GatewayTakes(w2, upward.value);
      GatewayTakesKeeps(w2, upward.value);
      GatewayTakesTends(w2, upward.value);
      GatewayFrameStays(w2, upward.value, downward.value);
    }
    var w4 := w3;
    if toClient && upward.Some? && downward.Some? {
      w4 := ClientTakes(w3, downward.value);
      ClientTakesTends(w3, downward.value);
    }
    TimeoutsTend(w4, upward.Some?, downward.Some?, next);
  }

  lemma DequeuesTend(w: World, atClient: bool, room: nat)
    requires Invariant(w) && BothTended(w)
    ensures BothTended(Dequeues(w, atClient, room))
  {
    hide RouteOk, HandshakeOk, Tended, Dequeue, Handing, More;
    DequeueTends(w.client.link, room, GatewayEnd(w).tx, w.gateway.link.config, w.down, Joined(w));
    DequeueTends(w.gateway.link, room, ClientEnd(w).tx, w.client.link.config, w.up, Joined(w));
  }

  lemma StepTends(w: World, event: Event)
    requires Invariant(w) && BothTended(w) && Allowed(event, w.used)
    ensures BothTended(Step(w, event))
  {
    hide Invariant, Tended, Rounds, Dequeues, Enqueue;
    match event
    case EnqueueAt(atClient, packet) =>
      EnqueueTends(w.client.link, packet);
      EnqueueTends(w.gateway.link, packet);
    case DequeueAt(atClient, room) => DequeuesTend(w, atClient, room);
    case Round(cf, gf, toGateway, toClient, next) => RoundsTend(w, cf, gf, toGateway, toClient, next);
    case RestartClient(config, timeout, _, instance, random) => NewLinkTended(config, timeout, instance, random);
    case RestartGateway(config, timeout, instance, random) => NewLinkTended(config, timeout, instance, random);
  }

  lemma NewLinkTended(config: Config, timeout: nat, instance: uint32, random: bv32)
    requires ValidConfig(config)
    ensures Tended(StartLink(config, timeout, instance, random))
  {
    hide Stopped, SentBy, Fresh;
    EmptyIsTended(Fresh(random), config, 0);
  }

  lemma {:induction false} RunTends(w: World, events: seq<Event>)
    requires Invariant(w) && BothTended(w) && AllowedRun(w, events)
    ensures BothTended(Run(w, events))
  {
    hide Invariant, BothTended, Step, Allowed;
    if events != [] {
      RunTends(w, events[..|events| - 1]);
      RunKeeps(w, events[..|events| - 1]);
      StepTends(Run(w, events[..|events| - 1]), events[|events| - 1]);
    }
  }

  // ---------------------------------------------------------------------
  // Connected peers as the two ends of a transport
  // ---------------------------------------------------------------------

  /** Both peers as transport ends, with no frame on the way. */
  function Ends(w: World): T.World {
    T.World(T.End(ClientEnd(w), w.client.link.config, w.up.log, w.up.cells, w.down.dequeued, []),
            T.End(GatewayEnd(w), w.gateway.link.config, w.down.log, w.down.cells, w.up.dequeued, []))
  }

  /** The transport world is about these peers, whatever frames it remembers. */
  predicate Like(w: World, t: T.World) {
    var e := Ends(w);
    && t.left == e.left.(sent := t.left.sent) && t.right == e.right.(sent := t.right.sent)
  }

  /** In a first generation the route is the transport's flow. */
  lemma FirstFlow(tx: Sender, c: Config, rx: Receiver, d: Config, r: Route)
    requires RouteOk(tx, c, rx, d, r, true) && FirstGeneration(r, tx, true)
    ensures r.heard == Flow(r.log, r.cells, |r.dequeued + rx.incoming|)
    ensures r.dequeued + rx.incoming <= r.log && FlowOk(tx, rx, r.heard, d)
  {
    hide FlowOk;
    WholePrefix(r, tx, true, rx.incoming);
    assert r.log[0..] == r.log;
  }

  /** What holds in every run without restarts. */
  ghost predicate Whole(w: World) {
    Invariant(w) && PhasesOk(w) && Calm(w) && BothTended(w)
  }

  lemma EndsAreGood(w: World)
    requires Whole(w) && BothConnected(w)
    ensures TransportDelivery.Good(Ends(w))
  {
    hide RouteOk, FlowOk, CleanOk, Stopped, SentBy, FirstGeneration;
    FirstFlow(ClientEnd(w).tx, w.client.link.config, GatewayEnd(w).rx, w.gateway.link.config, w.up);
    FirstFlow(GatewayEnd(w).tx, w.gateway.link.config, ClientEnd(w).rx, w.client.link.config, w.down);
    ConnectedLimits(w);
  }

  lemma ConnectedLimits(w: World)
    requires Invariant(w) && BothConnected(w)
    ensures Joined(w) && SameLimit(w)
  {
    hide FlowOk, TagsOk, CleanOk;
  }

  // ---------------------------------------------------------------------
  // Turns
  // ---------------------------------------------------------------------

  /** Both applications dequeue, then comes a round without loss. */
  datatype Turn = Turn(clientRoom: nat, gatewayRoom: nat, clientFrame: nat, gatewayFrame: nat, next: uint32)

  function Pulled(w: World, t: Turn): World { Dequeues(Dequeues(w, true, t.clientRoom), false, t.gatewayRoom) }

  function After(w: World, turns: seq<Turn>): World {
    if turns == [] then w
    else
      var t := turns[|turns| - 1];
      Rounds(Pulled(After(w, turns[..|turns| - 1]), t), t.clientFrame, t.gatewayFrame, true, true, t.next)
  }

  /** The applications have room for a packet, the 64-bit local frames move on, and the drawn session id is fresh. */
  predicate TurnOk(w: World, t: Turn) {
    && w.gateway.link.config.maxPacket <= t.clientRoom && w.client.link.config.maxPacket <= t.gatewayRoom
    && w.client.link.frame < t.clientFrame < TWO_64 && w.gateway.link.frame < t.gatewayFrame < TWO_64
    && FreshId(t.next, w.used)
  }

  predicate TurnsOk(w: World, turns: seq<Turn>) {
    turns == [] || (TurnsOk(w, turns[..|turns| - 1]) && TurnOk(After(w, turns[..|turns| - 1]), turns[|turns| - 1]))
  }

  /** What the application and the channel leave alone. */
  predicate Same(w: World, after: World) {
    && after.client.link.config == w.client.link.config && after.gateway.link.config == w.gateway.link.config
    && after.client.link.timeout == w.client.link.timeout && after.gateway.link.timeout == w.gateway.link.timeout
    && after.up.log == w.up.log && after.down.log == w.down.log
  }

  lemma PulledKeeps(w: World, t: Turn)
    requires Whole(w)
    ensures var p := Pulled(w, t);
            && Whole(p) && Same(w, p) && p.used == w.used
            && p.client.phase == w.client.phase && p.gateway.phase == w.gateway.phase
            && p.client.session == w.client.session && p.gateway.session == w.gateway.session
            && p.client.link == w.client.link.(endpoint := ClientEnd(p)) && p.gateway.link == w.gateway.link.(endpoint := GatewayEnd(p))
  {
    hide Invariant, Calm, BothTended, Dequeue, Handing, More, PhasesOk;
    var mid := Dequeues(w, true, t.clientRoom);
    DequeuesKeep(w, true, t.clientRoom);
    DequeuesCalm(w, true, t.clientRoom);
    DequeuesTend(w, true, t.clientRoom);
    DequeuesPhases(w, true, t.clientRoom);
    DequeuesKeep(mid, false, t.gatewayRoom);
    DequeuesCalm(mid, false, t.gatewayRoom);
    DequeuesTend(mid, false, t.gatewayRoom);
    DequeuesPhases(mid, false, t.gatewayRoom);
    LogsStay(w, true, t.clientRoom);
    LogsStay(mid, false, t.gatewayRoom);
  }

  lemma DequeuesPhases(w: World, atClient: bool, room: nat)
    requires PhasesOk(w)
    ensures PhasesOk(Dequeues(w, atClient, room))
  {
    hide Dequeue, Handing, More;
  }

  lemma LogsStay(w: World, atClient: bool, room: nat)
    ensures Same(w, Dequeues(w, atClient, room))
  {
    hide Dequeue, More;
  }

  lemma TakesLog(w: World, f: LightFrame)
    ensures GatewayTakes(w, f).up.log == w.up.log && GatewayTakes(w, f).down.log == w.down.log
    ensures ClientTakes(w, f).up.log == w.up.log && ClientTakes(w, f).down.log == w.down.log
  {
    hide GatewayReceive, ClientReceive, More;
  }

  lemma SendsLog(w: World, frame: nat)
    ensures ClientSends(w, frame).0.up.log == w.up.log && ClientSends(w, frame).0.down.log == w.down.log
    ensures GatewaySends(w, frame).0.up.log == w.up.log && GatewaySends(w, frame).0.down.log == w.down.log
  {
    hide BuildClient, BuildGateway, CellsAfter, ValidSender;
  }

  lemma RoundLogs(w: World, clientFrame: nat, gatewayFrame: nat, toGateway: bool, toClient: bool, next: uint32)
    ensures var after := Rounds(w, clientFrame, gatewayFrame, toGateway, toClient, next);
            after.up.log == w.up.log && after.down.log == w.down.log
  {
    hide ClientSends, GatewaySends, GatewayTakes, ClientTakes;
    var (w1, upward) := ClientSends(w, clientFrame);
    SendsLog(w, clientFrame);
    var (w2, downward) := GatewaySends(w1, gatewayFrame);
    SendsLog(w1, gatewayFrame);
    if toGateway && upward.Some? && downward.Some? {
      TakesLog(w2, upward.value);
      TakesLog(GatewayTakes(w2, upward.value), downward.value);
    } else if upward.Some? && downward.Some? {
      TakesLog(w2, downward.value);
    }
  }

  lemma TakesConfigs(w: World, f: LightFrame)
    ensures GatewayTakes(w, f).gateway.link.config == w.gateway.link.config && GatewayTakes(w, f).client == w.client
    ensures ClientTakes(w, f).client.link.config == w.client.link.config && ClientTakes(w, f).gateway == w.gateway
  {
    hide TakeStream, ControlValid, ResetGeneration, More, SenderReset, ReceiverReset, Join;
    StreamKeepsLink(w.gateway.link, f);
    StreamKeepsLink(w.client.link, f);
  }

  lemma SendsConfigs(w: World, frame: nat)
    ensures ClientSends(w, frame).0.client.link.config == w.client.link.config && ClientSends(w, frame).0.gateway == w.gateway
    ensures GatewaySends(w, frame).0.gateway.link.config == w.gateway.link.config && GatewaySends(w, frame).0.client == w.client
  {
    hide Build, ValidSender, Control, Cutting;
  }

  lemma RoundConfigs(w: World, clientFrame: nat, gatewayFrame: nat, next: uint32)
    ensures var after := Rounds(w, clientFrame, gatewayFrame, true, true, next);
            after.client.link.config == w.client.link.config && after.gateway.link.config == w.gateway.link.config
  {
    hide ClientSends, GatewaySends, GatewayTakes, ClientTakes;
    var (w1, upward) := ClientSends(w, clientFrame);
    SendsConfigs(w, clientFrame);
    var (w2, downward) := GatewaySends(w1, gatewayFrame);
    SendsConfigs(w1, gatewayFrame);
    if upward.Some? && downward.Some? {
      TakesConfigs(w2, upward.value);
      TakesConfigs(GatewayTakes(w2, upward.value), downward.value);
    }
  }

  /** One turn: peers not yet connected come closer, and connected ones stay so. */
  lemma TurnKeeps(w: World, t: Turn)
    requires Whole(w) && TurnOk(w, t) && SameLimit(w) && w.client.link.timeout >= 1 && w.gateway.link.timeout >= 1
    ensures var after := After(w, [t]);
            && after == Rounds(Pulled(w, t), t.clientFrame, t.gatewayFrame, true, true, t.next)
            && Whole(after) && Same(w, after)
            && after.client.link.frame == t.clientFrame && after.gateway.link.frame == t.gatewayFrame
            && if BothConnected(w) then BothConnected(after) else Rank(after) < Rank(w)
  {
    hide Invariant, Calm, BothTended, PhasesOk, Rounds, Pulled;
    assert [t][..0] == [];
    PulledKeeps(w, t);
    var p := Pulled(w, t);
    RoundsKeep(p, t.clientFrame, t.gatewayFrame, true, true, t.next);
    RoundsPhases(p, t.clientFrame, t.gatewayFrame, true, true, t.next);
    RoundsCalm(p, t.clientFrame, t.gatewayFrame, true, true, t.next);
    RoundsTend(p, t.clientFrame, t.gatewayFrame, true, true, t.next);
    LosslessRound(p, t.clientFrame, t.gatewayFrame, t.next);
    RoundConfigs(p, t.clientFrame, t.gatewayFrame, t.next);
    RoundLogs(p, t.clientFrame, t.gatewayFrame, true, true, t.next);
  }

  // ---------------------------------------------------------------------
  // A turn is an exchange
  // ---------------------------------------------------------------------

  /** The exchange of a turn: frames cross. */
  function BeatOf(t: Turn): TransportDelivery.Beat {
    TransportDelivery.Beat(t.gatewayRoom, t.clientRoom, t.clientFrame, t.gatewayFrame, true)
  }

  lemma PullAlike(w: World, x: T.World, t: Turn)
    requires Like(w, x)
    ensures Like(Pulled(w, t), TransportDelivery.Pulled(x, BeatOf(t)))
  {
    hide Dequeue, More;
  }

  lemma CuttingCells(r: Route, accepted: seq<Packet>, tx: Sender, after: Sender)
    ensures Cutting(r, tx, after, true).cells == CellsAfter(Flow(accepted, r.cells, 0), tx, after).cells
  {
  }

  lemma TurnAlike(w: World, x: T.World, t: Turn)
    requires Whole(w) && BothConnected(w) && TurnOk(w, t) && Like(w, x)
    ensures Like(After(w, [t]), TransportDelivery.Exchange(x, BeatOf(t)))
    ensures ValidSender(TransportDelivery.Pulled(x, BeatOf(t)).left.endpoint.tx)
    ensures ValidSender(TransportDelivery.Pulled(x, BeatOf(t)).right.endpoint.tx)
  {
    hide Whole, Pulled, TransportDelivery.Pulled, TransportDelivery.Exchange, Rounds, Build, Process, Cutting, CellsAfter,
      ValidSender, Invariant, PhasesOk, Upward, Downward;
    assert [t][..0] == [];
    PulledKeeps(w, t);
    WholeMeans(Pulled(w, t));
    PullAlike(w, x, t);
    var p, q, b := Pulled(w, t), TransportDelivery.Pulled(x, BeatOf(t)), BeatOf(t);
    RoundParts(p, t.clientFrame, t.gatewayFrame, t.next);
    CuttingCells(p.up, q.left.accepted, q.left.endpoint.tx, Build(q.left.endpoint, q.left.config, b.frame).0.tx);
    CuttingCells(p.down, q.right.accepted, q.right.endpoint.tx, Build(q.right.endpoint, q.right.config, b.answer).0.tx);
    TransportDelivery.CrossingEnds(x, b);
  }

  lemma WholeMeans(w: World)
    requires Whole(w)
    ensures Invariant(w) && PhasesOk(w)
  {
  }

  // ---------------------------------------------------------------------
  // Many turns
  // ---------------------------------------------------------------------

  predicate Patient(w: World) {
    SameLimit(w) && w.client.link.timeout >= 1 && w.gateway.link.timeout >= 1
  }

  lemma LastTurn(w: World, turns: seq<Turn>)
    requires turns != []
    ensures After(w, turns) == After(After(w, turns[..|turns| - 1]), [turns[|turns| - 1]])
  {
    hide Rounds, Pulled;
    var t := turns[|turns| - 1];
    assert [t][..0] == [];
  }

  lemma {:induction false} TurnsKeep(w: World, turns: seq<Turn>)
    requires Whole(w) && Patient(w) && TurnsOk(w, turns)
    ensures var after := After(w, turns);
            && Whole(after) && Same(w, after) && Patient(after)
            && (BothConnected(w) ==> BothConnected(after))
            && (BothConnected(after) || Rank(after) + |turns| <= Rank(w))
            && after.client.link.frame == (if turns == [] then w.client.link.frame else turns[|turns| - 1].clientFrame)
            && after.gateway.link.frame == (if turns == [] then w.gateway.link.frame else turns[|turns| - 1].gatewayFrame)
  {
    hide Whole, BothConnected, Rank, After, TurnOk;
    if turns == [] {
      assert After(w, turns) == w by { NoTurn(w); }
    } else {
      var n := |turns| - 1;
      TurnsKeep(w, turns[..n]);
      LastTurn(w, turns);
      TurnKeeps(After(w, turns[..n]), turns[n]);
    }
  }

  lemma NoTurn(w: World)
    ensures After(w, []) == w
  {
  }

  lemma {:induction false} TurnsJoin(w: World, first: seq<Turn>, rest: seq<Turn>)
    requires TurnsOk(w, first + rest)
    ensures After(w, first + rest) == After(After(w, first), rest)
    ensures TurnsOk(w, first) && TurnsOk(After(w, first), rest)
  {
    hide Rounds, Pulled, TurnOk;
    if rest == [] {
      assert first + rest == first;
    } else {
      var n := |rest| - 1;
      assert (first + rest)[..|first + rest| - 1] == first + rest[..n];
      TurnsJoin(w, first, rest[..n]);
    }
  }

  function BeatsOf(turns: seq<Turn>): (beats: seq<TransportDelivery.Beat>)
    ensures |beats| == |turns|
  {
    seq(|turns|, i requires 0 <= i < |turns| => BeatOf(turns[i]))
  }

  function TurnedBeats(turns: seq<Turn>): (beats: seq<TransportDelivery.Beat>)
    ensures |beats| == |turns|
  {
    seq(|turns|, i requires 0 <= i < |turns| => TransportDelivery.Turned(BeatOf(turns[i])))
  }

  /** The turns of connected peers are exchanges of the transport, seen from either end. */
  lemma {:induction false} TurnsAlike(w: World, x: T.World, turns: seq<Turn>)
    requires Whole(w) && Patient(w) && BothConnected(w) && TurnsOk(w, turns) && Like(w, x)
    ensures Like(After(w, turns), TransportDelivery.Exchanges(x, BeatsOf(turns)))
    ensures TransportDelivery.Exchanges(T.Swap(x), TurnedBeats(turns)) == T.Swap(TransportDelivery.Exchanges(x, BeatsOf(turns)))
  {
    hide Whole, BothConnected, After, TurnOk, Like, TransportDelivery.Exchange, TransportDelivery.Turned;
    if turns == [] {
      NoTurn(w);
    } else {
      var n := |turns| - 1;
      var rest, t := turns[..n], turns[n];
      TurnsKeep(w, rest);
      TurnsAlike(w, x, rest);
      LastTurn(w, turns);
      assert BeatsOf(turns)[..n] == BeatsOf(rest) && TurnedBeats(turns)[..n] == TurnedBeats(rest);
      var mid := TransportDelivery.Exchanges(x, BeatsOf(rest));
      TurnAlike(After(w, rest), mid, t);
      TransportDelivery.ExchangeSwaps(mid, BeatOf(t));
    }
  }

  lemma TimelyMore(c: Config, beats: seq<TransportDelivery.Beat>, sent: nat, b: TransportDelivery.Beat)
    requires TransportDelivery.Timely(c, beats, sent)
    requires c.maxPacket <= b.room && TransportDelivery.LastFrame(beats, sent) < b.frame < TWO_64 && sent < b.frame
    ensures TransportDelivery.Timely(c, beats + [b], sent)
  {
  }

  /** The frames of the turns, seen from either end, are those of timely exchanges. */
  lemma {:induction false} TurnsTimely(w: World, turns: seq<Turn>)
    requires Whole(w) && Patient(w) && TurnsOk(w, turns)
    ensures TransportDelivery.Timely(w.client.link.config, BeatsOf(turns), w.client.link.frame)
    ensures TransportDelivery.Timely(w.gateway.link.config, TurnedBeats(turns), w.gateway.link.frame)
  {
    hide Whole, After, TransportDelivery.Timely, BothConnected, Rank, TurnOk;
    if turns == [] {
      NothingTimely(w.client.link.config, w.client.link.frame);
      NothingTimely(w.gateway.link.config, w.gateway.link.frame);
    } else {
      var n := |turns| - 1;
      var rest, t := turns[..n], turns[n];
      TurnsKeep(w, rest);
      TurnsTimely(w, rest);
      TurnFrames(After(w, rest), t);
      assert BeatsOf(rest)[..n] == BeatsOf(rest) && TurnedBeats(rest)[..n] == TurnedBeats(rest);
      TransportDelivery.TimelyParts(w.client.link.config, BeatsOf(rest), w.client.link.frame, n);
      TimelyMore(w.client.link.config, BeatsOf(rest), w.client.link.frame, BeatOf(t));
      assert BeatsOf(turns) == BeatsOf(rest) + [BeatOf(t)];
      TransportDelivery.TimelyParts(w.gateway.link.config, TurnedBeats(rest), w.gateway.link.frame, n);
      TimelyMore(w.gateway.link.config, TurnedBeats(rest), w.gateway.link.frame, TransportDelivery.Turned(BeatOf(t)));
      assert TurnedBeats(turns) == TurnedBeats(rest) + [TransportDelivery.Turned(BeatOf(t))];
    }
  }

  lemma NothingTimely(c: Config, sent: nat)
    ensures TransportDelivery.Timely(c, [], sent)
  {
  }

  lemma TurnFrames(w: World, t: Turn)
    requires TurnOk(w, t)
    ensures w.gateway.link.config.maxPacket <= t.clientRoom && w.client.link.config.maxPacket <= t.gatewayRoom
    ensures w.client.link.frame < t.clientFrame < TWO_64 && w.gateway.link.frame < t.gatewayFrame < TWO_64
  {
  }

  // ---------------------------------------------------------------------
  // The bound
  // ---------------------------------------------------------------------

  /** All that can be left to do: the packets, and the bytes of their records. */
  function Work(log: seq<Packet>): nat {
    |log| + if Queueable(log) then |Flatten(Records(log))| else 0
  }

  lemma {:induction false} Below(n: nat, s: set<nat>)
    requires forall k <- s :: k < n
    ensures |s| <= n
  {
    if n == 0 {
      assert s == {};
    } else {
      Below(n - 1, s - {n - 1});
    }
  }

  lemma WorkBound(x: T.World)
    requires T.Invariant(x)
    ensures TransportDelivery.Outstanding(x) <= Work(x.left.accepted)
  {
    hide Flatten, Records, LinkOk, ReceiverOk, T.FramesOk, Received;
    TransportDelivery.SpaceLasts(x);
    T.FlowMeans(x.left.endpoint.tx, x.right.endpoint.rx, T.FlowFrom(x.left, x.right), x.right.config, 0);
    Below(x.left.endpoint.tx.next, TransportDelivery.Lacking(x));
    TransportDelivery.CellsTakeBytes(x.left.cells);
  }

  lemma SwapGood(x: T.World)
    requires TransportDelivery.Good(x)
    ensures TransportDelivery.Good(T.Swap(x))
  {
    hide T.Invariant, TransportDelivery.Settled;
    SwapKeeps(x);
  }

  // ---------------------------------------------------------------------
  // The theorem
  // ---------------------------------------------------------------------

  /** A connected session brings the packets of both directions over. */
  lemma ConnectedDelivers(w: World, turns: seq<Turn>)
    requires Whole(w) && Patient(w) && BothConnected(w) && TurnsOk(w, turns)
    requires 1 + Work(w.up.log) * TransportDelivery.Pause(w.client.link.config.retransmitAfter, true) <= |turns|
    requires 1 + Work(w.down.log) * TransportDelivery.Pause(w.gateway.link.config.retransmitAfter, true) <= |turns|
    ensures Queueable(w.up.log) && Queueable(w.down.log)
    ensures |Flatten(Records(w.up.log))| < UINT32_MAX ==> After(w, turns).up.dequeued == w.up.log
    ensures |Flatten(Records(w.down.log))| < UINT32_MAX ==> After(w, turns).down.dequeued == w.down.log
  {
    hide Whole, BothConnected, After, TurnsOk, TransportDelivery.Good, TransportDelivery.Outstanding, TransportDelivery.Exchanges,
      TransportDelivery.Timely, TransportDelivery.Pause, Work, Flatten, Records, InTransmit, SentBy, Rank;
    var x := Ends(w);
    EndsAreGood(w);
    SwapGood(x);
    TurnsAlike(w, x, turns);
    TurnsTimely(w, turns);
    TurnsKeep(w, turns);
    FramesSent(w);
    DirectionDelivers(x, BeatsOf(turns), w.client.link.frame);
    DirectionDelivers(T.Swap(x), TurnedBeats(turns), w.gateway.link.frame);
  }

  lemma FramesSent(w: World)
    requires Whole(w)
    ensures SentBy(ClientEnd(w).tx.ring, w.client.link.frame) && SentBy(GatewayEnd(w).tx.ring, w.gateway.link.frame)
  {
  }

  lemma DirectionDelivers(x: T.World, beats: seq<TransportDelivery.Beat>, sent: nat)
    requires TransportDelivery.Good(x) && SentBy(x.left.endpoint.tx.ring, sent)
    requires TransportDelivery.Timely(x.left.config, beats, sent)
    requires 1 + Work(x.left.accepted) * TransportDelivery.Pause(x.left.config.retransmitAfter, true) <= |beats|
    ensures Queueable(x.left.accepted)
    ensures |Flatten(Records(x.left.accepted))| < UINT32_MAX ==>
              TransportDelivery.Exchanges(x, beats).right.dequeued == x.left.accepted
  {
    hide TransportDelivery.Good, TransportDelivery.Outstanding, TransportDelivery.Exchanges, TransportDelivery.Timely,
      TransportDelivery.Pause, Work, Flatten, Records, InTransmit, SentBy, T.Invariant;
    TransportDelivery.GoodDelivers(x, beats, sent, true);
    TransportDelivery.SpaceLasts(x);
    WorkBound(x);
    var p := TransportDelivery.Pause(x.left.config.retransmitAfter, true);
    assert TransportDelivery.Outstanding(x) * p <= Work(x.left.accepted) * p;
  }

  /**
   In every run without restarts, whatever was dropped before: five turns without
   loss more than the longer timeout connect the peers, and after one more and a
   pause for each packet accepted and each byte of its record, both applications
   have dequeued everything the other side accepted, whole and in order.
   */
  lemma PacketsGetThrough(c: Client, g: Gateway, events: seq<Event>, turns: seq<Turn>)
    requires Created(c, g) && AllowedRun(Start(c, g), events) && forall event <- events :: !IsRestart(event)
    requires var w := Run(Start(c, g), events);
             && Patient(w) && TurnsOk(w, turns)
             && var rounds := 6 + (if w.client.link.timeout < w.gateway.link.timeout then w.gateway.link.timeout else w.client.link.timeout);
             && rounds + Work(w.up.log) * TransportDelivery.Pause(w.client.link.config.retransmitAfter, true) <= |turns|
             && rounds + Work(w.down.log) * TransportDelivery.Pause(w.gateway.link.config.retransmitAfter, true) <= |turns|
    ensures var w := Run(Start(c, g), events);
            var after := After(w, turns);
            && BothConnected(after) && after.up.log == w.up.log && after.down.log == w.down.log
            && Queueable(w.up.log) && Queueable(w.down.log)
            && (|Flatten(Records(w.up.log))| < UINT32_MAX ==> after.up.dequeued == w.up.log)
            && (|Flatten(Records(w.down.log))| < UINT32_MAX ==> after.down.dequeued == w.down.log)
  {
    hide Run, AllowedRun, IsRestart, Created, Whole, BothConnected, After, TurnsOk, TransportDelivery.Pause, Work, Flatten, Records, Rank;
    RunIsWhole(c, g, events);
    var w := Run(Start(c, g), events);
    var n := 5 + if w.client.link.timeout < w.gateway.link.timeout then w.gateway.link.timeout else w.client.link.timeout;
    var up, down := Work(w.up.log) * TransportDelivery.Pause(w.client.link.config.retransmitAfter, true),
                    Work(w.down.log) * TransportDelivery.Pause(w.gateway.link.config.retransmitAfter, true);
    assert up >= 0 && down >= 0;
    assert turns == turns[..n] + turns[n..];
    TurnsJoin(w, turns[..n], turns[n..]);
    TurnsKeep(w, turns[..n]);
    var mid := After(w, turns[..n]);
    RankIsZero(w, mid, n);
    ConnectedDelivers(mid, turns[n..]);
    TurnsKeep(mid, turns[n..]);
  }

  lemma RankIsZero(w: World, mid: World, n: nat)
    requires Whole(w) && Whole(mid) && (BothConnected(mid) || Rank(mid) + n <= Rank(w))
    requires n >= 5 + w.client.link.timeout && n >= 5 + w.gateway.link.timeout && n >= 6
    ensures BothConnected(mid)
  {
    hide Rank, Invariant, PhasesOk, Calm, BothTended;
    RankBound(w);
    RankBound(mid);
  }

  lemma RunIsWhole(c: Client, g: Gateway, events: seq<Event>)
    requires Created(c, g) && AllowedRun(Start(c, g), events) && forall event <- events :: !IsRestart(event)
    ensures Whole(Run(Start(c, g), events))
  {
    hide Run, AllowedRun, IsRestart, Invariant, PhasesOk, Calm;
    StartOk(c, g);
    StartTended(c, g);
    RunKeeps(Start(c, g), events);
    RunPhases(Start(c, g), events);
    RunCalm(Start(c, g), events);
    RunTends(Start(c, g), events);
  }

  lemma StartTended(c: Client, g: Gateway)
    requires Created(c, g)
    ensures BothTended(Start(c, g)) && PhasesOk(Start(c, g)) && Calm(Start(c, g))
  {
    hide Tended;
    NewLinkTended(c.link.config, c.link.timeout, c.link.instance, c.link.endpoint.tx.random);
    NewLinkTended(g.link.config, g.link.timeout, g.link.instance, g.link.endpoint.tx.random);
  }
}
