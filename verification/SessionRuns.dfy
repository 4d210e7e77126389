/**
 A client and a gateway over the lock-step channel: in every round both build a
 frame, each frame is dropped or delivered, and timeouts are checked.  Between
 rounds packets are queued and taken, and either peer may crash and restart.
 */
module SessionRuns {
  import opened Bytes
  import opened Common
  import opened PacketTransport
  import opened TransportInvariant
  import opened TransportSteps
  import opened LightSession
  import opened SessionRoute

  /** `up` runs from client to gateway; `used` holds every session and instance id drawn so far. */
  datatype World = World(client: Client, gateway: Gateway, up: Route, down: Route, used: set<uint32>)

  datatype Event =
    | EnqueueAt(atClient: bool, packet: Packet)
    | DequeueAt(atClient: bool, room: nat)
    | Round(clientFrame: nat, gatewayFrame: nat, toGateway: bool, toClient: bool, nextSession: uint32)
    | RestartClient(config: Config, timeout: nat, session: uint32, instance: uint32, random: bv32)
    | RestartGateway(config: Config, timeout: nat, instance: uint32, random: bv32)

  /** The client has taken note of the gateway's present instance; then the gateway knows the client's. */
  predicate Joined(w: World) {
    w.client.link.remote == Some(w.gateway.link.instance)
  }

  function ClientEnd(w: World): Endpoint { w.client.link.endpoint }

  function GatewayEnd(w: World): Endpoint { w.gateway.link.endpoint }

  // ---------------------------------------------------------------------
  // Steps
  // ---------------------------------------------------------------------

  function Enqueues(w: World, atClient: bool, packet: Packet): World {
    var l := if atClient then w.client.link else w.gateway.link;
    var (after, status) := Enqueue(l.endpoint, l.config, packet);
    if status != Ok then w
    else if atClient then w.(client := w.client.(link := l.(endpoint := after)), up := Logging(w.up, packet, Joined(w)))
    else w.(gateway := w.gateway.(link := l.(endpoint := after)), down := Logging(w.down, packet, Joined(w)))
  }

  function Dequeues(w: World, atClient: bool, room: nat): World {
    var l := if atClient then w.client.link else w.gateway.link;
    var r := Dequeue(l.endpoint, l.config, room);
    var more := More(l.endpoint.rx, r.0.rx, Out(r));
    if atClient then w.(client := w.client.(link := l.(endpoint := r.0)), down := Handing(w.down, Out(r), more))
    else w.(gateway := w.gateway.(link := l.(endpoint := r.0)), up := Handing(w.up, Out(r), more))
  }

  /** The sender is valid in every reachable world; see InvariantHolds. */
  function ClientSends(w: World, frame: nat): (World, Option<LightFrame>) {
    var (link, status) := SetFrame(w.client.link, frame);
    if status != Ok || !ValidSender(link.endpoint.tx) then (w, None)
    else
      var (client, f) := BuildClient(w.client.(link := link));
      (w.(client := client,
          up := if client.phase == ClientPhase.Connected
                then Cutting(w.up, link.endpoint.tx, client.link.endpoint.tx, Joined(w)) else w.up),
       Some(f))
  }

  function GatewaySends(w: World, frame: nat): (World, Option<LightFrame>) {
    var (link, status) := SetFrame(w.gateway.link, frame);
    if status != Ok || !ValidSender(link.endpoint.tx) then (w, None)
    else
      var (gateway, f) := BuildGateway(w.gateway.(link := link));
      (w.(gateway := gateway,
          down := if gateway.phase == GatewayPhase.Connected
                  then Cutting(w.down, link.endpoint.tx, gateway.link.endpoint.tx, Joined(w)) else w.down),
       Some(f))
  }

  function GatewayTakes(w: World, f: LightFrame): World {
    var g := GatewayReceive(w.gateway, f);
    if g.link.remote != w.gateway.link.remote then
      w.(gateway := g, up := ReceiverReset(w.up), down := SenderReset(w.down, GatewayEnd(w).tx))
    else w.(gateway := g, up := Handing(w.up, [], More(GatewayEnd(w).rx, g.link.endpoint.rx, [])))
  }

  function ClientTakes(w: World, f: LightFrame): World {
    var c := ClientReceive(w.client, f);
    if c.link.remote != w.client.link.remote then
      w.(client := c, up := Join(w.up, ClientEnd(w).tx), down := Join(w.down, GatewayEnd(w).tx))
    else w.(client := c, down := Handing(w.down, [], More(ClientEnd(w).rx, c.link.endpoint.rx, [])))
  }

  function Timeouts(w: World, clientRuns: bool, gatewayRuns: bool, next: uint32): World {
    w.(client := if clientRuns then ClientTimeout(w.client, next) else w.client,
       gateway := if gatewayRuns then GatewayTimeout(w.gateway) else w.gateway,
       used := w.used + {next})
  }

  /** A peer whose local frame number went back does nothing in this round. */
  function Rounds(w: World, clientFrame: nat, gatewayFrame: nat, toGateway: bool, toClient: bool, next: uint32): World {
    var (w1, upward) := ClientSends(w, clientFrame);
    var (w2, downward) := GatewaySends(w1, gatewayFrame);
    var w3 := if toGateway && upward.Some? && downward.Some? then GatewayTakes(w2, upward.value) else w2;
    var w4 := if toClient && upward.Some? && downward.Some? then ClientTakes(w3, downward.value) else w3;
    Timeouts(w4, upward.Some?, downward.Some?, next)
  }

  function NewClient(config: Config, timeout: nat, session: uint32, instance: uint32, random: bv32): Client {
    Client(Discovering, session, StartLink(config, timeout, instance, random))
  }

  function NewGateway(config: Config, timeout: nat, instance: uint32, random: bv32): Gateway {
    Gateway(Listening, 0, StartLink(config, timeout, instance, random))
  }

  function Step(w: World, event: Event): World {
    match event
    case EnqueueAt(atClient, packet) => Enqueues(w, atClient, packet)
    case DequeueAt(atClient, room) => Dequeues(w, atClient, room)
    case Round(cf, gf, toGateway, toClient, next) => Rounds(w, cf, gf, toGateway, toClient, next)
    case RestartClient(config, timeout, session, instance, random) =>
      w.(client := NewClient(config, timeout, session, instance, random),
         up := SenderCrash(w.up), down := ReceiverCrash(w.down), used := w.used + {session, instance})
    case RestartGateway(config, timeout, instance, random) =>
      w.(gateway := NewGateway(config, timeout, instance, random),
         up := ReceiverCrash(w.up), down := SenderCrash(w.down), used := w.used + {instance})
  }

  predicate FreshId(id: uint32, used: set<uint32>) {
    id != 0 && id !in used
  }

  /** Newly drawn session and instance ids are fresh, and configurations are valid. */
  predicate Allowed(event: Event, used: set<uint32>) {
    match event
    case EnqueueAt(_, _) => true
    case DequeueAt(_, _) => true
    case Round(_, _, _, _, next) => FreshId(next, used)
    case RestartClient(config, _, session, instance, _) =>
      ValidConfig(config) && FreshId(session, used) && FreshId(instance, used) && session != instance
    case RestartGateway(config, _, instance, _) => ValidConfig(config) && FreshId(instance, used)
  }

  // ---------------------------------------------------------------------
  // The invariant
  // ---------------------------------------------------------------------

  predicate Knows(l: Link, instance: uint32) {
    l.remote == Some(instance)
  }

  /** No cell was cut or received in the present generation. */
  predicate Unsynced(e: Endpoint) {
    e == ResetGeneration(e)
  }

  predicate IdsOk(c: Client, g: Gateway, used: set<uint32>) {
    && c.session in used && c.session != 0
    && c.link.instance in used && c.link.instance != 0 && g.link.instance in used && g.link.instance != 0
    && (g.session == 0 <==> g.phase == Listening) && (g.session != 0 ==> g.session in used)
    && (c.link.remote.Some? ==> c.link.remote.value in used)
    && (g.link.remote.Some? ==> g.link.remote.value in used)
    && c.link.rejections == 0 && g.link.rejections == 0
  }

  /** Who knows whom, and since when. */
  predicate KnowledgeOk(c: Client, g: Gateway) {
    && (g.session == c.session ==> Knows(g.link, c.link.instance))
    && (g.session == c.session && c.phase != Discovering ==> Knows(c.link, g.link.instance))
    && (Knows(g.link, c.link.instance) && (g.phase == Accepted || g.phase == GatewayPhase.Connected) ==>
          Knows(c.link, g.link.instance))
    && (Knows(c.link, g.link.instance) ==> Knows(g.link, c.link.instance))
    && (c.phase != Discovering ==> c.link.remote.Some? && (g.session == c.session || g.session == 0))
    && (g.phase != Listening ==> g.link.remote.Some?)
  }

  /** A peer that has not yet met the other's present instance has a clean sequence state. */
  predicate CleanOk(c: Client, g: Gateway) {
    && (c.link.remote.None? ==> Unsynced(c.link.endpoint))
    && (g.link.remote.None? ==> Unsynced(g.link.endpoint))
    && (Knows(g.link, c.link.instance) && !Knows(c.link, g.link.instance) ==> Unsynced(g.link.endpoint))
  }

  predicate HandshakeOk(w: World) {
    IdsOk(w.client, w.gateway, w.used) && KnowledgeOk(w.client, w.gateway) && CleanOk(w.client, w.gateway)
  }

  ghost predicate UpOk(w: World) {
    RouteOk(ClientEnd(w).tx, w.client.link.config, GatewayEnd(w).rx, w.gateway.link.config, w.up, Joined(w))
  }

  ghost predicate DownOk(w: World) {
    RouteOk(GatewayEnd(w).tx, w.gateway.link.config, ClientEnd(w).rx, w.client.link.config, w.down, Joined(w))
  }

  ghost predicate Invariant(w: World) {
    HandshakeOk(w) && UpOk(w) && DownOk(w)
  }

  // ---------------------------------------------------------------------
  // The application side
  // ---------------------------------------------------------------------

  lemma EnqueueKeepsClean(e: Endpoint, c: Config, packet: Packet)
    ensures Unsynced(e) ==> Unsynced(Enqueue(e, c, packet).0)
    ensures Enqueue(e, c, packet).0.rx == e.rx
  {
  }

  lemma DequeueKeepsClean(e: Endpoint, c: Config, room: nat)
    requires Unsynced(e)
    ensures Unsynced(Dequeue(e, c, room).0)
  {
    DrainTurn(e.rx, c);
    if e.rx.incoming != [] {
      DrainTurn(e.rx.(incoming := e.rx.incoming[1..]), c);
    }
  }

  lemma EnqueuesKeep(w: World, atClient: bool, packet: Packet)
    requires Invariant(w)
    ensures Invariant(Enqueues(w, atClient, packet))
  {
    hide RouteOk, Enqueue, Unsynced, Logging;
    var l := if atClient then w.client.link else w.gateway.link;
    EnqueueKeepsClean(l.endpoint, l.config, packet);
    if Enqueue(l.endpoint, l.config, packet).1 == Ok {
      if atClient {
        EnqueueMoves(l.endpoint, l.config, packet, GatewayEnd(w).rx, w.gateway.link.config, w.up, Joined(w));
      } else {
        EnqueueMoves(l.endpoint, l.config, packet, ClientEnd(w).rx, w.client.link.config, w.down, Joined(w));
      }
    }
  }

  lemma DequeuesKeep(w: World, atClient: bool, room: nat)
    requires Invariant(w)
    ensures Invariant(Dequeues(w, atClient, room))
  {
    hide RouteOk, Dequeue, Unsynced, Handing, More, Out;
    var l := if atClient then w.client.link else w.gateway.link;
    if Unsynced(l.endpoint) {
      DequeueKeepsClean(l.endpoint, l.config, room);
    }
    if atClient {
      DequeueMoves(l.endpoint, l.config, room, GatewayEnd(w).tx, w.gateway.link.config, w.down, Joined(w));
    } else {
      DequeueMoves(l.endpoint, l.config, room, ClientEnd(w).tx, w.client.link.config, w.up, Joined(w));
    }
  }

  // ---------------------------------------------------------------------
  // Sending
  // ---------------------------------------------------------------------

  /** A frame the client built in this round and that has not arrived yet. */
  ghost predicate FromClient(f: LightFrame, w: World) {
    && f.session == w.client.session
    && match f.kind
       case Discover => w.client.phase == Discovering && f.payload == ControlPayload(w.client.link.config.maxPacket, w.client.link.instance)
       case Confirm => w.client.phase == Confirming && f.payload == ControlPayload(w.client.link.config.maxPacket, w.client.link.instance)
       case Data | Ack => w.client.phase == ClientPhase.Connected && (Joined(w) ==> UpTrue(f, w))
       case _ => false
  }

  ghost predicate UpTrue(f: LightFrame, w: World) {
    AckOk(f.payload, ClientEnd(w).rx, w.down.cells) && DataOk(StreamPart(f), w.up.cells, GatewayEnd(w).rx)
  }

  /** A frame the gateway built in this round, as far as the client's session is concerned. */
  ghost predicate FromGateway(f: LightFrame, w: World) {
    f.session == w.client.session ==>
      && w.gateway.session == f.session
      && match f.kind
         case Offer | Ready => f.payload == ControlPayload(w.gateway.link.config.maxPacket, w.gateway.link.instance)
         case Data | Ack => Joined(w) && DownTrue(f, w)
         case _ => false
  }

  ghost predicate DownTrue(f: LightFrame, w: World) {
    AckOk(f.payload, GatewayEnd(w).rx, w.up.cells) && DataOk(StreamPart(f), w.down.cells, ClientEnd(w).rx)
  }

  lemma BuiltStream(l: Link, session: uint32)
    requires ValidSender(l.endpoint.tx)
    ensures var (link, f) := BuildStream(l, session);
            && link == l.(endpoint := Build(l.endpoint, l.config, l.frame).0)
            && StreamPart(f) == Build(l.endpoint, l.config, l.frame).1
            && f.session == session && IsStream(f)
  {
    hide Build;
  }

  lemma RoutesValid(w: World)
    requires Invariant(w)
    ensures ValidSender(ClientEnd(w).tx) && ValidSender(GatewayEnd(w).tx)
  {
    hide RouteOk, ValidSender, HandshakeOk;
    EndsOk(ClientEnd(w).tx, w.client.link.config, GatewayEnd(w).rx, w.gateway.link.config, w.up, Joined(w));
    EndsOk(GatewayEnd(w).tx, w.gateway.link.config, ClientEnd(w).rx, w.client.link.config, w.down, Joined(w));
  }

  /** A connected client knows some gateway, so its sequence state need not be clean. */
  lemma ClientSendsKeeps(w: World, frame: nat)
    requires Invariant(w)
    ensures var (after, f) := ClientSends(w, frame);
            Invariant(after) && (f.Some? ==> FromClient(f.value, after))
    ensures ClientSends(w, frame).1.None? <==> frame < w.client.link.frame
  {
    hide RouteOk, Build, BuildStream, Unsynced, Cutting, AckOk, DataOk, ValidSender;
    RoutesValid(w);
    if frame >= w.client.link.frame && w.client.phase == ClientPhase.Connected {
      var l := w.client.link.(frame := frame);
      BuiltStream(l, w.client.session);
      BuildMoves(l.endpoint, l.config, frame, GatewayEnd(w), w.gateway.link.config, w.up, w.down, Joined(w));
    }
  }

  lemma GatewaySendsKeeps(w: World, frame: nat, upward: Option<LightFrame>)
    requires Invariant(w) && (upward.Some? ==> FromClient(upward.value, w))
    ensures var (after, f) := GatewaySends(w, frame);
            && Invariant(after) && (upward.Some? ==> FromClient(upward.value, after))
            && (f.Some? ==> FromGateway(f.value, after))
    ensures GatewaySends(w, frame).1.None? <==> frame < w.gateway.link.frame
  {
    hide RouteOk, Build, BuildStream, Unsynced, Cutting, AckOk, DataOk, ValidSender;
    RoutesValid(w);
    if frame >= w.gateway.link.frame && w.gateway.phase == GatewayPhase.Connected {
      var l := w.gateway.link.(frame := frame);
      BuiltStream(l, w.gateway.session);
      BuildMoves(l.endpoint, l.config, frame, ClientEnd(w), w.client.link.config, w.down, w.up, Joined(w));
      CutPrefix(w.down, l.endpoint.tx, Build(l.endpoint, l.config, frame).0.tx, Joined(w));
      if upward.Some? && IsStream(upward.value) && Joined(w) {
        GrowsSelf(ClientEnd(w).rx);
        AckOkLater(upward.value.payload, ClientEnd(w).rx, w.down.cells, ClientEnd(w).rx,
                   GatewaySends(w, frame).0.down.cells);
      }
    }
  }

  lemma GrowsSelf(rx: Receiver)
    ensures Grows(rx, rx)
  {
  }

  lemma CutPrefix(r: Route, tx: Sender, after: Sender, joined: bool)
    ensures r.cells <= Cutting(r, tx, after, joined).cells
  {
  }

  // ---------------------------------------------------------------------
  // Learning an instance
  // ---------------------------------------------------------------------

  lemma CleanReset(e: Endpoint)
    ensures ResetGeneration(e) == Endpoint(ResetTx(e.tx), ResetRx(e.rx)) && Unsynced(ResetGeneration(e))
  {
  }

  /** Learning a new instance leaves a clean sequence state, whether it was known to be clean or is reset. */
  lemma LearnCleans(l: Link, instance: uint32)
    requires l.remote.None? ==> Unsynced(l.endpoint)
    ensures Learn(l, instance).remote == Some(instance)
    ensures l.remote == Some(instance) ==> Learn(l, instance) == l
    ensures l.remote != Some(instance) ==>
              && Learn(l, instance) == l.(endpoint := ResetGeneration(l.endpoint), remote := Some(instance))
              && Unsynced(Learn(l, instance).endpoint)
  {
  }

  /** The gateway learns an instance the client could not have told it before. */
  lemma GatewayLearns(w: World)
    requires Invariant(w) && !Knows(w.gateway.link, w.client.link.instance)
    ensures !Joined(w)
    ensures var e := ResetGeneration(GatewayEnd(w));
            && RouteOk(ClientEnd(w).tx, w.client.link.config, e.rx, w.gateway.link.config, ReceiverReset(w.up), false)
            && RouteOk(e.tx, w.gateway.link.config, ClientEnd(w).rx, w.client.link.config,
                       SenderReset(w.down, GatewayEnd(w).tx), false)
  {
    hide RouteOk, Unsynced, ResetTx, ResetRx, SenderReset, ReceiverReset;
    CleanReset(GatewayEnd(w));
    SenderResets(GatewayEnd(w).tx, w.gateway.link.config, ClientEnd(w).rx, w.client.link.config, w.down);
    ReceiverResets(ClientEnd(w).tx, w.client.link.config, GatewayEnd(w).rx, w.gateway.link.config, w.up);
  }

  /** The client learns the gateway's instance last: now both begin a generation. */
  lemma ClientLearns(w: World)
    requires Invariant(w) && !Joined(w) && Knows(w.gateway.link, w.client.link.instance)
    requires w.client.link.config.maxPacket == w.gateway.link.config.maxPacket
    ensures var e := ResetGeneration(ClientEnd(w));
            && RouteOk(e.tx, w.client.link.config, GatewayEnd(w).rx, w.gateway.link.config, Join(w.up, ClientEnd(w).tx), true)
            && RouteOk(GatewayEnd(w).tx, w.gateway.link.config, e.rx, w.client.link.config, Join(w.down, GatewayEnd(w).tx), true)
  {
    hide RouteOk, ResetTx, ResetRx, Join;
    CleanReset(ClientEnd(w));
    CleanReset(GatewayEnd(w));
    Joins(ClientEnd(w).tx, w.client.link.config, GatewayEnd(w).rx, w.gateway.link.config, w.up);
    Joins(GatewayEnd(w).tx, w.gateway.link.config, ClientEnd(w).rx, w.client.link.config, w.down);
  }

  // ---------------------------------------------------------------------
  // Receiving
  // ---------------------------------------------------------------------

  /** Handing nothing over changes nothing. */
  lemma NothingHanded(r: Route, rx: Receiver)
    ensures Handing(r, [], More(rx, rx, [])) == r
  {
    assert r.dequeued + [] == r.dequeued && r.tags + Range(Mark(r), 0) == r.tags;
  }

  /** The gateway's control frames stay true while the gateway takes the client's frame. */
  lemma GatewayTakesControl(w: World, f: LightFrame)
    requires Invariant(w) && FromClient(f, w) && !IsStream(f)
    ensures Invariant(GatewayTakes(w, f))
  {
    hide RouteOk, Unsynced, Handing, More, SenderReset, ReceiverReset, ResetGeneration, ControlPayload, ControlValid;
    var c := w.client.link;
    ControlReads(c.config.maxPacket, c.instance, w.gateway.link.config.maxPacket);
    LearnCleans(w.gateway.link, c.instance);
    NothingHanded(w.up, GatewayEnd(w).rx);
    if !Knows(w.gateway.link, c.instance) {
      GatewayLearns(w);
    }
  }

  lemma TakenStream(l: Link, f: LightFrame)
    requires Process(l.endpoint, l.config, StreamPart(f)).1 == Ok
    ensures TakeStream(l, f) == (Heard(l.(endpoint := Process(l.endpoint, l.config, StreamPart(f)).0)), Ok)
  {
  }

  lemma GatewayTakesStream(w: World, f: LightFrame)
    requires Invariant(w) && FromClient(f, w) && IsStream(f)
    ensures Invariant(GatewayTakes(w, f))
    ensures Joined(w) ==> Grows(GatewayEnd(w).rx, GatewayEnd(GatewayTakes(w, f)).rx)
  {
    hide RouteOk, Unsynced, Handing, More, TakeStream, Process, AckOk, DataOk, Grows;
    var g := w.gateway;
    NothingHanded(w.up, GatewayEnd(w).rx);
    GrowsSelf(GatewayEnd(w).rx);
    if f.session == g.session && g.session != 0 && (g.phase == Accepted || g.phase == GatewayPhase.Connected) {
      assert Joined(w);
      ProcessMoves(GatewayEnd(w), g.link.config, StreamPart(f), ClientEnd(w), w.client.link.config, w.up, w.down);
      TakenStream(g.link, f);
    }
  }

  /** A gateway frame stays true while the gateway takes the client's frame of the same round. */
  lemma GatewayFrameStays(w: World, f: LightFrame, downward: LightFrame)
    requires Invariant(w) && FromClient(f, w) && FromGateway(downward, w)
    ensures FromGateway(downward, GatewayTakes(w, f))
  {
    hide RouteOk, Unsynced, Handing, More, SenderReset, ReceiverReset, ResetGeneration, ControlPayload, ControlValid,
      AckOk, DataOk, Grows, TakeStream;
    var c := w.client.link;
    var after := GatewayTakes(w, f);
    LearnCleans(w.gateway.link, c.instance);
    ControlReads(c.config.maxPacket, c.instance, w.gateway.link.config.maxPacket);
    if downward.session == w.client.session && IsStream(downward) {
      GrowsSelf(GatewayEnd(w).rx);
      if IsStream(f) {
        GatewayTakesStream(w, f);
      }
      KeepsCells(w.up, [], More(GatewayEnd(w).rx, GatewayEnd(after).rx, []));
      AckOkLater(downward.payload, GatewayEnd(w).rx, w.up.cells, GatewayEnd(after).rx, after.up.cells);
    }
    StreamKeepsLink(w.gateway.link, f);
  }

  lemma KeepsCells(r: Route, out: seq<Packet>, more: nat)
    ensures Handing(r, out, more).cells == r.cells
  {
  }

  lemma StreamKeepsLink(l: Link, f: LightFrame)
    ensures TakeStream(l, f).0.config == l.config && TakeStream(l, f).0.instance == l.instance
    ensures TakeStream(l, f).0.remote == l.remote
  {
  }

  lemma ClientTakesStream(w: World, f: LightFrame)
    requires Invariant(w) && FromGateway(f, w) && IsStream(f)
    ensures Invariant(ClientTakes(w, f))
  {
    hide RouteOk, Unsynced, Handing, More, TakeStream, Process, AckOk, DataOk, Grows;
    var c := w.client;
    NothingHanded(w.down, ClientEnd(w).rx);
    if f.session == c.session && c.phase == ClientPhase.Connected {
      ProcessMoves(ClientEnd(w), c.link.config, StreamPart(f), GatewayEnd(w), w.gateway.link.config, w.down, w.up);
      TakenStream(c.link, f);
    }
  }

  lemma ClientTakesControl(w: World, f: LightFrame)
    requires Invariant(w) && FromGateway(f, w) && !IsStream(f)
    ensures Invariant(ClientTakes(w, f))
  {
    hide RouteOk, Unsynced, Handing, More, Join, ResetGeneration, ControlPayload, ControlValid;
    var g := w.gateway.link;
    ControlReads(g.config.maxPacket, g.instance, w.client.link.config.maxPacket);
    LearnCleans(w.client.link, g.instance);
    NothingHanded(w.down, ClientEnd(w).rx);
    if f.session == w.client.session && !Joined(w) && g.config.maxPacket == w.client.link.config.maxPacket {
      ClientLearns(w);
    }
  }

  lemma GatewayTakesKeeps(w: World, f: LightFrame)
    requires Invariant(w) && FromClient(f, w)
    ensures Invariant(GatewayTakes(w, f))
  {
    hide Invariant, GatewayTakes, FromClient;
    if IsStream(f) {
      GatewayTakesStream(w, f);
    } else {
      GatewayTakesControl(w, f);
    }
  }

  lemma ClientTakesKeeps(w: World, f: LightFrame)
    requires Invariant(w) && FromGateway(f, w)
    ensures Invariant(ClientTakes(w, f))
  {
    hide Invariant, ClientTakes, FromGateway;
    if IsStream(f) {
      ClientTakesStream(w, f);
    } else {
      ClientTakesControl(w, f);
    }
  }

  // ---------------------------------------------------------------------
  // Rounds, timeouts and restarts
  // ---------------------------------------------------------------------

  lemma TimeoutsKeep(w: World, clientRuns: bool, gatewayRuns: bool, next: uint32)
    requires Invariant(w) && FreshId(next, w.used)
    ensures Invariant(Timeouts(w, clientRuns, gatewayRuns, next))
  {
    hide RouteOk, Unsynced;
  }

  lemma RoundsKeep(w: World, clientFrame: nat, gatewayFrame: nat, toGateway: bool, toClient: bool, next: uint32)
    requires Invariant(w) && FreshId(next, w.used)
    ensures Invariant(Rounds(w, clientFrame, gatewayFrame, toGateway, toClient, next))
  {
    hide Invariant, ClientSends, GatewaySends, GatewayTakes, ClientTakes, Timeouts, FromClient, FromGateway;
    var (w1, upward) := ClientSends(w, clientFrame);
    ClientSendsKeeps(w, clientFrame);
    var (w2, downward) := GatewaySends(w1, gatewayFrame);
    GatewaySendsKeeps(w1, gatewayFrame, upward);
    var w3 := w2;
    if toGateway && upward.Some? && downward.Some? {
      w3 := GatewayTakes(w2, upward.value);
      GatewayTakesKeeps(w2, upward.value);
      GatewayFrameStays(w2, upward.value, downward.value);
    }
    var w4 := w3;
    if toClient && upward.Some? && downward.Some? {
      w4 := ClientTakes(w3, downward.value);
      ClientTakesKeeps(w3, downward.value);
    }
    UsedSame(w, clientFrame, gatewayFrame, toGateway, toClient);
    TimeoutsKeep(w4, upward.Some?, downward.Some?, next);
  }

  lemma UsedSame(w: World, clientFrame: nat, gatewayFrame: nat, toGateway: bool, toClient: bool)
    ensures ClientSends(w, clientFrame).0.used == w.used
    ensures GatewaySends(ClientSends(w, clientFrame).0, gatewayFrame).0.used == w.used
    ensures forall v: World, f: LightFrame :: GatewayTakes(v, f).used == v.used
    ensures forall v: World, f: LightFrame :: ClientTakes(v, f).used == v.used
  {
    hide BuildClient, BuildGateway, GatewayReceive, ClientReceive;
  }

  lemma CleanStart(random: bv32)
    ensures Unsynced(Fresh(random))
  {
  }

  lemma ClientRestarts(w: World, config: Config, timeout: nat, session: uint32, instance: uint32, random: bv32)
    requires Invariant(w) && Allowed(RestartClient(config, timeout, session, instance, random), w.used)
    ensures Invariant(Step(w, RestartClient(config, timeout, session, instance, random)))
  {
    hide RouteOk, Unsynced, SenderCrash, ReceiverCrash;
    CleanStart(random);
    SenderCrashes(ClientEnd(w).tx, w.client.link.config, GatewayEnd(w).rx, w.gateway.link.config, w.up, Joined(w), random, config);
    ReceiverCrashes(GatewayEnd(w).tx, w.gateway.link.config, ClientEnd(w).rx, w.client.link.config, w.down, Joined(w), random, config);
  }

  lemma GatewayRestarts(w: World, config: Config, timeout: nat, instance: uint32, random: bv32)
    requires Invariant(w) && Allowed(RestartGateway(config, timeout, instance, random), w.used)
    ensures Invariant(Step(w, RestartGateway(config, timeout, instance, random)))
  {
    hide RouteOk, Unsynced, SenderCrash, ReceiverCrash;
    CleanStart(random);
    SenderCrashes(GatewayEnd(w).tx, w.gateway.link.config, ClientEnd(w).rx, w.client.link.config, w.down, Joined(w), random, config);
    ReceiverCrashes(ClientEnd(w).tx, w.client.link.config, GatewayEnd(w).rx, w.gateway.link.config, w.up, Joined(w), random, config);
  }

  lemma StepKeeps(w: World, event: Event)
    requires Invariant(w) && Allowed(event, w.used)
    ensures Invariant(Step(w, event))
  {
    hide Invariant, Rounds, Enqueues, Dequeues;
    match event
    case EnqueueAt(atClient, packet) => EnqueuesKeep(w, atClient, packet);
    case DequeueAt(atClient, room) => DequeuesKeep(w, atClient, room);
    case Round(cf, gf, toGateway, toClient, next) => RoundsKeep(w, cf, gf, toGateway, toClient, next);
    case RestartClient(config, timeout, session, instance, random) =>
      ClientRestarts(w, config, timeout, session, instance, random);
    case RestartGateway(config, timeout, instance, random) => GatewayRestarts(w, config, timeout, instance, random);
  }

  // ---------------------------------------------------------------------
  // Runs
  // ---------------------------------------------------------------------

  predicate AllowedRun(w: World, events: seq<Event>) {
    events == [] || (AllowedRun(w, events[..|events| - 1]) && Allowed(events[|events| - 1], Run(w, events[..|events| - 1]).used))
  }

  function Run(w: World, events: seq<Event>): World {
    if events == [] then w else Step(Run(w, events[..|events| - 1]), events[|events| - 1])
  }

  function Start(c: Client, g: Gateway): World {
    World(c, g, NewRoute(), NewRoute(), {c.session, c.link.instance, g.link.instance})
  }

  /** A client and a gateway just created, with ids of their own. */
  ghost predicate Created(c: Client, g: Gateway) {
    && c == NewClient(c.link.config, c.link.timeout, c.session, c.link.instance, c.link.endpoint.tx.random)
    && g == NewGateway(g.link.config, g.link.timeout, g.link.instance, g.link.endpoint.tx.random)
    && ValidConfig(c.link.config) && ValidConfig(g.link.config)
    && c.session != 0 && c.link.instance != 0 && g.link.instance != 0
    && c.link.instance != g.link.instance && c.session != c.link.instance && c.session != g.link.instance
  }

  ghost predicate Reachable(w: World) {
    exists c: Client, g: Gateway, events: seq<Event> ::
      Created(c, g) && AllowedRun(Start(c, g), events) && w == Run(Start(c, g), events)
  }

  lemma StartOk(c: Client, g: Gateway)
    requires Created(c, g)
    ensures Invariant(Start(c, g))
  {
    hide RouteOk, Unsynced, NewRoute, Fresh;
    CleanStart(c.link.endpoint.tx.random);
    CleanStart(g.link.endpoint.tx.random);
    NewRouteOk(c.link.config, g.link.config, c.link.endpoint.tx.random, g.link.endpoint.tx.random);
    NewRouteOk(g.link.config, c.link.config, g.link.endpoint.tx.random, c.link.endpoint.tx.random);
  }

  lemma {:induction false} RunKeeps(w: World, events: seq<Event>)
    requires Invariant(w) && AllowedRun(w, events)
    ensures Invariant(Run(w, events))
  {
    hide Invariant, Step, Allowed;
    if events != [] {
      RunKeeps(w, events[..|events| - 1]);
      StepKeeps(Run(w, events[..|events| - 1]), events[|events| - 1]);
    }
  }

  lemma InvariantHolds(w: World)
    requires Reachable(w)
    ensures Invariant(w)
  {
    hide Run, AllowedRun, Created, Invariant;
    var c: Client, g: Gateway, events: seq<Event> :|
      Created(c, g) && AllowedRun(Start(c, g), events) && w == Run(Start(c, g), events);
    StartOk(c, g);
    RunKeeps(Start(c, g), events);
  }

  // ---------------------------------------------------------------------
  // The theorems
  // ---------------------------------------------------------------------

  /**
   In every run with restarts: when the client is past discovery and the gateway
   is past listening they share one session; when both are connected each has
   noted the other's present instance, their packet limits agree, and both
   sequence spaces fit together.
   */
  lemma ConnectedPeersAgree(w: World)
    requires Reachable(w)
    ensures w.client.phase != Discovering && w.gateway.phase != Listening ==> w.client.session == w.gateway.session
    ensures w.client.phase == ClientPhase.Connected && w.gateway.phase == GatewayPhase.Connected ==>
              && Knows(w.client.link, w.gateway.link.instance) && Knows(w.gateway.link, w.client.link.instance)
              && w.client.link.config.maxPacket == w.gateway.link.config.maxPacket
              && FlowOk(ClientEnd(w).tx, GatewayEnd(w).rx, w.up.heard, w.gateway.link.config)
              && FlowOk(GatewayEnd(w).tx, ClientEnd(w).rx, w.down.heard, w.client.link.config)
  {
    hide Reachable, TagsOk, FlowOk, CleanOk;
    InvariantHolds(w);
  }

  /**
   In every run with restarts: what came out on one side, over all its lives, is
   a subsequence of what was accepted on the other; nothing comes out twice.
   */
  lemma NothingTwice(w: World)
    requires Reachable(w)
    ensures Subsequence(w.up.dequeued, w.up.log)
    ensures Subsequence(w.down.dequeued, w.down.log)
  {
    hide Reachable, TagsOk, JoinedOk, ApartOk, HandshakeOk, Subsequence;
    InvariantHolds(w);
    TagsMean(w.up, GatewayEnd(w).rx.incoming);
    TagsMean(w.down, ClientEnd(w).rx.incoming);
  }

  /** In every run with restarts neither peer ever rejects a stream frame of its session. */
  lemma NothingRejected(w: World)
    requires Reachable(w)
    ensures w.client.link.rejections == 0 && w.gateway.link.rejections == 0
  {
    hide Reachable, RouteOk;
    InvariantHolds(w);
  }
}
