/**
 The session above the packet transport, as functions on values: the handshake,
 the timeouts and the generation reset of both roles.
 The classes in LightPeers.dfy are proved equal to these functions.
 */
module LightSession {
  import opened Bytes
  import opened Common
  import opened PacketTransport

  const CONTROL_VERSION: byte := 2
  const CONTROL_BYTES := 8

  datatype FrameType = Idle | Discover | Offer | Confirm | Ready | Data | Ack

  datatype LightFrame = LightFrame(kind: FrameType, session: uint32, sequence: uint32, payload: seq<byte>)

  datatype ClientPhase = Discovering | Confirming | Connected

  datatype GatewayPhase = Listening | Offering | Accepted | Connected

  /** What both roles keep: the transport, the known peer instance and the receive clock. */
  datatype Link = Link(
    config: Config,
    timeout: nat,
    instance: uint32,
    endpoint: Endpoint,
    remote: Option<uint32>,
    frame: nat,
    lastReceive: nat,
    hasReceived: bool,
    rejections: nat)

  datatype Client = Client(phase: ClientPhase, session: uint32, link: Link)

  datatype Gateway = Gateway(phase: GatewayPhase, session: uint32, link: Link)

  // ---------------------------------------------------------------------
  // Control frames
  // ---------------------------------------------------------------------

  function ControlPayload(maxPacket: uint16, instance: uint32): (payload: seq<byte>)
    ensures |payload| == CONTROL_BYTES
  {
    [CONTROL_VERSION, PACKET_MODE] + WriteU16(maxPacket) + WriteU32(instance)
  }

  predicate ControlValid(payload: seq<byte>, maxPacket: uint16) {
    && |payload| == CONTROL_BYTES
    && payload[0] == CONTROL_VERSION && payload[1] == PACKET_MODE
    && ReadU16(payload, 2) == maxPacket
    && ReadU32(payload, 4) != 0
  }

  /** A control frame is valid for a peer exactly when both use one packet limit; it names its sender. */
  lemma ControlReads(maxPacket: uint16, instance: uint32, limit: uint16)
    requires instance != 0
    ensures ControlValid(ControlPayload(maxPacket, instance), limit) <==> maxPacket == limit
    ensures ReadU32(ControlPayload(maxPacket, instance), 4) == instance
  {
    var payload := ControlPayload(maxPacket, instance);
    U16RoundTrip(maxPacket, [CONTROL_VERSION, PACKET_MODE], WriteU32(instance));
    assert payload == [CONTROL_VERSION, PACKET_MODE] + WriteU16(maxPacket) + WriteU32(instance);
    U32RoundTrip(instance, [CONTROL_VERSION, PACKET_MODE] + WriteU16(maxPacket), []);
    assert payload == [CONTROL_VERSION, PACKET_MODE] + WriteU16(maxPacket) + WriteU32(instance) + [];
  }

  function Control(kind: FrameType, session: uint32, l: Link): LightFrame {
    LightFrame(kind, session, l.frame % TWO_32, ControlPayload(l.config.maxPacket, l.instance))
  }

  // ---------------------------------------------------------------------
  // Building frames
  // ---------------------------------------------------------------------

  function BuildStream(l: Link, session: uint32): (Link, LightFrame)
    requires ValidSender(l.endpoint.tx)
  {
    var (after, f) := Build(l.endpoint, l.config, l.frame);
    (l.(endpoint := after), LightFrame(if f.hasData then Data else Ack, session, f.sequence, f.payload))
  }

  function BuildClient(c: Client): (Client, LightFrame)
    requires ValidSender(c.link.endpoint.tx)
  {
    match c.phase
    case Discovering => (c, Control(Discover, c.session, c.link))
    case Confirming => (c, Control(Confirm, c.session, c.link))
    case Connected =>
      var (link, f) := BuildStream(c.link, c.session);
      (c.(link := link), f)
  }

  function BuildGateway(g: Gateway): (Gateway, LightFrame)
    requires ValidSender(g.link.endpoint.tx)
  {
    match g.phase
    case Listening => (g, Control(Idle, 0, g.link))
    case Offering => (g, Control(Offer, g.session, g.link))
    case Accepted => (g, Control(Ready, g.session, g.link))
    case Connected =>
      var (link, f) := BuildStream(g.link, g.session);
      (g.(link := link), f)
  }

  // ---------------------------------------------------------------------
  // Receiving frames
  // ---------------------------------------------------------------------

  /** Takes note of the peer's instance; a changed one means it restarted, so the sequence state goes. */
  function Learn(l: Link, instance: uint32): Link {
    if l.remote.Some? && l.remote.value != instance then
      l.(endpoint := ResetGeneration(l.endpoint), remote := Some(instance))
    else l.(remote := Some(instance))
  }

  function Heard(l: Link): Link {
    l.(lastReceive := l.frame, hasReceived := true)
  }

  predicate IsStream(f: LightFrame) {
    f.kind == Data || f.kind == Ack
  }

  function StreamPart(f: LightFrame): Frame {
    Frame(f.sequence, f.payload, f.kind == Data)
  }

  /** Passes a stream frame to the transport; a failure counts as a rejection. */
  function TakeStream(l: Link, f: LightFrame): (Link, Status) {
    var (after, status) := Process(l.endpoint, l.config, StreamPart(f));
    if status == Ok then (Heard(l.(endpoint := after)), Ok)
    else (l.(endpoint := after, rejections := l.rejections + 1), status)
  }

  function GatewayReceive(g: Gateway, f: LightFrame): Gateway {
    if f.kind == Discover && f.session != 0 && ControlValid(f.payload, g.link.config.maxPacket) then
      if g.phase == GatewayPhase.Connected && g.session != f.session then g
      else
        var link := Heard(Learn(g.link, ReadU32(f.payload, 4)));
        if g.session != f.session || g.phase == Listening then Gateway(Offering, f.session, link)
        else g.(link := link)
    else if f.session != g.session || g.session == 0 then g
    else if g.phase == Offering && f.kind == Confirm && ControlValid(f.payload, g.link.config.maxPacket) then
      Gateway(Accepted, g.session, Heard(Learn(g.link, ReadU32(f.payload, 4))))
    else if (g.phase == Accepted || g.phase == GatewayPhase.Connected) && IsStream(f) then
      var (link, status) := TakeStream(g.link, f);
      Gateway(if status == Ok then GatewayPhase.Connected else g.phase, g.session, link)
    else if g.phase == Accepted && f.kind == Confirm && ControlValid(f.payload, g.link.config.maxPacket) then
      g.(link := Heard(g.link))
    else g
  }

  function ClientReceive(c: Client, f: LightFrame): Client {
    if f.session != c.session then c
    else if c.phase != ClientPhase.Connected && f.kind == Offer && ControlValid(f.payload, c.link.config.maxPacket) then
      Client(Confirming, c.session, Heard(Learn(c.link, ReadU32(f.payload, 4))))
    else if c.phase == Confirming && f.kind == Ready && ControlValid(f.payload, c.link.config.maxPacket) then
      Client(ClientPhase.Connected, c.session, Heard(Learn(c.link, ReadU32(f.payload, 4))))
    else if c.phase == ClientPhase.Connected && IsStream(f) then c.(link := TakeStream(c.link, f).0)
    else if c.phase == ClientPhase.Connected && f.kind == Ready && ControlValid(f.payload, c.link.config.maxPacket) then
      c.(link := Heard(c.link))
    else c
  }

  // ---------------------------------------------------------------------
  // Timeouts
  // ---------------------------------------------------------------------

  predicate TimedOut(l: Link) {
    l.hasReceived && l.frame - l.lastReceive >= l.timeout
  }

  /** A client that heard nothing for too long looks for the gateway again, under a new session. */
  function ClientTimeout(c: Client, next: uint32): Client {
    if c.phase != Discovering && TimedOut(c.link) then
      Client(Discovering, next, c.link.(hasReceived := false))
    else c
  }

  function GatewayTimeout(g: Gateway): Gateway {
    if g.phase != Listening && TimedOut(g.link) then
      Gateway(Listening, 0, g.link.(hasReceived := false))
    else g
  }

  function StartLink(config: Config, timeout: nat, instance: uint32, random: bv32): Link {
    Link(config, timeout, instance, Fresh(random), None, 0, 0, false, 0)
  }

  /** The local frame counter never moves back. */
  function SetFrame(l: Link, frame: nat): (Link, Status) {
    if frame < l.frame then (l, ErrArgument) else (l.(frame := frame), Ok)
  }
}
