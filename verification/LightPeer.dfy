/** One optical peer in packet mode, updated in place. */
module LightPeers {
  import opened Bytes
  import opened Common
  import opened PacketTransport
  import opened PacketEndpoints
  import opened LightSession

  /** One draw of the session's generator; the new state is the drawn value. */
  function DrawId(state: bv32): bv32 {
    ShiftLeft(ShiftRight(ShiftLeft(if state == 0 then 0xa511e9b3 else state, 13), 17), 5)
  }

  function IdOf(drawn: bv32): uint32 {
    if drawn == 0 then 1 else drawn as uint32
  }

  function RoleNumber(isClient: bool): bv32 { if isClient then 2 else 1 }

  lemma GatewayTakesStream(g: Gateway, f: LightFrame)
    requires IsStream(f) && f.session == g.session != 0 && (g.phase == Accepted || g.phase == GatewayPhase.Connected)
    ensures var (link, status) := TakeStream(g.link, f);
            GatewayReceive(g, f) == Gateway(if status == Ok then GatewayPhase.Connected else g.phase, g.session, link)
  {
    hide TakeStream;
  }

  /** The session of either role; a peer uses the fields of its own role only. */
  class LightPeer {
    const isClient: bool
    const transport: PacketEndpoint
    const timeout: nat
    var frame: nat
    var random: bv32
    var clientSession: uint32
    var gatewaySession: uint32
    var clientPhase: ClientPhase
    var gatewayPhase: GatewayPhase
    var clientLastReceive: nat
    var gatewayLastReceive: nat
    var clientHasReceived: bool
    var gatewayHasReceived: bool
    var remoteInstance: uint32
    var haveRemoteInstance: bool
    var rejections: nat

    ghost predicate Shape()
      reads this, transport.Repr()
    {
      this !in transport.Repr() && transport.Shape() && transport.instanceId != 0
    }

    ghost predicate Valid()
      reads this, transport.Repr()
    {
      Shape() && transport.Valid()
    }

    /** Taking this frame would leave the parser inside a record of impossible length. */
    ghost predicate Breaks(f: LightFrame)
      requires Shape()
      reads this, transport.Repr()
    {
      DrainFails(transport.State(), transport.config, StreamPart(f))
    }

    ghost function Shared(lastReceive: nat, hasReceived: bool): Link
      requires Shape()
      reads this, transport.Repr()
    {
      Link(transport.config, timeout, transport.instanceId as uint32, transport.State(),
           if haveRemoteInstance then Some(remoteInstance) else None, frame, lastReceive, hasReceived, rejections)
    }

    ghost function ClientState(): Client
      requires Shape()
      reads this, transport.Repr()
    {
      Client(clientPhase, clientSession, Shared(clientLastReceive, clientHasReceived))
    }

    ghost function GatewayState(): Gateway
      requires Shape()
      reads this, transport.Repr()
    {
      Gateway(gatewayPhase, gatewaySession, Shared(gatewayLastReceive, gatewayHasReceived))
    }

    constructor (isClient: bool, config: Config, timeout: nat, seed: bv32)
      requires ValidConfig(config)
      ensures Shape()
      ensures transport.Valid()
      ensures fresh(transport.Repr())
      ensures this.isClient == isClient
      ensures clientSession == IdOf(DrawId(seed)) != 0 && random == DrawId(seed)
      ensures transport.instanceId != 0
      ensures Shared(0, false) == StartLink(config, timeout, transport.instanceId as uint32, Draw(seed ^ RoleNumber(isClient)))
      ensures ClientState() == Client(Discovering, clientSession, Shared(0, false))
      ensures GatewayState() == Gateway(Listening, 0, Shared(0, false))
    {
      hide PacketEndpoint.Shape, ValidSender, Draw, DrawId;
      this.isClient := isClient;
      this.timeout := timeout;
      frame := 0;
      random := DrawId(seed);
      clientSession := IdOf(DrawId(seed));
      gatewaySession := 0;
      clientPhase, gatewayPhase := Discovering, Listening;
      clientLastReceive, gatewayLastReceive := 0, 0;
      clientHasReceived, gatewayHasReceived := false, false;
      remoteInstance, haveRemoteInstance := 0, false;
      rejections := 0;
      transport := new PacketEndpoint(config, seed ^ RoleNumber(isClient));
    }

    /** Moves the local frame counter, which never goes back. */
    method AdvanceFrame(localFrame: nat) returns (status: Status)
      requires Shape()
      modifies this`frame
      ensures (Shared(0, false), status) == SetFrame(old(Shared(0, false)), localFrame)
      ensures ClientState() == old(ClientState()).(link := SetFrame(old(ClientState()).link, localFrame).0)
      ensures GatewayState() == old(GatewayState()).(link := SetFrame(old(GatewayState()).link, localFrame).0)
      ensures Shape() && (old(Valid()) ==> Valid()) && forall f :: Breaks(f) == old(Breaks(f))
    {
      hide PacketEndpoint.Valid, PacketEndpoint.Shape;
      if localFrame < frame {
        return ErrArgument;
      }
      frame := localFrame;
      status := Ok;
    }

    method BuildControl(kind: FrameType, session: uint32) returns (f: LightFrame)
      requires Valid()
      ensures f == Control(kind, session, Shared(0, false))
    {
      hide PacketEndpoint.Valid, PacketEndpoint.Shape;
      f := LightFrame(kind, session, frame % TWO_32,
                      [CONTROL_VERSION, PACKET_MODE] + WriteU16(transport.config.maxPacket) +
                      WriteU32(transport.instanceId as uint32));
    }

    method BuildStreamFrame(session: uint32) returns (f: LightFrame)
      requires Valid()
      modifies transport.Repr()
      ensures Valid()
      ensures (Shared(0, false), f) == BuildStream(old(Shared(0, false)), session)
    {
      hide Build, PacketEndpoint.Shape, ValidSender;
      var cell, retransmission := transport.BuildFrame(frame);
      f := LightFrame(if cell.hasData then Data else Ack, session, cell.sequence, cell.payload);
    }

    method BuildClientFrame() returns (f: LightFrame)
      requires Valid()
      modifies transport.Repr()
      ensures Valid() && (ClientState(), f) == BuildClient(old(ClientState()))
      ensures gatewayPhase == old(gatewayPhase)
    {
      hide Build, PacketEndpoint.Shape, ValidSender;
      match clientPhase
      case Discovering => f := BuildControl(Discover, clientSession);
      case Confirming => f := BuildControl(Confirm, clientSession);
      case Connected => f := BuildStreamFrame(clientSession);
    }

    method BuildGatewayFrame() returns (f: LightFrame)
      requires Valid()
      modifies transport.Repr()
      ensures Valid() && (GatewayState(), f) == BuildGateway(old(GatewayState()))
    {
      hide Build, PacketEndpoint.Shape, ValidSender;
      match gatewayPhase
      case Listening => f := BuildControl(Idle, 0);
      case Offering => f := BuildControl(Offer, gatewaySession);
      case Accepted => f := BuildControl(Ready, gatewaySession);
      case Connected => f := BuildStreamFrame(gatewaySession);
    }

    /** Takes note of the peer's instance and forgets the generation when it changed. */
    method AcceptInstance(payload: seq<byte>)
      requires Valid() && ControlValid(payload, transport.config.maxPacket)
      modifies this`remoteInstance, this`haveRemoteInstance, transport.Repr()
      ensures Valid()
      ensures Shared(0, false) == Learn(old(Shared(0, false)), ReadU32(payload, 4))
    {
      hide PacketEndpoint.Shape, ResetGeneration;
      var instance := ReadU32(payload, 4);
      if haveRemoteInstance && remoteInstance != instance {
        transport.ForgetGeneration();
      }
      remoteInstance := instance;
      haveRemoteInstance := true;
    }

    method ProcessStreamFrame(f: LightFrame) returns (status: Status)
      requires Valid() && IsStream(f)
      modifies transport.Repr()
      ensures Shape() && (status == Ok || !old(Breaks(f)) ==> Valid())
      ensures (transport.State(), status) == Process(old(transport.State()), transport.config, StreamPart(f))
    {
      hide PacketEndpoint.Shape, Process, DrainFails;
      status := transport.ProcessFrame(StreamPart(f));
    }

    /** A discovery is refused only while another session is connected. */
    method TakeDiscover(f: LightFrame)
      requires Valid() && f.kind == Discover && f.session != 0 && ControlValid(f.payload, transport.config.maxPacket)
      modifies this, transport.Repr()
      ensures Valid() && rejections == old(rejections) && clientPhase == old(clientPhase)
      ensures GatewayState() == GatewayReceive(old(GatewayState()), f)
    {
      hide PacketEndpoint.Shape, PacketEndpoint.Valid, PacketEndpoint.State, PacketEndpoint.Repr, ControlValid, ResetGeneration;
      if gatewayPhase == GatewayPhase.Connected && gatewaySession != f.session {
        return;
      }
      AcceptInstance(f.payload);
      if gatewaySession != f.session || gatewayPhase == Listening {
        gatewaySession := f.session;
        gatewayPhase := Offering;
      }
      gatewayLastReceive, gatewayHasReceived := frame, true;
    }

    method TakeGatewayStream(f: LightFrame)
      requires Valid() && IsStream(f) && f.session == gatewaySession != 0
      requires gatewayPhase == Accepted || gatewayPhase == GatewayPhase.Connected
      modifies this, transport.Repr()
      ensures Shape() && (rejections == old(rejections) || !old(Breaks(f)) ==> Valid())
      ensures GatewayState() == GatewayReceive(old(GatewayState()), f)
      ensures clientPhase == old(clientPhase)
    {
      hide PacketEndpoint.Shape, PacketEndpoint.Valid, PacketEndpoint.State, PacketEndpoint.Repr, Process, Breaks, GatewayReceive;
      GatewayTakesStream(GatewayState(), f);
      var status := ProcessStreamFrame(f);
      if status != Ok {
        rejections := rejections + 1;
        return;
      }
      gatewayLastReceive, gatewayHasReceived := frame, true;
      gatewayPhase := GatewayPhase.Connected;
    }

    method ProcessGatewayReceive(f: LightFrame)
      requires Valid()
      modifies this, transport.Repr()
      ensures Shape() && (rejections == old(rejections) || !old(Breaks(f)) ==> Valid())
      ensures GatewayState() == GatewayReceive(old(GatewayState()), f)
      ensures clientPhase == old(clientPhase)
    {
      hide PacketEndpoint.Shape, PacketEndpoint.Valid, PacketEndpoint.State, PacketEndpoint.Repr, Process, Breaks, ControlValid,
        ResetGeneration;
      if f.kind == Discover && f.session != 0 && ControlValid(f.payload, transport.config.maxPacket) {
        TakeDiscover(f);
        return;
      }
      if f.session != gatewaySession || gatewaySession == 0 {
        return;
      }
      if gatewayPhase == Offering && f.kind == Confirm && ControlValid(f.payload, transport.config.maxPacket) {
        AcceptInstance(f.payload);
        gatewayPhase := Accepted;
        gatewayLastReceive, gatewayHasReceived := frame, true;
        return;
      }
      if (gatewayPhase == Accepted || gatewayPhase == GatewayPhase.Connected) && IsStream(f) {
        TakeGatewayStream(f);
        return;
      }
      if gatewayPhase == Accepted && f.kind == Confirm && ControlValid(f.payload, transport.config.maxPacket) {
        gatewayLastReceive, gatewayHasReceived := frame, true;
      }
    }

    method TakeClientStream(f: LightFrame)
      requires Valid() && IsStream(f) && f.session == clientSession && clientPhase == ClientPhase.Connected
      modifies this, transport.Repr()
      ensures Shape() && (rejections == old(rejections) || !old(Breaks(f)) ==> Valid())
      ensures ClientState() == ClientReceive(old(ClientState()), f)
      ensures gatewayPhase == old(gatewayPhase) && random == old(random)
    {
      hide PacketEndpoint.Shape, PacketEndpoint.Valid, PacketEndpoint.State, PacketEndpoint.Repr, Process, Breaks;
      var status := ProcessStreamFrame(f);
      if status != Ok {
        rejections := rejections + 1;
        return;
      }
      clientLastReceive, clientHasReceived := frame, true;
    }

    method ProcessClientReceive(f: LightFrame)
      requires Valid()
      modifies this, transport.Repr()
      ensures Shape() && (rejections == old(rejections) || !old(Breaks(f)) ==> Valid())
      ensures ClientState() == ClientReceive(old(ClientState()), f)
      ensures gatewayPhase == old(gatewayPhase) && random == old(random)
    {
      hide PacketEndpoint.Shape, PacketEndpoint.Valid, PacketEndpoint.State, PacketEndpoint.Repr, Process, Breaks, ControlValid, ResetGeneration;
      if f.session != clientSession {
        return;
      }
      if clientPhase != ClientPhase.Connected && f.kind == Offer && ControlValid(f.payload, transport.config.maxPacket) {
        AcceptInstance(f.payload);
        clientPhase := Confirming;
        clientLastReceive, clientHasReceived := frame, true;
        return;
      }
      if clientPhase == Confirming && f.kind == Ready && ControlValid(f.payload, transport.config.maxPacket) {
        AcceptInstance(f.payload);
        clientPhase := ClientPhase.Connected;
        clientLastReceive, clientHasReceived := frame, true;
        return;
      }
      if clientPhase == ClientPhase.Connected && IsStream(f) {
        TakeClientStream(f);
        return;
      }
      if clientPhase == ClientPhase.Connected && f.kind == Ready && ControlValid(f.payload, transport.config.maxPacket) {
        clientLastReceive, clientHasReceived := frame, true;
      }
    }

    /** Only a client's timeout draws a session id. */
    method CheckTimeouts()
      requires Shape()
      requires if isClient then gatewayPhase == Listening else clientPhase == Discovering
      modifies this
      ensures Shape() && (old(Valid()) ==> Valid())
      ensures isClient ==> ClientState() == ClientTimeout(old(ClientState()), IdOf(DrawId(old(random))))
      ensures !isClient ==> GatewayState() == GatewayTimeout(old(GatewayState()))
      ensures if isClient then gatewayPhase == Listening else clientPhase == Discovering
      ensures rejections == old(rejections)
    {
      hide PacketEndpoint.Shape, PacketEndpoint.Valid, PacketEndpoint.State, PacketEndpoint.Repr, DrawId;
      if clientPhase != Discovering && clientHasReceived && frame - clientLastReceive >= timeout {
        clientPhase := Discovering;
        random := DrawId(random);
        clientSession := IdOf(random);
        clientHasReceived := false;
      }
      if gatewayPhase != Listening && gatewayHasReceived && frame - gatewayLastReceive >= timeout {
        gatewayPhase := Listening;
        gatewaySession := 0;
        gatewayHasReceived := false;
      }
    }

    /** A peer of one role never leaves the other role's first phase. */
    ghost predicate OneRole()
      reads this
    {
      if isClient then gatewayPhase == Listening else clientPhase == Discovering
    }

    /** The frame to show in local frame `localFrame`. */
    method BuildPeerFrame(localFrame: nat) returns (status: Status, f: Option<LightFrame>)
      requires Valid() && OneRole()
      modifies this, transport.Repr()
      ensures Valid() && OneRole()
      ensures status == SetFrame(old(Shared(0, false)), localFrame).1 && (f.Some? <==> status == Ok)
      ensures status == Ok && isClient ==>
                && ValidSender(old(transport.Tx()))
                && (ClientState(), f.value) ==
                   BuildClient(old(ClientState()).(link := SetFrame(old(ClientState()).link, localFrame).0))
      ensures status == Ok && !isClient ==>
                && ValidSender(old(transport.Tx()))
                && (GatewayState(), f.value) ==
                   BuildGateway(old(GatewayState()).(link := SetFrame(old(GatewayState()).link, localFrame).0))
    {
      hide PacketEndpoint.Shape, ValidSender, BuildClient, BuildGateway, Build;
      status := AdvanceFrame(localFrame);
      if status != Ok {
        return status, None;
      }
      var built: LightFrame;
      if isClient {
        built := BuildClientFrame();
      } else {
        built := BuildGatewayFrame();
      }
      f := Some(built);
    }

    method TakeAsClient(f: Option<LightFrame>)
      requires Valid() && isClient && OneRole()
      modifies this, transport.Repr()
      ensures Shape() && OneRole() && (rejections == old(rejections) || (f.Some? && !old(Breaks(f.value))) ==> Valid())
      ensures ClientState() == ClientTimeout(if f.Some? then ClientReceive(old(ClientState()), f.value) else old(ClientState()),
                                             IdOf(DrawId(old(random))))
    {
      hide PacketEndpoint.Shape, PacketEndpoint.Valid, PacketEndpoint.State, PacketEndpoint.Repr,
        ClientReceive, ClientTimeout, DrawId, Shared;
      if f.Some? {
        ProcessClientReceive(f.value);
      }
      CheckTimeouts();
    }

    method TakeAsGateway(f: Option<LightFrame>)
      requires Valid() && !isClient && OneRole()
      modifies this, transport.Repr()
      ensures Shape() && OneRole() && (rejections == old(rejections) || (f.Some? && !old(Breaks(f.value))) ==> Valid())
      ensures GatewayState() == GatewayTimeout(if f.Some? then GatewayReceive(old(GatewayState()), f.value) else old(GatewayState()))
    {
      hide PacketEndpoint.Shape, PacketEndpoint.Valid, PacketEndpoint.State, PacketEndpoint.Repr,
        GatewayReceive, GatewayTimeout, DrawId, Shared, Breaks;
      if f.Some? {
        ProcessGatewayReceive(f.value);
      }
      CheckTimeouts();
    }

    /** Takes what the camera saw in local frame `localFrame`, perhaps nothing, and checks the timeout. */
    method ProcessPeerFrame(localFrame: nat, f: Option<LightFrame>) returns (status: Status)
      requires Valid() && OneRole()
      modifies this, transport.Repr()
      ensures Shape() && OneRole() && (rejections == old(rejections) || (f.Some? && !old(Breaks(f.value))) ==> Valid())
      ensures status == if f.Some? && |f.value.payload| > MAX_PAYLOAD then ErrArgument
                        else SetFrame(old(Shared(0, false)), localFrame).1
      ensures status == Ok && isClient ==>
                var c := old(ClientState()).(link := SetFrame(old(ClientState()).link, localFrame).0);
                ClientState() == ClientTimeout(if f.Some? then ClientReceive(c, f.value) else c, IdOf(DrawId(old(random))))
      ensures status == Ok && !isClient ==>
                var g := old(GatewayState()).(link := SetFrame(old(GatewayState()).link, localFrame).0);
                GatewayState() == GatewayTimeout(if f.Some? then GatewayReceive(g, f.value) else g)
    {
      hide PacketEndpoint.Shape, PacketEndpoint.Valid, PacketEndpoint.State, PacketEndpoint.Repr,
        Breaks, ClientReceive, GatewayReceive, ClientTimeout, GatewayTimeout, DrawId, ClientState, GatewayState, SetFrame;
      if f.Some? && |f.value.payload| > MAX_PAYLOAD {
        return ErrArgument;
      }
      status := AdvanceFrame(localFrame);
      if status != Ok {
        return;
      }
      if isClient {
        TakeAsClient(f);
      } else {
        TakeAsGateway(f);
      }
    }
  }
}
