/** What a session carries: between connected peers a round without loss delivers what both frames bring. */
module SessionProgress {
  import opened Bytes
  import opened Common
  import opened PacketTransport
  import opened TransportInvariant
  import opened TransportSteps
  import opened LightSession
  import opened SessionRoute
  import opened SessionRuns
  import opened SessionRecovery
  import TransportProgress
  import TransportResend
  import TransportDelivery

  // ---------------------------------------------------------------------
  // A round of stream frames
  // ---------------------------------------------------------------------

  /** The frames of the next round. */
  function Upward(w: World, clientFrame: nat): Option<LightFrame> { ClientSends(w, clientFrame).1 }

  function Downward(w: World, clientFrame: nat, gatewayFrame: nat): Option<LightFrame> {
    GatewaySends(ClientSends(w, clientFrame).0, gatewayFrame).1
  }

  /** The endpoint after a stream frame of its session. */
  lemma GatewayTakesFrame(w: World, f: LightFrame)
    requires Invariant(w) && PhasesOk(w) && BothConnected(w) && FromClient(f, w)
    ensures Process(GatewayEnd(w), w.gateway.link.config, StreamPart(f)).1 == Ok
    ensures var after := GatewayTakes(w, f);
            && after.gateway == w.gateway.(link := Heard(w.gateway.link.(endpoint := GatewayEnd(after))))
            && after.client == w.client && after.down == w.down
            && GatewayEnd(after) == Process(GatewayEnd(w), w.gateway.link.config, StreamPart(f)).0
            && after.up == Handing(w.up, [], More(GatewayEnd(w).rx, GatewayEnd(after).rx, []))
  {
    hide RouteOk, CleanOk, AckOk, DataOk, Process, TakeStream, Handing, More;
    ProcessMoves(GatewayEnd(w), w.gateway.link.config, StreamPart(f), ClientEnd(w), w.client.link.config, w.up, w.down);
    TakenStream(w.gateway.link, f);
  }

  lemma ClientTakesFrame(w: World, f: LightFrame)
    requires Invariant(w) && PhasesOk(w) && BothConnected(w) && FromGateway(f, w) && f.session == w.client.session && IsStream(f)
    ensures Process(ClientEnd(w), w.client.link.config, StreamPart(f)).1 == Ok
    ensures var after := ClientTakes(w, f);
            && after.client == w.client.(link := Heard(w.client.link.(endpoint := ClientEnd(after))))
            && after.gateway == w.gateway && after.up == w.up
            && ClientEnd(after) == Process(ClientEnd(w), w.client.link.config, StreamPart(f)).0
            && after.down == Handing(w.down, [], More(ClientEnd(w).rx, ClientEnd(after).rx, []))
  {
    hide RouteOk, CleanOk, AckOk, DataOk, Process, TakeStream, Handing, More;
    ProcessMoves(ClientEnd(w), w.client.link.config, StreamPart(f), GatewayEnd(w), w.gateway.link.config, w.down, w.up);
    TakenStream(w.client.link, f);
  }

  /** A round between connected peers, step by step. */
  lemma RoundParts(w: World, clientFrame: nat, gatewayFrame: nat, next: uint32)
    requires Invariant(w) && PhasesOk(w) && BothConnected(w) && FreshId(next, w.used)
    requires clientFrame >= w.client.link.frame && gatewayFrame >= w.gateway.link.frame
    ensures ValidSender(ClientEnd(w).tx) && ValidSender(GatewayEnd(w).tx)
    ensures var (c, g, l, m) := (ClientEnd(w), GatewayEnd(w), w.client.link, w.gateway.link);
            var (c1, f) := Build(c, l.config, clientFrame);
            var (g1, h) := Build(g, m.config, gatewayFrame);
            var (up, down) := (Upward(w, clientFrame), Downward(w, clientFrame, gatewayFrame));
            var after := Rounds(w, clientFrame, gatewayFrame, true, true, next);
            && up.Some? && down.Some? && StreamPart(up.value) == f && StreamPart(down.value) == h
            && IsStream(up.value) && IsStream(down.value)
            && GatewayEnd(after) == Process(g1, m.config, f).0 && ClientEnd(after) == Process(c1, l.config, h).0
            && after.client.link.config == l.config && after.gateway.link.config == m.config
            && after.up.log == w.up.log && after.down.log == w.down.log
            && after.up.cells == Cutting(w.up, c.tx, c1.tx, true).cells && after.down.cells == Cutting(w.down, g.tx, g1.tx, true).cells
            && after.up.dequeued == w.up.dequeued && after.down.dequeued == w.down.dequeued
  {
    hide RouteOk, CleanOk, AckOk, DataOk, Process, Build, BuildStream, ValidSender, More, GatewayTakes, ClientTakes, Unsynced;
    RoutesValid(w);
    var (w1, up) := ClientSends(w, clientFrame);
    ClientSendsKeeps(w, clientFrame);
    ClientSpeaks(w, clientFrame);
    BuiltStream(w.client.link.(frame := clientFrame), w.client.session);
    var (w2, down) := GatewaySends(w1, gatewayFrame);
    GatewaySendsKeeps(w1, gatewayFrame, up);
    GatewaySpeaks(w1, gatewayFrame);
    BuiltStream(w1.gateway.link.(frame := gatewayFrame), w1.gateway.session);
    GatewayTakesFrame(w2, up.value);
    var w3 := GatewayTakes(w2, up.value);
    GatewayTakesKeeps(w2, up.value);
    GatewayTakesPhases(w2, up.value, down.value);
    GatewayFrameStays(w2, up.value, down.value);
    ClientTakesFrame(w3, down.value);
  }

  /** The flows of the two directions between connected peers. */
  lemma ConnectedFlows(w: World)
    requires Invariant(w) && BothConnected(w)
    ensures Joined(w)
    ensures FlowOk(ClientEnd(w).tx, GatewayEnd(w).rx, w.up.heard, w.gateway.link.config) && w.up.heard.cells == w.up.cells
    ensures FlowOk(GatewayEnd(w).tx, ClientEnd(w).rx, w.down.heard, w.client.link.config) && w.down.heard.cells == w.down.cells
  {
    hide FlowOk, TagsOk, CleanOk;
  }

  /** What a frame of the peer does to an endpoint: its cell is received, and what the peer has is given up. */
  lemma FrameTaken(e: Endpoint, c: Config, peer: Endpoint, d: Config, frame: nat, told: Endpoint, inward: Flow, outward: Flow)
    requires ValidSender(peer.tx) && FlowOk(Build(peer, d, frame).0.tx, e.rx, inward, c) && FlowOk(e.tx, told.rx, outward, d)
    requires peer.rx == told.rx
    requires var f := Build(peer, d, frame).1;
             DataOk(f, inward.cells, e.rx) && Process(e, c, f).1 == Ok
    ensures var f := Build(peer, d, frame).1;
            var after := Process(e, c, f).0;
            && (f.hasData ==> Received(after.rx, f.sequence))
            && forall s: nat | Received(told.rx, s) :: !InTransmit(after.tx, s)
  {
    hide FlowOk, DataOk, Build, ApplyAck, Accept, Received, InTransmit, AckHeader, ReceiveMask;
    var f := Build(peer, d, frame).1;
    TransportProgress.BuiltHeader(peer, d, frame);
    TransportProgress.ProcessTakesAck(e, c, f);
    if f.hasData {
      TransportProgress.CellArrives(Build(peer, d, frame).0.tx, e.rx, inward, c, f);
    }
    forall s: nat | Received(told.rx, s)
      ensures !InTransmit(Process(e, c, f).0.tx, s)
    {
      TransportProgress.AckRetires(e.tx, told.rx, outward, d, f.payload[ACK_BYTES..], s);
    }
  }

  /**
   In every run with restarts: between connected peers a round without loss makes
   the cell of each data frame received at the other end, and leaves neither
   sender a cell the other end had received when the round began.
   */
  lemma RoundGetsThrough(w: World, clientFrame: nat, gatewayFrame: nat, next: uint32)
    requires Reachable(w) && BothConnected(w) && FreshId(next, w.used)
    requires clientFrame >= w.client.link.frame && gatewayFrame >= w.gateway.link.frame
    ensures var (up, down) := (Upward(w, clientFrame), Downward(w, clientFrame, gatewayFrame));
            var after := Rounds(w, clientFrame, gatewayFrame, true, true, next);
            && up.Some? && down.Some? && IsStream(up.value) && IsStream(down.value)
            && (up.value.kind == Data ==> Received(GatewayEnd(after).rx, up.value.sequence))
            && (down.value.kind == Data ==> Received(ClientEnd(after).rx, down.value.sequence))
            && (forall s: nat | Received(GatewayEnd(w).rx, s) :: !InTransmit(ClientEnd(after).tx, s))
            && (forall s: nat | Received(ClientEnd(w).rx, s) :: !InTransmit(GatewayEnd(after).tx, s))
  {
    hide Reachable, Invariant, PhasesOk, ValidSender, Build, Process, Received, InTransmit, FlowOk, DataOk, Rounds, Upward, Downward;
    InvariantHolds(w);
    PhasesHold(w);
    RoundParts(w, clientFrame, gatewayFrame, next);
    RoundFlows(w, clientFrame, gatewayFrame);
  }

  lemma RoundFlows(w: World, clientFrame: nat, gatewayFrame: nat)
    requires Invariant(w) && PhasesOk(w) && BothConnected(w) && ValidSender(ClientEnd(w).tx) && ValidSender(GatewayEnd(w).tx)
    requires clientFrame >= w.client.link.frame && gatewayFrame >= w.gateway.link.frame
    ensures var (c, g, l, m) := (ClientEnd(w), GatewayEnd(w), w.client.link, w.gateway.link);
            var (c1, f) := Build(c, l.config, clientFrame);
            var (g1, h) := Build(g, m.config, gatewayFrame);
            var (gateway, client) := (Process(g1, m.config, f).0, Process(c1, l.config, h).0);
            && (f.hasData ==> Received(gateway.rx, f.sequence)) && (h.hasData ==> Received(client.rx, h.sequence))
            && (forall s: nat | Received(g.rx, s) :: !InTransmit(client.tx, s))
            && (forall s: nat | Received(c.rx, s) :: !InTransmit(gateway.tx, s))
  {
    hide RouteOk, CleanOk, AckOk, DataOk, FlowOk, Process, Build, BuildStream, ValidSender, More, GatewayTakes, ClientTakes,
      Unsynced, Received, InTransmit;
    var (c, g, l, m) := (ClientEnd(w), GatewayEnd(w), w.client.link, w.gateway.link);
    var (w1, up) := ClientSends(w, clientFrame);
    ClientSendsKeeps(w, clientFrame);
    ClientSpeaks(w, clientFrame);
    BuiltStream(l.(frame := clientFrame), w.client.session);
    var (w2, down) := GatewaySends(w1, gatewayFrame);
    GatewaySendsKeeps(w1, gatewayFrame, up);
    GatewaySpeaks(w1, gatewayFrame);
    BuiltStream(m.(frame := gatewayFrame), w1.gateway.session);
    BuildKeepsReceiver(c, l.config, clientFrame);
    BuildKeepsReceiver(g, m.config, gatewayFrame);
    ConnectedFlows(w2);
    var (c1, f) := Build(c, l.config, clientFrame);
    var (g1, h) := Build(g, m.config, gatewayFrame);
    GatewayTakesFrame(w2, up.value);
    FrameTaken(g1, m.config, c, l.config, clientFrame, c1, w2.up.heard, w2.down.heard);
    var w3 := GatewayTakes(w2, up.value);
    GatewayTakesKeeps(w2, up.value);
    GatewayTakesPhases(w2, up.value, down.value);
    GatewayFrameStays(w2, up.value, down.value);
    ClientTakesFrame(w3, down.value);
    FrameTaken(c1, l.config, g, m.config, gatewayFrame, g1, w2.down.heard, w2.up.heard);
  }

  lemma BuildKeepsReceiver(e: Endpoint, c: Config, frame: nat)
    requires ValidSender(e.tx)
    ensures Build(e, c, frame).0.rx == e.rx
  {
    hide SelectRetry, CreateCell, MayCreate;
  }
}
