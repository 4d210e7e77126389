/**
 The simulated session of two stream peers in lock step: in every frame both
 build, both frames are delivered or dropped, and timeouts are checked.
 */
module StreamSession {
  import opened Bytes
  import opened Common
  import opened LightSession
  import opened LightStreams
  import opened StreamRuns

  datatype SimConfig = SimConfig(stream: StreamConfig, timeout: nat)

  datatype Half = Half(out: Outgoing, into: Incoming)

  datatype Sim = Sim(
    frame: nat,
    random: bv32,
    clientPhase: ClientPhase,
    gatewayPhase: GatewayPhase,
    clientSession: uint32,
    gatewaySession: uint32,
    clientLast: nat,
    gatewayLast: nat,
    clientHeard: bool,
    gatewayHeard: bool,
    up: Half,
    down: Half,
    retransmissions: nat,
    timeouts: nat)

  // ---------------------------------------------------------------------
  // One frame
  // ---------------------------------------------------------------------

  const HELLO: seq<byte> := [1]

  function ControlFrame(s: Sim, kind: FrameType, session: uint32): LightFrame {
    LightFrame(kind, session, s.frame % TWO_32, HELLO)
  }

  predicate ValidSim(s: Sim) {
    ValidOutgoing(s.up.out) && ValidIncoming(s.up.into) && ValidOutgoing(s.down.out) && ValidIncoming(s.down.into)
  }

  function AsLight(f: StreamFrame, session: uint32): LightFrame {
    LightFrame(if f.hasData then Data else Ack, session, f.sequence, f.payload)
  }

  function ClientFrame(s: Sim, c: SimConfig): (Sim, LightFrame)
    requires ValidSim(s)
  {
    match s.clientPhase
    case Discovering => (s, ControlFrame(s, Discover, s.clientSession))
    case Confirming => (s, ControlFrame(s, Confirm, s.clientSession))
    case Connected =>
      var (f, out, random, again) := BuildFrame(s.up.out, s.down.into, c.stream, s.random, s.frame);
      (s.(up := s.up.(out := out), random := random, retransmissions := s.retransmissions + if again then 1 else 0),
       AsLight(f, s.clientSession))
  }

  function GatewayFrame(s: Sim, c: SimConfig): (Sim, LightFrame)
    requires ValidSim(s)
  {
    match s.gatewayPhase
    case Listening => (s, ControlFrame(s, Idle, 0))
    case Offering => (s, ControlFrame(s, Offer, s.gatewaySession))
    case Accepted => (s, ControlFrame(s, Ready, s.gatewaySession))
    case Connected =>
      var (f, out, random, again) := BuildFrame(s.down.out, s.up.into, c.stream, s.random, s.frame);
      (s.(down := s.down.(out := out), random := random, retransmissions := s.retransmissions + if again then 1 else 0),
       AsLight(f, s.gatewaySession))
  }

  function Streamed(f: LightFrame): StreamFrame { StreamFrame(f.sequence, f.payload, f.kind == Data) }

  function GatewayTakes(s: Sim, f: LightFrame): Sim
    requires ValidSim(s)
  {
    var heard := s.(gatewayLast := s.frame, gatewayHeard := true);
    if f.kind == Discover && f.session != 0 && f.payload == HELLO then
      if s.gatewayPhase == GatewayPhase.Connected && s.gatewaySession != f.session then s
      else if s.gatewaySession != f.session || s.gatewayPhase == Listening then
        heard.(gatewaySession := f.session, gatewayPhase := Offering)
      else heard
    else if f.session != s.gatewaySession || s.gatewaySession == 0 then s
    else if s.gatewayPhase == Offering && f.kind == Confirm && f.payload == HELLO then heard.(gatewayPhase := Accepted)
    else if (s.gatewayPhase == Accepted || s.gatewayPhase == GatewayPhase.Connected) && IsStream(f) then
      var (out, into, status) := ProcessFrame(s.down.out, s.up.into, Streamed(f));
      var after := s.(down := s.down.(out := out), up := s.up.(into := into));
      if status == Ok then after.(gatewayLast := s.frame, gatewayHeard := true, gatewayPhase := GatewayPhase.Connected) else after
    else if s.gatewayPhase == Accepted && f.kind == Confirm && f.payload == HELLO then heard
    else s
  }

  function ClientTakes(s: Sim, f: LightFrame): Sim
    requires ValidSim(s)
  {
    var heard := s.(clientLast := s.frame, clientHeard := true);
    if f.session != s.clientSession then s
    else if s.clientPhase != ClientPhase.Connected && f.kind == Offer && f.payload == HELLO then
      heard.(clientPhase := Confirming)
    else if s.clientPhase == Confirming && f.kind == Ready && f.payload == HELLO then
      heard.(clientPhase := ClientPhase.Connected)
    else if s.clientPhase == ClientPhase.Connected && IsStream(f) then
      var (out, into, status) := ProcessFrame(s.up.out, s.down.into, Streamed(f));
      var after := s.(up := s.up.(out := out), down := s.down.(into := into));
      if status == Ok then after.(clientLast := s.frame, clientHeard := true) else after
    else if s.clientPhase == ClientPhase.Connected && f.kind == Ready && f.payload == HELLO then heard
    else s
  }

  function NextSession(drawn: bv32): uint32 {
    if drawn == 0 then 1 else drawn as uint32
  }

  function CheckTimeouts(s: Sim, c: SimConfig): Sim {
    var s1 :=
      if s.clientPhase != Discovering && s.clientHeard && s.frame - s.clientLast >= c.timeout then
        s.(clientPhase := Discovering, random := LightStreams.Draw(s.random),
           clientSession := NextSession(LightStreams.Draw(s.random)), clientHeard := false, timeouts := s.timeouts + 1)
      else s;
    if s1.gatewayPhase != Listening && s1.gatewayHeard && s1.frame - s1.gatewayLast >= c.timeout then
      s1.(gatewayPhase := Listening, gatewaySession := 0, gatewayHeard := false, timeouts := s1.timeouts + 1)
    else s1
  }

  /** Both frames are built before either is delivered. */
  function OneFrame(s: Sim, c: SimConfig, toGateway: bool, toClient: bool): Sim {
    if !ValidSim(s) then s
    else
      var (s1, upward) := ClientFrame(s, c);
      if !ValidSim(s1) then s1
      else
        var (s2, downward) := GatewayFrame(s1, c);
        var s3 := if toGateway && ValidSim(s2) then GatewayTakes(s2, upward) else s2;
        var s4 := if toClient && ValidSim(s3) then ClientTakes(s3, downward) else s3;
        CheckTimeouts(s4, c)
  }

  predicate Complete(s: Sim) {
    && s.clientPhase == ClientPhase.Connected && s.gatewayPhase == GatewayPhase.Connected
    && ReceiverDone(s.up.into) && SenderDone(s.up.out) && ReceiverDone(s.down.into) && SenderDone(s.down.out)
  }

  /** Runs frames without loss until the session is complete or too many have passed. */
  function RunSession(s: Sim, c: SimConfig, maxFrames: nat): (Status, Sim)
    decreases maxFrames - s.frame
  {
    if s.frame >= maxFrames then (ErrTimeout, s)
    else
      var after := OneFrame(s, c, true, true);
      if Complete(after) then (Ok, after.(frame := s.frame + 1))
      else RunSession(after.(frame := s.frame + 1), c, maxFrames)
  }

  /** The simulation loop of the source, for a channel without loss. */
  method Simulate(start: Sim, c: SimConfig, maxFrames: nat) returns (status: Status, s: Sim)
    ensures (status, s) == RunSession(start, c, maxFrames)
  {
    hide OneFrame, Complete;
    s := start;
    while s.frame < maxFrames
      invariant RunSession(s, c, maxFrames) == RunSession(start, c, maxFrames)
      decreases maxFrames - s.frame
    {
      var frame := s.frame;
      s := OneFrame(s, c, true, true);
      var done := Complete(s);
      s := s.(frame := frame + 1);
      if done {
        return Ok, s;
      }
    }
    status := ErrTimeout;
  }

  function StartSim(up: seq<byte>, down: seq<byte>, upSink: seq<byte>, downSink: seq<byte>, seed: bv32): Sim {
    var drawn := LightStreams.Draw(seed);
    Sim(0, drawn, Discovering, Listening, NextSession(drawn), 0, 0, 0, false, false,
        Half(NewOutgoing(up), NewIncoming(upSink)), Half(NewOutgoing(down), NewIncoming(downSink)), 0, 0)
  }

  // ---------------------------------------------------------------------
  // Streams in step
  // ---------------------------------------------------------------------

  /** The sending half after `sent` chunks, one a frame from frame `first` on, of which `acked` are acknowledged. */
  function OutAt(source: seq<byte>, sent: nat, acked: nat, first: nat): (out: Outgoing)
    ensures |source| <= MAX_BYTES ==> ValidOutgoing(out)
  {
    var n := Chunks(|source|);
    Outgoing(source, seq(n, k => k < sent), seq(n, k => k < acked), seq(n, k requires 0 <= k => if k < sent then first + k else 0))
  }

  function Reached(total: nat, count: nat): (r: nat)
    ensures r <= total
  {
    if ChunkStart(count) < total then ChunkStart(count) else total
  }

  /** The receiving half after the first `count` chunks. */
  function IntoAt(source: seq<byte>, sink: seq<byte>, count: nat): (i: Incoming)
    requires |source| == |sink| && count <= Chunks(|source|)
    ensures |source| <= MAX_BYTES ==> ValidIncoming(i)
  {
    var r := Reached(|source|, count);
    Incoming(source[..r] + sink[r..], seq(Chunks(|source|), k => k < count), count, r)
  }

  lemma StartHalf(source: seq<byte>, sink: seq<byte>, first: nat)
    requires |source| == |sink|
    ensures Half(NewOutgoing(source), NewIncoming(sink)) == Half(OutAt(source, 0, 0, first), IntoAt(source, sink, 0))
  {
    assert source[..0] + sink[0..] == sink;
  }

  lemma FirstFalse(n: nat, count: nat, k: nat)
    requires k <= count <= n
    ensures FirstMissing(seq(n, j => j < count), k) == count
    ensures FirstUnsent(seq(n, j => j < count), k) == count
    decreases count - k
  {
    if k < count {
      FirstFalse(n, count, k + 1);
    }
  }

  lemma ReachedStart(total: nat, count: nat)
    requires count < Chunks(total)
    ensures Reached(total, count) == ChunkStart(count) && Reached(total, count + 1) == ChunkEnd(total, count)
  {
    ChunkInside(total, count);
  }

  /** The next chunk arrives. */
  lemma ReceiveNext(source: seq<byte>, sink: seq<byte>, count: nat)
    requires |source| == |sink| <= MAX_BYTES && count < Chunks(|source|)
    ensures Receive(IntoAt(source, sink, count), count, ChunkOf(source, count)) == (IntoAt(source, sink, count + 1), Ok)
  {
    hide ChunkEnd, ChunkStart, Chunks;
    var before, after := IntoAt(source, sink, count), IntoAt(source, sink, count + 1);
    ChunkInside(|source|, count);
    ReachedStart(|source|, count);
    FirstFalse(Chunks(|source|), count + 1, count);
    assert before.received[count := true] == after.received;
    assert Splice(before.sink, ChunkStart(count), ChunkOf(source, count)) == after.sink;
  }

  lemma {:induction false} ZeroMask(mask: seq<bool>)
    requires forall k | 0 <= k < |mask| :: !mask[k]
    ensures MaskOf(mask) == 0
  {
    if mask != [] {
      ZeroMask(mask[1..]);
    }
  }

  lemma {:induction false} ZeroBits(bit: nat)
    ensures !TestBit(0, bit)
  {
    if bit > 0 {
      ZeroBits(bit - 1);
    }
  }

  /** The other end acknowledges the chunks it has, which have no gap. */
  lemma AckNext(source: seq<byte>, sent: nat, acked: nat, first: nat, heard: seq<byte>, sink: seq<byte>, count: nat, rest: seq<byte>)
    requires |source| == |sink| == |heard| <= MAX_BYTES && acked <= count <= Chunks(|source|)
    ensures var header := AckHeader(count, AckMask(IntoAt(heard, sink, count)));
            ApplyAck(OutAt(source, sent, acked, first), header + rest) == (OutAt(source, sent, count, first), Ok)
    ensures (AckHeader(count, AckMask(IntoAt(heard, sink, count))) + rest)[ACK_BYTES..] == rest
  {
    var mask := AckMask(IntoAt(heard, sink, count));
    HeaderReads(count, mask, rest);
    ZeroMask(mask);
    forall k: nat ensures !TestBit(0, k) { ZeroBits(k); }
    assert Acked(OutAt(source, sent, acked, first).acked, count, 0) == OutAt(source, sent, count, first).acked;
  }

  lemma {:induction false} CountOne(flags: seq<bool>, j: nat)
    requires forall k | 0 <= k < |flags| && flags[k] :: k == j
    ensures Count(flags) <= 1
  {
    if flags != [] {
      var shorter := flags[..|flags| - 1];
      CountOne(shorter, j);
      if flags[|flags| - 1] { CountNone(shorter); }
    }
  }

  /** With at most one chunk on its way, sent in the frame before, the next chunk is chosen and none is repeated. */
  lemma SelectNext(source: seq<byte>, sent: nat, acked: nat, first: nat, c: StreamConfig, random: bv32, frame: nat)
    requires |source| <= MAX_BYTES && acked <= sent <= acked + 1 && sent <= Chunks(|source|)
    requires sent > acked ==> frame == first + sent
    requires c.window >= 2 && c.retransmitAfter >= 2
    ensures Select(OutAt(source, sent, acked, first), c, random, frame) ==
            (if sent < Chunks(|source|) then Some(sent) else None, false, random)
  {
    hide RetryDelay, Chunks;
    var out := OutAt(source, sent, acked, first);
    forall k | 0 <= k < |out.sent|
      ensures !DueFlags(out, c, frame)[k]
      ensures InFlightFlags(out)[k] ==> k == acked
    {
      if out.sent[k] && !out.acked[k] {
        assert k == sent - 1 && frame - out.lastSent[k] == 1;
      }
    }
    CountNone(DueFlags(out, c, frame));
    CountOne(InFlightFlags(out), acked);
    FirstFalse(Chunks(|source|), sent, 0);
  }

  lemma MarkNext(source: seq<byte>, sent: nat, acked: nat, first: nat)
    requires |source| <= MAX_BYTES && sent < Chunks(|source|)
    ensures MarkSent(OutAt(source, sent, acked, first), sent, first + sent) == OutAt(source, sent + 1, acked, first)
  {
    hide Chunks;
    var a, b := MarkSent(OutAt(source, sent, acked, first), sent, first + sent), OutAt(source, sent + 1, acked, first);
    assert a.sent == b.sent && a.lastSent == b.lastSent;
  }

  function Next(sent: nat, n: nat): nat { if sent < n then sent + 1 else sent }

  lemma SmallCount(total: nat, count: nat)
    requires total <= MAX_BYTES && count <= Chunks(total)
    ensures count < TWO_32
  {
  }

  /** The frame a side in step builds: its acknowledgement and, while chunks are left, the next one. */
  function StepFrame(source: seq<byte>, sent: nat, heard: seq<byte>, sink: seq<byte>, count: nat): StreamFrame
    requires |source| <= MAX_BYTES && |heard| == |sink| <= MAX_BYTES && count <= Chunks(|heard|)
  {
    SmallCount(|heard|, count);
    var header := AckHeader(count, AckMask(IntoAt(heard, sink, count)));
    if sent < Chunks(|source|) then
      SmallCount(|source|, sent);
      StreamFrame(sent, header + ChunkOf(source, sent), true)
    else StreamFrame(UINT32_MAX, header + [], false)
  }

  lemma BuildNext(source: seq<byte>, sent: nat, acked: nat, first: nat, heard: seq<byte>, sink: seq<byte>, count: nat,
                  c: StreamConfig, random: bv32, frame: nat)
    requires |source| <= MAX_BYTES && acked <= sent <= acked + 1 && sent <= Chunks(|source|)
    requires (sent > acked || sent < Chunks(|source|)) ==> frame == first + sent
    requires |heard| == |sink| <= MAX_BYTES && count <= Chunks(|heard|)
    requires c.window >= 2 && c.retransmitAfter >= 2
    ensures BuildFrame(OutAt(source, sent, acked, first), IntoAt(heard, sink, count), c, random, frame) ==
            (StepFrame(source, sent, heard, sink, count), OutAt(source, Next(sent, Chunks(|source|)), acked, first), random, false)
  {
    SmallCount(|heard|, count);
    hide Select, AckHeader, Chunks;
    SelectNext(source, sent, acked, first, c, random, frame);
    var header := AckHeader(count, AckMask(IntoAt(heard, sink, count)));
    assert header + [] == header;
    if sent < Chunks(|source|) {
      MarkNext(source, sent, acked, first);
    }
  }

  /** Taking the frame of a side in step: its acknowledgement and chunk are the next ones. */
  lemma TakeNext(source: seq<byte>, sent: nat, acked: nat, first: nat, peerSink: seq<byte>, count: nat,
                 heard: seq<byte>, sink: seq<byte>, got: nat)
    requires |source| == |peerSink| <= MAX_BYTES && |heard| == |sink| <= MAX_BYTES
    requires acked <= count <= Chunks(|source|) && got <= Chunks(|heard|)
    ensures ProcessFrame(OutAt(source, sent, acked, first), IntoAt(heard, sink, got), StepFrame(heard, got, source, peerSink, count)) ==
            (OutAt(source, sent, count, first), IntoAt(heard, sink, Next(got, Chunks(|heard|))), Ok)
  {
    hide ApplyAck, Receive, AckHeader, Chunks;
    if got < Chunks(|heard|) {
      AckNext(source, sent, acked, first, source, peerSink, count, ChunkOf(heard, got));
      ReceiveNext(heard, sink, got);
    } else {
      AckNext(source, sent, acked, first, source, peerSink, count, []);
    }
  }

  // ---------------------------------------------------------------------
  // The whole session
  // ---------------------------------------------------------------------

  /** What the two ends have to send, and the buffers they receive into. */
  datatype Transfer = Transfer(up: seq<byte>, down: seq<byte>, upSink: seq<byte>, downSink: seq<byte>, seed: bv32)

  predicate ValidTransfer(k: Transfer) {
    |k.up| == |k.upSink| <= MAX_BYTES && |k.down| == |k.downSink| <= MAX_BYTES
  }

  /** Chunks out after frames from `first` on, one a frame, of `n`. */
  function Done(frame: nat, first: nat, n: nat): (d: nat)
    ensures d <= n
  {
    if frame <= first then 0 else if frame - first < n then frame - first else n
  }

  function HalfAt(source: seq<byte>, sink: seq<byte>, frame: nat, first: nat): Half
    requires |source| == |sink|
  {
    var n := Chunks(|source|);
    Half(OutAt(source, Done(frame, first, n), Done(frame, first + 1, n), first), IntoAt(source, sink, Done(frame, first, n)))
  }

  /** The state at the start of a frame of a session without loss. */
  function Expected(k: Transfer, frame: nat): Sim
    requires ValidTransfer(k)
  {
    var drawn := LightStreams.Draw(k.seed);
    Sim(frame, drawn,
        if frame < 2 then Discovering else if frame < 4 then Confirming else ClientPhase.Connected,
        if frame < 1 then Listening else if frame < 3 then Offering else if frame < 5 then Accepted else GatewayPhase.Connected,
        NextSession(drawn), if frame < 1 then 0 else NextSession(drawn),
        if frame < 2 then 0 else frame - 1, if frame < 1 then 0 else frame - 1, frame >= 2, frame >= 1,
        HalfAt(k.up, k.upSink, frame, 4), HalfAt(k.down, k.downSink, frame, 5), 0, 0)
  }

  lemma StartsExpected(k: Transfer)
    requires ValidTransfer(k)
    ensures StartSim(k.up, k.down, k.upSink, k.downSink, k.seed) == Expected(k, 0)
  {
    hide LightStreams.Draw, OutAt, IntoAt;
    StartHalf(k.up, k.upSink, 4);
    StartHalf(k.down, k.downSink, 5);
  }

  lemma SessionIsReal(drawn: bv32)
    ensures NextSession(drawn) != 0
  {
  }

  lemma HalvesWait(k: Transfer, frame: nat)
    requires ValidTransfer(k) && frame < 4
    ensures HalfAt(k.up, k.upSink, frame, 4) == HalfAt(k.up, k.upSink, frame + 1, 4)
    ensures HalfAt(k.down, k.downSink, frame, 5) == HalfAt(k.down, k.downSink, frame + 1, 5)
  {
    hide OutAt, IntoAt, Chunks;
  }

  lemma HalvesValid(k: Transfer, frame: nat)
    requires ValidTransfer(k)
    ensures ValidSim(Expected(k, frame))
  {
    hide LightStreams.Draw, NextSession;
  }

  /** The handshake frames. */
  lemma EarlyFrame(k: Transfer, c: SimConfig, frame: nat)
    requires ValidTransfer(k) && frame < 4 && c.timeout >= 1
    ensures OneFrame(Expected(k, frame), c, true, true).(frame := frame + 1) == Expected(k, frame + 1)
    ensures !Complete(OneFrame(Expected(k, frame), c, true, true))
  {
    hide LightStreams.Draw, HalfAt, NextSession, BuildFrame, ProcessFrame, ValidOutgoing, ValidIncoming, SenderDone, ReceiverDone;
    SessionIsReal(LightStreams.Draw(k.seed));
    HalvesWait(k, frame);
    HalvesValid(k, frame);
  }

  /** The client's first data frame, which the gateway answers with one more acceptance. */
  lemma FirstData(k: Transfer, c: SimConfig)
    requires ValidTransfer(k) && c.timeout >= 1 && c.stream.window >= 2 && c.stream.retransmitAfter >= 2
    ensures OneFrame(Expected(k, 4), c, true, true).(frame := 5) == Expected(k, 5)
  {
    hide LightStreams.Draw, OutAt, IntoAt, NextSession, BuildFrame, ProcessFrame, AckHeader, StepFrame, Chunks, Streamed, AsLight;
    SessionIsReal(LightStreams.Draw(k.seed));
    BuildNext(k.up, 0, 0, 4, k.down, k.downSink, 0, c.stream, LightStreams.Draw(k.seed), 4);
    TakeNext(k.down, 0, 0, 5, k.downSink, 0, k.up, k.upSink, 0);
    FrameCarries(k.up, 0, k.down, k.downSink, 0, NextSession(LightStreams.Draw(k.seed)));
  }

  lemma DoneNext(frame: nat, first: nat, n: nat)
    requires frame >= first
    ensures Next(Done(frame, first, n), n) == Done(frame + 1, first, n)
    ensures Done(frame + 1, first + 1, n) == Done(frame, first, n)
    ensures Done(frame, first + 1, n) <= Done(frame, first, n) <= Done(frame, first + 1, n) + 1
    ensures Done(frame, first, n) > Done(frame, first + 1, n) || Done(frame, first, n) < n ==> frame == first + Done(frame, first, n)
  {
  }

  /** The state after both frames of a later frame were built. */
  function Built(k: Transfer, frame: nat): Sim
    requires ValidTransfer(k)
  {
    var n, m := Chunks(|k.up|), Chunks(|k.down|);
    Expected(k, frame).(
      up := Half(OutAt(k.up, Next(Done(frame, 4, n), n), Done(frame, 5, n), 4), IntoAt(k.up, k.upSink, Done(frame, 4, n))),
      down := Half(OutAt(k.down, Next(Done(frame, 5, m), m), Done(frame, 6, m), 5), IntoAt(k.down, k.downSink, Done(frame, 5, m))))
  }

  lemma BothBuild(k: Transfer, c: SimConfig, frame: nat)
    requires ValidTransfer(k) && frame >= 5 && c.stream.window >= 2 && c.stream.retransmitAfter >= 2
    ensures var n, m, session := Chunks(|k.up|), Chunks(|k.down|), NextSession(LightStreams.Draw(k.seed));
            var s := Expected(k, frame);
            && ValidSim(s) && ValidSim(ClientFrame(s, c).0)
            && GatewayFrame(ClientFrame(s, c).0, c).0 == Built(k, frame)
            && ClientFrame(s, c).1 == AsLight(StepFrame(k.up, Done(frame, 4, n), k.down, k.downSink, Done(frame, 5, m)), session)
            && GatewayFrame(ClientFrame(s, c).0, c).1 ==
               AsLight(StepFrame(k.down, Done(frame, 5, m), k.up, k.upSink, Done(frame, 4, n)), session)
  {
    hide LightStreams.Draw, OutAt, IntoAt, NextSession, BuildFrame, AckHeader, StepFrame, Chunks, Done, Next, AsLight;
    var n, m, drawn := Chunks(|k.up|), Chunks(|k.down|), LightStreams.Draw(k.seed);
    DoneNext(frame, 4, n);
    DoneNext(frame, 5, m);
    var su, au, sd, ad := Done(frame, 4, n), Done(frame, 5, n), Done(frame, 5, m), Done(frame, 6, m);
    BuildNext(k.up, su, au, 4, k.down, k.downSink, sd, c.stream, drawn, frame);
    BuildNext(k.down, sd, ad, 5, k.up, k.upSink, su, c.stream, drawn, frame);
  }

  /** The state after both frames were taken. */
  lemma BothTake(k: Transfer, c: SimConfig, frame: nat)
    requires ValidTransfer(k) && frame >= 5
    ensures var n, m, session := Chunks(|k.up|), Chunks(|k.down|), NextSession(LightStreams.Draw(k.seed));
            var upward := AsLight(StepFrame(k.up, Done(frame, 4, n), k.down, k.downSink, Done(frame, 5, m)), session);
            var downward := AsLight(StepFrame(k.down, Done(frame, 5, m), k.up, k.upSink, Done(frame, 4, n)), session);
            && ValidSim(Built(k, frame)) && ValidSim(GatewayTakes(Built(k, frame), upward))
            && ClientTakes(GatewayTakes(Built(k, frame), upward), downward) ==
               Expected(k, frame + 1).(frame := frame)
  {
    hide LightStreams.Draw, OutAt, IntoAt, NextSession, ProcessFrame, AckHeader, StepFrame, Chunks, Done, Next, Streamed, AsLight;
    var n, m, drawn := Chunks(|k.up|), Chunks(|k.down|), LightStreams.Draw(k.seed);
    SessionIsReal(drawn);
    DoneNext(frame, 4, n);
    DoneNext(frame, 5, m);
    var su, au, sd, ad := Done(frame, 4, n), Done(frame, 5, n), Done(frame, 5, m), Done(frame, 6, m);
    TakeNext(k.down, Next(sd, m), ad, 5, k.downSink, sd, k.up, k.upSink, su);
    TakeNext(k.up, Next(su, n), au, 4, k.upSink, su, k.down, k.downSink, sd);
    FrameCarries(k.up, su, k.down, k.downSink, sd, NextSession(drawn));
    FrameCarries(k.down, sd, k.up, k.upSink, su, NextSession(drawn));
  }

  lemma NoTimeout(k: Transfer, c: SimConfig, frame: nat)
    requires ValidTransfer(k) && frame >= 5 && c.timeout >= 1
    ensures CheckTimeouts(Expected(k, frame + 1).(frame := frame), c) == Expected(k, frame + 1).(frame := frame)
  {
    hide HalfAt, LightStreams.Draw, NextSession;
  }

  /** Every later frame brings one chunk each way, acknowledged in the frame after. */
  lemma DataFrame(k: Transfer, c: SimConfig, frame: nat)
    requires ValidTransfer(k) && frame >= 5 && c.timeout >= 1 && c.stream.window >= 2 && c.stream.retransmitAfter >= 2
    ensures OneFrame(Expected(k, frame), c, true, true).(frame := frame + 1) == Expected(k, frame + 1)
  {
    hide Expected, Built, ClientFrame, GatewayFrame, ClientTakes, GatewayTakes, CheckTimeouts, ValidSim, StepFrame, AsLight;
    BothBuild(k, c, frame);
    BothTake(k, c, frame);
    NoTimeout(k, c, frame);
    ExpectedFrame(k, frame + 1);
  }

  lemma FrameCarries(source: seq<byte>, sent: nat, heard: seq<byte>, sink: seq<byte>, count: nat, session: uint32)
    requires |source| <= MAX_BYTES && |heard| == |sink| <= MAX_BYTES && count <= Chunks(|heard|)
    ensures var f := AsLight(StepFrame(source, sent, heard, sink, count), session);
            && Streamed(f) == StepFrame(source, sent, heard, sink, count)
            && IsStream(f) && f.session == session && f.kind != Discover
  {
  }

  /** The number of frames a session without loss takes. */
  function Finish(k: Transfer): nat {
    var n, m := Chunks(|k.up|), Chunks(|k.down|);
    if m > 0 && m + 6 > n + 5 then m + 6 else n + 5
  }

  lemma AllBelow(n: nat, count: nat)
    requires count <= n
    ensures All(seq(n, k => k < count)) <==> count == n
  {
    if count < n {
      assert !seq(n, k => k < count)[count];
    }
  }

  lemma CompleteWhen(k: Transfer, frame: nat)
    requires ValidTransfer(k)
    ensures Complete(Expected(k, frame)) <==> frame >= Finish(k)
  {
    hide LightStreams.Draw, NextSession, Chunks, All;
    var n, m := Chunks(|k.up|), Chunks(|k.down|);
    AllBelow(n, Done(frame, 5, n));
    AllBelow(m, Done(frame, 6, m));
  }

  lemma StepsExpected(k: Transfer, c: SimConfig, frame: nat)
    requires ValidTransfer(k) && c.timeout >= 1 && c.stream.window >= 2 && c.stream.retransmitAfter >= 2
    ensures OneFrame(Expected(k, frame), c, true, true).(frame := frame + 1) == Expected(k, frame + 1)
    ensures Complete(OneFrame(Expected(k, frame), c, true, true)) == Complete(Expected(k, frame + 1))
  {
    hide Expected, OneFrame;
    if frame < 4 {
      EarlyFrame(k, c, frame);
    } else if frame == 4 {
      FirstData(k, c);
    } else {
      DataFrame(k, c, frame);
    }
    FrameOnly(OneFrame(Expected(k, frame), c, true, true), frame + 1);
  }

  lemma FrameOnly(s: Sim, frame: nat)
    ensures Complete(s.(frame := frame)) == Complete(s)
  {
  }

  lemma ExpectedFrame(k: Transfer, frame: nat)
    requires ValidTransfer(k)
    ensures Expected(k, frame).frame == frame
  {
  }

  lemma {:induction false} RunsExpected(k: Transfer, c: SimConfig, frame: nat, maxFrames: nat)
    requires ValidTransfer(k) && c.timeout >= 1 && c.stream.window >= 2 && c.stream.retransmitAfter >= 2
    requires frame < Finish(k) <= maxFrames
    ensures RunSession(Expected(k, frame), c, maxFrames) == (Ok, Expected(k, Finish(k)))
    decreases Finish(k) - frame
  {
    hide Expected, OneFrame, Complete, Finish;
    StepsExpected(k, c, frame);
    CompleteWhen(k, frame + 1);
    ExpectedFrame(k, frame);
    if frame + 1 < Finish(k) {
      RunsExpected(k, c, frame + 1, maxFrames);
    }
  }

  lemma EndState(k: Transfer)
    requires ValidTransfer(k)
    ensures var s := Expected(k, Finish(k));
            && s.frame == Finish(k) && s.retransmissions == 0 && s.timeouts == 0 && s.random == LightStreams.Draw(k.seed)
            && s.up.into.sink == k.up && s.down.into.sink == k.down
            && s.up.into.receivedBytes == |k.up| && s.down.into.receivedBytes == |k.down|
  {
    WholeReached(k.up, k.upSink);
    WholeReached(k.down, k.downSink);
  }

  lemma WholeReached(source: seq<byte>, sink: seq<byte>)
    requires |source| == |sink|
    ensures IntoAt(source, sink, Chunks(|source|)).sink == source
    ensures IntoAt(source, sink, Chunks(|source|)).receivedBytes == |source|
  {
  }

  /**
   A session in which nothing is lost, with a window and a retry delay of at
   least two, ends well after the larger of the chunk counts and six more frames
   at most: both sinks are whole, nothing was repeated and nothing timed out.
   */
  lemma LosslessSession(k: Transfer, c: SimConfig, maxFrames: nat)
    requires ValidTransfer(k) && c.timeout >= 1 && c.stream.window >= 2 && c.stream.retransmitAfter >= 2
    requires maxFrames >= Finish(k)
    ensures var (status, end) := RunSession(StartSim(k.up, k.down, k.upSink, k.downSink, k.seed), c, maxFrames);
            && status == Ok && end.frame == Finish(k)
            && end.retransmissions == 0 && end.timeouts == 0
            && end.up.into.sink == k.up && end.down.into.sink == k.down
    ensures Finish(k) <= 6 + Chunks(|k.up|) || Finish(k) <= 6 + Chunks(|k.down|)
  {
    hide Expected, RunSession, StartSim;
    StartsExpected(k);
    RunsExpected(k, c, 0, maxFrames);
    EndState(k);
  }
}
