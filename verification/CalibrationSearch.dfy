/**
 The bounded search for faster modes, for any outcome of the probes and any
 scores: rates and priorities are numbers this model takes as they come.
 */
module CalibrationSearch {
  import opened Common
  import opened ConvolutionalCode
  import opened Calibration

  const MAX_NODES := 512
  const DEFAULT_BUDGET := 12
  const HIGH_BUDGET := 64

  datatype Step =
    | Baseline | Repetitions | HigherQam | Fec | Prefix | HighBand | LowBand | Sync | Gap | Training
    | NarrowBand | DataDefault | MoreRepetitions | WideAnchor | PristineAnchor | UltraRobustBand

  datatype Node = Node(config: Modem, parent: nat, step: Step, tested: bool, recorded: bool, passed: bool)

  datatype Search = Search(highQuality: bool, budget: nat, nodes: seq<Node>, testedCount: nat, passedCount: nat)

  /** Whether the second mode sends a probe faster than the first by more than the margin. */
  type Improves = (Modem, Modem) -> bool

  const DEFAULT_MODE := Modem(2048, 64, 362, 1024, 64, 1536, 2560, 3, 1, 2, TwoThirds)
  const ROBUST_MODE := Modem(2048, 64, 298, 1024, 96, 2048, 3072, 4, 2, 2, Half)
  const WIDE_MODE := Modem(2048, 48, 768, 256, 64, 1024, 1536, 2, 1, 4, TwoThirds)
  const PRISTINE_MODE := Modem(2048, 32, 896, 64, 32, 512, 512, 2, 1, 6, ThreeQuarters)

  const PREFIX_VALUES: seq<nat> := [1024, 896, 768, 640, 512, 384, 256, 128, 64, 32]
  const NARROW_VALUES: seq<nat> := [48, 64, 96, 128]
  const SYNC_VALUES: seq<nat> := [2048, 1536, 1024, 768, 512]
  const GAP_VALUES: seq<nat> := [3072, 2560, 2048, 1536, 1024, 512, 0]

  // ---------------------------------------------------------------------
  // The modes next to a mode
  // ---------------------------------------------------------------------

  function FirstBelow(current: nat, values: seq<nat>): (v: nat)
    ensures v == current || (v in values && v < current)
  {
    if values == [] then current else if values[0] < current then values[0] else FirstBelow(current, values[1..])
  }

  function FirstAbove(current: nat, values: seq<nat>): (v: nat)
    ensures v == current || (v in values && v > current)
  {
    if values == [] then current else if values[0] > current then values[0] else FirstAbove(current, values[1..])
  }

  datatype Change = Change(step: Step, config: Modem)

  /** The first of the modes that improves on the base. */
  function FirstBetter(base: Modem, modes: seq<Modem>, step: Step, improves: Improves): (r: seq<Change>)
    ensures forall c | c in r :: c.config in modes
  {
    if modes == [] then []
    else if improves(base, modes[0]) then [Change(step, modes[0])]
    else FirstBetter(base, modes[1..], step, improves)
  }

  function QamModes(base: Modem): seq<Modem> {
    if base.qam == 2 then [base.(qam := 4), base.(qam := 6)] else if base.qam == 4 then [base.(qam := 6)] else []
  }

  function RateModes(base: Modem): seq<Modem> {
    match base.rate
    case Half => [base.(rate := TwoThirds), base.(rate := ThreeQuarters)]
    case TwoThirds => [base.(rate := ThreeQuarters)]
    case ThreeQuarters => []
  }

  function HighModes(base: Modem, edges: seq<nat>): (modes: seq<Modem>)
    ensures forall c | c in modes :: c == base.(last := c.last) && c.last in edges && c.last > base.last
  {
    if edges == [] then []
    else (if edges[0] > base.last then [base.(last := edges[0])] else []) + HighModes(base, edges[1..])
  }

  function LowModes(base: Modem, edges: seq<nat>): (modes: seq<Modem>)
    ensures forall c | c in modes :: c == base.(first := c.first) && c.first in edges && c.first < base.first
  {
    if edges == [] then []
    else (if edges[0] < base.first then [base.(first := edges[0])] else []) + LowModes(base, edges[1..])
  }

  function Minimum(a: nat, b: nat): nat { if a < b then a else b }

  function If(condition: bool, step: Step, config: Modem): seq<Change> {
    if condition then [Change(step, config)] else []
  }

  /** What the passed baseline leads to besides the modes next to it. */
  function Anchors(root: bool, highQuality: bool): seq<Change> {
    if !root then []
    else if !highQuality then [Change(DataDefault, DEFAULT_MODE)]
    else [Change(DataDefault, DEFAULT_MODE), Change(WideAnchor, WIDE_MODE), Change(PristineAnchor, PRISTINE_MODE)]
  }

  /** Fewer repetitions, a larger constellation, a higher code rate, a shorter prefix. */
  function Denser(base: Modem, improves: Improves): seq<Change> {
    If(base.repetitions > 1, Repetitions, base.(repetitions := if base.repetitions > 1 then base.repetitions - 1 else 0)) +
    FirstBetter(base, QamModes(base), HigherQam, improves) +
    FirstBetter(base, RateModes(base), Fec, improves) +
    (var p := FirstBelow(base.prefix, PREFIX_VALUES);
     If(p != base.prefix, Prefix, base.(prefix := p, window := Minimum(base.window, p))))
  }

  /** A wider band at either edge. */
  function Wider(base: Modem, highQuality: bool, improves: Improves): seq<Change> {
    FirstBetter(base, HighModes(base, if highQuality then HIGH_EDGES else HIGH_EDGES[..4]), HighBand, improves) +
    FirstBetter(base, LowModes(base, LOW_EDGES), LowBand, improves)
  }

  /** Less training, and with high quality a shorter sync, a shorter gap and a narrower band. */
  function Leaner(base: Modem, highQuality: bool): seq<Change> {
    If(base.training > 2, Training, base.(training := if base.training > 2 then base.training - 1 else 0)) +
    (var v := FirstBelow(base.sync, SYNC_VALUES); If(highQuality && v != base.sync, Sync, base.(sync := v))) +
    (var v := FirstBelow(base.gap, GAP_VALUES); If(highQuality && v != base.gap, Gap, base.(gap := v))) +
    (var v := FirstAbove(base.first, NARROW_VALUES);
     If(highQuality && v != base.first && v < base.last, NarrowBand, base.(first := v)))
  }

  /** What a passed mode leads to, in the order the source adds it. */
  function Faster(base: Modem, root: bool, highQuality: bool, improves: Improves): seq<Change> {
    Anchors(root, highQuality) + Denser(base, improves) + Wider(base, highQuality, improves) + Leaner(base, highQuality)
  }

  /** No more aggressive than the bootstrap mode in any respect. */
  predicate RobustGate(c: Modem) {
    && c.fftSize == ROBUST_MODE.fftSize && ROBUST_MODE.first <= c.first <= c.last <= ROBUST_MODE.last
    && c.prefix >= ROBUST_MODE.prefix && c.window == ROBUST_MODE.window && c.sync >= ROBUST_MODE.sync
    && c.gap >= ROBUST_MODE.gap && c.training >= ROBUST_MODE.training && c.repetitions >= ROBUST_MODE.repetitions
    && c.qam == ROBUST_MODE.qam && c.rate == ROBUST_MODE.rate
  }

  /** What a failed mode leads to: more repetition, then narrow bands. */
  function Fallbacks(base: Modem, root: bool, step: Step): seq<Change> {
    if (!root && step != MoreRepetitions) || !RobustGate(base) then []
    else if base.repetitions < MAX_REPETITIONS then
      [Change(MoreRepetitions, base.(repetitions := base.repetitions + 1))]
    else if base.first != 64 || base.last != 298 then []
    else [Change(UltraRobustBand, base.(last := 234)), Change(UltraRobustBand, base.(last := 192)),
          Change(UltraRobustBand, base.(first := 96, last := 234)), Change(UltraRobustBand, base.(first := 128))]
  }

  // ---------------------------------------------------------------------
  // The search
  // ---------------------------------------------------------------------

  predicate Contains(nodes: seq<Node>, c: Modem) {
    exists i :: 0 <= i < |nodes| && nodes[i].config == c
  }

  /** A mode is added unless it is invalid, known, or one too many. */
  function AddNode(nodes: seq<Node>, parent: nat, change: Change): seq<Node> {
    if !Valid(change.config) || Contains(nodes, change.config) || |nodes| == MAX_NODES then nodes
    else nodes + [Node(change.config, parent, change.step, false, false, false)]
  }

  function AddAll(nodes: seq<Node>, parent: nat, changes: seq<Change>): seq<Node>
    decreases |changes|
  {
    if changes == [] then nodes else AddAll(AddNode(nodes, parent, changes[0]), parent, changes[1..])
  }

  function Init(highQuality: bool): Search {
    Search(highQuality, if highQuality then HIGH_BUDGET else DEFAULT_BUDGET,
           AddNode([], 0, Change(Baseline, ROBUST_MODE)), 0, 0)
  }

  /** The value a step moved to; outcomes of equal values count together. */
  function Variant(n: Node): nat {
    match n.step
    case Repetitions | MoreRepetitions => n.config.repetitions
    case HigherQam => n.config.qam
    case Fec => (match n.config.rate case Half => 0 case TwoThirds => 1 case ThreeQuarters => 2)
    case Prefix => n.config.prefix
    case HighBand => n.config.last
    case LowBand | NarrowBand => n.config.first
    case Sync => n.config.sync
    case Gap => n.config.gap
    case Training => n.config.training
    case UltraRobustBand => n.config.first * 0x1_0000 + n.config.last
    case _ => 0
  }

  function Attempts(nodes: seq<Node>, step: Step, variant: nat): nat {
    if nodes == [] then 0
    else
      var n := nodes[|nodes| - 1];
      Attempts(nodes[..|nodes| - 1], step, variant) + if n.recorded && n.step == step && Variant(n) == variant then 1 else 0
  }

  function Passes(nodes: seq<Node>, step: Step, variant: nat): nat {
    if nodes == [] then 0
    else
      var n := nodes[|nodes| - 1];
      Passes(nodes[..|nodes| - 1], step, variant) +
      if n.recorded && n.passed && n.step == step && Variant(n) == variant then 1 else 0
  }

  function FailureLimit(step: Step): nat {
    match step
    case HigherQam | Repetitions | LowBand | NarrowBand => 2
    case WideAnchor | PristineAnchor | UltraRobustBand => 1
    case Fec | Prefix => 4
    case _ => 3
  }

  function SuccessLimit(step: Step): nat {
    match step
    case Baseline | DataDefault | MoreRepetitions | WideAnchor | PristineAnchor | UltraRobustBand => 1
    case _ => 2
  }

  predicate Suppressed(nodes: seq<Node>, i: nat)
    requires i < |nodes|
  {
    var n := nodes[i];
    var attempts := Attempts(nodes, n.step, Variant(n));
    if Passes(nodes, n.step, Variant(n)) != 0 then attempts >= SuccessLimit(n.step) else attempts >= FailureLimit(n.step)
  }

  predicate Open(nodes: seq<Node>, i: nat)
    requires i < |nodes|
  {
    !nodes[i].tested && !Suppressed(nodes, i)
  }

  /** The first of the open nodes with the highest priority, among the first n. */
  function BestOpen(nodes: seq<Node>, priority: nat -> real, n: nat): (best: Option<nat>)
    requires n <= |nodes|
    ensures best.Some? ==> best.value < n && Open(nodes, best.value)
    ensures best.Some? ==> forall j: nat | j < n && Open(nodes, j) :: priority(j) <= priority(best.value)
    ensures best.None? ==> forall j: nat | j < n :: !Open(nodes, j)
  {
    if n == 0 then None
    else
      var best := BestOpen(nodes, priority, n - 1);
      if Open(nodes, n - 1) && (best.None? || priority(n - 1) > priority(best.value)) then Some(n - 1) else best
  }

  /** Hands out the next mode to probe, while the budget lasts. */
  function Next(s: Search, priority: nat -> real): (Search, Option<nat>) {
    if s.testedCount >= s.budget then (s, None)
    else
      var best := BestOpen(s.nodes, priority, |s.nodes|);
      if best.None? then (s, None)
      else (s.(nodes := s.nodes[best.value := s.nodes[best.value].(tested := true)], testedCount := s.testedCount + 1), best)
  }

  /** Records a probe and grows the frontier from it. */
  function Record(s: Search, id: nat, passed: bool, improves: Improves): (Search, Status) {
    if id >= |s.nodes| || !s.nodes[id].tested || s.nodes[id].recorded then (s, ErrArgument)
    else
      var nodes := s.nodes[id := s.nodes[id].(recorded := true, passed := passed)];
      var n := nodes[id];
      if passed then
        (s.(nodes := AddAll(nodes, id, Faster(n.config, id == 0, s.highQuality, improves)), passedCount := s.passedCount + 1), Ok)
      else (s.(nodes := AddAll(nodes, id, Fallbacks(n.config, id == 0, n.step))), Ok)
  }

  datatype Event =
    | Probe(priority: nat -> real)
    | Report(id: nat, passed: bool, improves: Improves)

  function Act(s: Search, event: Event): Search {
    match event
    case Probe(priority) => Next(s, priority).0
    case Report(id, passed, improves) => Record(s, id, passed, improves).0
  }

  function Run(s: Search, events: seq<Event>): Search {
    if events == [] then s else Act(Run(s, events[..|events| - 1]), events[|events| - 1])
  }

  // ---------------------------------------------------------------------
  // The invariant
  // ---------------------------------------------------------------------

  const FIRST_BINS: set<nat> := {32, 48, 64, 96, 128}
  const LAST_BINS: set<nat> := {192, 234, 298, 362, 448, 512, 640, 768, 853, 896}

  /** The bands a search can hold. */
  predicate Band(c: Modem) { c.first in FIRST_BINS && c.last in LAST_BINS }

  predicate NodesOk(nodes: seq<Node>) {
    && 1 <= |nodes| <= MAX_NODES
    && (forall i | 0 <= i < |nodes| :: Valid(nodes[i].config) && Band(nodes[i].config))
    && (forall i, j | 0 <= i < j < |nodes| :: nodes[i].config != nodes[j].config)
    && nodes[0].parent == 0
    && forall i | 0 < i < |nodes| :: nodes[i].parent < i
  }

  function TestedCount(nodes: seq<Node>): nat {
    if nodes == [] then 0 else TestedCount(nodes[..|nodes| - 1]) + if nodes[|nodes| - 1].tested then 1 else 0
  }

  predicate SearchOk(s: Search) {
    && NodesOk(s.nodes) && s.testedCount == TestedCount(s.nodes) <= s.budget
    && forall i | 0 <= i < |s.nodes| :: s.nodes[i].recorded ==> s.nodes[i].tested
  }

  lemma AddKeeps(nodes: seq<Node>, parent: nat, change: Change)
    requires NodesOk(nodes) && parent < |nodes| && Band(change.config)
    ensures NodesOk(AddNode(nodes, parent, change)) && nodes <= AddNode(nodes, parent, change)
    ensures TestedCount(AddNode(nodes, parent, change)) == TestedCount(nodes)
    ensures forall i | |nodes| <= i < |AddNode(nodes, parent, change)| :: !AddNode(nodes, parent, change)[i].recorded
  {
    hide Valid, Band;
    var after := AddNode(nodes, parent, change);
    if after != nodes {
      assert after[..|after| - 1] == nodes;
    }
  }

  lemma {:induction false} AddAllKeeps(nodes: seq<Node>, parent: nat, changes: seq<Change>)
    requires NodesOk(nodes) && parent < |nodes| && forall c | c in changes :: Band(c.config)
    ensures NodesOk(AddAll(nodes, parent, changes)) && nodes <= AddAll(nodes, parent, changes)
    ensures TestedCount(AddAll(nodes, parent, changes)) == TestedCount(nodes)
    ensures forall i | |nodes| <= i < |AddAll(nodes, parent, changes)| :: !AddAll(nodes, parent, changes)[i].recorded
    decreases |changes|
  {
    hide AddNode, NodesOk, Band, TestedCount;
    if changes != [] {
      AddKeeps(nodes, parent, changes[0]);
      AddAllKeeps(AddNode(nodes, parent, changes[0]), parent, changes[1..]);
    }
  }

  // ---------------------------------------------------------------------
  // Every mode a search adds is in a band it can hold
  // ---------------------------------------------------------------------

  predicate AllBand(changes: seq<Change>) { forall c | c in changes :: Band(c.config) }

  lemma EdgeSets()
    ensures forall v | v in HIGH_EDGES :: v in LAST_BINS
    ensures forall v | v in LOW_EDGES :: v in FIRST_BINS
    ensures forall v | v in NARROW_VALUES :: v in FIRST_BINS
    ensures forall v | v in HIGH_EDGES[..4] :: v in HIGH_EDGES
  {
  }

  lemma DenserBand(base: Modem, improves: Improves)
    requires Band(base)
    ensures AllBand(Denser(base, improves))
  {
    hide Valid, Band;
    assert forall c | c in QamModes(base) || c in RateModes(base) :: SameBand(base, c);
    var p := FirstBelow(base.prefix, PREFIX_VALUES);
    assert SameBand(base, base.(prefix := p, window := Minimum(base.window, p)));
    assert forall c | c in Denser(base, improves) :: SameBand(base, c.config);
    forall c | SameBand(base, c) ensures Band(c) { SameBandHolds(base, c); }
  }

  predicate SameBand(base: Modem, c: Modem) { c.first == base.first && c.last == base.last }

  lemma SameBandHolds(base: Modem, c: Modem)
    requires Band(base) && SameBand(base, c)
    ensures Band(c)
  {
  }

  lemma WiderBand(base: Modem, highQuality: bool, improves: Improves)
    requires Band(base)
    ensures AllBand(Wider(base, highQuality, improves))
  {
    EdgeSets();
    hide Valid;
    var edges := if highQuality then HIGH_EDGES else HIGH_EDGES[..4];
    assert forall c | c in HighModes(base, edges) :: c.last in HIGH_EDGES;
  }

  lemma LeanerBand(base: Modem, highQuality: bool)
    requires Band(base)
    ensures AllBand(Leaner(base, highQuality))
  {
    EdgeSets();
  }

  lemma FasterBand(base: Modem, root: bool, highQuality: bool, improves: Improves)
    requires Band(base)
    ensures AllBand(Faster(base, root, highQuality, improves))
  {
    hide Denser, Wider, Leaner;
    DenserBand(base, improves);
    WiderBand(base, highQuality, improves);
    LeanerBand(base, highQuality);
  }

  lemma FallbacksBand(base: Modem, root: bool, step: Step)
    requires Band(base)
    ensures AllBand(Fallbacks(base, root, step))
  {
  }

  // ---------------------------------------------------------------------
  // Every run
  // ---------------------------------------------------------------------

  lemma InitOk(highQuality: bool)
    ensures SearchOk(Init(highQuality))
  {
    EightCarriers(235);
    var s := Init(highQuality);
    assert s.nodes == [Node(ROBUST_MODE, 0, Baseline, false, false, false)];
    assert s.nodes[..0] == [];
  }

  lemma {:induction false} MarkTested(nodes: seq<Node>, id: nat)
    requires id < |nodes| && !nodes[id].tested
    ensures TestedCount(nodes[id := nodes[id].(tested := true)]) == TestedCount(nodes) + 1
  {
    var after := nodes[id := nodes[id].(tested := true)];
    if id == |nodes| - 1 {
      assert after[..|after| - 1] == nodes[..|nodes| - 1];
    } else {
      assert after[..|after| - 1] == nodes[..|nodes| - 1][id := nodes[id].(tested := true)];
      MarkTested(nodes[..|nodes| - 1], id);
    }
  }

  lemma {:induction false} MarkRecorded(nodes: seq<Node>, id: nat, passed: bool)
    requires id < |nodes|
    ensures TestedCount(nodes[id := nodes[id].(recorded := true, passed := passed)]) == TestedCount(nodes)
  {
    var after := nodes[id := nodes[id].(recorded := true, passed := passed)];
    if id == |nodes| - 1 {
      assert after[..|after| - 1] == nodes[..|nodes| - 1];
    } else {
      assert after[..|after| - 1] == nodes[..|nodes| - 1][id := nodes[id].(recorded := true, passed := passed)];
      MarkRecorded(nodes[..|nodes| - 1], id, passed);
    }
  }

  lemma NextOk(s: Search, priority: nat -> real)
    requires SearchOk(s)
    ensures SearchOk(Next(s, priority).0)
  {
    hide Valid, Band, Suppressed, TestedCount;
    var best := Next(s, priority).1;
    if best.Some? {
      MarkTested(s.nodes, best.value);
    }
  }

  lemma RecordOk(s: Search, id: nat, passed: bool, improves: Improves)
    requires SearchOk(s)
    ensures SearchOk(Record(s, id, passed, improves).0)
  {
    hide Valid, Band, TestedCount, Faster, Fallbacks, AddAll;
    if Record(s, id, passed, improves).1 == Ok {
      MarkRecorded(s.nodes, id, passed);
      var nodes := s.nodes[id := s.nodes[id].(recorded := true, passed := passed)];
      var n := nodes[id];
      FasterBand(n.config, id == 0, s.highQuality, improves);
      FallbacksBand(n.config, id == 0, n.step);
      var changes := if passed then Faster(n.config, id == 0, s.highQuality, improves) else Fallbacks(n.config, id == 0, n.step);
      AddAllKeeps(nodes, id, changes);
    }
  }

  /** Nodes are pairwise distinct and valid, parents come first, and no more were probed than the budget allows. */
  lemma {:induction false} RunOk(highQuality: bool, events: seq<Event>)
    ensures SearchOk(Run(Init(highQuality), events))
  {
    hide Init, Next, Record, SearchOk;
    if events == [] {
      InitOk(highQuality);
    } else {
      var s := Run(Init(highQuality), events[..|events| - 1]);
      RunOk(highQuality, events[..|events| - 1]);
      match events[|events| - 1]
      case Probe(priority) => NextOk(s, priority);
      case Report(id, passed, improves) => RecordOk(s, id, passed, improves);
    }
  }

  /** A band a search can hold leaves the guard at least nine bins. */
  lemma GuardHasRoom(c: Modem)
    requires Valid(c) && Band(c)
    ensures Guard(c).0 == Ok
  {
    hide Guard, Valid;
    GuardExact(c);
  }

  /** The guard succeeds on every node of every run, and never shortens its frames. */
  lemma EveryNodeIsGuarded(highQuality: bool, events: seq<Event>, i: nat, payloadBytes: nat)
    requires i < |Run(Init(highQuality), events).nodes|
    ensures var c := Run(Init(highQuality), events).nodes[i].config;
            Guard(c).0 == Ok && Valid(c) && Valid(Guard(c).1) &&
            Samples(c, payloadBytes) <= Samples(Guard(c).1, payloadBytes)
  {
    RunOk(highQuality, events);
    var c := Run(Init(highQuality), events).nodes[i].config;
    hide Run, Init, Valid, Band, Guard, Samples;
    GuardHasRoom(c);
    GuardNeverShortens(c, payloadBytes);
  }
}
