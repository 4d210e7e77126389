/** That the search goes on: when a mode is handed out, and what a passed mode leads to. */
module CalibrationFrontier {
  import opened Common
  import opened ConvolutionalCode
  import opened Calibration
  import opened CalibrationSearch

  // ---------------------------------------------------------------------
  // Handing out modes
  // ---------------------------------------------------------------------

  predicate Counts(n: Node, step: Step, variant: nat) {
    n.recorded && n.step == step && Variant(n) == variant
  }

  /** The recorded nodes of one step and value, and those that passed. */
  function Tried(nodes: seq<Node>, step: Step, variant: nat): set<nat> {
    set i: nat | i < |nodes| && Counts(nodes[i], step, variant)
  }

  function Proven(nodes: seq<Node>, step: Step, variant: nat): set<nat> {
    set i: nat | i < |nodes| && Counts(nodes[i], step, variant) && nodes[i].passed
  }

  lemma NothingTried(step: Step, variant: nat)
    ensures Tried([], step, variant) == {} && Proven([], step, variant) == {}
  {
  }

  lemma TriedMore(rest: seq<Node>, n: Node, step: Step, variant: nat)
    ensures |Tried(rest + [n], step, variant)| == |Tried(rest, step, variant)| + if Counts(n, step, variant) then 1 else 0
  {
    hide Counts;
    var before, after, k := Tried(rest, step, variant), Tried(rest + [n], step, variant), |rest|;
    assert (rest + [n])[k] == n && forall i | 0 <= i < k :: (rest + [n])[i] == rest[i];
    if Counts(n, step, variant) {
      assert after == before + {k};
    } else {
      assert after == before;
    }
  }

  lemma ProvenMore(rest: seq<Node>, n: Node, step: Step, variant: nat)
    ensures |Proven(rest + [n], step, variant)| ==
            |Proven(rest, step, variant)| + if Counts(n, step, variant) && n.passed then 1 else 0
  {
    hide Counts;
    var before, after, k := Proven(rest, step, variant), Proven(rest + [n], step, variant), |rest|;
    assert (rest + [n])[k] == n && forall i | 0 <= i < k :: (rest + [n])[i] == rest[i];
    if Counts(n, step, variant) && n.passed {
      assert after == before + {k};
    } else {
      assert after == before;
    }
  }

  lemma {:induction false} OutcomesCount(nodes: seq<Node>, step: Step, variant: nat)
    ensures Attempts(nodes, step, variant) == |Tried(nodes, step, variant)|
    ensures Passes(nodes, step, variant) == |Proven(nodes, step, variant)|
  {
    hide Variant, Tried, Proven;
    if nodes == [] {
      NothingTried(step, variant);
    } else {
      var rest, n := nodes[..|nodes| - 1], nodes[|nodes| - 1];
      OutcomesCount(rest, step, variant);
      TriedMore(rest, n, step, variant);
      ProvenMore(rest, n, step, variant);
      assert nodes == rest + [n];
    }
  }

  /** A mode waits: it was not probed, and the outcomes of its step and value are not used up. */
  predicate Waits(nodes: seq<Node>, i: nat)
    requires i < |nodes|
  {
    var n := nodes[i];
    var tried := |Tried(nodes, n.step, Variant(n))|;
    !n.tested && tried < if Proven(nodes, n.step, Variant(n)) != {} then SuccessLimit(n.step) else FailureLimit(n.step)
  }

  lemma OpenWaits(nodes: seq<Node>, i: nat)
    requires i < |nodes|
    ensures Open(nodes, i) <==> Waits(nodes, i)
  {
    hide Tried, Proven, Variant, SuccessLimit, FailureLimit;
    OutcomesCount(nodes, nodes[i].step, Variant(nodes[i]));
  }

  /**
   A mode is handed out exactly when the budget lasts and some mode waits; it is
   a waiting one of highest priority, the first of equals, and only it is marked.
   */
  lemma NextExact(s: Search, priority: nat -> real)
    ensures var (after, id) := Next(s, priority);
            && (id.Some? <==> s.testedCount < s.budget && exists i: nat :: i < |s.nodes| && Waits(s.nodes, i))
            && (id.None? ==> after == s)
            && (id.Some? ==>
                  && id.value < |s.nodes| && Waits(s.nodes, id.value)
                  && (forall j: nat | j < |s.nodes| && Waits(s.nodes, j) :: priority(j) <= priority(id.value))
                  && after.nodes == s.nodes[id.value := s.nodes[id.value].(tested := true)]
                  && after == s.(nodes := after.nodes, testedCount := s.testedCount + 1))
  {
    hide Waits, Suppressed;
    forall i: nat | i < |s.nodes|
      ensures Open(s.nodes, i) <==> Waits(s.nodes, i)
    {
      OpenWaits(s.nodes, i);
    }
  }

  // ---------------------------------------------------------------------
  // Growing the frontier
  // ---------------------------------------------------------------------

  function Fresh(parent: nat, c: Change): Node { Node(c.config, parent, c.step, false, false, false) }

  /** The node is an unprobed one for a mode offered. */
  predicate ComesFrom(n: Node, parent: nat, changes: seq<Change>) {
    exists i :: 0 <= i < |changes| && n == Fresh(parent, changes[i])
  }

  lemma ComesFromRest(n: Node, parent: nat, changes: seq<Change>)
    requires changes != [] && ComesFrom(n, parent, changes[1..])
    ensures ComesFrom(n, parent, changes)
  {
    var i :| 0 <= i < |changes[1..]| && n == Fresh(parent, changes[1..][i]);
    assert changes[1..][i] == changes[i + 1];
  }

  /** Every valid mode offered is in the search afterwards, unless it is full, and nothing else is new. */
  lemma {:induction false} AddsAll(nodes: seq<Node>, parent: nat, changes: seq<Change>)
    requires |nodes| <= MAX_NODES
    ensures var after := AddAll(nodes, parent, changes);
            && nodes <= after && |after| <= MAX_NODES
            && (forall c | c in changes && Valid(c.config) :: Contains(after, c.config) || |after| == MAX_NODES)
            && forall i | |nodes| <= i < |after| :: ComesFrom(after[i], parent, changes)
    decreases |changes|
  {
    hide Valid, Contains;
    if changes != [] {
      var head, rest := changes[0], changes[1..];
      var mid := AddNode(nodes, parent, head);
      AddsAll(mid, parent, rest);
      var after := AddAll(nodes, parent, changes);
      if Contains(nodes, head.config) {
        StillContains(nodes, after, head.config);
      } else if |nodes| != MAX_NODES && Valid(head.config) {
        LastContained(nodes, Fresh(parent, head));
        StillContains(mid, after, head.config);
      }
      forall c | c in changes && Valid(c.config)
        ensures Contains(after, c.config) || |after| == MAX_NODES
      {
        assert c == head || c in rest;
      }
      forall i | |nodes| <= i < |after|
        ensures ComesFrom(after[i], parent, changes)
      {
        if i < |mid| {
          assert after[i] == mid[i] == Fresh(parent, changes[0]);
        } else {
          ComesFromRest(after[i], parent, changes);
        }
      }
    }
  }

  lemma StillContains(nodes: seq<Node>, after: seq<Node>, c: Modem)
    requires nodes <= after && Contains(nodes, c)
    ensures Contains(after, c)
  {
    var i :| 0 <= i < |nodes| && nodes[i].config == c;
    assert after[i] == nodes[i];
  }

  lemma LastContained(nodes: seq<Node>, n: Node)
    ensures Contains(nodes + [n], n.config)
  {
    assert (nodes + [n])[|nodes|] == n;
  }

  // ---------------------------------------------------------------------
  // What a passed mode leads to
  // ---------------------------------------------------------------------

  predicate Offers(changes: seq<Change>, step: Step, c: Modem) { Change(step, c) in changes }

  lemma {:induction false} BetterFound(base: Modem, modes: seq<Modem>, step: Step, improves: Improves, m: Modem)
    requires m in modes && improves(base, m)
    ensures exists c: Modem :: c in modes && improves(base, c) && Offers(FirstBetter(base, modes, step, improves), step, c)
    decreases |modes|
  {
    if improves(base, modes[0]) {
      assert Offers(FirstBetter(base, modes, step, improves), step, modes[0]);
    } else {
      assert m in modes[1..];
      BetterFound(base, modes[1..], step, improves, m);
      var c: Modem :| c in modes[1..] && improves(base, c) && Offers(FirstBetter(base, modes[1..], step, improves), step, c);
      assert c in modes;
    }
  }

  lemma {:induction false} EdgeOffered(base: Modem, edges: seq<nat>, v: nat)
    requires v in edges
    ensures v > base.last ==> base.(last := v) in HighModes(base, edges)
    ensures v < base.first ==> base.(first := v) in LowModes(base, edges)
    decreases |edges|
  {
    if v != edges[0] {
      assert v in edges[1..];
      EdgeOffered(base, edges[1..], v);
    }
  }

  /** In a table from the largest down, the value found is the largest below. */
  lemma {:induction false} LargestFound(current: nat, values: seq<nat>)
    requires forall i, j | 0 <= i < j < |values| :: values[i] > values[j]
    ensures forall v | v in values && v < current :: v <= FirstBelow(current, values) < current
    decreases |values|
  {
    if values != [] {
      LargestFound(current, values[1..]);
      forall v | v in values && v < current
        ensures v <= FirstBelow(current, values) < current
      {
        if v != values[0] {
          assert v in values[1..];
        }
      }
    }
  }

  /** The modes a passed one leads to. */
  function Leads(base: Modem, root: bool, highQuality: bool, improves: Improves): seq<Change> {
    Faster(base, root, highQuality, improves)
  }

  /** The baseline leads to the default mode, and with high quality to both fast anchors. */
  lemma AnchorsOffered(base: Modem, highQuality: bool, improves: Improves)
    ensures Offers(Leads(base, true, highQuality, improves), DataDefault, DEFAULT_MODE)
    ensures highQuality ==> Offers(Leads(base, true, highQuality, improves), WideAnchor, WIDE_MODE)
    ensures highQuality ==> Offers(Leads(base, true, highQuality, improves), PristineAnchor, PRISTINE_MODE)
  {
    hide Denser, Wider, Leaner;
    assert Change(DataDefault, DEFAULT_MODE) in Anchors(true, highQuality);
    assert highQuality ==> Change(WideAnchor, WIDE_MODE) in Anchors(true, highQuality);
    assert highQuality ==> Change(PristineAnchor, PRISTINE_MODE) in Anchors(true, highQuality);
  }

  /** A mode that can be made denser leads to a denser one in each way there is. */
  lemma DenserOffered(base: Modem, root: bool, highQuality: bool, improves: Improves)
    ensures var changes := Leads(base, root, highQuality, improves);
            && (base.repetitions > 1 ==> Offers(changes, Repetitions, base.(repetitions := base.repetitions - 1)))
            && (forall v | v in {4, 6} && base.qam in {2, 4} && base.qam < v && improves(base, base.(qam := v)) ::
                  exists c: Modem :: c.qam > base.qam && improves(base, c) && Offers(changes, HigherQam, c))
            && (forall v: Rate | RateMore(base.rate, v) && improves(base, base.(rate := v)) ::
                  exists c: Modem :: RateMore(base.rate, c.rate) && improves(base, c) && Offers(changes, Fec, c))
            && (base.prefix > 32 ==>
                  exists p: nat :: p < base.prefix && (forall v | v in PREFIX_VALUES && v < base.prefix :: v <= p) &&
                                   Offers(changes, Prefix, base.(prefix := p, window := Minimum(base.window, p))))
  {
    hide Anchors, Wider, Leaner, FirstBetter;
    var changes := Leads(base, root, highQuality, improves);
    assert forall c | c in Denser(base, improves) :: c in changes;
    forall v | v in {4, 6} && base.qam in {2, 4} && base.qam < v && improves(base, base.(qam := v))
      ensures exists c: Modem :: c.qam > base.qam && improves(base, c) && Offers(changes, HigherQam, c)
    {
      BetterFound(base, QamModes(base), HigherQam, improves, base.(qam := v));
    }
    forall v: Rate | RateMore(base.rate, v) && improves(base, base.(rate := v))
      ensures exists c: Modem :: RateMore(base.rate, c.rate) && improves(base, c) && Offers(changes, Fec, c)
    {
      BetterFound(base, RateModes(base), Fec, improves, base.(rate := v));
    }
    if base.prefix > 32 {
      LargestFound(base.prefix, PREFIX_VALUES);
      assert 32 in PREFIX_VALUES by { assert PREFIX_VALUES[9] == 32; }
      var p := FirstBelow(base.prefix, PREFIX_VALUES);
      assert Offers(changes, Prefix, base.(prefix := p, window := Minimum(base.window, p)));
    }
  }

  predicate RateMore(a: Rate, b: Rate) {
    (a == Half && b != Half) || (a == TwoThirds && b == ThreeQuarters)
  }

  /** It leads to a wider band at each edge where one improves, and to less training. */
  lemma WiderOffered(base: Modem, root: bool, highQuality: bool, improves: Improves)
    ensures var changes := Leads(base, root, highQuality, improves);
            var edges := if highQuality then HIGH_EDGES else HIGH_EDGES[..4];
            && (forall v | v in edges && v > base.last && improves(base, base.(last := v)) ::
                  exists c: Modem :: c.last > base.last && improves(base, c) && Offers(changes, HighBand, c))
            && (forall v | v in LOW_EDGES && v < base.first && improves(base, base.(first := v)) ::
                  exists c: Modem :: c.first < base.first && improves(base, c) && Offers(changes, LowBand, c))
            && (base.training > 2 ==> Offers(changes, Training, base.(training := base.training - 1)))
  {
    hide Anchors, Denser, FirstBetter, HighModes, LowModes;
    var changes := Leads(base, root, highQuality, improves);
    var edges := if highQuality then HIGH_EDGES else HIGH_EDGES[..4];
    assert forall c | c in Wider(base, highQuality, improves) :: c in changes;
    forall v | v in edges && v > base.last && improves(base, base.(last := v))
      ensures exists c: Modem :: c.last > base.last && improves(base, c) && Offers(changes, HighBand, c)
    {
      EdgeOffered(base, edges, v);
      BetterFound(base, HighModes(base, edges), HighBand, improves, base.(last := v));
    }
    forall v | v in LOW_EDGES && v < base.first && improves(base, base.(first := v))
      ensures exists c: Modem :: c.first < base.first && improves(base, c) && Offers(changes, LowBand, c)
    {
      EdgeOffered(base, LOW_EDGES, v);
      BetterFound(base, LowModes(base, LOW_EDGES), LowBand, improves, base.(first := v));
    }
  }

  /** With high quality a passed mode also leads to a shorter sync, a shorter gap and a narrower band. */
  lemma LeanerOffered(base: Modem, root: bool, improves: Improves)
    ensures var changes := Leads(base, root, true, improves);
            && (base.sync > 512 ==>
                  exists v: nat :: v < base.sync && (forall u | u in SYNC_VALUES && u < base.sync :: u <= v) && Offers(changes, Sync, base.(sync := v)))
            && (base.gap > 0 ==>
                  exists v: nat :: v < base.gap && (forall u | u in GAP_VALUES && u < base.gap :: u <= v) && Offers(changes, Gap, base.(gap := v)))
            && (base.first < 128 < base.last ==> exists v: nat :: base.first < v <= 128 && Offers(changes, NarrowBand, base.(first := v)))
  {
    hide Anchors, Denser, Wider;
    var changes := Leads(base, root, true, improves);
    assert forall c | c in Leaner(base, true) :: c in changes;
    ShorterFound(base);
    var v, u := FirstBelow(base.sync, SYNC_VALUES), FirstBelow(base.gap, GAP_VALUES);
    assert base.sync > 512 ==> Change(Sync, base.(sync := v)) in Leaner(base, true) && Offers(changes, Sync, base.(sync := v));
    assert base.gap > 0 ==> Change(Gap, base.(gap := u)) in Leaner(base, true) && Offers(changes, Gap, base.(gap := u));
    var n := FirstAbove(base.first, NARROW_VALUES);
    assert base.first < 128 < base.last ==> base.first < n <= 128 && Offers(changes, NarrowBand, base.(first := n)) by {
      FoundAbove(base.first);
    }
  }

  lemma FoundAbove(current: nat)
    ensures current < 128 ==> current < FirstAbove(current, NARROW_VALUES) <= 128
  {
    var values := NARROW_VALUES;
    assert values == [48] + [64, 96, 128];
    assert values[1..] == [64] + [96, 128] && values[1..][1..] == [96] + [128] && values[1..][1..][1..] == [128];
    assert FirstAbove(current, [128]) == if 128 > current then 128 else FirstAbove(current, []);
    assert FirstAbove(current, values[1..][1..]) == if 96 > current then 96 else FirstAbove(current, values[1..][1..][1..]);
    assert FirstAbove(current, values[1..]) == if 64 > current then 64 else FirstAbove(current, values[1..][1..]);
    assert FirstAbove(current, values) == if 48 > current then 48 else FirstAbove(current, values[1..]);
  }

  lemma ShorterFound(base: Modem)
    ensures base.sync > 512 ==>
              FirstBelow(base.sync, SYNC_VALUES) < base.sync &&
              forall u | u in SYNC_VALUES && u < base.sync :: u <= FirstBelow(base.sync, SYNC_VALUES)
    ensures base.gap > 0 ==>
              FirstBelow(base.gap, GAP_VALUES) < base.gap &&
              forall u | u in GAP_VALUES && u < base.gap :: u <= FirstBelow(base.gap, GAP_VALUES)
  {
    hide FirstBelow;
    var sync, gap := SYNC_VALUES, GAP_VALUES;
    LargestFound(base.sync, sync);
    LargestFound(base.gap, gap);
    assert sync[4] == 512 && sync[4] in sync && gap[6] == 0 && gap[6] in gap;
  }

  /** Recording a pass puts every valid mode it leads to into a search that is not full; recording marks only that node. */
  lemma PassGrows(s: Search, id: nat, improves: Improves)
    requires |s.nodes| <= MAX_NODES && Record(s, id, true, improves).1 == Ok
    ensures var after := Record(s, id, true, improves).0;
            var marked := s.nodes[id := s.nodes[id].(recorded := true, passed := true)];
            && marked <= after.nodes && after.passedCount == s.passedCount + 1
            && (forall c | c in Leads(s.nodes[id].config, id == 0, s.highQuality, improves) && Valid(c.config) ::
                  Contains(after.nodes, c.config) || |after.nodes| == MAX_NODES)
  {
    hide Faster, Contains, Valid;
    AddsAll(s.nodes[id := s.nodes[id].(recorded := true, passed := true)], id, Leads(s.nodes[id].config, id == 0, s.highQuality, improves));
  }

  /** Recording a failure likewise adds what it falls back to: more repetitions, then narrow bands. */
  lemma FailureGrows(s: Search, id: nat, improves: Improves)
    requires |s.nodes| <= MAX_NODES && Record(s, id, false, improves).1 == Ok
    ensures var after := Record(s, id, false, improves).0;
            var (n, marked) := (s.nodes[id], s.nodes[id := s.nodes[id].(recorded := true, passed := false)]);
            && marked <= after.nodes && after.passedCount == s.passedCount
            && ((id == 0 || n.step == MoreRepetitions) && RobustGate(n.config) && n.config.repetitions < MAX_REPETITIONS &&
                  Valid(n.config.(repetitions := n.config.repetitions + 1)) ==>
                  Contains(after.nodes, n.config.(repetitions := n.config.repetitions + 1)) || |after.nodes| == MAX_NODES)
            && ((id == 0 || n.step == MoreRepetitions) && RobustGate(n.config) && n.config.repetitions >= MAX_REPETITIONS &&
                n.config.first == 64 && n.config.last == 298 ==>
                  forall last | last in {192, 234} && Valid(n.config.(last := last)) ::
                    Contains(after.nodes, n.config.(last := last)) || |after.nodes| == MAX_NODES)
  {
    hide Contains, Valid, AddAll;
    var n := s.nodes[id];
    var changes := Fallbacks(n.config, id == 0, n.step);
    AddsAll(s.nodes[id := n.(recorded := true, passed := false)], id, changes);
    assert n.config.repetitions < MAX_REPETITIONS && changes != [] ==>
      Change(MoreRepetitions, n.config.(repetitions := n.config.repetitions + 1)) in changes;
    assert n.config.repetitions >= MAX_REPETITIONS && changes != [] ==>
      Change(UltraRobustBand, n.config.(last := 192)) in changes && Change(UltraRobustBand, n.config.(last := 234)) in changes;
  }
}
