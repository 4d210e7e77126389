/** The search as the source keeps it, updated in place. */
module CalibrationSearcher {
  import opened Common
  import opened Calibration
  import opened CalibrationSearch

  class Searcher {
    const highQuality: bool
    const budget: nat
    var nodes: seq<Node>
    var testedCount: nat
    var passedCount: nat

    ghost function State(): Search
      reads this
    {
      Search(highQuality, budget, nodes, testedCount, passedCount)
    }

    constructor (highQuality: bool)
      ensures State() == Init(highQuality)
    {
      hide Valid;
      this.highQuality := highQuality;
      budget := if highQuality then HIGH_BUDGET else DEFAULT_BUDGET;
      nodes := [];
      testedCount := 0;
      passedCount := 0;
      new;
      Add(0, Change(Baseline, ROBUST_MODE));
    }

    method Add(parent: nat, change: Change)
      modifies `nodes
      ensures nodes == AddNode(old(nodes), parent, change)
    {
      hide Valid;
      if !Valid(change.config) {
        return;
      }
      for i := 0 to |nodes|
        invariant nodes == old(nodes)
        invariant forall j | 0 <= j < i :: nodes[j].config != change.config
      {
        if nodes[i].config == change.config {
          return;
        }
      }
      if |nodes| == MAX_NODES {
        return;
      }
      nodes := nodes + [Node(change.config, parent, change.step, false, false, false)];
    }

    method Expand(parent: nat, changes: seq<Change>)
      modifies `nodes
      ensures nodes == AddAll(old(nodes), parent, changes)
    {
      hide AddNode;
      for i := 0 to |changes|
        invariant AddAll(nodes, parent, changes[i..]) == AddAll(old(nodes), parent, changes)
      {
        assert changes[i..][1..] == changes[i + 1..];
        Add(parent, changes[i]);
      }
    }

    method Outcomes(step: Step, variant: nat) returns (attempts: nat, passes: nat)
      ensures attempts == Attempts(nodes, step, variant) && passes == Passes(nodes, step, variant)
    {
      attempts, passes := 0, 0;
      for i := 0 to |nodes|
        invariant attempts == Attempts(nodes[..i], step, variant) && passes == Passes(nodes[..i], step, variant)
      {
        assert nodes[..i + 1][..i] == nodes[..i];
        var n := nodes[i];
        if n.recorded && n.step == step && Variant(n) == variant {
          attempts := attempts + 1;
          if n.passed {
            passes := passes + 1;
          }
        }
      }
      assert nodes[..|nodes|] == nodes;
    }

    method IsSuppressed(i: nat) returns (suppressed: bool)
      requires i < |nodes|
      ensures suppressed == Suppressed(nodes, i)
    {
      var n := nodes[i];
      var attempts, passes := Outcomes(n.step, Variant(n));
      if passes != 0 {
        return attempts >= SuccessLimit(n.step);
      }
      return attempts >= FailureLimit(n.step);
    }

    method Best(priority: nat -> real) returns (id: Option<nat>)
      ensures id == BestOpen(nodes, priority, |nodes|)
    {
      hide Suppressed;
      id := None;
      for i := 0 to |nodes|
        invariant id == BestOpen(nodes, priority, i)
      {
        if !nodes[i].tested {
          var suppressed := IsSuppressed(i);
          if !suppressed && (id.None? || priority(i) > priority(id.value)) {
            id := Some(i);
          }
        }
      }
    }

    method SelectNext(priority: nat -> real) returns (id: Option<nat>)
      modifies this
      ensures (State(), id) == Next(old(State()), priority)
    {
      hide Suppressed, Valid;
      id := None;
      if testedCount >= budget {
        return;
      }
      id := Best(priority);
      if id.None? {
        return;
      }
      nodes := nodes[id.value := nodes[id.value].(tested := true)];
      testedCount := testedCount + 1;
    }

    method RecordResult(id: nat, passed: bool, improves: Improves) returns (status: Status)
      modifies this
      ensures (State(), status) == Record(old(State()), id, passed, improves)
    {
      hide Faster, Fallbacks, AddAll;
      if id >= |nodes| || !nodes[id].tested || nodes[id].recorded {
        return ErrArgument;
      }
      nodes := nodes[id := nodes[id].(recorded := true, passed := passed)];
      var n := nodes[id];
      status := Ok;
      if !passed {
        Expand(id, Fallbacks(n.config, id == 0, n.step));
        return;
      }
      passedCount := passedCount + 1;
      Expand(id, Faster(n.config, id == 0, highQuality, improves));
    }
  }
}
