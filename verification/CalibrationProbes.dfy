/** The probing loop around the search: hand out a mode, probe it, record what came of it, until none is left. */
module CalibrationProbes {
  import opened Common
  import opened ConvolutionalCode
  import opened Calibration
  import opened CalibrationSearch
  import opened CalibrationFrontier

  /** What one turn of the loop meets: the priorities of the modes, and whether the probe passed. */
  datatype Turn = Turn(priority: nat -> real, passed: bool, improves: Improves)

  function Try(s: Search, t: Turn): Search {
    var (handed, id) := Next(s, t.priority);
    if id.None? then s else Record(handed, id.value, t.passed, t.improves).0
  }

  function Tries(s: Search, turns: seq<Turn>): Search {
    if turns == [] then s else Try(Tries(s, turns[..|turns| - 1]), turns[|turns| - 1])
  }

  /** No step is tried with one value more often than it may fail, nor passed more often than it may pass. */
  ghost predicate Spared(nodes: seq<Node>) {
    forall step: Step, variant: nat ::
      Attempts(nodes, step, variant) <= FailureLimit(step) && Passes(nodes, step, variant) <= SuccessLimit(step)
  }

  /** Every mode that was handed out has its outcome. */
  predicate Settled(nodes: seq<Node>) {
    forall i | 0 <= i < |nodes| :: nodes[i].tested <==> nodes[i].recorded
  }

  // ---------------------------------------------------------------------
  // Counting outcomes
  // ---------------------------------------------------------------------

  function One(b: bool): nat { if b then 1 else 0 }

  lemma {:induction false} OutcomesUpdate(nodes: seq<Node>, i: nat, n: Node, step: Step, variant: nat)
    requires i < |nodes|
    ensures var (was, after) := (nodes[i], nodes[i := n]);
            && Attempts(after, step, variant) + One(Counts(was, step, variant)) ==
               Attempts(nodes, step, variant) + One(Counts(n, step, variant))
            && Passes(after, step, variant) + One(Counts(was, step, variant) && was.passed) ==
               Passes(nodes, step, variant) + One(Counts(n, step, variant) && n.passed)
  {
    hide Variant;
    var last := |nodes| - 1;
    var after := nodes[i := n];
    if i == last {
      assert after[..last] == nodes[..last];
    } else {
      OutcomesUpdate(nodes[..last], i, n, step, variant);
      assert after[..last] == nodes[..last][i := n];
    }
  }

  /** New modes have no outcome yet. */
  lemma {:induction false} AddingCountsNothing(nodes: seq<Node>, parent: nat, changes: seq<Change>, step: Step, variant: nat)
    ensures var after := AddAll(nodes, parent, changes);
            Attempts(after, step, variant) == Attempts(nodes, step, variant) && Passes(after, step, variant) == Passes(nodes, step, variant)
    decreases |changes|
  {
    hide Variant, Valid, Contains;
    if changes != [] {
      var more := AddNode(nodes, parent, changes[0]);
      if more != nodes {
        assert more[..|more| - 1] == nodes;
      }
      AddingCountsNothing(more, parent, changes[1..], step, variant);
    }
  }

  /** And were not handed out. */
  lemma {:induction false} AddingSettles(nodes: seq<Node>, parent: nat, changes: seq<Change>)
    requires Settled(nodes)
    ensures Settled(AddAll(nodes, parent, changes))
    decreases |changes|
  {
    hide Valid, Contains;
    if changes != [] {
      AddingSettles(AddNode(nodes, parent, changes[0]), parent, changes[1..]);
    }
  }

  // ---------------------------------------------------------------------
  // One turn
  // ---------------------------------------------------------------------

  /** The mode a turn probes, marked with what came of it. */
  function Marked(s: Search, id: nat, passed: bool): seq<Node>
    requires id < |s.nodes|
  {
    s.nodes[id := s.nodes[id].(tested := true, recorded := true, passed := passed)]
  }

  /** A turn that finds a mode records it and adds what it leads to. */
  lemma TryRecords(s: Search, t: Turn)
    requires Settled(s.nodes) && Next(s, t.priority).1.Some?
    ensures var id := Next(s, t.priority).1.value;
            && id < |s.nodes| && Waits(s.nodes, id) && !s.nodes[id].recorded
            && Record(Next(s, t.priority).0, id, t.passed, t.improves).1 == Ok
            && Try(s, t).testedCount == s.testedCount + 1 && Try(s, t).budget == s.budget
            && exists changes :: Try(s, t).nodes == AddAll(Marked(s, id, t.passed), id, changes)
  {
    hide Waits, Faster, Fallbacks, AddAll;
    NextExact(s, t.priority);
    var (handed, id) := Next(s, t.priority);
    WaitsUntested(s.nodes, id.value);
    assert handed.nodes[id.value := handed.nodes[id.value].(recorded := true, passed := t.passed)] == Marked(s, id.value, t.passed);
  }

  lemma WaitsUntested(nodes: seq<Node>, i: nat)
    requires i < |nodes| && Waits(nodes, i)
    ensures !nodes[i].tested
  {
  }

  lemma LimitsOrder(step: Step)
    ensures 1 <= SuccessLimit(step) <= FailureLimit(step)
  {
  }

  /** A mode that waits may be tried once more. */
  lemma WaitsOnce(nodes: seq<Node>, i: nat, passed: bool)
    requires i < |nodes| && Waits(nodes, i) && Spared(nodes) && !nodes[i].recorded
    ensures Spared(nodes[i := nodes[i].(tested := true, recorded := true, passed := passed)])
  {
    hide Variant, SuccessLimit, FailureLimit, Attempts, Passes;
    var n := nodes[i].(tested := true, recorded := true, passed := passed);
    var after := nodes[i := n];
    VariantKept(nodes[i], passed);
    OutcomesCount(nodes, n.step, Variant(n));
    LimitsOrder(n.step);
    PassesFew(nodes, n.step, Variant(n));
    forall step: Step, variant: nat
      ensures Attempts(after, step, variant) <= FailureLimit(step) && Passes(after, step, variant) <= SuccessLimit(step)
    {
      assert Attempts(nodes, step, variant) <= FailureLimit(step) && Passes(nodes, step, variant) <= SuccessLimit(step);
      OutcomesUpdate(nodes, i, n, step, variant);
    }
  }

  lemma VariantKept(n: Node, passed: bool)
    ensures Variant(n.(tested := true, recorded := true, passed := passed)) == Variant(n)
  {
  }

  lemma {:induction false} PassesFew(nodes: seq<Node>, step: Step, variant: nat)
    ensures Passes(nodes, step, variant) <= Attempts(nodes, step, variant)
  {
    if nodes != [] {
      PassesFew(nodes[..|nodes| - 1], step, variant);
    }
  }

  lemma TryNothing(s: Search, t: Turn)
    requires Next(s, t.priority).1.None?
    ensures Try(s, t) == s
  {
    hide Next;
  }

  lemma TryKeeps(s: Search, t: Turn)
    requires Settled(s.nodes) && Spared(s.nodes)
    ensures Settled(Try(s, t).nodes) && Spared(Try(s, t).nodes)
  {
    hide Try, Waits, AddAll, Attempts, Passes, Next;
    if Next(s, t.priority).1.Some? {
      TryRecords(s, t);
      var id := Next(s, t.priority).1.value;
      var changes :| Try(s, t).nodes == AddAll(Marked(s, id, t.passed), id, changes);
      WaitsOnce(s.nodes, id, t.passed);
      AddingSettles(Marked(s, id, t.passed), id, changes);
      forall step: Step, variant: nat
        ensures Attempts(Try(s, t).nodes, step, variant) <= FailureLimit(step) && Passes(Try(s, t).nodes, step, variant) <= SuccessLimit(step)
      {
        AddingCountsNothing(Marked(s, id, t.passed), id, changes, step, variant);
      }
    } else {
      TryNothing(s, t);
    }
  }

  // ---------------------------------------------------------------------
  // The loop
  // ---------------------------------------------------------------------

  lemma {:induction false} TriesKeep(s: Search, turns: seq<Turn>)
    requires Settled(s.nodes) && Spared(s.nodes)
    ensures Settled(Tries(s, turns).nodes) && Spared(Tries(s, turns).nodes)
  {
    hide Settled, Spared, Try;
    if turns != [] {
      TriesKeep(s, turns[..|turns| - 1]);
      TryKeeps(Tries(s, turns[..|turns| - 1]), turns[|turns| - 1]);
    }
  }

  lemma InitSpared(highQuality: bool)
    ensures Settled(Init(highQuality).nodes) && Spared(Init(highQuality).nodes)
  {
    hide Variant;
    var nodes := Init(highQuality).nodes;
    assert |nodes| <= 1 && nodes[..0] == [];
    forall step: Step, variant: nat
      ensures Attempts(nodes, step, variant) <= FailureLimit(step) && Passes(nodes, step, variant) <= SuccessLimit(step)
    {
      AddingCountsNothing([], 0, [Change(Baseline, ROBUST_MODE)], step, variant);
      assert AddAll([], 0, [Change(Baseline, ROBUST_MODE)]) == nodes by {
        assert [Change(Baseline, ROBUST_MODE)][1..] == [];
      }
    }
  }

  /**
   However the probes come out: no step is tried with one value more than four
   times, nor passed with it more than twice; every outcome can be recorded.
   */
  lemma ProbesAreSpared(highQuality: bool, turns: seq<Turn>, t: Turn, step: Step, variant: nat)
    ensures var s := Tries(Init(highQuality), turns);
            && Attempts(s.nodes, step, variant) <= FailureLimit(step) <= 4 && Passes(s.nodes, step, variant) <= SuccessLimit(step) <= 2
            && var (handed, id) := Next(s, t.priority); id.Some? ==> Record(handed, id.value, t.passed, t.improves).1 == Ok
  {
    InitSpared(highQuality);
    TriesKeep(Init(highQuality), turns);
    var s := Tries(Init(highQuality), turns);
    if Next(s, t.priority).1.Some? {
      TryRecords(s, t);
    }
  }

  /** Every turn finds a mode until none is left; then no turn ever does. */
  lemma {:induction false} TurnsCount(s: Search, turns: seq<Turn>, priority: nat -> real)
    requires Settled(s.nodes) && Spared(s.nodes)
    ensures var after := Tries(s, turns);
            after.budget == s.budget && (after.testedCount == s.testedCount + |turns| || Next(after, priority).1.None?)
  {
    hide Settled, Spared, Try, Next, Waits;
    if turns != [] {
      var n := |turns| - 1;
      var (mid, t) := (Tries(s, turns[..n]), turns[n]);
      TriesKeep(s, turns[..n]);
      NextExact(mid, t.priority);
      NextExact(mid, priority);
      TurnsCount(s, turns[..n], priority);
      if Next(mid, t.priority).1.Some? {
        TryRecords(mid, t);
      } else {
        TryNothing(mid, t);
      }
    }
  }

  /** The loop ends: after as many turns as the budget no mode is handed out, whatever the priorities. */
  lemma ProbingEnds(highQuality: bool, turns: seq<Turn>, priority: nat -> real)
    requires |turns| >= if highQuality then HIGH_BUDGET else DEFAULT_BUDGET
    ensures Next(Tries(Init(highQuality), turns), priority).1.None?
  {
    InitSpared(highQuality);
    TurnsCount(Init(highQuality), turns, priority);
  }
}
