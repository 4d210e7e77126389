/** Ranking the modes that scored: the best, its proven parents, the others, and the baseline last. */
module CalibrationRanking {
  import opened CalibrationSearch

  predicate ParentsFirst(nodes: seq<Node>) {
    forall i | 0 < i < |nodes| :: nodes[i].parent < i
  }

  predicate Viable(scores: seq<real>, i: nat)
    requires i < |scores|
  {
    scores[i] >= 0.0
  }

  function ViableIds(scores: seq<real>, n: nat): set<nat>
    requires n <= |scores|
  {
    set i: nat | i < n && Viable(scores, i)
  }

  /** Node a comes before node b on score alone; the earlier of equals comes first. */
  predicate Beats(scores: seq<real>, a: nat, b: nat)
    requires a < |scores| && b < |scores|
  {
    scores[a] > scores[b] || (scores[a] == scores[b] && a <= b)
  }

  /** Node i is viable and beats every other viable node after the baseline that is not in the list. */
  predicate BestLeft(scores: seq<real>, n: nat, listed: seq<nat>, i: nat)
    requires n <= |scores|
  {
    && 0 < i < n && Viable(scores, i) && i !in listed
    && forall j: nat | 0 < j < n && Viable(scores, j) && j !in listed :: Beats(scores, i, j)
  }

  predicate NoneLeft(scores: seq<real>, n: nat, listed: seq<nat>)
    requires n <= |scores|
  {
    forall j: nat | 0 < j < n && Viable(scores, j) :: j in listed
  }

  /** The viable proper ancestors of a node, nearest first, without the baseline. */
  function Ancestors(nodes: seq<Node>, scores: seq<real>, i: nat): (r: seq<nat>)
    requires ParentsFirst(nodes) && i < |nodes| <= |scores|
    ensures forall a | a in r :: 0 < a < i && Viable(scores, a)
    ensures Distinct(r)
  {
    if i == 0 then []
    else
      var p := nodes[i].parent;
      var above := Ancestors(nodes, scores, p);
      if p != 0 && Viable(scores, p) then [p] + above else above
  }

  predicate Distinct(s: seq<nat>) {
    forall i, j | 0 <= i < j < |s| :: s[i] != s[j]
  }

  function Elements(s: seq<nat>): set<nat> { set x | x in s }

  lemma {:induction false} DistinctSize(s: seq<nat>)
    requires Distinct(s)
    ensures |Elements(s)| == |s|
  {
    if s == [] {
      assert Elements(s) == {};
    } else {
      var rest := s[..|s| - 1];
      DistinctSize(rest);
      assert s == rest + [s[|s| - 1]];
      assert s[|s| - 1] !in rest;
      assert Elements(s) == Elements(rest) + {s[|s| - 1]};
    }
  }

  lemma SubsetSize(a: set<nat>, b: set<nat>)
    requires a <= b
    ensures |a| <= |b|
    ensures |a| == |b| ==> a == b
  {
    assert b == a + (b - a);
  }

  function Min(a: nat, b: nat): nat { if a < b then a else b }

  /** The best of the listed-or-not nodes among the first k, if any. */
  method SelectBest(scores: seq<real>, n: nat, listed: seq<nat>) returns (found: bool, best: nat)
    requires n <= |scores|
    ensures found ==> BestLeft(scores, n, listed, best)
    ensures !found ==> NoneLeft(scores, n, listed)
  {
    found, best := false, 0;
    var i := 1;
    while i < n
      invariant 1 <= i
      invariant i <= n || (n == 0 && i == 1)
      invariant found ==> BestLeft(scores, Min(i, n), listed, best)
      invariant !found ==> NoneLeft(scores, Min(i, n), listed)
    {
      if scores[i] >= 0.0 && i !in listed && (!found || scores[i] > scores[best]) {
        found, best := true, i;
      }
      i := i + 1;
    }
  }

  /** The part of a ranking before the baseline: the head of a chain, then the others by score. */
  predicate Ordered(scores: seq<real>, n: nat, chain: seq<nat>, room: nat, ranked: seq<nat>)
    requires n <= |scores|
  {
    var k := Min(|chain|, room);
    && k <= |ranked| <= room
    && ranked[..k] == chain[..k]
    && (forall j | k <= j < |ranked| :: BestLeft(scores, n, ranked[..j], ranked[j]))
    && (|ranked| < room ==> NoneLeft(scores, n, ranked))
  }

  predicate Others(scores: seq<real>, n: nat, ranked: seq<nat>)
    requires n <= |scores|
  {
    Distinct(ranked) && (forall a | a in ranked :: 0 < a < n && Viable(scores, a))
  }

  /** The chain a ranking starts with: the best node after the baseline and its ancestors, if any is viable. */
  predicate IsChain(nodes: seq<Node>, scores: seq<real>, chain: seq<nat>)
    requires ParentsFirst(nodes) && |nodes| <= |scores|
  {
    if chain == [] then NoneLeft(scores, |nodes|, [])
    else BestLeft(scores, |nodes|, [], chain[0]) && chain[1..] == Ancestors(nodes, scores, chain[0])
  }

  /** With nothing left out, a ranking holds every viable node; otherwise it is full. */
  lemma RankedSize(scores: seq<real>, n: nat, ranked: seq<nat>, room: nat)
    requires n <= |scores| && Others(scores, n, ranked) && |ranked| <= room
    requires |ranked| < room ==> NoneLeft(scores, n, ranked)
    ensures |ranked| == Min(room, |ViableIds(scores, n) - {0}|)
  {
    var listed := Elements(ranked);
    DistinctSize(ranked);
    assert listed <= ViableIds(scores, n) - {0};
    SubsetSize(listed, ViableIds(scores, n) - {0});
    if |ranked| < room {
      assert listed == ViableIds(scores, n) - {0};
    }
  }

  method RankOthers(nodes: seq<Node>, scores: seq<real>, room: nat) returns (ranked: seq<nat>, ghost chain: seq<nat>)
    requires ParentsFirst(nodes) && |nodes| <= |scores|
    ensures Others(scores, |nodes|, ranked)
    ensures Ordered(scores, |nodes|, chain, room, ranked)
    ensures IsChain(nodes, scores, chain)
  {
    var found, best := SelectBest(scores, |nodes|, []);
    ranked, chain := [], [];
    if found {
      chain := [best] + Ancestors(nodes, scores, best);
      ranked := RankChain(nodes, scores, best, room);
    }
    var k := |ranked|;
    while |ranked| < room
      invariant k == Min(|chain|, room) <= |ranked| <= room
      invariant ranked[..k] == chain[..k]
      invariant Others(scores, |nodes|, ranked)
      invariant forall j | k <= j < |ranked| :: BestLeft(scores, |nodes|, ranked[..j], ranked[j])
    {
      var more, next := SelectBest(scores, |nodes|, ranked);
      if !more {
        break;
      }
      var longer := ranked + [next];
      assert forall j | 0 <= j <= |ranked| :: longer[..j] == ranked[..j];
      ranked := longer;
    }
  }

  /** The winner and as many of its proven parents as there is room for. */
  method RankChain(nodes: seq<Node>, scores: seq<real>, best: nat, room: nat) returns (ranked: seq<nat>)
    requires ParentsFirst(nodes) && 0 < best < |nodes| <= |scores| && Viable(scores, best)
    ensures var chain := [best] + Ancestors(nodes, scores, best); ranked == chain[..Min(|chain|, room)]
    ensures Others(scores, |nodes|, ranked)
  {
    hide Ancestors, ParentsFirst;
    ghost var chain := [best] + Ancestors(nodes, scores, best);
    ChainHolds(scores, |nodes|, best, Ancestors(nodes, scores, best));
    ranked := [];
    if room == 0 {
      return;
    }
    ranked := [best];
    var current := best;
    while current != 0 && |ranked| < room
      invariant current < |nodes| && |ranked| <= room
      invariant forall a | a in ranked :: current <= a
      invariant ranked + Ancestors(nodes, scores, current) == chain
      decreases current
    {
      ghost var before := ranked;
      AncestorsStep(nodes, scores, current);
      current := nodes[current].parent;
      if current != 0 && scores[current] >= 0.0 && current !in ranked {
        ranked := ranked + [current];
        assert ranked + Ancestors(nodes, scores, current) == before + ([current] + Ancestors(nodes, scores, current));
      }
    }
    assert Ancestors(nodes, scores, 0) == [] by { AncestorsStep(nodes, scores, 0); }
    assert ranked == chain[..|ranked|];
  }

  lemma AncestorsStep(nodes: seq<Node>, scores: seq<real>, i: nat)
    requires ParentsFirst(nodes) && i < |nodes| <= |scores|
    ensures i > 0 ==> nodes[i].parent < i
    ensures Ancestors(nodes, scores, i) ==
      if i == 0 then []
      else
        var p := nodes[i].parent;
        if p != 0 && Viable(scores, p) then [p] + Ancestors(nodes, scores, p) else Ancestors(nodes, scores, p)
  {
  }

  /** A viable node before its viable ancestors makes a list of distinct nodes. */
  lemma ChainHolds(scores: seq<real>, n: nat, best: nat, above: seq<nat>)
    requires 0 < best < n <= |scores| && Viable(scores, best)
    requires Distinct(above) && forall a | a in above :: 0 < a < best && Viable(scores, a)
    ensures Others(scores, n, [best] + above)
  {
    var chain := [best] + above;
    forall i, j | 0 <= i < j < |chain| ensures chain[i] != chain[j] {
      assert chain[j] == above[j - 1] && chain[j] in above;
      if i > 0 {
        assert chain[i] == above[i - 1];
      }
    }
  }

  /** The ids to verify, in order. */
  method Rank(nodes: seq<Node>, scores: seq<real>, capacity: nat) returns (ranked: seq<nat>, ghost chain: seq<nat>)
    requires ParentsFirst(nodes) && |nodes| <= |scores|
    ensures Distinct(ranked) && (forall a | a in ranked :: a < |nodes| && Viable(scores, a))
    ensures |ranked| == Min(capacity, |ViableIds(scores, |nodes|)|)
    ensures capacity > 0 && 0 in ViableIds(scores, |nodes|) ==> ranked != [] && ranked[|ranked| - 1] == 0
    ensures capacity > 0 && nodes != [] ==>
      var room := if Viable(scores, 0) then capacity - 1 else capacity;
      IsChain(nodes, scores, chain) &&
      Ordered(scores, |nodes|, chain, room, if Viable(scores, 0) then ranked[..|ranked| - 1] else ranked)
  {
    hide NoneLeft, BestLeft, Ordered, IsChain, Ancestors, ParentsFirst;
    ranked, chain := [], [];
    if capacity == 0 || nodes == [] {
      return;
    }
    var baseline := scores[0] >= 0.0;
    var room := if baseline then capacity - 1 else capacity;
    ranked, chain := RankOthers(nodes, scores, room);
    RankedSize(scores, |nodes|, ranked, room);
    if baseline && |ranked| < capacity {
      assert ViableIds(scores, |nodes|) == ViableIds(scores, |nodes|) - {0} + {0};
      assert (ranked + [0])[..|ranked|] == ranked;
      ranked := ranked + [0];
    } else {
      assert ViableIds(scores, |nodes|) == ViableIds(scores, |nodes|) - {0};
    }
  }
}
