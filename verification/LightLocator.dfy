/** Finding the frame border in an image: the dark 8-connected components, one after the other. */
module LightLocator {
  import opened Arithmetic
  import opened Common

  /** A view of the pixels: rows of `width` in a buffer with `stride` bytes a row. */
  datatype Image = Image(pixels: seq<int>, width: nat, height: nat, stride: nat, threshold: int)

  predicate ValidImage(m: Image) {
    1 <= m.width <= m.stride && 1 <= m.height && PixelIndex(m, m.height) <= |m.pixels|
  }

  function PixelIndex(m: Image, y: nat): nat { y * m.stride }

  function Total(m: Image): nat { m.width * m.height }

  function X(m: Image, p: nat): (x: nat)
    requires m.width > 0
    ensures x < m.width
  {
    p % m.width
  }

  function Y(m: Image, p: nat): nat
    requires m.width > 0
  {
    p / m.width
  }

  function Position(m: Image, x: nat, y: nat): nat { y * m.width + x }

  lemma RowEnds(w: nat, y: nat, h: nat)
    requires y < h
    ensures y * w + w <= h * w
  {
    assert h * w == y * w + w + (h - y - 1) * w;
  }

  lemma RowReads(w: nat, x: nat, y: nat)
    requires x < w
    ensures (y * w + x) / w == y && (y * w + x) % w == x
  {
    DivModUnique(y * w + x, w, y, x);
  }

  lemma PositionReads(m: Image, x: nat, y: nat)
    requires m.width > 0 && x < m.width && y < m.height
    ensures Position(m, x, y) < Total(m) && X(m, Position(m, x, y)) == x && Y(m, Position(m, x, y)) == y
  {
    RowEnds(m.width, y, m.height);
    RowReads(m.width, x, y);
  }

  lemma RowOf(w: nat, h: nat, p: nat)
    requires 0 < w && p < w * h
    ensures p / w < h && p / w * w + p % w == p
  {
    var y := p / w;
    assert p == w * y + p % w;
    if y >= h {
      RowStarts(w, h, y);
    }
  }

  lemma RowStarts(w: nat, h: nat, y: nat)
    requires h <= y
    ensures w * h <= w * y
  {
    assert w * y == w * h + w * (y - h);
  }

  lemma InsideImage(m: Image, p: nat)
    requires ValidImage(m) && p < Total(m)
    ensures Y(m, p) < m.height && PixelIndex(m, Y(m, p)) + X(m, p) < |m.pixels|
    ensures Position(m, X(m, p), Y(m, p)) == p
  {
    RowOf(m.width, m.height, p);
    RowEnds(m.stride, Y(m, p), m.height);
  }

  predicate Dark(m: Image, p: nat)
    requires ValidImage(m) && p < Total(m)
  {
    InsideImage(m, p);
    m.pixels[PixelIndex(m, Y(m, p)) + X(m, p)] <= m.threshold
  }

  predicate Near(a: nat, b: nat) { a <= b + 1 && b <= a + 1 }

  predicate Adjacent(m: Image, p: nat, q: nat)
    requires m.width > 0
  {
    p != q && Near(X(m, p), X(m, q)) && Near(Y(m, p), Y(m, q))
  }

  // ---------------------------------------------------------------------
  // Components
  // ---------------------------------------------------------------------

  /** A walk over dark pixels, each next to the one before. */
  ghost predicate Walk(m: Image, w: seq<nat>)
    requires ValidImage(m)
  {
    && w != [] && (forall i | 0 <= i < |w| :: w[i] < Total(m) && Dark(m, w[i]))
    && forall i | 0 < i < |w| :: Adjacent(m, w[i - 1], w[i])
  }

  ghost predicate Connected(m: Image, a: nat, b: nat)
    requires ValidImage(m)
  {
    exists w: seq<nat> :: Walk(m, w) && w[0] == a && w[|w| - 1] == b
  }

  ghost function Component(m: Image, a: nat): set<nat>
    requires ValidImage(m)
  {
    set b: nat | b < Total(m) && Connected(m, a, b)
  }

  lemma ConnectedSelf(m: Image, a: nat)
    requires ValidImage(m) && a < Total(m) && Dark(m, a)
    ensures Connected(m, a, a)
  {
    assert Walk(m, [a]);
  }

  lemma ConnectedMore(m: Image, a: nat, b: nat, c: nat)
    requires ValidImage(m) && Connected(m, a, b) && c < Total(m) && Dark(m, c) && Adjacent(m, b, c)
    ensures Connected(m, a, c)
  {
    hide Dark, Adjacent;
    var w: seq<nat> :| Walk(m, w) && w[0] == a && w[|w| - 1] == b;
    assert Walk(m, w + [c]);
  }

  lemma ConnectedBack(m: Image, a: nat, b: nat)
    requires ValidImage(m) && Connected(m, a, b)
    ensures Connected(m, b, a)
  {
    hide Dark, Near;
    var w: seq<nat> :| Walk(m, w) && w[0] == a && w[|w| - 1] == b;
    var back := seq(|w|, i requires 0 <= i < |w| => w[|w| - 1 - i]);
    forall i | 0 < i < |back| ensures Adjacent(m, back[i - 1], back[i]) {
      assert Adjacent(m, w[|w| - 1 - i], w[|w| - i]);
      AdjacentBack(m, w[|w| - 1 - i], w[|w| - i]);
    }
    assert Walk(m, back);
  }

  lemma AdjacentBack(m: Image, p: nat, q: nat)
    requires m.width > 0
    ensures Adjacent(m, p, q) == Adjacent(m, q, p)
  {
  }

  lemma ConnectedJoin(m: Image, a: nat, b: nat, c: nat)
    requires ValidImage(m) && Connected(m, a, b) && Connected(m, b, c)
    ensures Connected(m, a, c)
  {
    hide Dark, Adjacent;
    var u: seq<nat> :| Walk(m, u) && u[0] == a && u[|u| - 1] == b;
    var v: seq<nat> :| Walk(m, v) && v[0] == b && v[|v| - 1] == c;
    var w := u + v[1..];
    forall i | 0 < i < |w| ensures Adjacent(m, w[i - 1], w[i]) {
      if i >= |u| {
        assert w[i] == v[i - |u| + 1] && w[i - 1] == v[i - |u|];
      }
    }
    assert Walk(m, w);
  }

  /** Two connected pixels have the same component. */
  lemma SameComponent(m: Image, a: nat, b: nat)
    requires ValidImage(m) && Connected(m, a, b)
    ensures Component(m, a) == Component(m, b)
  {
    hide Connected;
    ConnectedBack(m, a, b);
    forall c: nat | c < Total(m)
      ensures Connected(m, a, c) <==> Connected(m, b, c)
    {
      if Connected(m, a, c) { ConnectedJoin(m, b, a, c); }
      if Connected(m, b, c) { ConnectedJoin(m, a, b, c); }
    }
  }

  /** Dark neighbours of members are members. */
  ghost predicate Closed(m: Image, s: set<nat>)
    requires ValidImage(m)
  {
    forall p, q | p in s && p < Total(m) && q < Total(m) && q >= 0 && Dark(m, q) && Adjacent(m, p, q) :: q in s
  }

  lemma {:induction false} ClosedHoldsWalk(m: Image, s: set<nat>, w: seq<nat>)
    requires ValidImage(m) && Closed(m, s) && Walk(m, w) && w[0] in s
    ensures w[|w| - 1] in s
  {
    hide Dark, Adjacent;
    if |w| > 1 {
      var n := |w| - 1;
      assert Walk(m, w[..n]);
      ClosedHoldsWalk(m, s, w[..n]);
      assert Adjacent(m, w[n - 1], w[n]);
    }
  }

  /** A closed set that holds the start and only pixels connected to it is its component. */
  lemma ClosedIsComponent(m: Image, s: set<nat>, start: nat)
    requires ValidImage(m) && Closed(m, s) && start in s
    requires forall p | p in s :: 0 <= p < Total(m) && Connected(m, start, p)
    ensures s == Component(m, start)
  {
    hide Dark, Adjacent, Closed;
    forall b | b in Component(m, start) ensures b in s {
      var w: seq<nat> :| Walk(m, w) && w[0] == start && w[|w| - 1] == b;
      ClosedHoldsWalk(m, s, w);
    }
  }

  // ---------------------------------------------------------------------
  // What is kept of a component
  // ---------------------------------------------------------------------

  /** Bounding box and the extremal points of the two diagonals; points are positions. */
  datatype Record = Record(
    count: nat,
    minX: nat, maxX: nat, minY: nat, maxY: nat,
    minSumAt: nat, maxSumAt: nat, minDifferenceAt: nat, maxDifferenceAt: nat)

  function Sum(m: Image, p: nat): int
    requires m.width > 0
  {
    X(m, p) + Y(m, p)
  }

  function Difference(m: Image, p: nat): int
    requires m.width > 0
  {
    X(m, p) - Y(m, p)
  }

  function Begin(m: Image, p: nat): Record
    requires m.width > 0
  {
    Record(0, X(m, p), X(m, p), Y(m, p), Y(m, p), p, p, p, p)
  }

  function Add(m: Image, r: Record, p: nat): Record
    requires m.width > 0
  {
    Record(r.count + 1,
           if X(m, p) < r.minX then X(m, p) else r.minX, if X(m, p) > r.maxX then X(m, p) else r.maxX,
           if Y(m, p) < r.minY then Y(m, p) else r.minY, if Y(m, p) > r.maxY then Y(m, p) else r.maxY,
           if Sum(m, p) < Sum(m, r.minSumAt) then p else r.minSumAt,
           if Sum(m, p) > Sum(m, r.maxSumAt) then p else r.maxSumAt,
           if Difference(m, p) < Difference(m, r.minDifferenceAt) then p else r.minDifferenceAt,
           if Difference(m, p) > Difference(m, r.maxDifferenceAt) then p else r.maxDifferenceAt)
  }

  /** The box is the smallest around the pixels, and the four points are extremal among them. */
  ghost predicate Bounds(m: Image, r: Record, s: set<nat>)
    requires m.width > 0
  {
    && (forall p | p in s :: r.minX <= X(m, p) <= r.maxX && r.minY <= Y(m, p) <= r.maxY)
    && HasX(m, s, r.minX) && HasX(m, s, r.maxX) && HasY(m, s, r.minY) && HasY(m, s, r.maxY)
  }

  ghost predicate HasX(m: Image, s: set<nat>, x: nat)
    requires m.width > 0
  {
    exists p :: p in s && X(m, p) == x
  }

  ghost predicate HasY(m: Image, s: set<nat>, y: nat)
    requires m.width > 0
  {
    exists p :: p in s && Y(m, p) == y
  }

  ghost predicate Corners(m: Image, r: Record, s: set<nat>)
    requires m.width > 0
  {
    && r.minSumAt in s && r.maxSumAt in s && r.minDifferenceAt in s && r.maxDifferenceAt in s
    && forall p | p in s ::
         && Sum(m, r.minSumAt) <= Sum(m, p) <= Sum(m, r.maxSumAt)
         && Difference(m, r.minDifferenceAt) <= Difference(m, p) <= Difference(m, r.maxDifferenceAt)
  }

  ghost predicate Describes(m: Image, r: Record, s: set<nat>)
    requires m.width > 0
  {
    r.count == |s| && Bounds(m, r, s) && Corners(m, r, s)
  }

  lemma BeginBounds(m: Image, p: nat)
    requires m.width > 0
    ensures Bounds(m, Begin(m, p), {p}) && Corners(m, Begin(m, p), {p})
  {
    hide X, Y;
    assert p in {p};
  }

  lemma HasMore(m: Image, s: set<nat>, p: nat, v: nat)
    requires m.width > 0
    ensures HasX(m, s, v) ==> HasX(m, s + {p}, v)
    ensures HasY(m, s, v) ==> HasY(m, s + {p}, v)
    ensures HasX(m, s + {p}, X(m, p)) && HasY(m, s + {p}, Y(m, p))
  {
    hide X, Y;
    assert p in s + {p};
    if HasX(m, s, v) { var q :| q in s && X(m, q) == v; assert q in s + {p}; }
    if HasY(m, s, v) { var q :| q in s && Y(m, q) == v; assert q in s + {p}; }
  }

  lemma AddBox(m: Image, r: Record, s: set<nat>, p: nat)
    requires m.width > 0 && Bounds(m, r, s)
    ensures Bounds(m, Add(m, r, p), s + {p})
  {
    hide X, Y, HasX, HasY, Sum, Difference;
    HasMore(m, s, p, r.minX);
    HasMore(m, s, p, r.maxX);
    HasMore(m, s, p, r.minY);
    HasMore(m, s, p, r.maxY);
  }

  lemma AddCorners(m: Image, r: Record, s: set<nat>, p: nat)
    requires m.width > 0 && Corners(m, r, s)
    ensures Corners(m, Add(m, r, p), s + {p})
  {
    hide X, Y, Sum, Difference;
  }

  function Width(r: Record): int { r.maxX - r.minX + 1 }

  function Height(r: Record): int { r.maxY - r.minY + 1 }

  function Area(r: Record): int { Width(r) * Height(r) }

  /** Off the edges, at least 24 pixels each way, and with as many pixels as a border needs. */
  predicate Qualifies(m: Image, r: Record) {
    && r.minX != 0 && r.minY != 0 && r.maxX + 1 != m.width && r.maxY + 1 != m.height
    && Width(r) >= 24 && Height(r) >= 24 && r.count >= Width(r) + Height(r)
  }

  /** Two descriptions of one component agree on everything but which of several extremal points they name. */
  lemma DescriptionsAgree(m: Image, r: Record, t: Record, s: set<nat>)
    requires m.width > 0 && Describes(m, r, s) && Describes(m, t, s)
    ensures r.minX == t.minX && r.maxX == t.maxX && r.minY == t.minY && r.maxY == t.maxY && r.count == t.count
    ensures Area(r) == Area(t) && (Qualifies(m, r) <==> Qualifies(m, t))
  {
    hide X, Y, Corners;
  }

  // ---------------------------------------------------------------------
  // The flood fill
  // ---------------------------------------------------------------------

  ghost function Marked(visited: seq<bool>): set<nat> {
    set p: nat | p < |visited| && visited[p]
  }

  ghost function Elements(q: seq<nat>): set<nat> {
    set p | p in q
  }

  ghost predicate Distinct(q: seq<nat>) {
    forall i, j | 0 <= i < j < |q| :: q[i] != q[j]
  }

  /** The queue holds new dark pixels connected to the start, each once, and exactly they were marked since. */
  ghost predicate Queued(m: Image, visited: seq<bool>, before: set<nat>, q: seq<nat>, start: nat)
    requires ValidImage(m)
  {
    && |visited| == Total(m) && Distinct(q)
    && (forall p | p in q :: p < Total(m) && p !in before && Dark(m, p) && Connected(m, start, p))
    && Marked(visited) == before + Elements(q)
  }

  /** All dark neighbours of the first `head` pixels are marked. */
  ghost predicate Explored(m: Image, visited: seq<bool>, q: seq<nat>, head: nat)
    requires ValidImage(m) && |visited| == Total(m) && head <= |q|
  {
    forall i, p: nat | 0 <= i < head && p < Total(m) && Dark(m, p) && Adjacent(m, q[i], p) :: visited[p]
  }

  lemma {:induction false} DistinctCount(q: seq<nat>)
    requires Distinct(q)
    ensures |Elements(q)| == |q|
  {
    if q != [] {
      var n := |q| - 1;
      DistinctCount(q[..n]);
      assert Elements(q) == Elements(q[..n]) + {q[n]};
    }
  }

  lemma {:induction false} BoundedSet(s: set<nat>, n: nat)
    requires forall p | p in s :: p < n
    ensures |s| <= n
  {
    if n > 0 {
      BoundedSet(s - {n - 1}, n - 1);
    } else {
      assert s == {};
    }
  }

  /** The queue never overflows: a pixel not in it still has room. */
  lemma QueueRoom(m: Image, visited: seq<bool>, before: set<nat>, q: seq<nat>, start: nat, p: nat)
    requires ValidImage(m) && Queued(m, visited, before, q, start) && p < Total(m) && p !in q
    ensures |q| < Total(m)
  {
    hide Dark, Connected;
    DistinctCount(q);
    BoundedSet(Elements(q) + {p}, Total(m));
  }

  lemma PushQueued(m: Image, visited: seq<bool>, before: set<nat>, q: seq<nat>, start: nat, p: nat, from: nat)
    requires ValidImage(m) && Queued(m, visited, before, q, start) && from in q
    requires p < Total(m) && !visited[p] && Dark(m, p) && Adjacent(m, from, p)
    ensures Queued(m, visited[p := true], before, q + [p], start) && p !in q
  {
    hide Dark, Connected, Adjacent;
    ConnectedMore(m, start, from, p);
    assert p !in Marked(visited);
    assert Marked(visited[p := true]) == Marked(visited) + {p};
    assert Elements(q + [p]) == Elements(q) + {p};
  }

  /** The offset of a neighbour, as the two loops count it. */
  predicate AtOffset(m: Image, p: nat, q: nat, dx: int, dy: int)
    requires m.width > 0
  {
    X(m, q) == X(m, p) + dx && Y(m, q) == Y(m, p) + dy
  }

  /** Before the loops reach (dx, dy) the neighbours at earlier offsets are marked. */
  ghost predicate Looked(m: Image, visited: seq<bool>, p: nat, dx: int, dy: int)
    requires ValidImage(m) && |visited| == Total(m)
  {
    forall q: nat | q < Total(m) && Dark(m, q) && Adjacent(m, p, q) &&
                    (Y(m, q) - Y(m, p) < dy || (Y(m, q) - Y(m, p) == dy && X(m, q) - X(m, p) < dx)) :: visited[q]
  }

  lemma SamePosition(m: Image, p: nat, q: nat)
    requires ValidImage(m) && p < Total(m) && q < Total(m) && X(m, p) == X(m, q) && Y(m, p) == Y(m, q)
    ensures p == q
  {
    InsideImage(m, p);
    InsideImage(m, q);
  }

  /** Looking at one offset. */
  lemma LookedNext(m: Image, before: seq<bool>, after: seq<bool>, p: nat, dx: int, dy: int)
    requires ValidImage(m) && |before| == |after| == Total(m) && p < Total(m) && Looked(m, before, p, dx, dy)
    requires forall q: nat | q < |before| && before[q] :: after[q]
    requires forall q: nat | q < Total(m) && Dark(m, q) && Adjacent(m, p, q) && AtOffset(m, p, q, dx, dy) :: after[q]
    ensures Looked(m, after, p, dx + 1, dy)
  {
    hide Dark, Adjacent, X, Y;
  }

  lemma LookedRow(m: Image, visited: seq<bool>, p: nat, dy: int)
    requires ValidImage(m) && |visited| == Total(m)
    ensures Looked(m, visited, p, 2, dy) <==> Looked(m, visited, p, -1, dy + 1)
    ensures Looked(m, visited, p, -1, -1)
  {
    hide Dark, X, Y;
  }

  ghost predicate Grown(before: seq<bool>, after: seq<bool>) {
    |before| == |after| && forall q | 0 <= q < |before| && before[q] :: after[q]
  }

  lemma NoneAtOffset(m: Image, p: nat, q: nat, dx: int, dy: int)
    requires ValidImage(m) && p < Total(m) && q < Total(m) && AtOffset(m, p, q, dx, dy)
    requires (dx == 0 && dy == 0) || (dx < 0 && X(m, p) == 0) || (dx > 0 && X(m, p) + 1 == m.width) ||
             (dy < 0 && Y(m, p) == 0) || (dy > 0 && Y(m, p) + 1 == m.height)
    requires -1 <= dx <= 1 && -1 <= dy <= 1
    ensures !Adjacent(m, p, q)
  {
    InsideImage(m, q);
    if dx == 0 && dy == 0 {
      SamePosition(m, p, q);
    }
  }

  /** Looks at one neighbour: a new dark one is marked and queued. */
  method LookAt(m: Image, visited: array<bool>, queue: array<nat>, tail: nat, p: nat, dx: int, dy: int,
                ghost before: set<nat>, ghost start: nat) returns (end: nat)
    requires ValidImage(m) && visited.Length == queue.Length == Total(m) && tail <= queue.Length
    requires Queued(m, visited[..], before, queue[..tail], start) && p in queue[..tail] && p < Total(m)
    requires -1 <= dx <= 1 && -1 <= dy <= 1
    modifies visited, queue
    ensures tail <= end <= queue.Length && queue[..tail] == old(queue[..tail])
    ensures Queued(m, visited[..], before, queue[..end], start)
    ensures Grown(old(visited[..]), visited[..])
    ensures forall q: nat | q < Total(m) && Dark(m, q) && Adjacent(m, p, q) && AtOffset(m, p, q, dx, dy) :: visited[q]
  {
    hide Dark, Queued, Connected, X, Y, Adjacent;
    end := tail;
    var x, y := X(m, p), Y(m, p);
    InsideImage(m, p);
    if (dx == 0 && dy == 0) || (dx < 0 && x == 0) || (dx > 0 && x + 1 == m.width) ||
       (dy < 0 && y == 0) || (dy > 0 && y + 1 == m.height) {
      forall q: nat | q < Total(m) && AtOffset(m, p, q, dx, dy) ensures !Adjacent(m, p, q) {
        NoneAtOffset(m, p, q, dx, dy);
      }
      return;
    }
    var neighbor := Position(m, x + dx, y + dy);
    PositionReads(m, x + dx, y + dy);
    forall q: nat | q < Total(m) && AtOffset(m, p, q, dx, dy) ensures q == neighbor {
      SamePosition(m, q, neighbor);
    }
    if !visited[neighbor] && Dark(m, neighbor) {
      OffsetAdjacent(m, p, neighbor, dx, dy);
      ghost var q := queue[..tail];
      PushQueued(m, visited[..], before, q, start, neighbor, p);
      QueueRoom(m, visited[..], before, q, start, neighbor);
      visited[neighbor] := true;
      queue[tail] := neighbor;
      end := tail + 1;
      assert queue[..end] == q + [neighbor];
    }
  }

  lemma OffsetAdjacent(m: Image, p: nat, q: nat, dx: int, dy: int)
    requires m.width > 0 && AtOffset(m, p, q, dx, dy) && -1 <= dx <= 1 && -1 <= dy <= 1 && (dx != 0 || dy != 0)
    ensures Adjacent(m, p, q)
  {
  }

  lemma GrownMore(a: seq<bool>, b: seq<bool>, c: seq<bool>)
    requires Grown(a, b) && Grown(b, c)
    ensures Grown(a, c)
  {
  }

  /** Looks at all eight neighbours of a pixel. */
  method LookAround(m: Image, visited: array<bool>, queue: array<nat>, tail: nat, p: nat,
                    ghost before: set<nat>, ghost start: nat) returns (end: nat)
    requires ValidImage(m) && visited.Length == queue.Length == Total(m) && tail <= queue.Length
    requires Queued(m, visited[..], before, queue[..tail], start) && p in queue[..tail] && p < Total(m)
    modifies visited, queue
    ensures tail <= end <= queue.Length && queue[..tail] == old(queue[..tail])
    ensures Queued(m, visited[..], before, queue[..end], start)
    ensures Grown(old(visited[..]), visited[..])
    ensures forall q: nat | q < Total(m) && Dark(m, q) && Adjacent(m, p, q) :: visited[q]
  {
    hide Dark, Queued, Connected, X, Y, Looked, Grown;
    end := tail;
    ghost var first, seen := queue[..tail], visited[..];
    LookedRow(m, visited[..], p, -1);
    GrownSelf(seen);
    for dy := -1 to 2
      invariant tail <= end <= queue.Length && queue[..end][..tail] == first
      invariant Queued(m, visited[..], before, queue[..end], start) && Grown(seen, visited[..])
      invariant Looked(m, visited[..], p, -1, dy)
    {
      for dx := -1 to 2
        invariant tail <= end <= queue.Length && queue[..end][..tail] == first
        invariant Queued(m, visited[..], before, queue[..end], start) && Grown(seen, visited[..])
        invariant Looked(m, visited[..], p, dx, dy)
      {
        ghost var was, q := visited[..], queue[..end];
        assert p in q by { assert p in q[..tail]; }
        end := LookAt(m, visited, queue, end, p, dx, dy, before, start);
        assert queue[..end][..|q|] == q;
        LookedGrown(m, was, visited[..], p, dx, dy);
        GrownMore(seen, was, visited[..]);
      }
      LookedRow(m, visited[..], p, dy);
    }
    LookedAll(m, visited[..], p);
    assert queue[..tail] == queue[..end][..tail];
  }

  lemma GrownSelf(a: seq<bool>)
    ensures Grown(a, a)
  {
  }

  lemma LookedGrown(m: Image, before: seq<bool>, after: seq<bool>, p: nat, dx: int, dy: int)
    requires ValidImage(m) && |before| == Total(m) && p < Total(m) && Looked(m, before, p, dx, dy) && Grown(before, after)
    requires forall q: nat | q < Total(m) && Dark(m, q) && Adjacent(m, p, q) && AtOffset(m, p, q, dx, dy) :: after[q]
    ensures Looked(m, after, p, dx + 1, dy)
  {
    hide Looked, Dark, Adjacent, X, Y, AtOffset;
    LookedNext(m, before, after, p, dx, dy);
  }

  lemma LookedAll(m: Image, visited: seq<bool>, p: nat)
    requires ValidImage(m) && |visited| == Total(m) && Looked(m, visited, p, -1, 2)
    ensures forall q: nat | q < Total(m) && Dark(m, q) && Adjacent(m, p, q) :: visited[q]
  {
    hide Dark, X, Y;
  }

  lemma ExploredNext(m: Image, before: seq<bool>, after: seq<bool>, q: seq<nat>, more: seq<nat>, head: nat)
    requires ValidImage(m) && |before| == Total(m) && head < |q| && q <= more
    requires Explored(m, before, q, head) && Grown(before, after) && q[head] < Total(m)
    requires forall p: nat | p < Total(m) && Dark(m, p) && Adjacent(m, q[head], p) :: after[p]
    ensures Explored(m, after, more, head + 1)
  {
    hide Dark, Adjacent;
  }

  /** When nothing is left to explore the queue is the whole component, and the marks are closed again. */
  lemma FilledComponent(m: Image, visited: seq<bool>, before: set<nat>, q: seq<nat>, start: nat)
    requires ValidImage(m) && Queued(m, visited, before, q, start) && start in q && Explored(m, visited, q, |q|)
    requires Closed(m, before) && forall p | p in before :: p < Total(m) && Dark(m, p)
    ensures Elements(q) == Component(m, start)
    ensures Closed(m, Marked(visited))
  {
    hide Dark, Adjacent, Connected;
    forall p, n | p in Elements(q) && p < Total(m) && n < Total(m) && n >= 0 && Dark(m, n) && Adjacent(m, p, n)
      ensures n in Elements(q)
    {
      var i :| 0 <= i < |q| && q[i] == p;
      assert n in Marked(visited);
      AdjacentBack(m, p, n);
    }
    ClosedIsComponent(m, Elements(q), start);
  }

  /** The first `head` pixels of the queue are explored and described. */
  ghost predicate Progress(m: Image, visited: seq<bool>, before: set<nat>, q: seq<nat>, start: nat, head: nat, r: Record)
    requires ValidImage(m)
  {
    && Queued(m, visited, before, q, start) && start in q && head <= |q| && Explored(m, visited, q, head)
    && r.count == head
    && Bounds(m, r, {start} + Elements(q[..head])) && Corners(m, r, {start} + Elements(q[..head]))
  }

  lemma ProgressStarts(m: Image, visited: seq<bool>, before: set<nat>, start: nat)
    requires ValidImage(m) && |visited| == Total(m) && start < Total(m) && !visited[start] && Dark(m, start)
    requires Marked(visited) == before
    ensures Progress(m, visited[start := true], before, [start], start, 0, Begin(m, start))
  {
    hide Dark, Queued, Bounds, Corners, Explored, X, Y;
    StartQueued(m, visited, before, start);
    QueuedInside(m, visited[start := true], before, [start], start, 0);
    BeginBounds(m, start);
    ExploredNone(m, visited[start := true], [start]);
    assert {start} + Elements([start][..0]) == {start};
    assert Begin(m, start).count == 0;
  }

  lemma ProgressStep(m: Image, was: seq<bool>, visited: seq<bool>, before: set<nat>, q: seq<nat>, more: seq<nat>,
                     start: nat, head: nat, r: Record)
    requires ValidImage(m) && Progress(m, was, before, q, start, head, r) && head < |q| && q <= more
    requires Queued(m, visited, before, more, start) && |was| == |visited| == Total(m) && Grown(was, visited)
    requires q[head] < Total(m) && forall p: nat | p < Total(m) && Dark(m, p) && Adjacent(m, q[head], p) :: visited[p]
    ensures Progress(m, visited, before, more, start, head + 1, Add(m, r, q[head]))
  {
    hide Dark, Queued, Bounds, Corners, Explored, Add, X, Y, Adjacent, Grown;
    var done := {start} + Elements(q[..head]);
    AddBox(m, r, done, q[head]);
    AddCorners(m, r, done, q[head]);
    AddCounts(m, r, q[head]);
    ExploredNext(m, was, visited, q, more, head);
    assert more[..head + 1] == q[..head] + [q[head]];
    ElementsMore(q[..head], q[head]);
    assert {start} + Elements(more[..head + 1]) == done + {q[head]};
  }

  lemma ProgressEnds(m: Image, visited: seq<bool>, before: set<nat>, q: seq<nat>, start: nat, r: Record)
    requires ValidImage(m) && Progress(m, visited, before, q, start, |q|, r)
    requires Closed(m, before) && forall p | p in before :: p < Total(m) && Dark(m, p)
    ensures Describes(m, r, Component(m, start))
    ensures Marked(visited) == before + Component(m, start) && Closed(m, Marked(visited))
  {
    hide Dark, Queued, Bounds, Corners, Explored, Closed, Component;
    assert q[..|q|] == q;
    FilledComponent(m, visited, before, q, start);
    QueuedDistinct(m, visited, before, q, start);
    DistinctCount(q);
    assert {start} + Elements(q) == Elements(q);
  }

  /** Fills the component of a dark pixel that is not marked yet, and describes it. */
  method FillComponent(m: Image, visited: array<bool>, queue: array<nat>, start: nat, ghost before: set<nat>) returns (r: Record)
    requires ValidImage(m) && visited.Length == queue.Length == Total(m) && start < Total(m)
    requires Marked(visited[..]) == before && Closed(m, before) && forall p | p in before :: p < Total(m) && Dark(m, p)
    requires !visited[start] && Dark(m, start)
    modifies visited, queue
    ensures Describes(m, r, Component(m, start))
    ensures Marked(visited[..]) == before + Component(m, start) && Closed(m, Marked(visited[..]))
  {
    hide Dark, Progress, Add, Begin, Closed, Component, Describes, Queued, Adjacent, Grown;
    r := Begin(m, start);
    ProgressStarts(m, visited[..], before, start);
    var head, tail := 0, 1;
    visited[start] := true;
    queue[0] := start;
    assert queue[..1] == [start];
    while head < tail
      invariant head <= tail <= queue.Length
      invariant Progress(m, visited[..], before, queue[..tail], start, head, r)
      decreases queue.Length - head
    {
      var position := queue[head];
      ghost var q, was := queue[..tail], visited[..];
      ProgressQueued(m, was, before, q, start, head, r);
      tail := LookAround(m, visited, queue, tail, position, before, start);
      assert queue[..tail][..|q|] == q;
      ProgressStep(m, was, visited[..], before, q, queue[..tail], start, head, r);
      r := Add(m, r, position);
      head := head + 1;
    }
    ProgressEnds(m, visited[..], before, queue[..tail], start, r);
  }

  lemma ProgressQueued(m: Image, visited: seq<bool>, before: set<nat>, q: seq<nat>, start: nat, head: nat, r: Record)
    requires ValidImage(m) && Progress(m, visited, before, q, start, head, r) && head < |q|
    ensures Queued(m, visited, before, q, start) && q[head] in q && q[head] < Total(m) && |visited| == Total(m)
  {
    hide Dark, Connected, Bounds, Corners, Explored;
    QueuedInside(m, visited, before, q, start, head);
  }

  lemma StartQueued(m: Image, visited: seq<bool>, before: set<nat>, start: nat)
    requires ValidImage(m) && |visited| == Total(m) && start < Total(m) && !visited[start] && Dark(m, start)
    requires Marked(visited) == before
    ensures Queued(m, visited[start := true], before, [start], start)
  {
    hide Dark, Connected;
    ConnectedSelf(m, start);
    assert start !in Marked(visited);
    assert Marked(visited[start := true]) == before + {start};
  }

  lemma ExploredNone(m: Image, visited: seq<bool>, q: seq<nat>)
    requires ValidImage(m) && |visited| == Total(m)
    ensures Explored(m, visited, q, 0)
  {
  }

  lemma QueuedInside(m: Image, visited: seq<bool>, before: set<nat>, q: seq<nat>, start: nat, i: nat)
    requires ValidImage(m) && Queued(m, visited, before, q, start) && i < |q|
    ensures q[i] < Total(m) && |visited| == Total(m)
  {
    hide Dark, Connected;
    assert q[i] in q;
  }

  lemma QueuedDistinct(m: Image, visited: seq<bool>, before: set<nat>, q: seq<nat>, start: nat)
    requires ValidImage(m) && Queued(m, visited, before, q, start)
    ensures Distinct(q) && Marked(visited) == before + Elements(q)
  {
  }

  lemma AddCounts(m: Image, r: Record, p: nat)
    requires m.width > 0
    ensures Add(m, r, p).count == r.count + 1
  {
  }

  lemma ElementsMore(q: seq<nat>, p: nat)
    ensures Elements(q + [p]) == Elements(q) + {p}
  {
  }

  // ---------------------------------------------------------------------
  // The locator
  // ---------------------------------------------------------------------

  /** Twice the area of the quadrilateral with these corners, by the shoelace formula. */
  function TwiceArea(m: Image, a: nat, b: nat, c: nat, d: nat): int
    requires m.width > 0
  {
    var sum := Cross(m, a, b) + Cross(m, b, c) + Cross(m, c, d) + Cross(m, d, a);
    if sum < 0 then -sum else sum
  }

  function Cross(m: Image, p: nat, q: nat): int
    requires m.width > 0
  {
    X(m, p) * Y(m, q) - X(m, q) * Y(m, p)
  }

  /** The best record so far is one of a qualifying component with the largest box among those filled. */
  ghost predicate BestOf(m: Image, filled: set<nat>, best: Option<Record>)
    requires ValidImage(m)
  {
    && (best.Some? ==> exists s :: s in filled && Describes(m, best.value, Component(m, s)) && Qualifies(m, best.value))
    && forall s, r | s in filled && Describes(m, r, Component(m, s)) && Qualifies(m, r) ::
         best.Some? && Area(r) <= Area(best.value)
  }

  function Better(m: Image, best: Option<Record>, r: Record): Option<Record> {
    if Qualifies(m, r) && (best.None? || Area(r) > Area(best.value)) then Some(r) else best
  }

  lemma BestNext(m: Image, filled: set<nat>, best: Option<Record>, start: nat, r: Record)
    requires ValidImage(m) && start < Total(m) && Dark(m, start) && BestOf(m, filled, best)
    requires Describes(m, r, Component(m, start))
    ensures BestOf(m, filled + Component(m, start), Better(m, best, r))
  {
    hide Dark, Describes, Connected, Area, Qualifies;
    ConnectedSelf(m, start);
    assert start in Component(m, start);
    var after := Better(m, best, r);
    forall s, t | s in filled + Component(m, start) && Describes(m, t, Component(m, s)) && Qualifies(m, t)
      ensures after.Some? && Area(t) <= Area(after.value)
    {
      if s !in filled {
        SameComponent(m, start, s);
        DescriptionsAgree(m, r, t, Component(m, start));
      }
    }
    if best.Some? && after == best {
      var s :| s in filled && Describes(m, best.value, Component(m, s)) && Qualifies(m, best.value);
      assert s in filled + Component(m, start);
    }
  }

  ghost function DarkPixels(m: Image): set<nat>
    requires ValidImage(m)
  {
    set p: nat | p < Total(m) && Dark(m, p)
  }

  /** What the locator answers, from the best component of the whole image. */
  function Answer(m: Image, best: Option<Record>): (Status, seq<nat>)
    requires m.width > 0
  {
    if best.None? then (ErrSync, [])
    else
      var r := best.value;
      var corners := [r.minSumAt, r.maxDifferenceAt, r.maxSumAt, r.minDifferenceAt];
      if TwiceArea(m, corners[0], corners[1], corners[2], corners[3]) < 576 then (ErrSync, []) else (Ok, corners)
  }

  /**
   Fills every dark component once.  `best` describes a component that qualifies
   and whose box no other qualifying component exceeds, or none qualifies.
   */
  method FindLocator(m: Image) returns (status: Status, corners: seq<nat>, ghost best: Option<Record>)
    requires ValidImage(m)
    ensures (status, corners) == Answer(m, best)
    ensures BestOf(m, DarkPixels(m), best)
  {
    hide Dark, Closed, Describes, Connected, Component, BestOf, Area, Qualifies;
    var total := m.width * m.height;
    var visited := new bool[total](_ => false);
    var queue := new nat[total];
    var found: Option<Record> := None;
    assert Marked(visited[..]) == {};
    NothingFilled(m);
    for start := 0 to total
      invariant Closed(m, Marked(visited[..])) && BestOf(m, Marked(visited[..]), found)
      invariant forall p | p in Marked(visited[..]) :: p < Total(m) && Dark(m, p)
      invariant forall p: nat | p < start && p < Total(m) && Dark(m, p) :: p in Marked(visited[..])
    {
      if visited[start] || !Dark(m, start) {
        continue;
      }
      ghost var before := Marked(visited[..]);
      var r := FillComponent(m, visited, queue, start, before);
      ComponentIsDark(m, start);
      BestNext(m, before, found, start, r);
      if Qualifies(m, r) && (found.None? || Area(r) > Area(found.value)) {
        found := Some(r);
      }
    }
    assert Marked(visited[..]) == DarkPixels(m);
    best := found;
    if found.None? {
      return ErrSync, [], found;
    }
    corners := [found.value.minSumAt, found.value.maxDifferenceAt, found.value.maxSumAt, found.value.minDifferenceAt];
    if TwiceArea(m, corners[0], corners[1], corners[2], corners[3]) < 576 {
      return ErrSync, [], found;
    }
    status := Ok;
  }

  lemma NothingFilled(m: Image)
    requires ValidImage(m)
    ensures Closed(m, {}) && BestOf(m, {}, None)
  {
  }

  lemma ComponentIsDark(m: Image, start: nat)
    requires ValidImage(m) && start < Total(m) && Dark(m, start)
    ensures forall p | p in Component(m, start) :: p < Total(m) && Dark(m, p)
    ensures start in Component(m, start)
  {
    ConnectedSelf(m, start);
    forall p | p in Component(m, start) ensures Dark(m, p) {
      var w: seq<nat> :| Walk(m, w) && w[0] == start && w[|w| - 1] == p;
    }
  }
}
