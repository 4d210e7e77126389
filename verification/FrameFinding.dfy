/** A frame in a picture is found: the locator answers with the corners of its border, whatever the frame carries. */
module FrameFinding {
  import opened Common
  import opened ConvolutionalCode
  import opened LightFrames
  import opened LightLocator
  import FrameOrientations

  /** Where the grid lies in a picture, and how many pixels a module is wide. */
  datatype View = View(left: nat, top: nat, scale: nat)

  function Side(v: View): nat { 48 * v.scale }

  predicate Inside(v: View, x: int, y: int) {
    v.left <= x < v.left + Side(v) && v.top <= y < v.top + Side(v)
  }

  /** One pixel around the grid. */
  predicate OnMargin(v: View, x: int, y: int) {
    !Inside(v, x, y) && v.left <= x + 1 && x <= v.left + Side(v) && v.top <= y + 1 && y <= v.top + Side(v)
  }

  function Part(d: nat, scale: nat): (k: nat)
    requires d < 48 * scale
    ensures k < GRID
  {
    Zones(d, scale);
    d / scale
  }

  /** The module a pixel shows. */
  function Shown(v: View, x: nat, y: nat): (k: nat)
    requires Inside(v, x, y)
    ensures k < GRID * GRID
  {
    Module(Part(y - v.top, v.scale), Part(x - v.left, v.scale))
  }

  /** A grid with a dark border and a light separator around whatever it carries. */
  predicate Framed(grid: Word) {
    |grid| == GRID * GRID &&
    forall row: nat, column: nat | row < GRID && column < GRID && !InData(row, column) ::
      grid[Module(row, column)] == if InBorder(row, column) then 1 else 0
  }

  /** The picture shows the grid, off its edges and with a light margin around it. */
  ghost predicate Pictured(m: Image, grid: Word, v: View) {
    && ValidImage(m) && |grid| == GRID * GRID && v.scale >= 1
    && 1 <= v.left && v.left + Side(v) < m.width && 1 <= v.top && v.top + Side(v) < m.height
    && (forall p: nat | p < Total(m) && Inside(v, X(m, p), Y(m, p)) :: Dark(m, p) <==> grid[Shown(v, X(m, p), Y(m, p))] == 1)
    && (forall p: nat | p < Total(m) && OnMargin(v, X(m, p), Y(m, p)) :: !Dark(m, p))
  }

  /** Dark things elsewhere in the picture that could be a border are smaller. */
  ghost predicate OthersSmaller(m: Image, v: View)
    requires ValidImage(m)
  {
    forall p: nat, r | p < Total(m) && Dark(m, p) && !Inside(v, X(m, p), Y(m, p)) && Describes(m, r, Component(m, p)) && Qualifies(m, r) ::
      Area(r) < Side(v) * Side(v)
  }

  // ---------------------------------------------------------------------
  // Border, separator and data in pixels
  // ---------------------------------------------------------------------

  predicate Outer(d: int, scale: nat) { d < 2 * scale || d >= 46 * scale }

  predicate Inner(d: int, scale: nat) { 3 * scale <= d < 45 * scale }

  lemma Zones(d: nat, scale: nat)
    requires d < 48 * scale
    ensures d / scale < 48
    ensures (d / scale < 2 || d / scale >= 46) <==> Outer(d, scale)
    ensures 3 <= d / scale < 45 <==> Inner(d, scale)
  {
    Below(d, scale, 2);
    Below(d, scale, 3);
    Below(d, scale, 45);
    Below(d, scale, 46);
    Below(d, scale, 48);
  }

  lemma Below(d: nat, scale: nat, k: nat)
    requires scale > 0
    ensures d / scale < k <==> d < k * scale
  {
    var q := d / scale;
    assert d == q * scale + d % scale;
    if q < k {
      assert k * scale == q * scale + scale + (k - q - 1) * scale;
    } else {
      assert q * scale == k * scale + (q - k) * scale;
    }
  }

  predicate OnRing(v: View, x: int, y: int) {
    Inside(v, x, y) && (Outer(x - v.left, v.scale) || Outer(y - v.top, v.scale))
  }

  predicate InCore(v: View, x: int, y: int) {
    Inside(v, x, y) && Inner(x - v.left, v.scale) && Inner(y - v.top, v.scale)
  }

  ghost function Ring(m: Image, v: View): set<nat>
    requires m.width > 0
  {
    set p: nat | p < Total(m) && OnRing(v, X(m, p), Y(m, p))
  }

  ghost function Core(m: Image, v: View): set<nat>
    requires m.width > 0
  {
    set p: nat | p < Total(m) && InCore(v, X(m, p), Y(m, p))
  }

  /** The border is dark, and the separator is light. */
  lemma Colours(m: Image, grid: Word, v: View, p: nat)
    requires Pictured(m, grid, v) && Framed(grid) && p < Total(m)
    ensures OnRing(v, X(m, p), Y(m, p)) ==> Dark(m, p)
    ensures Dark(m, p) && Inside(v, X(m, p), Y(m, p)) ==> OnRing(v, X(m, p), Y(m, p)) || InCore(v, X(m, p), Y(m, p))
    ensures Dark(m, p) ==> !OnMargin(v, X(m, p), Y(m, p))
  {
    hide Dark, X, Y, OnMargin;
    if Inside(v, X(m, p), Y(m, p)) {
      var (dx, dy) := (X(m, p) - v.left, Y(m, p) - v.top);
      Zones(dx, v.scale);
      Zones(dy, v.scale);
      var (row, column) := (Part(dy, v.scale), Part(dx, v.scale));
      assert Shown(v, X(m, p), Y(m, p)) == Module(row, column);
      assert !InData(row, column) ==> grid[Module(row, column)] == if InBorder(row, column) then 1 else 0;
    }
  }

  /** What is next to a pixel of the border is on the border, on the separator or on the margin. */
  lemma AroundRing(m: Image, v: View, p: nat, q: nat)
    requires ValidImage(m) && v.scale >= 1 && OnRing(v, X(m, p), Y(m, p)) && Adjacent(m, p, q)
    ensures !InCore(v, X(m, q), Y(m, q))
    ensures Inside(v, X(m, q), Y(m, q)) || OnMargin(v, X(m, q), Y(m, q))
  {
    hide X, Y;
  }

  /** What is next to a pixel of the data is on the data or the separator. */
  lemma AroundCore(m: Image, v: View, p: nat, q: nat)
    requires ValidImage(m) && v.scale >= 1 && InCore(v, X(m, p), Y(m, p)) && Adjacent(m, p, q)
    ensures Inside(v, X(m, q), Y(m, q)) && !OnRing(v, X(m, q), Y(m, q))
  {
    hide X, Y;
  }

  lemma RingClosed(m: Image, grid: Word, v: View)
    requires Pictured(m, grid, v) && Framed(grid)
    ensures Closed(m, Ring(m, v)) && Closed(m, Core(m, v))
  {
    hide Dark, X, Y, Framed, OnMargin, OnRing, InCore, Inside, Adjacent;
    forall p, q | p in Ring(m, v) && p < Total(m) && q < Total(m) && q >= 0 && Dark(m, q) && Adjacent(m, p, q) ensures q in Ring(m, v) {
      AroundRing(m, v, p, q);
      Colours(m, grid, v, q);
    }
    forall p, q | p in Core(m, v) && p < Total(m) && q < Total(m) && q >= 0 && Dark(m, q) && Adjacent(m, p, q) ensures q in Core(m, v) {
      AroundCore(m, v, p, q);
      Colours(m, grid, v, q);
    }
  }

  // ---------------------------------------------------------------------
  // The border hangs together
  // ---------------------------------------------------------------------

  /** A dark pixel of the picture. */
  predicate DarkAt(m: Image, x: nat, y: nat)
    requires ValidImage(m)
  {
    x < m.width && y < m.height && (PositionReads(m, x, y); Dark(m, Position(m, x, y)))
  }

  ghost predicate Linked(m: Image, x: nat, y: nat, x': nat, y': nat)
    requires ValidImage(m)
  {
    Connected(m, Position(m, x, y), Position(m, x', y'))
  }

  lemma LinkSelf(m: Image, x: nat, y: nat)
    requires ValidImage(m) && DarkAt(m, x, y)
    ensures Linked(m, x, y, x, y)
  {
    hide Dark, Connected;
    PositionReads(m, x, y);
    ConnectedSelf(m, Position(m, x, y));
  }

  lemma LinkMore(m: Image, x: nat, y: nat, x': nat, y': nat, x'': nat, y'': nat)
    requires ValidImage(m) && Linked(m, x, y, x', y') && DarkAt(m, x', y') && DarkAt(m, x'', y'')
    requires (x' == x'' && y'' == y' + 1) || (y' == y'' && x'' == x' + 1)
    ensures Linked(m, x, y, x'', y'')
  {
    hide Dark, Connected, X, Y;
    PositionReads(m, x', y');
    PositionReads(m, x'', y'');
    ConnectedMore(m, Position(m, x, y), Position(m, x', y'), Position(m, x'', y''));
  }

  lemma LinkJoin(m: Image, x: nat, y: nat, x': nat, y': nat, x'': nat, y'': nat)
    requires ValidImage(m) && Linked(m, x, y, x', y') && Linked(m, x', y', x'', y'')
    ensures Linked(m, x, y, x'', y'')
  {
    ConnectedJoin(m, Position(m, x, y), Position(m, x', y'), Position(m, x'', y''));
  }

  lemma {:induction false} Across(m: Image, x: nat, x': nat, y: nat)
    requires ValidImage(m) && x <= x' && forall k: nat | x <= k <= x' :: DarkAt(m, k, y)
    ensures Linked(m, x, y, x', y)
    decreases x'
  {
    hide DarkAt, Linked;
    assert DarkAt(m, x, y) && DarkAt(m, x', y);
    if x == x' {
      LinkSelf(m, x, y);
    } else {
      Across(m, x, x' - 1, y);
      LinkMore(m, x, y, x' - 1, y, x', y);
    }
  }

  lemma {:induction false} Down(m: Image, x: nat, y: nat, y': nat)
    requires ValidImage(m) && y <= y' && forall k: nat | y <= k <= y' :: DarkAt(m, x, k)
    ensures Linked(m, x, y, x, y')
    decreases y'
  {
    hide DarkAt, Linked;
    assert DarkAt(m, x, y) && DarkAt(m, x, y');
    if y == y' {
      LinkSelf(m, x, y);
    } else {
      Down(m, x, y, y' - 1);
      LinkMore(m, x, y, x, y' - 1, x, y');
    }
  }

  lemma RingIsDark(m: Image, grid: Word, v: View, x: nat, y: nat)
    requires Pictured(m, grid, v) && Framed(grid) && OnRing(v, x, y)
    ensures DarkAt(m, x, y)
  {
    hide Dark, X, Y, Framed;
    PositionReads(m, x, y);
    Colours(m, grid, v, Position(m, x, y));
  }

  /** Every pixel of the border is reached from its first corner. */
  lemma RingReached(m: Image, grid: Word, v: View, x: nat, y: nat)
    requires Pictured(m, grid, v) && Framed(grid) && OnRing(v, x, y)
    ensures Linked(m, v.left, v.top, x, y)
  {
    assert v.scale >= 1;
    hide Framed, Linked, DarkAt, Pictured;
    var (right, bottom) := (v.left + Side(v) - 1, v.top + Side(v) - 1);
    forall x: nat, y: nat | OnRing(v, x, y) ensures DarkAt(m, x, y) {
      RingIsDark(m, grid, v, x, y);
    }
    if Outer(y - v.top, v.scale) {
      if y < v.top + 2 * v.scale {
        Across(m, v.left, x, v.top);
        Down(m, x, v.top, y);
        LinkJoin(m, v.left, v.top, x, v.top, x, y);
      } else {
        Down(m, v.left, v.top, y);
        Across(m, v.left, x, y);
        LinkJoin(m, v.left, v.top, v.left, y, x, y);
      }
    } else if x < v.left + 2 * v.scale {
      Down(m, v.left, v.top, y);
      Across(m, v.left, x, y);
      LinkJoin(m, v.left, v.top, v.left, y, x, y);
    } else {
      Across(m, v.left, x, v.top);
      Down(m, x, v.top, y);
      LinkJoin(m, v.left, v.top, x, v.top, x, y);
    }
  }

  // ---------------------------------------------------------------------
  // The border as a component
  // ---------------------------------------------------------------------

  function Corner(m: Image, v: View): nat { Position(m, v.left, v.top) }

  lemma RingIsComponent(m: Image, grid: Word, v: View)
    requires Pictured(m, grid, v) && Framed(grid)
    ensures Component(m, Corner(m, v)) == Ring(m, v) && Corner(m, v) in Ring(m, v)
  {
    RingClosed(m, grid, v);
    PositionReads(m, v.left, v.top);
    assert OnRing(v, v.left, v.top);
    assert Corner(m, v) in Ring(m, v);
    hide Pictured, Framed, Connected, Closed, X, Y, OnRing;
    forall p | p in Ring(m, v) ensures 0 <= p < Total(m) && Connected(m, Corner(m, v), p) {
      InsideImage(m, p);
      RingReached(m, grid, v, X(m, p), Y(m, p));
    }
    ClosedIsComponent(m, Ring(m, v), Corner(m, v));
  }

  /** The first n pixels of a row of the grid. */
  ghost function RowOfPixels(m: Image, left: nat, y: nat, n: nat): set<nat> {
    set x: nat | left <= x < left + n :: Position(m, x, y)
  }

  lemma {:induction false} RowCount(m: Image, left: nat, y: nat, n: nat)
    ensures |RowOfPixels(m, left, y, n)| == n
  {
    if n > 0 {
      RowCount(m, left, y, n - 1);
      var last := Position(m, left + n - 1, y);
      assert RowOfPixels(m, left, y, n) == RowOfPixels(m, left, y, n - 1) + {last};
      assert last !in RowOfPixels(m, left, y, n - 1);
    }
  }

  lemma Fewer(small: set<nat>, large: set<nat>)
    requires small <= large
    ensures |small| <= |large|
  {
    assert |large - small| + |small| == |large| by { assert (large - small) + small == large; }
  }

  /** The first and the last row of the grid are on the border. */
  lemma RowOnRing(m: Image, v: View, y: nat)
    requires ValidImage(m) && v.scale >= 1 && v.left + Side(v) <= m.width && v.top + Side(v) <= m.height
    requires y == v.top || y == v.top + Side(v) - 1
    ensures var row := RowOfPixels(m, v.left, y, Side(v)); row <= Ring(m, v) && |row| == Side(v) && forall p | p in row :: Y(m, p) == y
  {
    hide X, Y, Position;
    RowCount(m, v.left, y, Side(v));
    forall x: nat | v.left <= x < v.left + Side(v) ensures Position(m, x, y) in Ring(m, v) && Y(m, Position(m, x, y)) == y {
      PositionReads(m, x, y);
    }
  }

  /** The border has at least as many pixels as the locator asks of one. */
  lemma RingCount(m: Image, v: View)
    requires ValidImage(m) && v.scale >= 1 && v.left + Side(v) <= m.width && v.top + Side(v) <= m.height
    ensures |Ring(m, v)| >= 2 * Side(v)
  {
    var bottom := v.top + Side(v) - 1;
    RowOnRing(m, v, v.top);
    RowOnRing(m, v, bottom);
    hide Y, Ring, RowOfPixels;
    var (first, last) := (RowOfPixels(m, v.left, v.top, Side(v)), RowOfPixels(m, v.left, bottom, Side(v)));
    assert first !! last;
    assert |first + last| == |first| + |last|;
    Fewer(first + last, Ring(m, v));
  }

  /** The border described: its box is the grid, and its four points are the corners of the grid. */
  ghost function Border(m: Image, v: View): Record
    requires m.width > 0 && v.scale >= 1
  {
    var (right, bottom) := (v.left + Side(v) - 1, v.top + Side(v) - 1);
    Record(|Ring(m, v)|, v.left, right, v.top, bottom,
           Position(m, v.left, v.top), Position(m, right, bottom), Position(m, v.left, bottom), Position(m, right, v.top))
  }

  lemma CornersRead(m: Image, v: View)
    requires ValidImage(m) && v.scale >= 1 && v.left + Side(v) <= m.width && v.top + Side(v) <= m.height
    ensures var r := Border(m, v);
            && {r.minSumAt, r.maxSumAt, r.minDifferenceAt, r.maxDifferenceAt} <= Ring(m, v)
            && X(m, r.minSumAt) == r.minX && Y(m, r.minSumAt) == r.minY
            && X(m, r.maxSumAt) == r.maxX && Y(m, r.maxSumAt) == r.maxY
            && X(m, r.minDifferenceAt) == r.minX && Y(m, r.minDifferenceAt) == r.maxY
            && X(m, r.maxDifferenceAt) == r.maxX && Y(m, r.maxDifferenceAt) == r.minY
  {
    var (right, bottom) := (v.left + Side(v) - 1, v.top + Side(v) - 1);
    PositionReads(m, v.left, v.top);
    PositionReads(m, right, bottom);
    PositionReads(m, v.left, bottom);
    PositionReads(m, right, v.top);
  }

  lemma BorderDescribes(m: Image, v: View)
    requires ValidImage(m) && v.scale >= 1 && v.left + Side(v) <= m.width && v.top + Side(v) <= m.height
    ensures Describes(m, Border(m, v), Ring(m, v))
  {
    CornersRead(m, v);
    hide X, Y, Position;
  }

  lemma BorderQualifies(m: Image, v: View)
    requires ValidImage(m) && v.scale >= 1
    requires 1 <= v.left && v.left + Side(v) < m.width && 1 <= v.top && v.top + Side(v) < m.height
    ensures Qualifies(m, Border(m, v)) && Area(Border(m, v)) == Side(v) * Side(v)
  {
    RingCount(m, v);
  }

  /** Any description of the border names the corners of the grid. */
  lemma BorderIsNamed(m: Image, v: View, r: Record)
    requires ValidImage(m) && v.scale >= 1 && v.left + Side(v) <= m.width && v.top + Side(v) <= m.height
    requires Describes(m, r, Ring(m, v))
    ensures r == Border(m, v)
  {
    var b := Border(m, v);
    CornersRead(m, v);
    BorderDescribes(m, v);
    DescriptionsAgree(m, r, b, Ring(m, v));
    InRing(m, v, r.minSumAt);
    InRing(m, v, r.maxSumAt);
    InRing(m, v, r.minDifferenceAt);
    InRing(m, v, r.maxDifferenceAt);
    hide X, Y, Position, Ring, Side, Bounds, Border;
    assert b.minSumAt in Ring(m, v) && b.maxSumAt in Ring(m, v) && b.minDifferenceAt in Ring(m, v) && b.maxDifferenceAt in Ring(m, v);
    SamePosition(m, r.minSumAt, b.minSumAt);
    SamePosition(m, r.maxSumAt, b.maxSumAt);
    SamePosition(m, r.minDifferenceAt, b.minDifferenceAt);
    SamePosition(m, r.maxDifferenceAt, b.maxDifferenceAt);
  }

  lemma InRing(m: Image, v: View, p: nat)
    requires m.width > 0 && p in Ring(m, v) && v.scale >= 1
    ensures var b := Border(m, v); p < Total(m) && b.minX <= X(m, p) <= b.maxX && b.minY <= Y(m, p) <= b.maxY
  {
    hide X, Y;
  }

  // ---------------------------------------------------------------------
  // What is not the border
  // ---------------------------------------------------------------------

  lemma CoreIsSmall(m: Image, grid: Word, v: View, s: nat, r: Record)
    requires Pictured(m, grid, v) && Framed(grid) && s < Total(m) && Dark(m, s) && s in Core(m, v)
    requires Describes(m, r, Component(m, s))
    ensures Area(r) < Side(v) * Side(v)
  {
    RingClosed(m, grid, v);
    forall p | p in Component(m, s) ensures p in Core(m, v) {
      var w: seq<nat> :| Walk(m, w) && w[0] == s && w[|w| - 1] == p;
      ClosedHoldsWalk(m, Core(m, v), w);
    }
    BoxInCore(m, v, r, Component(m, s));
    SmallerBox(Width(r), Height(r), Side(v));
  }

  lemma BoxInCore(m: Image, v: View, r: Record, s: set<nat>)
    requires m.width > 0 && v.scale >= 1 && Bounds(m, r, s) && s <= Core(m, v)
    ensures 0 <= Width(r) < Side(v) && 0 <= Height(r) < Side(v)
  {
    hide X, Y;
  }

  lemma SmallerBox(w: int, h: int, side: int)
    requires 0 <= w < side && 0 <= h < side
    ensures w * h < side * side
  {
    assert side * side - w * h == side * (side - h) + (side - w) * h;
  }

  /** Of all components that could be a border, none has as large a box as the border. */
  lemma OnlyBorder(m: Image, grid: Word, v: View, s: nat, r: Record)
    requires Pictured(m, grid, v) && Framed(grid) && OthersSmaller(m, v)
    requires s in DarkPixels(m) && Describes(m, r, Component(m, s)) && Qualifies(m, r) && Area(r) >= Side(v) * Side(v)
    ensures r == Border(m, v)
  {
    RingIsComponent(m, grid, v);
    Colours(m, grid, v, s);
    hide Dark, X, Y, Framed, Area, Qualifies, OnRing, InCore, Describes, Connected;
    if Inside(v, X(m, s), Y(m, s)) {
      if s in Core(m, v) {
        CoreIsSmall(m, grid, v, s, r);
      } else {
        assert s in Ring(m, v);
        SameComponent(m, Corner(m, v), s);
        BorderIsNamed(m, v, r);
      }
    }
  }

  // ---------------------------------------------------------------------
  // The theorem
  // ---------------------------------------------------------------------

  /** The four corners of the grid, clockwise from the first. */
  function GridCorners(m: Image, v: View): seq<nat>
    requires v.scale >= 1
  {
    var (right, bottom) := (v.left + Side(v) - 1, v.top + Side(v) - 1);
    [Position(m, v.left, v.top), Position(m, right, v.top), Position(m, right, bottom), Position(m, v.left, bottom)]
  }

  /** The corners span enough to be accepted. */
  lemma CornersSpan(m: Image, v: View)
    requires ValidImage(m) && v.scale >= 1 && v.left + Side(v) <= m.width && v.top + Side(v) <= m.height
    ensures var c := GridCorners(m, v); TwiceArea(m, c[0], c[1], c[2], c[3]) >= 576
  {
    CornersRead(m, v);
    var (a, t, d) := (v.left, v.top, Side(v) - 1);
    var c := GridCorners(m, v);
    Shoelace(a, t, d);
    assert Cross(m, c[0], c[1]) + Cross(m, c[1], c[2]) + Cross(m, c[2], c[3]) + Cross(m, c[3], c[0]) == 2 * (d * d) by {
      assert Cross(m, c[0], c[1]) == a * t - (a + d) * t;
    }
    assert d * d >= 47 * 47 by { assert d * d - 47 * 47 == (d - 47) * (d + 47); }
  }

  lemma Shoelace(a: int, t: int, d: int)
    ensures (a * t - (a + d) * t) + ((a + d) * (t + d) - (a + d) * t) + ((a + d) * (t + d) - a * (t + d)) + (a * t - a * (t + d)) == 2 * (d * d)
  {
  }

  /** In a picture of a framed grid the locator answers with the corners of the grid. */
  lemma GridIsFound(m: Image, grid: Word, v: View, best: Option<Record>)
    requires Pictured(m, grid, v) && Framed(grid) && OthersSmaller(m, v)
    requires BestOf(m, DarkPixels(m), best)
    ensures Answer(m, best) == (Ok, GridCorners(m, v))
  {
    RingIsComponent(m, grid, v);
    BorderDescribes(m, v);
    BorderQualifies(m, v);
    CornersSpan(m, v);
    Colours(m, grid, v, Corner(m, v));
    assert Corner(m, v) in DarkPixels(m);
    hide Dark, X, Y, Framed, Area, Qualifies, OnRing, Describes, Connected, Component, TwiceArea, Pictured, OthersSmaller;
    var s :| s in DarkPixels(m) && Describes(m, best.value, Component(m, s)) && Qualifies(m, best.value);
    OnlyBorder(m, grid, v, s, best.value);
  }

  /** What the camera sees of a frame under an orientation. */
  function Viewed(c: Content, o: nat): (grid: Word)
    requires |c.payload| <= MAX_PAYLOAD
    ensures |grid| == GRID * GRID
  {
    seq(GRID * GRID, k requires 0 <= k < GRID * GRID =>
      var (row, column) := FrameOrientations.Back(o, (k / GRID, k % GRID));
      ModuleOf(c, row, column))
  }

  lemma BackKeepsZones(o: nat, p: FrameOrientations.Place)
    ensures var q := FrameOrientations.Back(o, p); InBorder(q.0, q.1) == InBorder(p.0, p.1) && InData(q.0, q.1) == InData(p.0, p.1)
  {
  }

  lemma ViewedAt(c: Content, o: nat, p: FrameOrientations.Place)
    requires |c.payload| <= MAX_PAYLOAD
    ensures Viewed(c, o)[Module(p.0, p.1)] == (var q := FrameOrientations.Back(o, p); ModuleOf(c, q.0, q.1))
  {
    hide ModuleOf, FrameOrientations.Back;
  }

  /** Every frame is framed under every orientation, and shows each module where the camera sees it. */
  lemma FramesAreFramed(c: Content, o: nat)
    requires |c.payload| <= MAX_PAYLOAD
    ensures Framed(Viewed(c, o))
    ensures forall row: nat, column: nat | row < GRID && column < GRID ::
              var (r, k) := Orient(o, row, column); Viewed(c, o)[Module(r, k)] == ModuleOf(c, row, column)
  {
    hide CodedFrame, InBorder, InData, FrameOrientations.Back, Viewed, Orient;
    forall row: nat, column: nat | row < GRID && column < GRID && !InData(row, column)
      ensures Viewed(c, o)[Module(row, column)] == if InBorder(row, column) then 1 else 0
    {
      ViewedAt(c, o, (row, column));
      BackKeepsZones(o, (row, column));
    }
    forall row: nat, column: nat | row < GRID && column < GRID
      ensures var (r, k) := Orient(o, row, column); Viewed(c, o)[Module(r, k)] == ModuleOf(c, row, column)
    {
      FrameOrientations.BackUndoes(o, (row, column));
      ViewedAt(c, o, FrameOrientations.Seen(o, (row, column)));
    }
  }

  /**
   Every encoded frame is found in every picture of it, under all orientations:
   nothing it carries hides its border or looks like a larger one.
   */
  lemma FrameIsFound(m: Image, c: Content, o: nat, v: View, best: Option<Record>)
    requires |c.payload| <= MAX_PAYLOAD && Pictured(m, Viewed(c, o), v) && OthersSmaller(m, v)
    requires BestOf(m, DarkPixels(m), best)
    ensures Answer(m, best) == (Ok, GridCorners(m, v))
  {
    FramesAreFramed(c, o);
    GridIsFound(m, Viewed(c, o), v, best);
  }
}
