/** The eight orientations are the symmetries of the square, each once. */
module FrameOrientations {
  import opened LightFrames

  type Place = p: (nat, nat) | p.0 < GRID && p.1 < GRID witness (0, 0)

  const LAST := GRID - 1

  function Square(x: int): int { x * x }

  /** The square of the distance of two places. */
  function Apart(p: Place, q: Place): int { Square(p.0 - q.0) + Square(p.1 - q.1) }

  function Seen(o: nat, p: Place): Place { Orient(o, p.0, p.1) }

  /** Every orientation keeps all distances, so neighbours stay neighbours. */
  lemma KeepsDistances(o: nat, p: Place, q: Place)
    ensures Apart(Seen(o, p), Seen(o, q)) == Apart(p, q)
  {
    SquareOpposite(p.0 - q.0);
    SquareOpposite(p.1 - q.1);
  }

  lemma SquareOpposite(x: int)
    ensures Square(-x) == Square(x)
  {
  }

  /** No two of the eight show the frame alike. */
  lemma Distinct(o: nat, other: nat)
    requires o < other < 8
    ensures exists p: Place :: Seen(o, p) != Seen(other, p)
  {
    var p: Place := (0, 1);
    assert Seen(o, p) != Seen(other, p);
  }

  lemma SquareGrows(x: int)
    requires -LAST <= x <= LAST
    ensures 0 <= Square(x) <= LAST * LAST
    ensures Square(x) == LAST * LAST ==> x == LAST || x == -LAST
    ensures Square(x) == 0 ==> x == 0
  {
    if x >= 0 {
      assert Square(x) == LAST * LAST - (LAST - x) * (LAST + x);
    } else {
      assert Square(x) == LAST * LAST - (LAST + x) * (LAST - x);
    }
  }

  /** The diagonal of the grid leads from corner to corner. */
  lemma Diagonal(p: Place, q: Place)
    requires Apart(p, q) == 2 * LAST * LAST
    ensures (p.0 == 0 || p.0 == LAST) && (p.1 == 0 || p.1 == LAST)
    ensures q.0 == LAST - p.0 && q.1 == LAST - p.1
  {
    hide Square;
    SquareGrows(p.0 - q.0);
    SquareGrows(p.1 - q.1);
  }

  /** Corners a side apart differ in one coordinate. */
  lemma Side(p: Place, q: Place)
    requires Apart(p, q) == LAST * LAST
    requires (p.0 == 0 || p.0 == LAST) && (p.1 == 0 || p.1 == LAST) && (q.0 == 0 || q.0 == LAST) && (q.1 == 0 || q.1 == LAST)
    ensures p.0 == q.0 <==> p.1 != q.1
  {
  }

  lemma Expand(x: int)
    ensures Square(LAST - x) == LAST * LAST - 2 * LAST * x + Square(x)
    ensures Square(x - LAST) == LAST * LAST - 2 * LAST * x + Square(x)
  {
    assert Square(LAST - x) == LAST * LAST - 2 * LAST * x + Square(x);
    SquareOpposite(LAST - x);
  }

  /** A place is where its distances from three corners put it. */
  lemma Located(p: Place, x: Place)
    requires Apart(p, (0, 0)) == Apart(x, (0, 0)) && Apart(p, (0, LAST)) == Apart(x, (0, LAST)) && Apart(p, (LAST, 0)) == Apart(x, (LAST, 0))
    ensures p == x
  {
    hide Square;
    Expand(p.0);
    Expand(p.1);
    Expand(x.0);
    Expand(x.1);
  }

  /** The orientation that takes the corners where these three are. */
  function Orientation(a: Place, b: Place): nat {
    if a.0 == b.0 then
      if a.0 == 0 then if a.1 == 0 then 0 else 4 else if a.1 == 0 then 6 else 2
    else
      if a.0 == 0 then if a.1 == 0 then 7 else 1 else if a.1 == 0 then 3 else 5
  }

  /** Undoing an orientation: every place is seen from somewhere. */
  function Back(o: nat, p: Place): Place {
    match o
    case 1 => Orient(3, p.0, p.1)
    case 3 => Orient(1, p.0, p.1)
    case _ => Orient(o, p.0, p.1)
  }

  lemma BackUndoes(o: nat, p: Place)
    ensures Seen(o, Back(o, p)) == p && Back(o, Seen(o, p)) == p
  {
  }

  ghost predicate Is(f: Place -> Place, o: nat) {
    forall p: Place :: f(p) == Seen(o, p)
  }

  /** Opposite corners and one side fix the orientation. */
  lemma CornersSeen(a: Place, b: Place, c: Place)
    requires (a.0 == 0 || a.0 == LAST) && (a.1 == 0 || a.1 == LAST) && (b.0 == 0 || b.0 == LAST) && (b.1 == 0 || b.1 == LAST)
    requires c == (LAST - b.0, LAST - b.1) && (a.0 == b.0 <==> a.1 != b.1)
    ensures var o := Orientation(a, b);
            o < 8 && Seen(o, (0, 0)) == a && Seen(o, (0, LAST)) == b && Seen(o, (LAST, 0)) == c
  {
  }

  lemma Sides()
    ensures Apart((0, 0), (LAST, LAST)) == 2 * LAST * LAST && Apart((0, LAST), (LAST, 0)) == 2 * LAST * LAST
    ensures Apart((0, 0), (0, LAST)) == LAST * LAST
  {
  }

  /** Every map of the grid into itself that keeps distances is one of the eight orientations. */
  lemma AllSymmetries(f: Place -> Place)
    requires forall p: Place, q: Place :: Apart(f(p), f(q)) == Apart(p, q)
    ensures exists o: nat :: o < 8 && Is(f, o)
  {
    hide Apart, Orientation, Seen, Back;
    var zero: Place, right: Place, below: Place, far: Place := (0, 0), (0, LAST), (LAST, 0), (LAST, LAST);
    Sides();
    Diagonal(f(zero), f(far));
    Diagonal(f(right), f(below));
    Side(f(zero), f(right));
    var o := Orientation(f(zero), f(right));
    CornersSeen(f(zero), f(right), f(below));
    forall p: Place
      ensures f(p) == Seen(o, p)
    {
      var x := Back(o, f(p));
      BackUndoes(o, f(p));
      KeepsDistances(o, x, zero);
      KeepsDistances(o, x, right);
      KeepsDistances(o, x, below);
      Located(p, x);
    }
    assert Is(f, o);
  }
}
