/** How far apart codewords stay when the pattern leaves outputs out. */
module PuncturedDistance {
  import opened Arithmetic
  import opened ConvolutionalCode
  import opened CodeDistance

  // ---------------------------------------------------------------------
  // A lower bound by the difference of the states and the place in the pattern
  // ---------------------------------------------------------------------

  /*
   The least number of kept ones on paths that left state zero and are now in
   the state with these bits, newest first; five after the return to zero.  The
   numeral is the place of the next step in the pattern.
   */

  function TwoThirds0(a: bit, b: bit, c: bit, d: bit, e: bit, f: bit): nat {
    Pick(f, e, d,
         Pick(c, b, a, 5, 1, 2, 3, 2, 3, 2, 3),
         Pick(c, b, a, 3, 2, 4, 3, 4, 4, 2, 3),
         Pick(c, b, a, 4, 3, 3, 2, 4, 4, 4, 4),
         Pick(c, b, a, 2, 3, 2, 3, 4, 4, 4, 4),
         Pick(c, b, a, 3, 4, 3, 3, 3, 3, 2, 3),
         Pick(c, b, a, 4, 3, 4, 3, 4, 3, 4, 4),
         Pick(c, b, a, 4, 5, 4, 5, 4, 4, 4, 4),
         Pick(c, b, a, 3, 2, 5, 4, 4, 4, 4, 4))
  }

  function TwoThirds1(a: bit, b: bit, c: bit, d: bit, e: bit, f: bit): nat {
    Pick(f, e, d,
         Pick(c, b, a, 5, 2, 2, 2, 2, 3, 4, 4),
         Pick(c, b, a, 3, 2, 4, 4, 2, 2, 4, 4),
         Pick(c, b, a, 4, 3, 3, 3, 4, 4, 4, 4),
         Pick(c, b, a, 4, 4, 4, 4, 2, 4, 4, 4),
         Pick(c, b, a, 5, 5, 5, 3, 4, 4, 4, 2),
         Pick(c, b, a, 5, 5, 4, 4, 5, 5, 4, 4),
         Pick(c, b, a, 3, 3, 3, 2, 3, 3, 3, 4),
         Pick(c, b, a, 5, 5, 4, 4, 5, 5, 4, 4))
  }

  function ThreeQuarters0(a: bit, b: bit, c: bit, d: bit, e: bit, f: bit): nat {
    Pick(f, e, d,
         Pick(c, b, a, 5, 1, 2, 1, 2, 3, 3, 3),
         Pick(c, b, a, 3, 2, 3, 3, 3, 2, 3, 3),
         Pick(c, b, a, 3, 3, 2, 3, 3, 3, 4, 3),
         Pick(c, b, a, 3, 3, 2, 2, 3, 3, 3, 2),
         Pick(c, b, a, 4, 3, 4, 3, 3, 3, 3, 2),
         Pick(c, b, a, 3, 3, 3, 2, 3, 3, 4, 3),
         Pick(c, b, a, 4, 3, 4, 3, 4, 3, 4, 4),
         Pick(c, b, a, 3, 4, 4, 3, 3, 2, 3, 4))
  }

  function ThreeQuarters1(a: bit, b: bit, c: bit, d: bit, e: bit, f: bit): nat {
    Pick(f, e, d,
         Pick(c, b, a, 5, 2, 2, 2, 2, 4, 2, 2),
         Pick(c, b, a, 3, 2, 4, 4, 3, 3, 3, 3),
         Pick(c, b, a, 3, 3, 3, 3, 3, 3, 3, 3),
         Pick(c, b, a, 3, 3, 3, 3, 3, 4, 4, 4),
         Pick(c, b, a, 4, 4, 3, 3, 3, 3, 3, 3),
         Pick(c, b, a, 4, 4, 3, 3, 5, 5, 3, 4),
         Pick(c, b, a, 4, 4, 3, 4, 3, 3, 2, 3),
         Pick(c, b, a, 4, 4, 2, 3, 4, 4, 4, 2))
  }

  function ThreeQuarters2(a: bit, b: bit, c: bit, d: bit, e: bit, f: bit): nat {
    Pick(f, e, d,
         Pick(c, b, a, 5, 1, 2, 3, 2, 3, 2, 3),
         Pick(c, b, a, 3, 2, 3, 4, 3, 2, 3, 2),
         Pick(c, b, a, 4, 3, 3, 2, 3, 4, 3, 4),
         Pick(c, b, a, 3, 4, 3, 4, 3, 3, 3, 4),
         Pick(c, b, a, 4, 3, 4, 3, 3, 3, 4, 3),
         Pick(c, b, a, 3, 3, 3, 3, 3, 2, 3, 3),
         Pick(c, b, a, 3, 4, 3, 4, 3, 2, 3, 3),
         Pick(c, b, a, 4, 3, 4, 4, 4, 4, 2, 3))
  }

  function PotentialAt(rate: Rate, n: nat, a: bit, b: bit, c: bit, d: bit, e: bit, f: bit): nat {
    match rate
    case Half => Potential(a, b, c, d, e, f)
    case TwoThirds => if n % 2 == 0 then TwoThirds0(a, b, c, d, e, f) else TwoThirds1(a, b, c, d, e, f)
    case ThreeQuarters =>
      if n % 3 == 0 then ThreeQuarters0(a, b, c, d, e, f)
      else if n % 3 == 1 then ThreeQuarters1(a, b, c, d, e, f)
      else ThreeQuarters2(a, b, c, d, e, f)
  }

  /** How far apart different codewords of one length are at least. */
  function MinimumDistance(rate: Rate): nat { if rate == Half then 10 else 5 }

  function FirstOf(x: bit, c: bit, d: bit, e: bit, f: bit): bit { Xor(x, Xor(c, Xor(d, Xor(e, f)))) }

  function SecondOf(x: bit, a: bit, c: bit, d: bit, f: bit): bit { Xor(x, Xor(a, Xor(c, Xor(d, f)))) }

  lemma OutputsAreSums(x: bit, a: bit, c: bit, d: bit, e: bit, f: bit)
    ensures FirstOf(x, c, d, e, f) == (x + c + d + e + f) % 2
    ensures SecondOf(x, a, c, d, f) == (x + a + c + d + f) % 2
  {
  }

  lemma TwoThirdsEven(x: bit, a: bit, b: bit, c: bit, d: bit, e: bit, f: bit)
    ensures TwoThirds1(x, a, b, c, d, e) <= TwoThirds0(a, b, c, d, e, f) + FirstOf(x, c, d, e, f) + SecondOf(x, a, c, d, f)
  {
  }

  lemma TwoThirdsOdd(x: bit, a: bit, b: bit, c: bit, d: bit, e: bit, f: bit)
    ensures TwoThirds0(x, a, b, c, d, e) <= TwoThirds1(a, b, c, d, e, f) + FirstOf(x, c, d, e, f)
  {
  }

  lemma ThreeQuartersBoth(x: bit, a: bit, b: bit, c: bit, d: bit, e: bit, f: bit)
    ensures ThreeQuarters1(x, a, b, c, d, e) <=
            ThreeQuarters0(a, b, c, d, e, f) + FirstOf(x, c, d, e, f) + SecondOf(x, a, c, d, f)
  {
  }

  lemma ThreeQuartersFirst(x: bit, a: bit, b: bit, c: bit, d: bit, e: bit, f: bit)
    ensures ThreeQuarters2(x, a, b, c, d, e) <= ThreeQuarters1(a, b, c, d, e, f) + FirstOf(x, c, d, e, f)
  {
  }

  lemma ThreeQuartersSecond(x: bit, a: bit, b: bit, c: bit, d: bit, e: bit, f: bit)
    ensures ThreeQuarters0(x, a, b, c, d, e) <= ThreeQuarters2(a, b, c, d, e, f) + SecondOf(x, a, c, d, f)
  {
  }

  /** What the pattern keeps of the two outputs of step n. */
  lemma KeepsOf(n: nat)
    ensures Keep(Half, 2 * n) && Keep(Half, 2 * n + 1)
    ensures Keep(TwoThirds, 2 * n) && (Keep(TwoThirds, 2 * n + 1) <==> n % 2 == 0)
    ensures (Keep(ThreeQuarters, 2 * n) <==> n % 3 != 2) && (Keep(ThreeQuarters, 2 * n + 1) <==> n % 3 != 1)
  {
    DivModUnique(2 * n, 4, n / 2, 2 * (n % 2));
    DivModUnique(2 * n + 1, 4, n / 2, 2 * (n % 2) + 1);
    DivModUnique(2 * n, 6, n / 3, 2 * (n % 3));
    DivModUnique(2 * n + 1, 6, n / 3, 2 * (n % 3) + 1);
  }

  function Weight(kept: bool, output: bit): bit { if kept then output else 0 }

  /** A step of the difference adds at least as many kept ones as the bound rises. */
  lemma PotentialRises(rate: Rate, n: nat, x: bit, a: bit, b: bit, c: bit, d: bit, e: bit, f: bit)
    ensures PotentialAt(rate, n + 1, x, a, b, c, d, e) <=
            PotentialAt(rate, n, a, b, c, d, e, f) + Weight(Keep(rate, 2 * n), FirstOf(x, c, d, e, f)) +
            Weight(Keep(rate, 2 * n + 1), SecondOf(x, a, c, d, f))
  {
    hide Keep, Potential, FirstOf, SecondOf, TwoThirds0, TwoThirds1, ThreeQuarters0, ThreeQuarters1, ThreeQuarters2;
    KeepsOf(n);
    match rate
    case Half =>
      PotentialStep(x, a, b, c, d, e, f);
      OutputsAreSums(x, a, c, d, e, f);
    case TwoThirds =>
      TwoThirdsEven(x, a, b, c, d, e, f);
      TwoThirdsOdd(x, a, b, c, d, e, f);
    case ThreeQuarters =>
      ThreeQuartersBoth(x, a, b, c, d, e, f);
      ThreeQuartersFirst(x, a, b, c, d, e, f);
      ThreeQuartersSecond(x, a, b, c, d, e, f);
  }

  lemma ZeroEnds()
    ensures Potential(0, 0, 0, 0, 0, 0) == 10 && TwoThirds0(0, 0, 0, 0, 0, 0) == TwoThirds1(0, 0, 0, 0, 0, 0) == 5
    ensures ThreeQuarters0(0, 0, 0, 0, 0, 0) == ThreeQuarters1(0, 0, 0, 0, 0, 0) == ThreeQuarters2(0, 0, 0, 0, 0, 0) == 5
  {
  }

  lemma OneStarts()
    ensures Potential(1, 0, 0, 0, 0, 0) == 2 && TwoThirds0(1, 0, 0, 0, 0, 0) == 1 && TwoThirds1(1, 0, 0, 0, 0, 0) == 2
    ensures ThreeQuarters0(1, 0, 0, 0, 0, 0) == 1
    ensures ThreeQuarters1(1, 0, 0, 0, 0, 0) == 2 && ThreeQuarters2(1, 0, 0, 0, 0, 0) == 1
  {
  }

  /** The bound where two paths part, and after the difference is back at zero. */
  lemma PotentialEnds(rate: Rate, n: nat)
    ensures PotentialAt(rate, n, 0, 0, 0, 0, 0, 0) == MinimumDistance(rate)
    ensures PotentialAt(rate, n + 1, 1, 0, 0, 0, 0, 0) <=
            Weight(Keep(rate, 2 * n), 1) + Weight(Keep(rate, 2 * n + 1), 1)
  {
    hide Keep, Potential, TwoThirds0, TwoThirds1, ThreeQuarters0, ThreeQuarters1, ThreeQuarters2;
    KeepsOf(n);
    ZeroEnds();
    OneStarts();
  }

  // ---------------------------------------------------------------------
  // The distance of punctured paths
  // ---------------------------------------------------------------------

  function Outputs(rate: Rate, n: nat, register: nat): Word
    requires register < 128
  {
    (if Keep(rate, 2 * n) then [First(register)] else []) + if Keep(rate, 2 * n + 1) then [Second(register)] else []
  }

  /** The kept outputs of the last step, after those of the steps before. */
  lemma LastOutputs(inputs: Word, rate: Rate)
    requires inputs != []
    ensures var n := |inputs| - 1;
            var before := Puncture(Serial(inputs[..n]), rate);
            && |before| == Kept(rate, 2 * n)
            && Puncture(Serial(inputs), rate) == before + Outputs(rate, n, RegisterAt(inputs, n))
  {
    hide First, Second, Keep, RegisterAt, Puncture;
    var n := |inputs| - 1;
    var s := Serial(inputs);
    PunctureNext(s, rate, 2 * n);
    PunctureNext(s, rate, 2 * n + 1);
    assert s[..2 * n] == Serial(inputs[..n]) && s[..2 * n + 2] == s;
    PunctureLength(s[..2 * n], rate);
  }

  function PathPotential(rate: Rate, u: Word, v: Word): nat
    requires |u| == |v|
  {
    PotentialAt(rate, |u|, Differ(u, v, 0), Differ(u, v, 1), Differ(u, v, 2), Differ(u, v, 3), Differ(u, v, 4), Differ(u, v, 5))
  }

  /** The kept outputs of two registers differ in as many places as the kept outputs of their difference are ones. */
  lemma OutputsApart(rate: Rate, n: nat, p: Word, q: Word, r: nat, s: nat)
    requires |p| == |q| && r < 128 && s < 128
    ensures |p + Outputs(rate, n, r)| == |q + Outputs(rate, n, s)|
    ensures Distance(p + Outputs(rate, n, r), q + Outputs(rate, n, s)) == Distance(p, q) +
            Weight(Keep(rate, 2 * n), if First(r) != First(s) then 1 else 0) +
            Weight(Keep(rate, 2 * n + 1), if Second(r) != Second(s) then 1 else 0)
  {
    hide First, Second, Keep, Distance;
    DistanceAppend(p, q, First(r), First(s));
    DistanceAppend(p, q, Second(r), Second(s));
    DistanceAppend(p + [First(r)], q + [First(s)], Second(r), Second(s));
    assert p + ([First(r)] + [Second(r)]) == p + [First(r)] + [Second(r)];
    assert q + ([First(s)] + [Second(s)]) == q + [First(s)] + [Second(s)];
    assert p + ([] + [Second(r)]) == p + [Second(r)] && q + ([] + [Second(s)]) == q + [Second(s)];
    assert p + ([First(r)] + []) == p + [First(r)] && q + ([First(s)] + []) == q + [First(s)];
    assert p + ([] + []) == p && q + ([] + []) == q;
  }

  lemma StepApart(u: Word, v: Word, rate: Rate)
    requires |u| == |v| > 0
    ensures var n := |u| - 1;
            var u0, v0, x := u[..n], v[..n], Xor(u[n], v[n]);
            && |Puncture(Serial(u), rate)| == |Puncture(Serial(v), rate)|
            && |Puncture(Serial(u0), rate)| == |Puncture(Serial(v0), rate)|
            && Distance(Puncture(Serial(u), rate), Puncture(Serial(v), rate)) ==
               Distance(Puncture(Serial(u0), rate), Puncture(Serial(v0), rate)) +
               Weight(Keep(rate, 2 * n), FirstOf(x, Differ(u0, v0, 2), Differ(u0, v0, 3), Differ(u0, v0, 4), Differ(u0, v0, 5))) +
               Weight(Keep(rate, 2 * n + 1), SecondOf(x, Differ(u0, v0, 0), Differ(u0, v0, 2), Differ(u0, v0, 3), Differ(u0, v0, 5)))
  {
    hide First, Second, Keep, Puncture, Serial, Distance, StateAfter, Differ, Xor, Outputs, Kept, FirstOf, SecondOf;
    var n := |u| - 1;
    var u0, v0 := u[..n], v[..n];
    LastOutputs(u, rate);
    LastOutputs(v, rate);
    OutputsAreSums(Xor(u[n], v[n]), Differ(u0, v0, 0), Differ(u0, v0, 2), Differ(u0, v0, 3), Differ(u0, v0, 4), Differ(u0, v0, 5));
    OutputsDiffer(u[..n], v[..n], u[n], v[n]);
    OutputsApart(rate, n, Puncture(Serial(u[..n]), rate), Puncture(Serial(v[..n]), rate), RegisterAt(u, n), RegisterAt(v, n));
  }

  lemma DifferSteps(u: Word, v: Word)
    requires |u| == |v| > 0
    ensures var n := |u| - 1;
            && Differ(u, v, 0) == Xor(u[n], v[n])
            && forall k: nat | k < 5 :: Differ(u, v, k + 1) == Differ(u[..n], v[..n], k)
  {
    var n := |u| - 1;
    assert u == u[..n] + [u[n]] && v == v[..n] + [v[n]];
    forall k: nat | k < 5 ensures Differ(u, v, k + 1) == Differ(u[..n], v[..n], k) {
      DifferShift(u[..n], v[..n], u[n], v[n], k);
    }
    DifferShift(u[..n], v[..n], u[n], v[n], 0);
  }

  /** Different paths are at least the potential of their difference apart, in the outputs the pattern keeps. */
  lemma {:induction false} PuncturedPathsApart(u: Word, v: Word, rate: Rate)
    requires |u| == |v| && u != v
    ensures |Puncture(Serial(u), rate)| == |Puncture(Serial(v), rate)|
    ensures Distance(Puncture(Serial(u), rate), Puncture(Serial(v), rate)) >= PathPotential(rate, u, v)
  {
    hide Distance, Serial, Puncture, PotentialAt, Differ, Xor, Keep, MinimumDistance;
    var n := |u| - 1;
    var u0, v0 := u[..n], v[..n];
    StepApart(u, v, rate);
    DifferSteps(u, v);
    PotentialRises(rate, n, Xor(u[n], v[n]), Differ(u0, v0, 0), Differ(u0, v0, 1), Differ(u0, v0, 2),
                   Differ(u0, v0, 3), Differ(u0, v0, 4), Differ(u0, v0, 5));
    if u0 == v0 {
      assert u == u0 + [u[n]] && v == v0 + [v[n]];
      SamePath(u0);
      XorOne(u[n], v[n]);
      DistanceZero(Puncture(Serial(u0), rate));
      OutputsAreSums(1, 0, 0, 0, 0, 0);
      PotentialEnds(rate, n);
    } else {
      PuncturedPathsApart(u0, v0, rate);
    }
  }

  lemma TailsAgree(x: Word, y: Word)
    requires |x| == |y|
    ensures forall k: nat | k < 6 :: Differ(x + TAIL, y + TAIL, k) == 0
  {
    assert forall k: nat | k < 6 :: Past(x + TAIL, k) == 0 && Past(y + TAIL, k) == 0;
  }

  /** Codewords of different data words differ in ten places at rate 1/2, and in five at the punctured rates. */
  lemma FreeDistance(x: Word, y: Word, rate: Rate)
    requires |x| == |y| && x != y
    ensures |Encode(x, rate)| == |Encode(y, rate)|
    ensures Distance(Encode(x, rate), Encode(y, rate)) >= MinimumDistance(rate)
  {
    hide Distance, Serial, Puncture, PotentialAt, Differ;
    var u, v := x + TAIL, y + TAIL;
    assert u[..|x|] == x && v[..|y|] == y;
    PuncturedPathsApart(u, v, rate);
    TailsAgree(x, y);
    PotentialEnds(rate, |u|);
  }
}
