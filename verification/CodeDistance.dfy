/** Distances of words, and the outputs of a step as sums over the last inputs. */
module CodeDistance {
  import opened ConvolutionalCode

  /** The number of positions where two words of equal length differ. */
  function Distance(a: Word, b: Word): nat
    requires |a| == |b|
  {
    if a == [] then 0
    else Distance(a[..|a| - 1], b[..|a| - 1]) + if a[|a| - 1] != b[|a| - 1] then 1 else 0
  }

  lemma DistanceAppend(a: Word, b: Word, x: bit, y: bit)
    requires |a| == |b|
    ensures Distance(a + [x], b + [y]) == Distance(a, b) + if x != y then 1 else 0
  {
    assert (a + [x])[..|a|] == a && (b + [y])[..|a|] == b;
  }

  lemma {:induction false} DistanceZero(a: Word)
    ensures Distance(a, a) == 0
  {
    if a != [] {
      DistanceZero(a[..|a| - 1]);
    }
  }

  // ---------------------------------------------------------------------
  // The outputs as sums over the last seven inputs
  // ---------------------------------------------------------------------

  lemma RegisterBits(r: nat, a: bit, b: bit, c: bit, d: bit, e: bit, f: bit, g: bit)
    requires r == a + 2 * (b + 2 * c + 4 * d + 8 * e + 16 * f + 32 * g)
    ensures r < 128 && r % 2 == a && r / 2 % 2 == b && r / 8 % 2 == d
    ensures r / 16 % 2 == e && r / 32 % 2 == f && r / 64 % 2 == g
  {
    assert r / 2 == b + 2 * c + 4 * d + 8 * e + 16 * f + 32 * g;
    assert r / 8 == d + 2 * e + 4 * f + 8 * g;
    assert r / 16 == e + 2 * f + 4 * g && r / 32 == f + 2 * g && r / 64 == g;
  }

  lemma OutputSums(inputs: Word, input: bit)
    ensures var r := Register(StateAfter(inputs), input);
            && First(r) == (input + Past(inputs, 2) + Past(inputs, 3) + Past(inputs, 4) + Past(inputs, 5)) % 2
            && Second(r) == (input + Past(inputs, 0) + Past(inputs, 2) + Past(inputs, 3) + Past(inputs, 5)) % 2
  {
    hide First, Second, StateAfter, Past;
    StateBits(inputs);
    var r := Register(StateAfter(inputs), input);
    RegisterBits(r, input, Past(inputs, 0), Past(inputs, 1), Past(inputs, 2), Past(inputs, 3), Past(inputs, 4), Past(inputs, 5));
    FirstTaps(r);
    SecondTaps(r);
  }

  // ---------------------------------------------------------------------
  // A lower bound on the distance of two paths, by the difference of their states
  // ---------------------------------------------------------------------

  function Pick(p: bit, q: bit, r: bit, v0: nat, v1: nat, v2: nat, v3: nat, v4: nat, v5: nat, v6: nat, v7: nat): nat {
    if p == 0 then
      if q == 0 then if r == 0 then v0 else v1
      else if r == 0 then v2 else v3
    else
      if q == 0 then if r == 0 then v4 else v5
      else if r == 0 then v6 else v7
  }

  /**
   The least weight of the outputs of paths that left state zero and are now in
   the state with these bits, newest first; ten after the return to zero.
   */
  function Potential(a: bit, b: bit, c: bit, d: bit, e: bit, f: bit): nat {
    Pick(f, e, d,
         Pick(c, b, a, 10, 2, 3, 3, 3, 5, 4, 4),
         Pick(c, b, a, 5, 3, 6, 6, 6, 4, 5, 5),
         Pick(c, b, a, 7, 5, 4, 4, 6, 6, 7, 7),
         Pick(c, b, a, 6, 6, 5, 5, 5, 7, 6, 6),
         Pick(c, b, a, 8, 8, 7, 5, 5, 5, 6, 4),
         Pick(c, b, a, 7, 7, 6, 6, 6, 6, 7, 7),
         Pick(c, b, a, 7, 7, 6, 6, 6, 6, 5, 7),
         Pick(c, b, a, 6, 6, 7, 7, 7, 7, 6, 6))
  }

  lemma PotentialStep(x: bit, a: bit, b: bit, c: bit, d: bit, e: bit, f: bit)
    ensures Potential(x, a, b, c, d, e) <=
            Potential(a, b, c, d, e, f) + (x + c + d + e + f) % 2 + (x + a + c + d + f) % 2
  {
  }

  function Xor(x: bit, y: bit): bit {
    if x == y then 0 else 1
  }

  /** The difference of two paths k steps before the newest input. */
  function Differ(u: Word, v: Word, k: nat): bit {
    Xor(Past(u, k), Past(v, k))
  }

  function And(x: bit, y: bit): bit {
    if x == 1 && y == 1 then 1 else 0
  }

  lemma XorCarry(x: bit, y: bit)
    ensures x + y == Xor(x, y) + 2 * And(x, y)
  {
  }

  lemma ParityDiffers(s: nat, t: nat, sum: nat, carry: nat)
    requires s + t == sum + 2 * carry
    ensures (if s % 2 != t % 2 then 1 else 0) == sum % 2
  {
  }

  lemma XorSum(a: bit, b: bit, c: bit, d: bit, e: bit, a': bit, b': bit, c': bit, d': bit, e': bit)
    ensures (if (a + b + c + d + e) % 2 != (a' + b' + c' + d' + e') % 2 then 1 else 0) ==
            (Xor(a, a') + Xor(b, b') + Xor(c, c') + Xor(d, d') + Xor(e, e')) % 2
  {
    hide Xor, And;
    XorCarry(a, a');
    XorCarry(b, b');
    XorCarry(c, c');
    XorCarry(d, d');
    XorCarry(e, e');
    ParityDiffers(a + b + c + d + e, a' + b' + c' + d' + e',
                  Xor(a, a') + Xor(b, b') + Xor(c, c') + Xor(d, d') + Xor(e, e'),
                  And(a, a') + And(b, b') + And(c, c') + And(d, d') + And(e, e'));
  }

  /** The outputs of two registers differ by the sum over the difference of the paths. */
  lemma OutputsDiffer(u: Word, v: Word, x: bit, y: bit)
    ensures var r, q := Register(StateAfter(u), x), Register(StateAfter(v), y);
            && (if First(r) != First(q) then 1 else 0) ==
               (Xor(x, y) + Differ(u, v, 2) + Differ(u, v, 3) + Differ(u, v, 4) + Differ(u, v, 5)) % 2
            && (if Second(r) != Second(q) then 1 else 0) ==
               (Xor(x, y) + Differ(u, v, 0) + Differ(u, v, 2) + Differ(u, v, 3) + Differ(u, v, 5)) % 2
  {
    hide First, Second, Past, StateAfter, Xor;
    OutputSums(u, x);
    OutputSums(v, y);
    XorSum(x, Past(u, 2), Past(u, 3), Past(u, 4), Past(u, 5), y, Past(v, 2), Past(v, 3), Past(v, 4), Past(v, 5));
    XorSum(x, Past(u, 0), Past(u, 2), Past(u, 3), Past(u, 5), y, Past(v, 0), Past(v, 2), Past(v, 3), Past(v, 5));
  }

  lemma DifferShift(u: Word, v: Word, x: bit, y: bit, k: nat)
    requires |u| == |v|
    ensures Differ(u + [x], v + [y], 0) == Xor(x, y)
    ensures Differ(u + [x], v + [y], k + 1) == Differ(u, v, k)
  {
  }

  lemma SamePath(u: Word)
    ensures forall k: nat :: Differ(u, u, k) == 0
  {
  }

  lemma XorOne(x: bit, y: bit)
    requires x != y
    ensures Xor(x, y) == 1
  {
  }
}
