/** Remainders and greatest common divisors. */
module Arithmetic {
  /** Quotient and remainder are the only ones with the remainder in range. */
  lemma DivModUnique(x: int, d: int, q: int, r: int)
    requires 0 < d && x == d * q + r && 0 <= r < d
    ensures q == x / d && r == x % d
  {
    var p, s := x / d, x % d;
    assert x == d * p + s;
    assert d * (q - p) == s - r;
    if q > p {
      assert d * (q - p) >= d by { Scale(d, q - p); }
      assert false;
    }
    if q < p {
      assert d * (p - q) >= d by { Scale(d, p - q); }
      assert false;
    }
  }

  lemma Scale(d: int, k: int)
    requires 0 < d && 1 <= k
    ensures d * k >= d
  {
  }

  lemma ModAddMultiple(r: int, d: int, k: int)
    requires 0 < d
    ensures (r + d * k) % d == r % d
  {
    DivModUnique(r + d * k, d, r / d + k, r % d);
  }

  function Gcd(a: nat, b: nat): nat
    decreases b
  {
    if b == 0 then a else Gcd(b, a % b)
  }

  /** Bezout's coefficients, computed along the Euclidean steps. */
  function Bezout(a: nat, b: nat): (r: (int, int))
    decreases b
  {
    if b == 0 then (1, 0) else var (x, y) := Bezout(b, a % b); (y, x - a / b * y)
  }

  lemma BezoutStep(a: int, b: int, q: int, r: int, x: int, y: int)
    requires a == b * q + r
    ensures a * y + b * (x - q * y) == b * x + r * y
  {
    var p := q * y;
    assert a * y == (b * q) * y + r * y;
    assert (b * q) * y == b * p;
    assert b * (x - p) == b * x - b * p;
  }

  lemma {:induction false} BezoutIdentity(a: nat, b: nat)
    ensures a * Bezout(a, b).0 + b * Bezout(a, b).1 == Gcd(a, b)
    decreases b
  {
    if b != 0 {
      var (x, y) := Bezout(b, a % b);
      BezoutIdentity(b, a % b);
      BezoutStep(a, b, a / b, a % b, x, y);
    }
  }

  lemma Combine(k: int, s: int, x: int, n: int, y: int, q: int)
    requires s * x + n * y == 1 && k * s == n * q
    ensures k == n * (q * x + k * y)
  {
    var a, b := q * x, k * y;
    assert k * (s * x) == (k * s) * x == (n * q) * x == n * a;
    assert k * (n * y) == n * b;
    assert k == k * (s * x + n * y) == k * (s * x) + k * (n * y);
    assert n * (a + b) == n * a + n * b;
  }

  /** Euclid's lemma: a factor coprime to the stride divides the other factor. */
  lemma CoprimeDivides(stride: nat, count: nat, k: int)
    requires 0 < count && Gcd(stride, count) == 1 && (k * stride) % count == 0
    ensures k % count == 0
  {
    hide Gcd, Bezout;
    BezoutIdentity(stride, count);
    var (x, y) := Bezout(stride, count);
    var q := (k * stride) / count;
    Combine(k, stride, x, count, y, q);
    DivModUnique(k, count, q * x + k * y, 0);
  }
}
